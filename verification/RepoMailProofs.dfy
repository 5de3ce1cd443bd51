/**
 What every transaction keeps of the mail outbox: the row constraints, one incident per dead
 letter, and the finality of terminal rows.
 */
module RepoMailProofs {
  import opened RepoTables
  import opened RepoMail

  predicate RowOk(j: Job, nextToken: nat) {
    && ClaimConsistent(j) && ShapeValid(j)
    && (j.claimToken.Some? ==> j.claimToken.value < nextToken)
  }

  ghost predicate RowsOk(mail: Mail, nextToken: nat) {
    forall id | id in mail :: RowOk(mail[id], nextToken)
  }

  /** A row is dead-lettered exactly when it has an incident, and every incident has its row. */
  ghost predicate DeadIffIncident(mail: Mail, incidents: Incidents) {
    && (forall id | id in mail :: mail[id].status.DeadLetter? <==> id in incidents)
    && incidents.Keys <= mail.Keys
  }

  ghost predicate SerialsUsed(mail: Mail, nextSerial: nat) { forall id | id in mail :: id.serial < nextSerial }

  ghost predicate MailOk(db: Db) {
    && RowsOk(db.mail, db.nextToken)
    && DeadIffIncident(db.mail, db.incidents)
    && SerialsUsed(db.mail, db.nextSerial)
  }

  /** The rows of one table become those of another by permitted row steps, deletions apart. */
  ghost predicate RowsStep(before: Mail, after: Mail) {
    forall id | id in before && id in after :: RowStep(before[id], after[id])
  }

  // ----- single rows -----

  lemma CancelRowKeeps(j: Job, reason: TerminalReason, nextToken: nat, now: int)
    requires RowOk(j, nextToken) && Active(j)
    ensures RowOk(CancelRow(j, reason, now), nextToken) && RowStep(j, CancelRow(j, reason, now))
  {
  }

  lemma DeadLetterRowKeeps(j: Job, reason: TerminalReason, nextToken: nat, now: int)
    requires RowOk(j, nextToken) && Active(j)
    ensures RowOk(DeadLetterRow(j, reason, now), nextToken) && RowStep(j, DeadLetterRow(j, reason, now))
  {
  }

  lemma SentRowKeeps(j: Job, at: int, nextToken: nat, now: int)
    requires RowOk(j, nextToken) && j.status.Processing?
    ensures RowOk(SentRow(j, at, now), nextToken) && RowStep(j, SentRow(j, at, now))
  {
  }

  lemma RequeueRowKeeps(j: Job, availableAt: int, nextToken: nat)
    requires RowOk(j, nextToken) && j.status.Processing?
    ensures RowOk(RequeueRow(j, availableAt), nextToken) && RowStep(j, RequeueRow(j, availableAt))
  {
  }

  lemma ClaimRowKeeps(j: Job, token: nat, now: int)
    requires RowOk(j, token) && Active(j)
    ensures RowOk(ClaimRow(j, token, now), token + 1) && RowStep(j, ClaimRow(j, token, now))
  {
  }

  // ----- statements -----

  lemma CancelKeepsMail(db: Db, ids: set<JobId>, reason: TerminalReason, now: int)
    requires MailOk(db)
    requires forall id | id in ids && id in db.mail :: Active(db.mail[id])
    ensures var after := db.(mail := CancelAll(db.mail, ids, reason, now)); MailOk(after) && RowsStep(db.mail, after.mail)
  {
    forall id | id in ids && id in db.mail
      ensures RowOk(CancelRow(db.mail[id], reason, now), db.nextToken) && RowStep(db.mail[id], CancelRow(db.mail[id], reason, now))
    {
      CancelRowKeeps(db.mail[id], reason, db.nextToken, now);
    }
  }

  lemma DeadLetterKeepsMail(db: Db, ids: set<JobId>, reason: TerminalReason, now: int)
    requires MailOk(db)
    requires forall id | id in ids :: id in db.mail && Active(db.mail[id])
    ensures var after := db.(mail := DeadLetterAll(db.mail, ids, reason, now), incidents := OpenIncidents(db.incidents, ids, now));
            MailOk(after) && RowsStep(db.mail, after.mail)
  {
    forall id | id in ids
      ensures RowOk(DeadLetterRow(db.mail[id], reason, now), db.nextToken) && RowStep(db.mail[id], DeadLetterRow(db.mail[id], reason, now))
    {
      DeadLetterRowKeeps(db.mail[id], reason, db.nextToken, now);
    }
  }

  lemma ReplaceKeepsMail(db: Db, id: JobId, row: Job)
    requires MailOk(db) && id in db.mail
    requires RowOk(row, db.nextToken) && RowStep(db.mail[id], row)
    requires !row.status.DeadLetter? && Active(db.mail[id])
    ensures var after := db.(mail := db.mail[id := row]); MailOk(after) && RowsStep(db.mail, after.mail)
  {
  }

  lemma HousekeepKeepsMail(db: Db, lease: nat, now: int)
    requires MailOk(db)
    ensures MailOk(Housekeep(db, lease, now)) && RowsStep(db.mail, Housekeep(db, lease, now).mail)
  {
    var a := db.(mail := CancelAll(db.mail, ExpiredAlerts(db.mail, now), Expired, now));
    CancelKeepsMail(db, ExpiredAlerts(db.mail, now), Expired, now);
    var past := PastHorizon(a.mail, lease, now);
    var b := a.(mail := DeadLetterAll(a.mail, past, RetryHorizon, now), incidents := OpenIncidents(a.incidents, past, now));
    DeadLetterKeepsMail(a, past, RetryHorizon, now);
    var c := Housekeep(db, lease, now);
    CancelKeepsMail(b, Unjustified(b.mail, b.subs, b.watches), Ineligible, now);
    assert c == b.(mail := CancelAll(b.mail, Unjustified(b.mail, b.subs, b.watches), Ineligible, now));
    StepsCompose(db.mail, a.mail, b.mail);
    StepsCompose(db.mail, b.mail, c.mail);
  }

  lemma StepsCompose(a: Mail, b: Mail, c: Mail)
    requires RowsStep(a, b) && RowsStep(b, c) && a.Keys * c.Keys <= b.Keys
    ensures RowsStep(a, c)
  {
    forall id | id in a && id in c ensures RowStep(a[id], c[id]) {
      assert RowStep(a[id], b[id]) && RowStep(b[id], c[id]);
    }
  }

  /**
   What may be claimed after the housekeeping is due: it is not past its horizon, and an alert or
   a disclosure still has a live watch of a Confirmed subscriber behind it.
   */
  lemma ClaimableIsDue(db: Db, lease: nat, now: int, id: JobId)
    requires forall i | i in db.mail :: ShapeValid(db.mail[i]) && ClaimConsistent(db.mail[i])
    requires id in ClaimableIds(Housekeep(db, lease, now).mail, lease, now)
    ensures var j := Housekeep(db, lease, now).mail[id];
            && j == db.mail[id]
            && now < RetryDeadline(j)
            && (j.kind.Alert? || j.kind.BlindWindow? ==> Justified(db.subs, db.watches, j))
  {
  }

  lemma ClaimKeepsMail(db: Db, chosen: set<JobId>, lease: nat, now: int)
    requires MailOk(db)
    requires chosen <= ClaimableIds(Housekeep(db, lease, now).mail, lease, now)
    ensures MailOk(ClaimBatch(db, chosen, lease, now))
    ensures RowsStep(db.mail, ClaimBatch(db, chosen, lease, now).mail)
  {
    HousekeepKeepsMail(db, lease, now);
    ClaimsKeepMail(Housekeep(db, lease, now), chosen, now);
    StepsCompose(db.mail, Housekeep(db, lease, now).mail, ClaimBatch(db, chosen, lease, now).mail);
  }

  lemma ClaimsKeepMail(kept: Db, chosen: set<JobId>, now: int)
    requires MailOk(kept)
    requires forall id | id in chosen :: id in kept.mail && Active(kept.mail[id])
    ensures MailOk(Claimed(kept, chosen, now)) && RowsStep(kept.mail, Claimed(kept, chosen, now).mail)
  {
    forall id | id in kept.mail
      ensures RowOk(kept.mail[id], kept.nextToken + 1)
      ensures id in chosen ==> RowOk(ClaimRow(kept.mail[id], kept.nextToken, now), kept.nextToken + 1)
      ensures id in chosen ==> RowStep(kept.mail[id], ClaimRow(kept.mail[id], kept.nextToken, now))
    {
      assert RowOk(kept.mail[id], kept.nextToken);
      if id in chosen { ClaimRowKeeps(kept.mail[id], kept.nextToken, now); }
    }
  }

  lemma CompleteKeepsMail(db: Db, id: JobId, token: nat, at: int, now: int)
    requires MailOk(db)
    ensures MailOk(Complete(db, id, token, at, now)) && RowsStep(db.mail, Complete(db, id, token, at, now).mail)
  {
    if Owns(db.mail, id, token) {
      SentRowKeeps(db.mail[id], at, db.nextToken, now);
      ReplaceKeepsMail(db, id, SentRow(db.mail[id], at, now));
    }
  }

  lemma CancelClaimedKeepsMail(db: Db, id: JobId, token: nat, now: int)
    requires MailOk(db)
    ensures MailOk(CancelClaimed(db, id, token, now)) && RowsStep(db.mail, CancelClaimed(db, id, token, now).mail)
  {
    if Owns(db.mail, id, token) {
      CancelRowKeeps(db.mail[id], SuppressedAddress, db.nextToken, now);
      ReplaceKeepsMail(db, id, CancelRow(db.mail[id], SuppressedAddress, now));
    }
  }

  lemma DeadLetterOneKeepsMail(db: Db, id: JobId, reason: TerminalReason, now: int)
    requires MailOk(db) && id in db.mail && Active(db.mail[id])
    ensures var after := db.(mail := db.mail[id := DeadLetterRow(db.mail[id], reason, now)], incidents := OpenIncidents(db.incidents, {id}, now));
            MailOk(after) && RowsStep(db.mail, after.mail)
  {
    DeadLetterKeepsMail(db, {id}, reason, now);
    assert DeadLetterAll(db.mail, {id}, reason, now) == db.mail[id := DeadLetterRow(db.mail[id], reason, now)];
  }

  lemma DeadLetterJobKeepsMail(db: Db, id: JobId, token: nat, now: int)
    requires MailOk(db)
    ensures MailOk(DeadLetterJob(db, id, token, now)) && RowsStep(db.mail, DeadLetterJob(db, id, token, now).mail)
  {
    if Owns(db.mail, id, token) { DeadLetterOneKeepsMail(db, id, PermanentFailure, now); }
  }

  lemma DeferKeepsMail(db: Db, id: JobId, token: nat, availableAt: int, reading: int, now: int)
    requires MailOk(db)
    ensures MailOk(DeferJob(db, id, token, availableAt, reading, now))
    ensures RowsStep(db.mail, DeferJob(db, id, token, availableAt, reading, now).mail)
  {
    if Owns(db.mail, id, token) {
      var j := db.mail[id];
      if DeferOutcome(db.mail, id, token, availableAt, reading).Deferred? {
        RequeueRowKeeps(j, availableAt, db.nextToken);
        ReplaceKeepsMail(db, id, RequeueRow(j, availableAt));
      } else if j.kind.Alert? {
        CancelRowKeeps(j, Expired, db.nextToken, now);
        ReplaceKeepsMail(db, id, CancelRow(j, Expired, now));
      } else {
        DeadLetterOneKeepsMail(db, id, RetryHorizon, now);
      }
    }
  }

  lemma IncidentsKeepMail(db: Db, id: JobId)
    requires MailOk(db)
    ensures MailOk(Acknowledge(db, id)) && MailOk(Resolve(db, id))
  {
  }

  lemma DetachKeepsMail(db: Db, gone: set<nat>)
    requires MailOk(db)
    ensures var after := db.(mail := Detach(db.mail, db.incidents, gone)); MailOk(after) && RowsStep(db.mail, after.mail)
  {
    forall id | id in db.mail && db.mail[id].status.DeadLetter?
      ensures RowOk(db.mail[id].(subscriber := None), db.nextToken)
    {
      assert RowOk(db.mail[id], db.nextToken);
    }
  }

  lemma DeleteSubscribersKeepsMail(db: Db, gone: set<nat>)
    requires MailOk(db)
    ensures MailOk(DeleteSubscribers(db, gone)) && RowsStep(db.mail, DeleteSubscribers(db, gone).mail)
  {
    DetachKeepsMail(db, gone);
  }

  lemma DeleteMailKeepsMail(db: Db, ids: set<JobId>)
    requires MailOk(db)
    ensures MailOk(DeleteMail(db, ids)) && RowsStep(db.mail, DeleteMail(db, ids).mail)
  {
  }

  /** Rows to insert, under one serial. */
  ghost predicate NewRows(added: Mail, serial: nat) {
    forall id | id in added ::
      && id.serial == serial
      && added[id].attempts == 0 && added[id].status.Queued? && added[id].availableAt == added[id].createdAt
      && ClaimConsistent(added[id]) && ShapeValid(added[id])
  }

  /** New rows under a fresh serial, all queued and never claimed. */
  lemma EnqueueKeepsMail(db: Db, added: Mail)
    requires MailOk(db)
    requires NewRows(added, db.nextSerial)
    ensures var after := db.(mail := db.mail + added, nextSerial := db.nextSerial + 1);
            MailOk(after) && RowsStep(db.mail, after.mail)
  {
    assert forall id | id in added :: RowOk(added[id], db.nextToken);
  }

  // ----- what a reader wants of these -----

  /** An unresolved or acknowledged incident keeps its dead letter through both deletions. */
  lemma ProtectedSurvives(db: Db, gone: set<nat>, cutoff: int, id: JobId)
    requires DeadIffIncident(db.mail, db.incidents) && id in db.mail && Protected(db.incidents, id)
    ensures var a := DeleteSubscribers(db, gone);
            && id in a.mail && a.mail[id].status.DeadLetter? && a.incidents[id] == db.incidents[id]
            && (a.mail[id] == db.mail[id] || a.mail[id] == db.mail[id].(subscriber := None))
    ensures var b := DeleteMail(db, OverdueMail(db.mail, db.incidents, cutoff));
            id in b.mail && b.mail[id] == db.mail[id] && id in b.incidents && b.incidents[id] == db.incidents[id]
  {
  }
}
