/**
 What no step takes back: identifiers and tokens are not used twice, and a dead letter whose
 incident is not resolved stays.
 */
module RepoGrowth {
  import opened RepoTables
  import opened RepoMail
  import opened RepoMailProofs
  import opened RepoWatches
  import opened RepoWatchProofs
  import opened RepoState
  import opened RepoRuns
  import opened RepoSteps
  import opened RepoInvariant

  ghost predicate Grows(before: Db, after: Db, resolved: Option<JobId>) {
    && before.nextToken <= after.nextToken && before.nextSerial <= after.nextSerial
    && (forall id | id in after.mail && id !in before.mail :: id.serial >= before.nextSerial)
    && (forall id | id in after.mail && id in before.mail && after.mail[id].status.Processing? ::
          (before.mail[id].status.Processing? && after.mail[id].claimToken == before.mail[id].claimToken)
          || (after.mail[id].claimToken == Some(before.nextToken) && before.nextToken < after.nextToken))
    && (forall id | id in after.mail && id !in before.mail :: !after.mail[id].status.Processing?)
    && (forall id | id in before.mail && Protected(before.incidents, id) && resolved != Some(id) ::
          id in after.mail && Protected(after.incidents, id))
  }

  lemma SameGrows(db: Db, after: Db)
    requires after.mail == db.mail && after.incidents == db.incidents && after.nextToken == db.nextToken && after.nextSerial == db.nextSerial
    ensures Grows(db, after, None)
  {
  }

  lemma GrowsComposes(a: Db, b: Db, c: Db)
    requires Grows(a, b, None) && Grows(b, c, None) && b.mail.Keys <= a.mail.Keys && a.nextToken == b.nextToken
    ensures Grows(a, c, None)
  {
  }

  lemma CancelGrows(db: Db, after: Db, ids: set<JobId>, reason: TerminalReason, now: int)
    requires after.mail == CancelAll(db.mail, ids, reason, now)
    requires after.incidents == db.incidents && after.nextToken == db.nextToken && after.nextSerial == db.nextSerial
    ensures Grows(db, after, None)
  {
  }

  lemma DeadLetterGrows(db: Db, after: Db, ids: set<JobId>, reason: TerminalReason, now: int)
    requires after.mail == DeadLetterAll(db.mail, ids, reason, now)
    requires after.incidents == OpenIncidents(db.incidents, ids, now)
    requires after.nextToken == db.nextToken && after.nextSerial == db.nextSerial
    ensures Grows(db, after, None)
  {
  }

  lemma InsertGrows(db: Db, after: Db, added: Mail)
    requires NewRows(added, db.nextSerial) && after.mail == db.mail + added
    requires forall id | id in db.mail :: id.serial < db.nextSerial
    requires after.incidents == db.incidents && after.nextToken == db.nextToken && after.nextSerial >= db.nextSerial
    ensures Grows(db, after, None)
  {
  }

  lemma DeleteSubscribersGrows(db: Db, gone: set<nat>)
    requires DeadIffIncident(db.mail, db.incidents)
    ensures Grows(db, DeleteSubscribers(db, gone), None)
  {
    forall id | id in db.mail && Protected(db.incidents, id) ensures id in DeleteSubscribers(db, gone).mail {
      ProtectedSurvives(db, gone, 0, id);
    }
  }

  lemma DeleteMailGrows(db: Db, cutoff: int)
    requires DeadIffIncident(db.mail, db.incidents)
    ensures Grows(db, DeleteMail(db, OverdueMail(db.mail, db.incidents, cutoff)), None)
  {
  }

  lemma HousekeepGrows(db: Db, lease: nat, now: int)
    ensures Grows(db, Housekeep(db, lease, now), None)
    ensures Housekeep(db, lease, now).mail.Keys == db.mail.Keys && Housekeep(db, lease, now).nextToken == db.nextToken
  {
    var a := db.(mail := CancelAll(db.mail, ExpiredAlerts(db.mail, now), Expired, now));
    CancelGrows(db, a, ExpiredAlerts(db.mail, now), Expired, now);
    var past := PastHorizon(a.mail, lease, now);
    var b := a.(mail := DeadLetterAll(a.mail, past, RetryHorizon, now), incidents := OpenIncidents(a.incidents, past, now));
    DeadLetterGrows(a, b, past, RetryHorizon, now);
    GrowsComposes(db, a, b);
    var c := Housekeep(db, lease, now);
    CancelGrows(b, c, Unjustified(b.mail, b.subs, b.watches), Ineligible, now);
    GrowsComposes(db, b, c);
  }

  lemma ClaimGrows(db: Db, chosen: set<JobId>, lease: nat, now: int)
    ensures Grows(db, ClaimBatch(db, chosen, lease, now), None)
  {
    HousekeepGrows(db, lease, now);
    var kept := Housekeep(db, lease, now);
    assert Grows(kept, Claimed(kept, chosen, now), None);
    GrowsComposes(db, kept, Claimed(kept, chosen, now));
  }

  lemma ReplaceGrows(db: Db, id: JobId, row: Job)
    requires id in db.mail && !row.status.Processing?
    ensures Grows(db, db.(mail := db.mail[id := row]), None)
  {
  }

  lemma DeadLetterOneGrows(db: Db, id: JobId, reason: TerminalReason, now: int)
    requires id in db.mail
    ensures Grows(db, db.(mail := db.mail[id := DeadLetterRow(db.mail[id], reason, now)], incidents := OpenIncidents(db.incidents, {id}, now)), None)
  {
  }

  lemma DeferGrows(db: Db, id: JobId, token: nat, availableAt: int, reading: int, now: int)
    ensures Grows(db, DeferJob(db, id, token, availableAt, reading, now), None)
  {
    match DeferOutcome(db.mail, id, token, availableAt, reading)
    case ClaimFenceLost => SameGrows(db, db);
    case Deferred => ReplaceGrows(db, id, RequeueRow(db.mail[id], availableAt));
    case CancelledExpired => ReplaceGrows(db, id, CancelRow(db.mail[id], Expired, now));
    case DeadLetteredRetryHorizon => DeadLetterOneGrows(db, id, RetryHorizon, now);
  }

  lemma FencedGrows(w: World, step: Step, config: Config)
    requires config.maxBackoffSeconds >= 1 && Enabled(w, step) && Fenced(step.op)
    ensures Grows(w.db, NextDb(w, step, config), None)
  {
    var db, id, now := w.db, step.op.id, step.now;
    if step.op.DeferOp? {
      DeferGrows(db, id, step.op.token, NextAttempt(db, step.op, config), step.op.reading, now);
    } else if !Owns(db.mail, id, step.op.token) {
      SameGrows(db, NextDb(w, step, config));
    } else if step.op.CompleteOp? {
      ReplaceGrows(db, id, SentRow(db.mail[id], step.op.acceptedAt, now));
    } else if step.op.CancelClaimedOp? {
      ReplaceGrows(db, id, CancelRow(db.mail[id], SuppressedAddress, now));
    } else {
      DeadLetterOneGrows(db, id, PermanentFailure, now);
    }
  }

  lemma SweepGrows(db: Db, at: int, now: int)
    requires MailOk(db)
    ensures Grows(db, Sweep(db, at, now), None)
  {
    var a := db.(mail := CancelAll(db.mail, ExpiredAlerts(db.mail, now), Expired, now));
    CancelKeepsMail(db, ExpiredAlerts(db.mail, now), Expired, now);
    CancelGrows(db, a, ExpiredAlerts(db.mail, now), Expired, now);
    var gone := StalePending(db.subs, at - PENDING_RETENTION_MS);
    var b := DeleteSubscribers(a, gone);
    DeleteSubscribersKeepsMail(a, gone);
    DeleteSubscribersGrows(a, gone);
    GrowsComposes(db, a, b);
    var c := DeleteMail(b, OverdueMail(b.mail, b.incidents, at - TERMINAL_RETENTION_MS));
    DeleteMailGrows(b, at - TERMINAL_RETENTION_MS);
    GrowsComposes(db, b, c);
    var d := Sweep(db, at, now);
    assert d.mail == c.mail && d.incidents == c.incidents && d.nextToken == c.nextToken && d.nextSerial == c.nextSerial;
    SameGrows(c, d);
    GrowsComposes(db, c, d);
  }

  lemma WriteRowGrows(db: Db, key: string, seen: Seen, version: nat, alerted: Option<Reason>, now: int)
    ensures Grows(db, WriteRow(db, key, seen, version, alerted, now), None)
  {
    var after := WriteRow(db, key, seen, version, alerted, now);
    CancelGrows(db, after, ClosedAlerts(db.mail, key, after.classes[key]), OpeningClosed, now);
  }

  lemma ObserveGrows(db: Db, key: string, action: Action, cutoff: nat, now: int)
    ensures Grows(db, ObserveDb(db, key, action, cutoff, now), None)
  {
    match action
    case Persist(seen) => WriteRowGrows(db, key, seen, NextVersion(db, key), None, now);
    case Retire =>
      CancelGrows(db, RetireClass(db, key, Some(cutoff), now), ActiveAbout(db.mail, {Alert, BlindWindow}, None, key), Ineligible, now);
    case _ => SameGrows(db, db);
  }

  lemma SwapGrows(db: Db, key: string, version: nat, targets: set<nat>, seen: Seen, reason: Reason, openedAt: int, now: int)
    requires SerialsUsed(db.mail, db.nextSerial)
    ensures Grows(db, Swap(db, key, version, targets, seen, reason, openedAt, now), None)
  {
    if AtVersion(db, key, version) {
      var written := WriteRow(db, key, seen, version + 1, Some(reason), now);
      WriteRowGrows(db, key, seen, version + 1, Some(reason), now);
      var recipients := Recipients(written.mail, targets, key, openedAt);
      AlertsAreNew(recipients, key, openedAt, reason, db.nextSerial, now);
      var after := Swap(db, key, version, targets, seen, reason, openedAt, now);
      InsertGrows(written, after, Alerts(recipients, key, openedAt, reason, db.nextSerial, now));
      GrowsComposes(db, written, after);
    } else {
      SameGrows(db, db);
    }
  }

  lemma CreateGrows(db: Db, email: string, keys: set<string>, maxSubscribers: Option<nat>, suppressed: bool, now: int)
    requires SerialsUsed(db.mail, db.nextSerial)
    ensures Grows(db, Create(db, email, keys, maxSubscribers, suppressed, now), None)
  {
    var after := Create(db, email, keys, maxSubscribers, suppressed, now);
    if CreateOutcome(db, email, keys, maxSubscribers).Created? {
      CreateIs(db, email, keys, maxSubscribers, suppressed, now);
      MailForIsNew(Confirmation, db.nextSubscriber, db.nextSerial, now);
      InsertGrows(db, after, if suppressed then map[] else MailFor(Confirmation, db.nextSubscriber, db.nextSerial, now));
    } else {
      SameGrows(db, after);
    }
  }

  lemma DiscloseGrows(db: Db, windowMs: int, at: int, now: int)
    requires SerialsUsed(db.mail, db.nextSerial)
    ensures Grows(db, Disclose(db, windowMs, at, now), None)
  {
    DisclosuresAreNew(db, windowMs, at, now);
    InsertGrows(db, Disclose(db, windowMs, at, now), Disclosures(db, windowMs, at, now));
  }

  lemma EnqueueGrows(db: Db, added: Mail)
    requires SerialsUsed(db.mail, db.nextSerial) && NewRows(added, db.nextSerial)
    ensures Grows(db, Enqueue(db, added), None)
  {
    InsertGrows(db, Enqueue(db, added), added);
  }

  lemma MailingGrows(w: World, step: Step, config: Config)
    requires config.maxBackoffSeconds >= 1 && SerialsUsed(w.db.mail, w.db.nextSerial) && Enabled(w, step) && Mails(step.op)
    ensures Grows(w.db, NextDb(w, step, config), None)
  {
    var db, now, after := w.db, step.now, NextDb(w, step, config);
    match step.op
    case DiscloseOp(windowMs, at) => DiscloseGrows(db, windowMs, at, now);
    case SubscriberMailOp(s, kind) =>
      MailForIsNew(kind, s, db.nextSerial, now);
      EnqueueGrows(db, MailFor(kind, s, db.nextSerial, now));
    case OperatorMailOp(about) =>
      OperatorRowIsNew(db.nextSerial, about, now);
      EnqueueGrows(db, OperatorRow(db.nextSerial, about, now));
    case ExpireOp => CancelGrows(db, after, ExpiredAlerts(db.mail, now), Expired, now);
    case HorizonOp(lease) => DeadLetterGrows(db, after, PastHorizon(db.mail, lease, now), RetryHorizon, now);
    case CancelOpenOp(key, only) => CancelGrows(db, after, OpenAlerts(db.mail, key, only), OpeningClosed, now);
  }

  lemma SettlingGrows(w: World, step: Step, config: Config)
    requires config.maxBackoffSeconds >= 1 && Enabled(w, step) && Settles(step.op)
    ensures Grows(w.db, NextDb(w, step, config), if step.op.ResolveOp? then Some(step.op.id) else None)
  {
    if Fenced(step.op) {
      FencedGrows(w, step, config);
    } else if step.op.ClaimOp? {
      ClaimGrows(w.db, step.op.chosen, step.op.lease, step.now);
    }
  }

  lemma NextGrows(w: World, step: Step, config: Config)
    requires config.maxBackoffSeconds >= 1 && MailOk(w.db) && Enabled(w, step)
    ensures Grows(w.db, NextDb(w, step, config), if step.op.ResolveOp? then Some(step.op.id) else None)
  {
    var db, now, after := w.db, step.now, NextDb(w, step, config);
    if Settles(step.op) {
      SettlingGrows(w, step, config);
    } else if Mails(step.op) {
      MailingGrows(w, step, config);
    } else {
      match step.op
      case Observe(o, _, _, _, cutoff) => ObserveGrows(db, w.observers[o].key, ActionOf(w, step.op), cutoff, now);
      case Commit(o) =>
        var x := w.observers[o];
        SwapGrows(db, x.key, x.base.version, x.targets, x.seen, x.reason, x.openedAt, now);
      case CreateOp(email, keys, maxSubscribers, suppressed) => CreateGrows(db, email, keys, maxSubscribers, suppressed, now);
      case RemoveOp(s, key) => CancelGrows(db, after, ActiveAbout(db.mail, {Alert}, Some(s), key), Ineligible, now);
      case DeleteOp(s) => DeleteSubscribersGrows(db, {s});
      case SweepOp(at) => SweepGrows(db, at, now);
      case _ => SameGrows(db, after);
    }
  }
}
