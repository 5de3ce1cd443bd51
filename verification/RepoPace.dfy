/**
 The pace of retries: with the clocks in agreement, no mail row is claimed more often than its
 horizon has room for.
 */
module RepoPace {
  import opened RepoTables
  import opened RepoMail
  import opened RepoMailProofs
  import opened RepoWatches
  import opened RepoWatchProofs
  import opened RepoState
  import opened RepoRuns
  import opened RepoSteps
  import opened RepoInvariant
  import opened RepoTheorems

  /** How long a row may go on being claimed: an alert until it expires, other mail for 23 hours. */
  function Horizon(j: Job): int { RetryDeadline(j) - j.createdAt }

  /** The row's attempts fit into the time since it was created. */
  predicate Paced(j: Job, clock: int) {
    && (j.status.Queued? ==> j.availableAt >= j.createdAt + j.attempts * RETRY_GAP_MS)
    && (j.status.Processing? && j.claimedAt.Some? ==>
          j.attempts >= 1 && j.createdAt + (j.attempts - 1) * RETRY_GAP_MS <= j.claimedAt.value <= clock)
    && (j.attempts >= 1 ==> (j.attempts - 1) * RETRY_GAP_MS < Horizon(j))
  }

  ghost predicate AllPaced(mail: Mail, clock: int) { forall id | id in mail :: Paced(mail[id], clock) }

  /** The row is neither claimed nor queued anew. */
  predicate Unhurried(before: Job, after: Job) {
    && after.kind == before.kind && after.createdAt == before.createdAt && after.expiresAt == before.expiresAt
    && after.attempts == before.attempts
    && (after.status.Queued? ==> before.status.Queued? && after.availableAt == before.availableAt)
    && (after.status.Processing? ==> before.status.Processing? && after.claimedAt == before.claimedAt)
  }

  predicate IsNew(j: Job) { j.status.Queued? && j.attempts == 0 && j.availableAt == j.createdAt }

  /** Rows go on unhurried, and the others are new. */
  ghost predicate Unpressed(before: Mail, after: Mail) {
    && (forall id | id in before && id in after :: Unhurried(before[id], after[id]))
    && (forall id | id in after && id !in before :: IsNew(after[id]))
  }

  lemma UnpressedPaced(before: Mail, after: Mail, clock: int, now: int)
    requires AllPaced(before, clock) && clock <= now && Unpressed(before, after)
    ensures AllPaced(after, now)
  {
    forall id | id in after ensures Paced(after[id], now) {
      if id in before { assert Paced(before[id], clock) && Unhurried(before[id], after[id]); }
    }
  }

  lemma UnpressedJoins(a: Mail, b: Mail, c: Mail)
    requires Unpressed(a, b) && Unpressed(b, c) && a.Keys * c.Keys <= b.Keys && b.Keys <= a.Keys
    ensures Unpressed(a, c)
  {
  }

  // ----- claims and deferrals -----

  lemma ClaimedPaced(j: Job, token: nat, lease: nat, clock: int, now: int)
    requires ClaimConsistent(j) && Paced(j, clock) && clock <= now && lease >= RETRY_GAP_MS
    requires Claimable(j, lease, now) && now < RetryDeadline(j)
    ensures Paced(ClaimRow(j, token, now), now)
  {
  }

  lemma RequeuedPaced(j: Job, availableAt: int, clock: int, now: int)
    requires ClaimConsistent(j) && Paced(j, clock) && j.status.Processing?
    requires availableAt >= j.claimedAt.value + RETRY_GAP_MS
    ensures Paced(RequeueRow(j, availableAt), now)
  {
  }

  lemma CancelUnpressed(mail: Mail, ids: set<JobId>, reason: TerminalReason, now: int)
    ensures Unpressed(mail, CancelAll(mail, ids, reason, now))
  {
  }

  lemma DeadLetterUnpressed(mail: Mail, ids: set<JobId>, reason: TerminalReason, now: int)
    ensures Unpressed(mail, DeadLetterAll(mail, ids, reason, now))
  {
  }

  lemma OneRowUnpressed(mail: Mail, id: JobId, row: Job)
    requires id in mail && Unhurried(mail[id], row)
    ensures Unpressed(mail, mail[id := row])
  {
  }

  lemma HousekeepUnpressed(db: Db, lease: nat, now: int)
    ensures Unpressed(db.mail, Housekeep(db, lease, now).mail)
  {
    var a := CancelAll(db.mail, ExpiredAlerts(db.mail, now), Expired, now);
    var b := DeadLetterAll(a, PastHorizon(a, lease, now), RetryHorizon, now);
    CancelUnpressed(db.mail, ExpiredAlerts(db.mail, now), Expired, now);
    DeadLetterUnpressed(a, PastHorizon(a, lease, now), RetryHorizon, now);
    CancelUnpressed(b, Unjustified(b, db.subs, db.watches), Ineligible, now);
    UnpressedJoins(db.mail, a, b);
    UnpressedJoins(db.mail, b, Housekeep(db, lease, now).mail);
  }

  lemma ChosenPaced(kept: Db, lease: nat, now: int, id: JobId)
    requires MailOk(kept) && AllPaced(kept.mail, now) && lease >= RETRY_GAP_MS
    requires id in kept.mail && Claimable(kept.mail[id], lease, now) && now < RetryDeadline(kept.mail[id])
    ensures Paced(ClaimRow(kept.mail[id], kept.nextToken, now), now)
  {
    assert RowOk(kept.mail[id], kept.nextToken) && Paced(kept.mail[id], now);
    ClaimedPaced(kept.mail[id], kept.nextToken, lease, now, now);
  }

  lemma ChosenAreDue(db: Db, chosen: set<JobId>, lease: nat, now: int)
    requires MailOk(db) && chosen <= ClaimableIds(Housekeep(db, lease, now).mail, lease, now)
    ensures var kept := Housekeep(db, lease, now).mail;
            forall id | id in chosen :: id in kept && Claimable(kept[id], lease, now) && now < RetryDeadline(kept[id])
  {
    assert forall i | i in db.mail :: RowOk(db.mail[i], db.nextToken);
    forall id | id in chosen ensures now < RetryDeadline(Housekeep(db, lease, now).mail[id]) {
      ClaimableIsDue(db, lease, now, id);
    }
  }

  lemma ClaimsPaced(kept: Db, chosen: set<JobId>, lease: nat, now: int)
    requires MailOk(kept) && AllPaced(kept.mail, now) && lease >= RETRY_GAP_MS
    requires forall id | id in chosen :: id in kept.mail && Claimable(kept.mail[id], lease, now) && now < RetryDeadline(kept.mail[id])
    ensures AllPaced(Claimed(kept, chosen, now).mail, now)
  {
    forall id | id in chosen ensures Paced(ClaimRow(kept.mail[id], kept.nextToken, now), now) {
      ChosenPaced(kept, lease, now, id);
    }
  }

  lemma ClaimPaced(db: Db, chosen: set<JobId>, lease: nat, clock: int, now: int)
    requires MailOk(db) && AllPaced(db.mail, clock) && clock <= now && lease >= RETRY_GAP_MS
    requires chosen <= ClaimableIds(Housekeep(db, lease, now).mail, lease, now)
    ensures AllPaced(ClaimBatch(db, chosen, lease, now).mail, now)
  {
    HousekeepUnpressed(db, lease, now);
    UnpressedPaced(db.mail, Housekeep(db, lease, now).mail, clock, now);
    HousekeepKeepsMail(db, lease, now);
    ChosenAreDue(db, chosen, lease, now);
    ClaimsPaced(Housekeep(db, lease, now), chosen, lease, now);
  }

  lemma DeferPaced(db: Db, id: JobId, token: nat, availableAt: int, reading: int, clock: int, now: int)
    requires MailOk(db) && AllPaced(db.mail, clock) && clock <= now
    requires Owns(db.mail, id, token) && db.mail[id].claimedAt.Some? ==> availableAt >= db.mail[id].claimedAt.value + RETRY_GAP_MS
    ensures AllPaced(DeferJob(db, id, token, availableAt, reading, now).mail, now)
  {
    UnpressedPaced(db.mail, db.mail, clock, now);
    if DeferOutcome(db.mail, id, token, availableAt, reading).Deferred? {
      assert RowOk(db.mail[id], db.nextToken) && Paced(db.mail[id], clock);
      RequeuedPaced(db.mail[id], availableAt, clock, now);
    }
  }

  // ----- every other step -----

  lemma DeleteUnpressed(db: Db, gone: set<nat>)
    ensures Unpressed(db.mail, DeleteSubscribers(db, gone).mail) && DeleteSubscribers(db, gone).mail.Keys <= db.mail.Keys
  {
  }

  lemma SweepUnpressed(db: Db, at: int, now: int)
    ensures Unpressed(db.mail, Sweep(db, at, now).mail)
  {
    var a := db.(mail := CancelAll(db.mail, ExpiredAlerts(db.mail, now), Expired, now));
    var b := SweepSubscribers(db, at, now);
    DeleteUnpressed(a, StalePending(db.subs, at - PENDING_RETENTION_MS));
    UnpressedJoins(db.mail, a.mail, b.mail);
    UnpressedJoins(db.mail, b.mail, Sweep(db, at, now).mail);
  }

  lemma WriteUnpressed(db: Db, key: string, seen: Seen, version: nat, alerted: Option<Reason>, now: int)
    ensures Unpressed(db.mail, WriteRow(db, key, seen, version, alerted, now).mail)
  {
  }

  lemma InsertUnpressed(before: Mail, added: Mail, serial: nat)
    requires NewRows(added, serial) && SerialsUsed(before, serial)
    ensures Unpressed(before, before + added)
  {
  }

  lemma SwapUnpressed(db: Db, key: string, version: nat, targets: set<nat>, seen: Seen, reason: Reason, openedAt: int, now: int)
    requires SerialsUsed(db.mail, db.nextSerial)
    ensures Unpressed(db.mail, Swap(db, key, version, targets, seen, reason, openedAt, now).mail)
  {
    if AtVersion(db, key, version) {
      var written := WriteRow(db, key, seen, version + 1, Some(reason), now).mail;
      var recipients := Recipients(written, targets, key, openedAt);
      WriteUnpressed(db, key, seen, version + 1, Some(reason), now);
      AlertsAreNew(recipients, key, openedAt, reason, db.nextSerial, now);
      InsertUnpressed(written, Alerts(recipients, key, openedAt, reason, db.nextSerial, now), db.nextSerial);
      UnpressedInserts(db.mail, written, Swap(db, key, version, targets, seen, reason, openedAt, now).mail);
    }
  }

  lemma UnpressedInserts(a: Mail, b: Mail, c: Mail)
    requires Unpressed(a, b) && Unpressed(b, c) && a.Keys == b.Keys
    ensures Unpressed(a, c)
  {
  }

  lemma MailingUnpressed(w: World, step: Step, config: Config)
    requires config.maxBackoffSeconds >= 1 && MailOk(w.db) && Enabled(w, step) && Mails(step.op)
    ensures Unpressed(w.db.mail, NextDb(w, step, config).mail)
  {
    var db, now := w.db, step.now;
    match step.op
    case DiscloseOp(windowMs, at) =>
      DisclosuresAreNew(db, windowMs, at, now);
      InsertUnpressed(db.mail, Disclosures(db, windowMs, at, now), db.nextSerial);
    case SubscriberMailOp(s, kind) =>
      MailForIsNew(kind, s, db.nextSerial, now);
      InsertUnpressed(db.mail, MailFor(kind, s, db.nextSerial, now), db.nextSerial);
    case OperatorMailOp(about) =>
      OperatorRowIsNew(db.nextSerial, about, now);
      InsertUnpressed(db.mail, OperatorRow(db.nextSerial, about, now), db.nextSerial);
    case ExpireOp => CancelUnpressed(db.mail, ExpiredAlerts(db.mail, now), Expired, now);
    case HorizonOp(lease) => DeadLetterUnpressed(db.mail, PastHorizon(db.mail, lease, now), RetryHorizon, now);
    case CancelOpenOp(key, only) => CancelUnpressed(db.mail, OpenAlerts(db.mail, key, only), OpeningClosed, now);
  }

  lemma CreateUnpressed(db: Db, email: string, keys: set<string>, maxSubscribers: Option<nat>, suppressed: bool, now: int)
    requires SerialsUsed(db.mail, db.nextSerial)
    ensures Unpressed(db.mail, Create(db, email, keys, maxSubscribers, suppressed, now).mail)
  {
    if CreateOutcome(db, email, keys, maxSubscribers).Created? {
      CreateIs(db, email, keys, maxSubscribers, suppressed, now);
      MailForIsNew(Confirmation, db.nextSubscriber, db.nextSerial, now);
      InsertUnpressed(db.mail, if suppressed then map[] else MailFor(Confirmation, db.nextSubscriber, db.nextSerial, now), db.nextSerial);
    }
  }

  lemma SettlingUnpressed(w: World, step: Step, config: Config)
    requires config.maxBackoffSeconds >= 1 && Enabled(w, step) && Settles(step.op) && !step.op.ClaimOp? && !step.op.DeferOp?
    ensures Unpressed(w.db.mail, NextDb(w, step, config).mail)
  {
    if Fenced(step.op) && Owns(w.db.mail, step.op.id, step.op.token) {
      var j := w.db.mail[step.op.id];
      OneRowUnpressed(w.db.mail, step.op.id,
                      match step.op
                      case CompleteOp(_, _, acceptedAt) => SentRow(j, acceptedAt, step.now)
                      case CancelClaimedOp(_, _) => CancelRow(j, SuppressedAddress, step.now)
                      case _ => DeadLetterRow(j, PermanentFailure, step.now));
    }
  }

  lemma ObserveUnpressed(db: Db, key: string, action: Action, cutoff: nat, now: int)
    ensures Unpressed(db.mail, ObserveDb(db, key, action, cutoff, now).mail)
  {
    match action
    case Persist(seen) => WriteUnpressed(db, key, seen, NextVersion(db, key), None, now);
    case Retire => CancelUnpressed(db.mail, ActiveAbout(db.mail, {Alert, BlindWindow}, None, key), Ineligible, now);
    case _ =>
  }

  lemma OtherUnpressed(w: World, step: Step, config: Config)
    requires config.maxBackoffSeconds >= 1 && MailOk(w.db) && Enabled(w, step) && !Settles(step.op) && !Mails(step.op)
    ensures Unpressed(w.db.mail, NextDb(w, step, config).mail)
  {
    var db, now := w.db, step.now;
    match step.op
    case Observe(o, _, _, _, cutoff) => ObserveUnpressed(db, w.observers[o].key, ActionOf(w, step.op), cutoff, now);
    case Commit(o) =>
      var x := w.observers[o];
      SwapUnpressed(db, x.key, x.base.version, x.targets, x.seen, x.reason, x.openedAt, now);
    case CreateOp(email, keys, maxSubscribers, suppressed) => CreateUnpressed(db, email, keys, maxSubscribers, suppressed, now);
    case RemoveOp(s, key) => CancelUnpressed(db.mail, ActiveAbout(db.mail, {Alert}, Some(s), key), Ineligible, now);
    case DeleteOp(s) => DeleteUnpressed(db, {s});
    case SweepOp(at) => SweepUnpressed(db, at, now);
    case _ =>
  }

  lemma NextPaced(w: World, step: Step, config: Config)
    requires Inv(w, config) && Enabled(w, step) && Timed(w, step) && AllPaced(w.db.mail, w.clock)
    ensures AllPaced(NextDb(w, step, config).mail, step.now)
  {
    if step.op.ClaimOp? {
      ClaimPaced(w.db, step.op.chosen, step.op.lease, w.clock, step.now);
    } else if step.op.DeferOp? {
      DeferPaced(w.db, step.op.id, step.op.token, NextAttempt(w.db, step.op, config), step.op.reading, w.clock, step.now);
    } else {
      if Settles(step.op) {
        SettlingUnpressed(w, step, config);
      } else if Mails(step.op) {
        MailingUnpressed(w, step, config);
      } else {
        OtherUnpressed(w, step, config);
      }
      UnpressedPaced(w.db.mail, NextDb(w, step, config).mail, w.clock, step.now);
    }
  }

  // ----- runs -----

  ghost predicate AllTimed(ws: seq<World>, steps: seq<Step>)
    requires |ws| == |steps| + 1
  {
    forall t {:trigger steps[t]} | 0 <= t < |steps| :: Timed(ws[t], steps[t])
  }

  lemma {:induction false} RunIsPaced(ws: seq<World>, steps: seq<Step>, config: Config, t: nat)
    requires IsRun(ws, steps, config) && AllTimed(ws, steps) && t < |ws|
    ensures AllPaced(ws[t].db.mail, ws[t].clock)
  {
    if t > 0 {
      RunIsPaced(ws, steps, config, t - 1);
      RunKeepsInv(ws, steps, config, t - 1);
      assert IsStep(ws[t - 1], steps[t - 1], ws[t], config) && Timed(ws[t - 1], steps[t - 1]);
      NextPaced(ws[t - 1], steps[t - 1], config);
    }
  }

  /** No job is claimed more often than its horizon has room for. */
  lemma AttemptsAreBounded(ws: seq<World>, steps: seq<Step>, config: Config, t: nat, id: JobId)
    requires IsRun(ws, steps, config) && AllTimed(ws, steps) && t < |ws|
    requires id in ws[t].db.mail && ws[t].db.mail[id].attempts >= 1
    ensures var j := ws[t].db.mail[id];
            && j.attempts <= (Horizon(j) + RETRY_GAP_MS - 1) / RETRY_GAP_MS
            && (!j.kind.Alert? ==> j.attempts <= 82_800)
            && (j.kind.Alert? ==> j.expiresAt.Some? && Horizon(j) == j.expiresAt.value - j.createdAt)
  {
    RunKeepsInv(ws, steps, config, t);
    RunIsPaced(ws, steps, config, t);
    assert RowOk(ws[t].db.mail[id], ws[t].db.nextToken) && Paced(ws[t].db.mail[id], ws[t].clock);
  }
}
