/** Where mail rows go: with their subscriber, or by the retention sweep, and in no other way. */
module RepoFiling {
  import opened RepoTables
  import opened RepoMail
  import opened RepoMailProofs
  import opened RepoWatches
  import opened RepoWatchProofs
  import opened RepoState
  import opened RepoRuns
  import opened RepoSteps
  import opened RepoInvariant
  import opened RepoTheorems

  /** Every row is still there, for whom it was. */
  predicate KeepsRows(before: Mail, after: Mail) {
    forall id | id in before :: id in after && after[id].subscriber == before[id].subscriber
  }

  // ----- the statements that keep every row -----

  lemma ReplacingKeepsRows(mail: Mail, id: JobId, row: Job)
    requires id in mail && row.subscriber == mail[id].subscriber
    ensures KeepsRows(mail, mail[id := row])
  {
  }

  lemma AddingKeepsRows(before: Mail, added: Mail, serial: nat)
    requires NewRows(added, serial) && SerialsUsed(before, serial)
    ensures KeepsRows(before, before + added)
  {
  }

  lemma HousekeepingKeepsRows(db: Db, lease: nat, now: int)
    ensures KeepsRows(db.mail, Housekeep(db, lease, now).mail)
  {
  }

  lemma ClaimingKeepsRows(db: Db, chosen: set<JobId>, lease: nat, now: int)
    ensures KeepsRows(db.mail, ClaimBatch(db, chosen, lease, now).mail)
  {
    HousekeepingKeepsRows(db, lease, now);
    assert KeepsRows(Housekeep(db, lease, now).mail, Claimed(Housekeep(db, lease, now), chosen, now).mail);
  }

  lemma DeferringKeepsRows(db: Db, id: JobId, token: nat, availableAt: int, reading: int, now: int)
    ensures KeepsRows(db.mail, DeferJob(db, id, token, availableAt, reading, now).mail)
  {
    match DeferOutcome(db.mail, id, token, availableAt, reading)
    case ClaimFenceLost =>
    case Deferred => ReplacingKeepsRows(db.mail, id, RequeueRow(db.mail[id], availableAt));
    case CancelledExpired => ReplacingKeepsRows(db.mail, id, CancelRow(db.mail[id], Expired, now));
    case DeadLetteredRetryHorizon => ReplacingKeepsRows(db.mail, id, DeadLetterRow(db.mail[id], RetryHorizon, now));
  }

  lemma FencedKeepsRows(db: Db, id: JobId, token: nat, acceptedAt: int, now: int)
    ensures KeepsRows(db.mail, Complete(db, id, token, acceptedAt, now).mail)
    ensures KeepsRows(db.mail, CancelClaimed(db, id, token, now).mail)
    ensures KeepsRows(db.mail, DeadLetterJob(db, id, token, now).mail)
  {
    if Owns(db.mail, id, token) {
      ReplacingKeepsRows(db.mail, id, SentRow(db.mail[id], acceptedAt, now));
      ReplacingKeepsRows(db.mail, id, CancelRow(db.mail[id], SuppressedAddress, now));
      ReplacingKeepsRows(db.mail, id, DeadLetterRow(db.mail[id], PermanentFailure, now));
    }
  }

  lemma SettlingKeepsRows(w: World, step: Step, config: Config)
    requires config.maxBackoffSeconds >= 1 && Enabled(w, step) && Settles(step.op)
    ensures KeepsRows(w.db.mail, NextDb(w, step, config).mail)
  {
    match step.op
    case ClaimOp(chosen, lease) => ClaimingKeepsRows(w.db, chosen, lease, step.now);
    case DeferOp(id, token, reading, _) =>
      DeferringKeepsRows(w.db, id, token, NextAttempt(w.db, step.op, config), reading, step.now);
    case CompleteOp(id, token, acceptedAt) => FencedKeepsRows(w.db, id, token, acceptedAt, step.now);
    case CancelClaimedOp(id, token) => FencedKeepsRows(w.db, id, token, 0, step.now);
    case DeadLetterOp(id, token) => FencedKeepsRows(w.db, id, token, 0, step.now);
    case _ =>
  }

  lemma MarkingKeepsRows(mail: Mail, ids: set<JobId>, reason: TerminalReason, now: int)
    ensures KeepsRows(mail, CancelAll(mail, ids, reason, now)) && KeepsRows(mail, DeadLetterAll(mail, ids, reason, now))
  {
  }

  lemma StatementKeepsRows(w: World, step: Step, config: Config)
    requires config.maxBackoffSeconds >= 1 && Enabled(w, step) && (step.op.ExpireOp? || step.op.HorizonOp? || step.op.CancelOpenOp?)
    ensures KeepsRows(w.db.mail, NextDb(w, step, config).mail)
  {
    var mail, now := w.db.mail, step.now;
    match step.op
    case ExpireOp => MarkingKeepsRows(mail, ExpiredAlerts(mail, now), Expired, now);
    case HorizonOp(lease) => MarkingKeepsRows(mail, PastHorizon(mail, lease, now), RetryHorizon, now);
    case CancelOpenOp(key, only) => MarkingKeepsRows(mail, OpenAlerts(mail, key, only), OpeningClosed, now);
  }

  lemma DisclosingKeepsRows(db: Db, windowMs: int, at: int, now: int)
    requires SerialsUsed(db.mail, db.nextSerial)
    ensures KeepsRows(db.mail, Disclose(db, windowMs, at, now).mail)
  {
    DisclosuresAreNew(db, windowMs, at, now);
    AddingKeepsRows(db.mail, Disclosures(db, windowMs, at, now), db.nextSerial);
  }

  lemma EnqueuingKeepsRows(db: Db, added: Mail)
    requires SerialsUsed(db.mail, db.nextSerial) && NewRows(added, db.nextSerial)
    ensures KeepsRows(db.mail, Enqueue(db, added).mail)
  {
    AddingKeepsRows(db.mail, added, db.nextSerial);
  }

  lemma MailingKeepsRows(w: World, step: Step, config: Config)
    requires config.maxBackoffSeconds >= 1 && SerialsUsed(w.db.mail, w.db.nextSerial) && Enabled(w, step) && Mails(step.op)
    ensures KeepsRows(w.db.mail, NextDb(w, step, config).mail)
  {
    var db, now := w.db, step.now;
    if step.op.ExpireOp? || step.op.HorizonOp? || step.op.CancelOpenOp? { StatementKeepsRows(w, step, config); }
    match step.op
    case DiscloseOp(windowMs, at) => DisclosingKeepsRows(db, windowMs, at, now);
    case SubscriberMailOp(s, kind) =>
      MailForIsNew(kind, s, db.nextSerial, now);
      EnqueuingKeepsRows(db, MailFor(kind, s, db.nextSerial, now));
    case OperatorMailOp(about) =>
      OperatorRowIsNew(db.nextSerial, about, now);
      EnqueuingKeepsRows(db, OperatorRow(db.nextSerial, about, now));
    case _ =>
  }

  lemma WritingKeepsRows(db: Db, key: string, seen: Seen, version: nat, alerted: Option<Reason>, now: int)
    ensures KeepsRows(db.mail, WriteRow(db, key, seen, version, alerted, now).mail)
  {
  }

  lemma SwapKeepsRows(db: Db, key: string, version: nat, targets: set<nat>, seen: Seen, reason: Reason, openedAt: int, now: int)
    requires SerialsUsed(db.mail, db.nextSerial)
    ensures KeepsRows(db.mail, Swap(db, key, version, targets, seen, reason, openedAt, now).mail)
  {
    if AtVersion(db, key, version) {
      var written := WriteRow(db, key, seen, version + 1, Some(reason), now).mail;
      var recipients := Recipients(written, targets, key, openedAt);
      WritingKeepsRows(db, key, seen, version + 1, Some(reason), now);
      AlertsAreNew(recipients, key, openedAt, reason, db.nextSerial, now);
      AddingKeepsRows(written, Alerts(recipients, key, openedAt, reason, db.nextSerial, now), db.nextSerial);
    }
  }

  lemma CreateKeepsRows(db: Db, email: string, keys: set<string>, maxSubscribers: Option<nat>, suppressed: bool, now: int)
    requires SerialsUsed(db.mail, db.nextSerial)
    ensures KeepsRows(db.mail, Create(db, email, keys, maxSubscribers, suppressed, now).mail)
  {
    if CreateOutcome(db, email, keys, maxSubscribers).Created? {
      CreateIs(db, email, keys, maxSubscribers, suppressed, now);
      MailForIsNew(Confirmation, db.nextSubscriber, db.nextSerial, now);
      AddingKeepsRows(db.mail, if suppressed then map[] else MailFor(Confirmation, db.nextSubscriber, db.nextSerial, now), db.nextSerial);
    }
  }

  lemma ObservingKeepsRows(db: Db, key: string, action: Action, cutoff: nat, now: int)
    ensures KeepsRows(db.mail, ObserveDb(db, key, action, cutoff, now).mail)
  {
  }

  lemma OtherKeepsRows(w: World, step: Step, config: Config)
    requires config.maxBackoffSeconds >= 1 && SerialsUsed(w.db.mail, w.db.nextSerial) && Enabled(w, step)
    requires !Settles(step.op) && !Mails(step.op) && !step.op.DeleteOp? && !step.op.SweepOp?
    ensures KeepsRows(w.db.mail, NextDb(w, step, config).mail)
  {
    var db, now := w.db, step.now;
    match step.op
    case Observe(o, _, _, _, cutoff) => ObservingKeepsRows(db, w.observers[o].key, ActionOf(w, step.op), cutoff, now);
    case Commit(o) =>
      var x := w.observers[o];
      SwapKeepsRows(db, x.key, x.base.version, x.targets, x.seen, x.reason, x.openedAt, now);
    case CreateOp(email, keys, maxSubscribers, suppressed) => CreateKeepsRows(db, email, keys, maxSubscribers, suppressed, now);
    case _ =>
  }

  // ----- the two that delete rows -----

  /** The sweep first cancels an alert that has expired. */
  function AfterExpiry(j: Job, now: int): Job {
    if j.kind.Alert? && Active(j) && j.expiresAt.Some? && j.expiresAt.value <= now then CancelRow(j, Expired, now) else j
  }

  /** The retention sweep takes the row: its mail was settled ninety days ago, and no open incident protects it. */
  predicate PurgesRow(w: World, step: Step, id: JobId) {
    && step.op.SweepOp? && id in w.db.mail && !Protected(w.db.incidents, id)
    && var j := AfterExpiry(w.db.mail[id], step.now);
       !Active(j) && j.terminalAt.Some? && j.terminalAt.value <= step.op.at - TERMINAL_RETENTION_MS
  }

  predicate FiledFor(db: Db, id: JobId, s: nat) { id in db.mail && db.mail[id].subscriber == Some(s) }

  lemma DeletingKeepsOthers(db: Db, gone: set<nat>, id: JobId, s: nat)
    requires FiledFor(db, id, s) && s !in gone
    ensures FiledFor(DeleteSubscribers(db, gone), id, s) && DeleteSubscribers(db, gone).mail[id] == db.mail[id]
  {
  }

  lemma SweepKeepsOthers(db: Db, at: int, now: int, id: JobId, s: nat)
    requires FiledFor(db, id, s) && s in Sweep(db, at, now).subs
    requires var j := AfterExpiry(db.mail[id], now);
             Protected(db.incidents, id) || Active(j) || j.terminalAt.None? || j.terminalAt.value > at - TERMINAL_RETENTION_MS
    ensures FiledFor(Sweep(db, at, now), id, s)
  {
    var a := db.(mail := CancelAll(db.mail, ExpiredAlerts(db.mail, now), Expired, now));
    var gone := StalePending(db.subs, at - PENDING_RETENTION_MS);
    assert a.mail[id] == AfterExpiry(db.mail[id], now);
    DeletingKeepsOthers(a, gone, id, s);
    var b := SweepSubscribers(db, at, now);
    assert Protected(db.incidents, id) ==> Protected(b.incidents, id);
    assert id !in OverdueMail(b.mail, b.incidents, at - TERMINAL_RETENTION_MS);
  }

  /** A step takes a row from a subscriber who stays only if it is a sweep that purges it. */
  lemma NextKeepsFiled(w: World, step: Step, config: Config, id: JobId, s: nat)
    requires Inv(w, config) && Enabled(w, step) && FiledFor(w.db, id, s)
    requires s in NextDb(w, step, config).subs && !PurgesRow(w, step, id)
    ensures FiledFor(NextDb(w, step, config), id, s)
  {
    if step.op.DeleteOp? {
      DeletingKeepsOthers(w.db, {step.op.s}, id, s);
    } else if step.op.SweepOp? {
      SweepKeepsOthers(w.db, step.op.at, step.now, id, s);
    } else if Settles(step.op) {
      SettlingKeepsRows(w, step, config);
    } else if Mails(step.op) {
      MailingKeepsRows(w, step, config);
    } else {
      OtherKeepsRows(w, step, config);
    }
  }

  // ----- over runs -----

  lemma CreatedSubscribers(db: Db, email: string, keys: set<string>, maxSubscribers: Option<nat>, suppressed: bool, now: int, s: nat)
    requires s < db.nextSubscriber && s in Create(db, email, keys, maxSubscribers, suppressed, now).subs
    ensures s in db.subs
  {
    if CreateOutcome(db, email, keys, maxSubscribers).Created? { CreateIs(db, email, keys, maxSubscribers, suppressed, now); }
  }

  /** A subscriber's identifier is not used again. */
  lemma NextSubscribers(w: World, step: Step, config: Config, s: nat)
    requires Inv(w, config) && Enabled(w, step) && s < w.db.nextSubscriber && s in NextDb(w, step, config).subs
    ensures s in w.db.subs
  {
    if !Exclusive(w, step.op) {
      UnlockedStepsLeaveWatches(w, step, config);
    } else if Removes(step.op) {
      RemovingShrinks(w, step, config);
    } else if step.op.CreateOp? {
      CreatedSubscribers(w.db, step.op.email, step.op.keys, step.op.maxSubscribers, step.op.suppressed, step.now, s);
    }
  }

  lemma {:induction false} NumbersGrow(ws: seq<World>, steps: seq<Step>, config: Config, i: nat, j: nat)
    requires IsRun(ws, steps, config) && i <= j < |ws|
    ensures ws[i].db.nextSubscriber <= ws[j].db.nextSubscriber
    decreases j - i
  {
    if i < j {
      NumbersGrow(ws, steps, config, i, j - 1);
      assert IsStep(ws[j - 1], steps[j - 1], ws[j], config);
      NextNumbers(ws[j - 1], steps[j - 1], config);
    }
  }

  lemma NextNumbers(w: World, step: Step, config: Config)
    requires config.maxBackoffSeconds >= 1 && Enabled(w, step)
    ensures w.db.nextSubscriber <= NextDb(w, step, config).nextSubscriber
  {
    if !Exclusive(w, step.op) { UnlockedStepsLeaveWatches(w, step, config); }
  }

  /** Who is there before and after was there all the time. */
  lemma {:induction false} SubscriberWasThere(ws: seq<World>, steps: seq<Step>, config: Config, i: nat, t: nat, j: nat, s: nat)
    requires IsRun(ws, steps, config) && i <= t <= j < |ws| && s in ws[i].db.subs && s in ws[j].db.subs
    ensures s in ws[t].db.subs
    decreases j - t
  {
    if t < j {
      SubscriberWasThere(ws, steps, config, i, t + 1, j, s);
      RunKeepsInv(ws, steps, config, i);
      RunKeepsInv(ws, steps, config, t);
      NumbersGrow(ws, steps, config, i, t);
      assert IsStep(ws[t], steps[t], ws[t + 1], config);
      NextSubscribers(ws[t], steps[t], config, s);
    }
  }

  /**
   A row that is no longer on file for a subscriber who was there before and after has been purged
   by the retention sweep.
   */
  lemma {:induction false} RowsGoBySweep(ws: seq<World>, steps: seq<Step>, config: Config, i: nat, j: nat, id: JobId, s: nat)
    returns (t: nat)
    requires IsRun(ws, steps, config) && i <= j < |ws| && s in ws[i].db.subs && s in ws[j].db.subs
    requires FiledFor(ws[i].db, id, s) && !FiledFor(ws[j].db, id, s)
    ensures i <= t < j && PurgesRow(ws[t], steps[t], id)
    decreases j - i
  {
    SubscriberWasThere(ws, steps, config, i, i + 1, j, s);
    RunKeepsInv(ws, steps, config, i);
    assert IsStep(ws[i], steps[i], ws[i + 1], config);
    if PurgesRow(ws[i], steps[i], id) {
      t := i;
    } else {
      NextKeepsFiled(ws[i], steps[i], config, id, s);
      t := RowsGoBySweep(ws, steps, config, i + 1, j, id, s);
    }
  }
}
