/** The invariant of every run of the repository, and its preservation step by step. */
module RepoInvariant {
  import opened RepoTables
  import opened RepoMail
  import opened RepoMailProofs
  import opened RepoWatches
  import opened RepoWatchProofs
  import opened RepoState
  import opened RepoStateProofs
  import opened RepoRuns
  import opened RepoSteps

  // ----- observers -----

  /** A row read some time ago: it is still the current one, or a later version replaced it. */
  predicate Recent(db: Db, key: string, row: ClassRow) {
    && key in db.classes && row.version <= db.classes[key].version
    && (row.version == db.classes[key].version ==> row == db.classes[key])
  }

  /** The select found the row at the version its decision was made on. */
  predicate FoundIt(x: Observer)
    requires x.Selected?
  {
    x.found.Some? && x.found.value.version == x.base.version
  }

  predicate ObserverOk(x: Observer, db: Db) {
    match x
    case Holding(key, previous, _) => previous.Some? ==> IsEntry(db.history, key, previous.value)
    case Selected(key, base, _, found, targets, seen, reason, _) =>
      && IsEntry(db.history, key, base)
      && !ReasonOpen(base, reason) && ReasonOpen(RowFor(seen, 0, 0, 0), reason)
      && (found.Some? ==> Recent(db, key, found.value))
      && (if FoundIt(x) then AtVersion(db, key, base.version) ==> targets == Targets(db, key, base.version) else targets == {})
  }

  ghost predicate ObserversOk(observers: Observers, db: Db) {
    forall o | o in observers :: ObserverOk(observers[o], db)
  }

  ghost predicate Inv(w: World, config: Config) {
    && config.maxBackoffSeconds >= 1
    && MailOk(w.db) && OneEach(w.db.mail)
    && WatchesOk(w.db) && WithinCeiling(w.db, config.ceiling)
    && ActivationsOk(w.db)
    && StateOk(w.db)
    && ObserversOk(w.observers, w.db)
  }

  /** Empty tables. */
  ghost predicate Initial(w: World) {
    && w.db.subs == map[] && w.db.watches == map[] && w.db.classes == map[] && w.db.mail == map[] && w.db.incidents == map[]
    && w.db.history == [] && w.observers == map[]
  }

  lemma InitialInv(w: World, config: Config)
    requires Initial(w) && config.maxBackoffSeconds >= 1
    ensures Inv(w, config)
  {
    assert Sections(w.db) == {};
    assert forall s :: LiveKeys(w.db.watches, s) == {};
  }

  // ----- mail -----

  lemma UpsertMail(db: Db, key: string, seen: Seen, now: int)
    requires MailOk(db)
    ensures MailOk(Upsert(db, key, seen, now)) && Quiet(db.mail, Upsert(db, key, seen, now).mail)
  {
    WriteMail(db, key, seen, NextVersion(db, key), None, now);
  }

  lemma ObserveMail(db: Db, key: string, action: Action, cutoff: nat, now: int)
    requires MailOk(db)
    ensures var after := ObserveDb(db, key, action, cutoff, now); MailOk(after) && Quiet(db.mail, after.mail)
  {
    match action
    case Persist(seen) => UpsertMail(db, key, seen, now);
    case Retire => RetireMail(db, key, Some(cutoff), now);
    case _ =>
  }

  /** The settlements fenced by a claim token. */
  predicate Fenced(op: Op) { op.CompleteOp? || op.CancelClaimedOp? || op.DeferOp? || op.DeadLetterOp? }

  predicate Settles(op: Op) { Fenced(op) || op.ClaimOp? || op.AcknowledgeOp? || op.ResolveOp? }

  predicate Files(op: Op) { op.Commit? || op.DiscloseOp? }

  /** The other steps that touch nothing but the mail. */
  predicate Mails(op: Op) {
    op.DiscloseOp? || op.SubscriberMailOp? || op.OperatorMailOp? || op.ExpireOp? || op.HorizonOp? || op.CancelOpenOp?
  }

  ghost predicate OnlyMail(before: Db, after: Db) {
    && after.watches == before.watches && after.subs == before.subs && after.classes == before.classes
    && after.history == before.history && after.nextSubscriber == before.nextSubscriber
  }

  lemma SettlingIsMail(w: World, step: Step, config: Config)
    requires Enabled(w, step) && config.maxBackoffSeconds >= 1 && Settles(step.op)
    ensures OnlyMail(w.db, NextDb(w, step, config))
  {
    if Fenced(step.op) { FencedIsMail(w, step, config); }
  }

  lemma FencedIsMail(w: World, step: Step, config: Config)
    requires Enabled(w, step) && config.maxBackoffSeconds >= 1 && Fenced(step.op)
    ensures OnlyMail(w.db, NextDb(w, step, config))
  {
  }

  lemma MailingIsMail(w: World, step: Step, config: Config)
    requires Enabled(w, step) && config.maxBackoffSeconds >= 1 && Mails(step.op)
    ensures OnlyMail(w.db, NextDb(w, step, config))
  {
  }

  lemma DeferMail(w: World, step: Step, config: Config)
    requires config.maxBackoffSeconds >= 1 && MailOk(w.db) && Enabled(w, step) && step.op.DeferOp?
    ensures var after := NextDb(w, step, config); MailOk(after) && Quiet(w.db.mail, after.mail)
  {
    DeferKeepsMail(w.db, step.op.id, step.op.token, NextAttempt(w.db, step.op, config), step.op.reading, step.now);
  }

  lemma FencedMail(w: World, step: Step, config: Config)
    requires config.maxBackoffSeconds >= 1 && MailOk(w.db) && Enabled(w, step) && Fenced(step.op)
    ensures var after := NextDb(w, step, config); MailOk(after) && Quiet(w.db.mail, after.mail)
  {
    var db, now := w.db, step.now;
    match step.op
    case CompleteOp(id, token, acceptedAt) => CompleteKeepsMail(db, id, token, acceptedAt, now);
    case CancelClaimedOp(id, token) => CancelClaimedKeepsMail(db, id, token, now);
    case DeferOp(_, _, _, _) => DeferMail(w, step, config);
    case DeadLetterOp(id, token) => DeadLetterJobKeepsMail(db, id, token, now);
  }

  lemma SettlingMail(w: World, step: Step, config: Config)
    requires config.maxBackoffSeconds >= 1 && MailOk(w.db) && Enabled(w, step) && Settles(step.op)
    ensures var after := NextDb(w, step, config); MailOk(after) && Quiet(w.db.mail, after.mail)
  {
    if Fenced(step.op) {
      FencedMail(w, step, config);
    } else if step.op.ClaimOp? {
      ClaimKeepsMail(w.db, step.op.chosen, step.op.lease, step.now);
    } else {
      IncidentsMail(w, step, config);
    }
  }

  lemma IncidentsMail(w: World, step: Step, config: Config)
    requires config.maxBackoffSeconds >= 1 && MailOk(w.db) && Enabled(w, step) && (step.op.AcknowledgeOp? || step.op.ResolveOp?)
    ensures var after := NextDb(w, step, config); MailOk(after) && Quiet(w.db.mail, after.mail)
  {
    IncidentsKeepMail(w.db, step.op.id);
  }

  lemma MailingMail(w: World, step: Step, config: Config)
    requires config.maxBackoffSeconds >= 1 && MailOk(w.db) && Enabled(w, step) && Mails(step.op) && !Files(step.op)
    ensures var after := NextDb(w, step, config); MailOk(after) && Quiet(w.db.mail, after.mail)
  {
    var db, now := w.db, step.now;
    match step.op
    case SubscriberMailOp(s, kind) => SubscriberMail(db, kind, s, now);
    case OperatorMailOp(about) => OperatorMailMail(db, about, now);
    case ExpireOp => CancelKeepsMail(db, ExpiredAlerts(db.mail, now), Expired, now);
    case HorizonOp(lease) => HorizonMail(db, lease, now);
    case CancelOpenOp(key, only) => CancelKeepsMail(db, OpenAlerts(db.mail, key, only), OpeningClosed, now);
  }

  lemma OtherMail(w: World, step: Step, config: Config)
    requires config.maxBackoffSeconds >= 1 && MailOk(w.db) && Enabled(w, step) && !Settles(step.op) && !Files(step.op)
    ensures var after := NextDb(w, step, config); MailOk(after) && Quiet(w.db.mail, after.mail)
  {
    var db, now := w.db, step.now;
    if Mails(step.op) {
      MailingMail(w, step, config);
    } else {
      match step.op
      case Observe(o, _, _, _, cutoff) => ObserveMail(db, w.observers[o].key, ActionOf(w, step.op), cutoff, now);
      case CreateOp(email, keys, maxSubscribers, suppressed) => CreateMail(db, email, keys, maxSubscribers, suppressed, now);
      case RemoveOp(s, key) => RemoveMail(db, s, key, now);
      case DeleteOp(s) => DeleteSubscribersKeepsMail(db, {s});
      case SweepOp(at) => SweepMail(db, at, now);
      case _ =>
    }
  }

  lemma NextMail(w: World, step: Step, config: Config)
    requires Inv(w, config) && Enabled(w, step)
    ensures var after := NextDb(w, step, config);
            MailOk(after) && RowsStep(w.db.mail, after.mail) && OneEach(after.mail)
  {
    if Settles(step.op) {
      SettlingMail(w, step, config);
      QuietKeepsOneEach(w.db.mail, NextDb(w, step, config).mail);
    } else if step.op.Commit? {
      var x := w.observers[step.op.o];
      SwapMail(w.db, x.key, x.base.version, x.targets, x.seen, x.reason, x.openedAt, step.now);
      SwapOneEach(w.db, x.key, x.base.version, x.targets, x.seen, x.reason, x.openedAt, step.now);
    } else if step.op.DiscloseOp? {
      DiscloseMail(w.db, step.op.windowMs, step.op.at, step.now);
      DiscloseOneEach(w.db, step.op.windowMs, step.op.at, step.now);
    } else {
      OtherMail(w, step, config);
      QuietKeepsOneEach(w.db.mail, NextDb(w, step, config).mail);
    }
  }

  // ----- class states -----

  /** The steps that write a class row. */
  predicate Writes(w: World, op: Op) {
    op.Commit? || (op.Observe? && op.o in w.observers && w.observers[op.o].Holding? && ActionOf(w, op).Persist?)
  }

  /** What the other steps leave of the history and the class rows. */
  ghost predicate LeavesClasses(before: Db, after: Db) {
    && |before.history| <= |after.history| && after.history[..|before.history|] == before.history
    && (forall i | |before.history| <= i < |after.history| :: !after.history[i].Observed?)
    && (forall key | key in after.classes :: key in before.classes && after.classes[key] == before.classes[key])
    && (forall id, key | id in after.mail && key in before.classes && after.mail[id].classKey == Some(key) :: key in after.classes)
  }

  lemma NextLeavesClasses(w: World, step: Step, config: Config)
    requires config.maxBackoffSeconds >= 1 && Enabled(w, step) && !Writes(w, step.op)
    ensures LeavesClasses(w.db, NextDb(w, step, config))
  {
    if Settles(step.op) {
      SettlingIsMail(w, step, config);
    } else if Mails(step.op) {
      MailingIsMail(w, step, config);
    } else if step.op.SweepOp? {
      SweepLeavesClasses(w.db, step.op.at, step.now);
    } else if step.op.ConfirmOp? {
      ConfirmLeavesClasses(w.db, step.op.s, step.op.staged, Some(config.ceiling), step.now);
    } else if step.op.CreateOp? {
      CreateLeavesClasses(w.db, step.op.email, step.op.keys, step.op.maxSubscribers, step.op.suppressed, step.now);
    }
  }

  lemma SweepLeavesClasses(db: Db, at: int, now: int)
    ensures LeavesClasses(db, Sweep(db, at, now))
  {
  }

  lemma CreateLeavesClasses(db: Db, email: string, keys: set<string>, maxSubscribers: Option<nat>, suppressed: bool, now: int)
    ensures LeavesClasses(db, Create(db, email, keys, maxSubscribers, suppressed, now))
  {
    if CreateOutcome(db, email, keys, maxSubscribers).Created? { CreateIs(db, email, keys, maxSubscribers, suppressed, now); }
  }

  lemma {:induction false} ActivationsAreActivated(s: nat, keys: seq<string>)
    ensures forall i | 0 <= i < |keys| :: Activations(s, keys)[i] == Activated(s, keys[i])
    decreases |keys|
  {
    if keys != [] { ActivationsAreActivated(s, keys[..|keys| - 1]); }
  }

  lemma ConfirmLeavesClasses(db: Db, s: nat, staged: seq<string>, ceiling: Option<nat>, now: int)
    ensures LeavesClasses(db, Confirm(db, s, staged, ceiling, now))
  {
    ActivationsAreActivated(s, staged);
  }

  lemma PassiveNext(w: World, step: Step, config: Config)
    requires Inv(w, config) && Enabled(w, step) && !Writes(w, step.op)
    ensures StateOk(NextDb(w, step, config))
  {
    var after := NextDb(w, step, config);
    NextLeavesClasses(w, step, config);
    NextMail(w, step, config);
    assert forall id | id in after.mail && id !in w.db.mail :: !after.mail[id].kind.Alert? by {
      if step.op.DiscloseOp? {
        DiscloseMail(w.db, step.op.windowMs, step.op.at, step.now);
      } else if Settles(step.op) {
        SettlingMail(w, step, config);
      } else {
        OtherMail(w, step, config);
      }
    }
    assert Passive(w.db, after) by { RowsArePassive(w.db, after); }
    PassiveKeepsState(w.db, after);
  }

  lemma RowsArePassive(before: Db, after: Db)
    requires LeavesClasses(before, after) && RowsStep(before.mail, after.mail)
    requires forall id | id in after.mail && id !in before.mail :: !after.mail[id].kind.Alert?
    ensures Passive(before, after)
  {
    forall id | id in after.mail && after.mail[id].kind.Alert? && Active(after.mail[id])
      ensures id in before.mail && before.mail[id].kind.Alert? && Active(before.mail[id])
      ensures before.mail[id].classKey == after.mail[id].classKey && before.mail[id].reason == after.mail[id].reason
    {
      assert RowStep(before.mail[id], after.mail[id]);
    }
  }

  lemma NextState(w: World, step: Step, config: Config)
    requires Inv(w, config) && Enabled(w, step)
    ensures StateOk(NextDb(w, step, config))
  {
    if step.op.Commit? {
      var x := w.observers[step.op.o];
      assert ObserverOk(x, w.db);
      SwapKeepsState(w.db, x.key, x.base.version, x.targets, x.seen, x.reason, x.openedAt, step.now);
    } else if Writes(w, step.op) {
      var x := w.observers[step.op.o];
      WriteKeepsState(w.db, x.key, ActionOf(w, step.op).seen, NextVersion(w.db, x.key), None, step.now);
    } else {
      PassiveNext(w, step, config);
    }
  }

  // ----- watches -----

  /** The steps without the lock leave watches and subscribers alone. */
  lemma UnlockedStepsLeaveWatches(w: World, step: Step, config: Config)
    requires Enabled(w, step) && config.maxBackoffSeconds >= 1 && !Exclusive(w, step.op)
    ensures var after := NextDb(w, step, config);
            && after.watches == w.db.watches && after.subs == w.db.subs && after.nextSubscriber == w.db.nextSubscriber
            && (after.history == w.db.history
                || (|after.history| == |w.db.history| + 1 && after.history == w.db.history + [after.history[|w.db.history|]]
                    && !after.history[|w.db.history|].Activated?))
  {
    if Settles(step.op) {
      SettlingIsMail(w, step, config);
    } else if Mails(step.op) {
      MailingIsMail(w, step, config);
    } else if step.op.Observe? {
      ObserveDraws(w.db, w.observers[step.op.o].key, ActionOf(w, step.op), step.op.cutoff, step.now);
    }
  }

  lemma ObserveDraws(db: Db, key: string, action: Action, cutoff: nat, now: int)
    requires !action.Retire?
    ensures var after := ObserveDb(db, key, action, cutoff, now);
            && after.watches == db.watches && after.subs == db.subs && after.nextSubscriber == db.nextSubscriber
            && (after.history == db.history
                || (|after.history| == |db.history| + 1 && after.history == db.history + [after.history[|db.history|]]
                    && !after.history[|db.history|].Activated?))
  {
  }

  lemma SameWatches(before: Db, after: Db, ceiling: nat)
    requires WatchesOk(before) && WithinCeiling(before, ceiling)
    requires after.watches == before.watches && after.subs == before.subs && after.nextSubscriber == before.nextSubscriber
    requires after.history == before.history
    ensures WatchesOk(after) && WithinCeiling(after, ceiling)
  {
    assert Shrinks(before, after) by { assert forall k | k in before.watches :: WatchOk(k, before.watches[k], before.subs, before.history); }
    ShrinkingKeepsWatches(before, after, ceiling);
  }

  /** The transactions that only remove or retire. */
  predicate Removes(op: Op) { op.RemoveOp? || op.DeleteOp? || op.SweepOp? || op.Observe? }

  lemma RemovingShrinks(w: World, step: Step, config: Config)
    requires config.maxBackoffSeconds >= 1 && Enabled(w, step) && WatchesOk(w.db) && Exclusive(w, step.op) && Removes(step.op)
    ensures Shrinks(w.db, NextDb(w, step, config))
  {
    match step.op
    case RemoveOp(s, key) => RemovalsShrink(w.db, s, key, None, step.now);
    case DeleteOp(s) => DeleteShrinks(w.db, {s});
    case SweepOp(at) => SweepShrinks(w.db, at, step.now);
    case Observe(o, _, _, _, cutoff) => RemovalsShrink(w.db, 0, w.observers[o].key, Some(cutoff), step.now);
  }

  lemma NextWatches(w: World, step: Step, config: Config)
    requires Inv(w, config) && Enabled(w, step)
    ensures var after := NextDb(w, step, config); WatchesOk(after) && WithinCeiling(after, config.ceiling)
  {
    var db, now, after := w.db, step.now, NextDb(w, step, config);
    if !Exclusive(w, step.op) {
      UnlockedStepsLeaveWatches(w, step, config);
      if after.history == db.history {
        SameWatches(db, after, config.ceiling);
      } else {
        DrawingKeepsWatches(db, after, after.history[|db.history|], config.ceiling);
      }
    } else if Removes(step.op) {
      RemovingShrinks(w, step, config);
      ShrinkingKeepsWatches(db, after, config.ceiling);
    } else {
      match step.op
      case CreateOp(email, keys, maxSubscribers, suppressed) => CreateKeepsWatches(db, email, keys, maxSubscribers, suppressed, now, config.ceiling);
      case ConfirmOp(s, staged) => ConfirmKeepsWatches(db, s, staged, now, config.ceiling);
      case AddOp(s, key) => AddKeepsWatches(db, s, key, now, config.ceiling);
    }
  }

  // ----- who was ever activated -----

  lemma ActivationsKept(before: Db, after: Db)
    requires ActivationsOk(before) && before.nextSubscriber <= after.nextSubscriber
    requires |before.history| <= |after.history| && after.history[..|before.history|] == before.history
    requires forall s | s in after.subs :: s >= before.nextSubscriber
               || (s in before.subs && (before.subs[s].confirmedAt.Some? ==> after.subs[s].confirmedAt.Some?))
    requires forall n | |before.history| <= n < |after.history| && after.history[n].Activated? ::
               after.history[n].subscriber < after.nextSubscriber && IsConfirmed(after.subs, after.history[n].subscriber)
    ensures ActivationsOk(after)
  {
    assert forall n | 0 <= n < |before.history| :: after.history[n] == before.history[n];
  }

  lemma ConfirmActivations(db: Db, s: nat, staged: seq<string>, ceiling: Option<nat>, now: int)
    requires ActivationsOk(db) && forall t | t in db.subs :: t < db.nextSubscriber
    ensures ActivationsOk(Confirm(db, s, staged, ceiling, now))
  {
    ActivationsAreActivated(s, staged);
    ActivationsKept(db, Confirm(db, s, staged, ceiling, now));
  }

  lemma NextActivations(w: World, step: Step, config: Config)
    requires Inv(w, config) && Enabled(w, step)
    ensures ActivationsOk(NextDb(w, step, config))
  {
    var db, now, after := w.db, step.now, NextDb(w, step, config);
    if !Exclusive(w, step.op) {
      UnlockedStepsLeaveWatches(w, step, config);
      ActivationsKept(db, after);
    } else if Removes(step.op) {
      RemovingShrinks(w, step, config);
      ActivationsKept(db, after);
    } else {
      match step.op
      case CreateOp(email, keys, maxSubscribers, suppressed) =>
        if CreateOutcome(db, email, keys, maxSubscribers).Created? {
          CreateIs(db, email, keys, maxSubscribers, suppressed, now);
          ActivationsKept(db, after);
        }
      case ConfirmOp(s, staged) => ConfirmActivations(db, s, staged, Some(config.ceiling), now);
      case AddOp(s, key) => ActivationsKept(db, after);
    }
  }

  // ----- observers -----

  lemma EntryKept(before: Db, after: Db, key: string, row: ClassRow)
    requires |before.history| <= |after.history| && after.history[..|before.history|] == before.history
    requires IsEntry(before.history, key, row)
    ensures IsEntry(after.history, key, row)
  {
    assert after.history[..|before.history|][row.observedOrder - 1] == after.history[row.observedOrder - 1];
  }

  /** A class row stays or gives way to a later version. */
  ghost predicate RowAdvances(before: Db, after: Db, key: string) {
    key in before.classes ==>
      key in after.classes
      && (after.classes[key] == before.classes[key] || after.classes[key].version > before.classes[key].version)
  }

  /** For the holder of a lock, class rows advance, and who watches what stays. */
  lemma ObserverKept(x: Observer, before: Db, after: Db)
    requires ObserverOk(x, before)
    requires |before.history| <= |after.history| && after.history[..|before.history|] == before.history
    requires x.Selected? ==> RowAdvances(before, after, x.key) && after.watches == before.watches && after.subs == before.subs
    ensures ObserverOk(x, after)
  {
    if HeldRow(x).Some? { EntryKept(before, after, x.key, HeldRow(x).value); }
    if x.Selected? && FoundIt(x) && AtVersion(after, x.key, x.base.version) {
      assert after.classes[x.key] == before.classes[x.key];
      assert forall k | k in before.watches :: IsTarget(before, k, x.key, x.base.version) == IsTarget(after, k, x.key, x.base.version);
      assert Targets(before, x.key, x.base.version) == Targets(after, x.key, x.base.version);
    }
  }

  lemma WritesAdvance(w: World, step: Step, config: Config, key: string)
    requires Enabled(w, step) && config.maxBackoffSeconds >= 1 && key in w.db.classes && Writes(w, step.op)
    ensures var after := NextDb(w, step, config);
            key in after.classes && (after.classes[key] == w.db.classes[key] || after.classes[key].version > w.db.classes[key].version)
  {
  }

  /** Only a purge removes a class row. */
  lemma OthersKeepClasses(w: World, step: Step, config: Config, key: string)
    requires Enabled(w, step) && config.maxBackoffSeconds >= 1 && key in w.db.classes && !Writes(w, step.op) && !Purges(w, step, key)
    ensures key in NextDb(w, step, config).classes
  {
    if Settles(step.op) {
      SettlingIsMail(w, step, config);
    } else if Mails(step.op) {
      MailingIsMail(w, step, config);
    } else if step.op.CreateOp? && CreateOutcome(w.db, step.op.email, step.op.keys, step.op.maxSubscribers).Created? {
      CreateIs(w.db, step.op.email, step.op.keys, step.op.maxSubscribers, step.op.suppressed, step.now);
    }
  }

  lemma ClassesAdvance(w: World, step: Step, config: Config, key: string)
    requires Inv(w, config) && Enabled(w, step) && !Purges(w, step, key)
    ensures RowAdvances(w.db, NextDb(w, step, config), key)
  {
    if key in w.db.classes {
      if Writes(w, step.op) {
        WritesAdvance(w, step, config, key);
      } else {
        OthersKeepClasses(w, step, config, key);
        NextLeavesClasses(w, step, config);
      }
    }
  }

  lemma NextExtends(w: World, step: Step, config: Config)
    requires config.maxBackoffSeconds >= 1 && Enabled(w, step)
    ensures var after := NextDb(w, step, config);
            |w.db.history| <= |after.history| && after.history[..|w.db.history|] == w.db.history
  {
    if !Exclusive(w, step.op) {
      UnlockedStepsLeaveWatches(w, step, config);
    } else {
      NextLeavesClasses(w, step, config);
    }
  }

  lemma WaitingObserverOk(w: World, step: Step, config: Config, o: nat)
    requires Inv(w, config) && Enabled(w, step) && o in w.observers
    ensures ObserverOk(w.observers[o], NextDb(w, step, config))
  {
    var x := w.observers[o];
    assert ObserverOk(x, w.db);
    NextExtends(w, step, config);
    if x.Selected? {
      ClassesAdvance(w, step, config, x.key);
      UnlockedStepsLeaveWatches(w, step, config);
    }
    ObserverKept(x, w.db, NextDb(w, step, config));
  }

  lemma SelectingObserverOk(w: World, step: Step, config: Config)
    requires config.maxBackoffSeconds >= 1 && Enabled(w, step) && step.op.Observe?
    requires ObserverOk(w.observers[step.op.o], w.db)
    ensures var next := ObserveNext(w.db, w.observers[step.op.o], ActionOf(w, step.op));
            next.Some? ==> ObserverOk(next.value, NextDb(w, step, config))
  {
    if ActionOf(w, step.op).Open? {
      DecisionOpens(w.observers[step.op.o].previous, step.op.observation, step.op.trusted, step.op.processFresh);
      if !AtVersion(w.db, w.observers[step.op.o].key, ActionOf(w, step.op).version) {
        StaleSelectsNobody(w.db, w.observers[step.op.o].key, ActionOf(w, step.op).version);
      }
      assert NextDb(w, step, config) == w.db;
    }
  }

  lemma ReadingObserverOk(w: World, step: Step, config: Config)
    requires config.maxBackoffSeconds >= 1 && Enabled(w, step) && step.op.Read? && StateOk(w.db)
    ensures ObserverOk(Holding(step.op.key, Lookup(w.db.classes, step.op.key), step.now), NextDb(w, step, config))
  {
    if step.op.key in w.db.classes { assert IsLatest(w.db.history, step.op.key, w.db.classes[step.op.key]); }
  }

  lemma NextObserversOk(w: World, step: Step, config: Config)
    requires Inv(w, config) && Enabled(w, step)
    ensures ObserversOk(NextObservers(w, step), NextDb(w, step, config))
  {
    if step.op.Observe? {
      assert ObserverOk(w.observers[step.op.o], w.db);
      SelectingObserverOk(w, step, config);
    }
    if step.op.Read? { ReadingObserverOk(w, step, config); }
    forall o | o in w.observers ensures ObserverOk(w.observers[o], NextDb(w, step, config)) {
      WaitingObserverOk(w, step, config, o);
    }
  }

  // ----- all of it -----

  lemma StepKeepsInv(w: World, step: Step, config: Config)
    requires Inv(w, config) && Enabled(w, step)
    ensures Inv(Next(w, step, config), config)
  {
    NextMail(w, step, config);
    NextWatches(w, step, config);
    NextActivations(w, step, config);
    NextState(w, step, config);
    NextObserversOk(w, step, config);
  }
}
