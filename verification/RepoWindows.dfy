/** Blind-window disclosures over every run: once per window, and only for windows that are due. */
module RepoWindows {
  import opened RepoTables
  import opened RepoMail
  import opened RepoWatches
  import opened RepoWatchProofs
  import opened RepoState
  import opened RepoRuns
  import opened RepoInvariant
  import opened RepoTheorems
  import opened RepoFiling

  /** The step commits a successful read of the class. */
  ghost predicate ReadsClass(before: Db, after: Db, key: string) {
    exists n :: |before.history| <= n < |after.history| && after.history[n].Observed? && after.history[n].key == key
  }

  ghost predicate Activates(before: Db, after: Db, s: nat, key: string) {
    exists n :: |before.history| <= n < |after.history| && after.history[n] == Activated(s, key)
  }

  /** What decides the window of a watcher is as it was, or the watch is no longer active. */
  ghost predicate Calm(before: Db, after: Db, s: nat, key: string) {
    && Lookup(before.classes, key) == Lookup(after.classes, key)
    && ((s, key) in after.watches && Live(after.watches[(s, key)]) && after.watches[(s, key)].activatedAt.Some? ==>
          (s, key) in before.watches && Live(before.watches[(s, key)])
          && before.watches[(s, key)].activatedAt == after.watches[(s, key)].activatedAt)
  }

  ghost predicate MailAbout(mail: Mail, key: string) { exists id :: id in mail && mail[id].classKey == Some(key) }

  lemma WriteReads(db: Db, key: string, seen: Seen, version: nat, alerted: Option<Reason>, now: int)
    ensures ReadsClass(db, WriteRow(db, key, seen, version, alerted, now), key)
  {
    var after := WriteRow(db, key, seen, version, alerted, now);
    assert after.history[|db.history|].Observed?;
  }

  lemma WritingReads(w: World, step: Step, config: Config, key: string)
    requires config.maxBackoffSeconds >= 1 && Enabled(w, step) && Writes(w, step.op)
    requires !ReadsClass(w.db, NextDb(w, step, config), key)
    ensures Lookup(w.db.classes, key) == Lookup(NextDb(w, step, config).classes, key)
  {
    var x := w.observers[step.op.o];
    if step.op.Commit? {
      if AtVersion(w.db, x.key, x.base.version) { WriteReads(w.db, x.key, x.seen, x.base.version + 1, Some(x.reason), step.now); }
    } else {
      WriteReads(w.db, x.key, ActionOf(w, step.op).seen, NextVersion(w.db, x.key), None, step.now);
    }
  }

  lemma UnreadClassStays(w: World, step: Step, config: Config, key: string)
    requires config.maxBackoffSeconds >= 1 && Enabled(w, step)
    requires !ReadsClass(w.db, NextDb(w, step, config), key) && MailAbout(NextDb(w, step, config).mail, key)
    ensures Lookup(w.db.classes, key) == Lookup(NextDb(w, step, config).classes, key)
  {
    if Writes(w, step.op) { WritingReads(w, step, config, key); } else { NextLeavesClasses(w, step, config); }
  }

  lemma ConfirmActivates(db: Db, s: nat, staged: seq<string>, ceiling: Option<nat>, now: int, i: nat)
    requires ConfirmOutcome(db, s, staged, ceiling).Confirmed? && i < |staged|
    ensures Activates(db, Confirm(db, s, staged, ceiling, now), s, staged[i])
  {
    ActivationsAreActivated(s, staged);
    assert Confirm(db, s, staged, ceiling, now).history[|db.history| + i] == Activated(s, staged[i]);
  }

  lemma ConfirmIsCalm(db: Db, t: nat, staged: seq<string>, ceiling: Option<nat>, now: int, s: nat, key: string)
    requires IsStaged(db.watches, t, staged) && !Activates(db, Confirm(db, t, staged, ceiling, now), s, key)
    ensures Calm(db, Confirm(db, t, staged, ceiling, now), s, key)
  {
    if ConfirmOutcome(db, t, staged, ceiling).Confirmed? {
      ActivateAllAt(db.watches, t, staged, |db.history|, now, (s, key));
      forall i | 0 <= i < |staged| ensures Activates(db, Confirm(db, t, staged, ceiling, now), t, staged[i]) {
        ConfirmActivates(db, t, staged, ceiling, now, i);
      }
    }
  }

  lemma AddIsCalm(db: Db, t: nat, added: string, ceiling: Option<nat>, now: int, s: nat, key: string)
    requires !Activates(db, Add(db, t, added, ceiling, now), s, key)
    ensures Calm(db, Add(db, t, added, ceiling, now), s, key)
  {
    var after := Add(db, t, added, ceiling, now);
    if AddOutcome(db, t, added, ceiling).Added? && IsConfirmed(db.subs, t) {
      assert after.history[|db.history|] == Activated(t, added);
    }
  }

  lemma CreateIsCalm(db: Db, email: string, keys: set<string>, maxSubscribers: Option<nat>, suppressed: bool, now: int, s: nat, key: string)
    ensures Calm(db, Create(db, email, keys, maxSubscribers, suppressed, now), s, key)
  {
    if CreateOutcome(db, email, keys, maxSubscribers).Created? {
      CreateIs(db, email, keys, maxSubscribers, suppressed, now);
      StagedLookup(db.watches, db.nextSubscriber, keys, now, (s, key));
    }
  }

  lemma NextIsCalm(w: World, step: Step, config: Config, s: nat, key: string)
    requires Inv(w, config) && Enabled(w, step)
    requires var after := NextDb(w, step, config);
             !ReadsClass(w.db, after, key) && !Activates(w.db, after, s, key) && MailAbout(after.mail, key)
    ensures Calm(w.db, NextDb(w, step, config), s, key)
  {
    var db, now, after := w.db, step.now, NextDb(w, step, config);
    UnreadClassStays(w, step, config, key);
    if !Exclusive(w, step.op) {
      UnlockedStepsLeaveWatches(w, step, config);
    } else if Removes(step.op) {
      RemovingShrinks(w, step, config);
    } else {
      match step.op
      case CreateOp(email, keys, maxSubscribers, suppressed) => CreateIsCalm(db, email, keys, maxSubscribers, suppressed, now, s, key);
      case ConfirmOp(t, staged) => ConfirmIsCalm(db, t, staged, Some(config.ceiling), now, s, key);
      case AddOp(t, added) => AddIsCalm(db, t, added, Some(config.ceiling), now, s, key);
    }
  }

  /** A step from j - 1 to j of a run that neither reads the class nor activates the watch. */
  ghost predicate Idle(ws: seq<World>, t: nat, s: nat, key: string)
    requires t + 1 < |ws|
  {
    !ReadsClass(ws[t].db, ws[t + 1].db, key) && !Activates(ws[t].db, ws[t + 1].db, s, key)
  }

  lemma {:induction false} CalmOverRuns(ws: seq<World>, steps: seq<Step>, config: Config, i: nat, j: nat, id: JobId, s: nat, key: string)
    requires IsRun(ws, steps, config) && i <= j < |ws|
    requires id in ws[i].db.mail && id in ws[j].db.mail && ws[i].db.mail[id].classKey == Some(key)
    requires forall t | i <= t < j :: Idle(ws, t, s, key)
    ensures Calm(ws[i].db, ws[j].db, s, key) && ws[j].db.mail[id].classKey == Some(key)
    decreases j - i
  {
    if i < j {
      StaysFiled(ws, steps, config, i, j - 1, j, id);
      CalmOverRuns(ws, steps, config, i, j - 1, id, s, key);
      RunGrows(ws, steps, config, j - 1);
      assert RowStep(ws[j - 1].db.mail[id], ws[j].db.mail[id]);
      RunKeepsInv(ws, steps, config, j - 1);
      assert Idle(ws, j - 1, s, key) && MailAbout(ws[j].db.mail, key);
      assert IsStep(ws[j - 1], steps[j - 1], ws[j], config);
      NextIsCalm(ws[j - 1], steps[j - 1], config, s, key);
    }
  }

  /** The step files this disclosure. */
  ghost predicate Discloses(before: World, step: Step, id: JobId, s: nat, key: string) {
    step.op.DiscloseOp? && id == JobId(before.db.nextSerial, s, key)
    && (s, key) in before.db.watches && Blind(before.db, (s, key), step.op.windowMs, step.op.at)
  }

  lemma DisclosureRow(db: Db, windowMs: int, at: int, now: int, id: JobId)
    ensures id in Disclosures(db, windowMs, at, now) <==>
              id.serial == db.nextSerial && (id.subscriber, id.key) in db.watches && Blind(db, (id.subscriber, id.key), windowMs, at)
    ensures id in Disclosures(db, windowMs, at, now) ==>
              (id.subscriber, id.key) in Starts(db)
              && Disclosures(db, windowMs, at, now)[id] == NewDisclosure(id.subscriber, id.key, Starts(db)[(id.subscriber, id.key)], now)
  {
    var k := (id.subscriber, id.key);
    assert k in BlindWatches(db, windowMs, at) <==> k in db.watches && Blind(db, k, windowMs, at);
    if id in Disclosures(db, windowMs, at, now) { assert id == JobId(db.nextSerial, k.0, k.1); }
    if k in BlindWatches(db, windowMs, at) { assert k in Starts(db); }
  }

  /** Who is due for a disclosure, and the window that is disclosed. */
  predicate IsDue(db: Db, k: WatchKey, j: Job, windowMs: int, at: int) {
    && k in db.watches && Live(db.watches[k]) && db.watches[k].activatedAt.Some? && IsConfirmed(db.subs, k.0)
    && j.openedAt.Some? && j.kind.BlindWindow? && j.subscriber == Some(k.0) && j.classKey == Some(k.1)
    && db.watches[k].activatedAt.value <= j.openedAt.value <= at - windowMs
    && (k.1 in db.classes ==> db.classes[k.1].updatedAt <= j.openedAt.value && db.classes[k.1].freshUntil <= at)
    && j.openedAt.value == WindowStart(db, k.1, db.watches[k].activatedAt.value)
  }

  lemma BlindIsDue(db: Db, k: WatchKey, windowMs: int, at: int, now: int)
    requires k in db.watches && Blind(db, k, windowMs, at) && k in Starts(db)
    ensures IsDue(db, k, NewDisclosure(k.0, k.1, Starts(db)[k], now), windowMs, at)
  {
  }

  /** A disclosure is for a live watch of a Confirmed subscriber whose window is over the horizon and whose class is stale. */
  lemma DisclosuresAreDue(w: World, step: Step, config: Config, id: JobId)
    requires Inv(w, config) && Enabled(w, step) && step.op.DiscloseOp?
    ensures id in NextDb(w, step, config).mail && id !in w.db.mail <==> Discloses(w, step, id, id.subscriber, id.key)
    ensures id in NextDb(w, step, config).mail && id !in w.db.mail ==>
              IsDue(w.db, (id.subscriber, id.key), NextDb(w, step, config).mail[id], step.op.windowMs, step.op.at)
  {
    DisclosureRow(w.db, step.op.windowMs, step.op.at, step.now, id);
    if id in Disclosures(w.db, step.op.windowMs, step.op.at, step.now) {
      BlindIsDue(w.db, (id.subscriber, id.key), step.op.windowMs, step.op.at, step.now);
    }
  }

  /** The disclosure of a window is on file. */
  predicate OnFile(db: Db, id: JobId, s: nat, key: string, start: int) {
    id in db.mail && db.mail[id].kind.BlindWindow? && db.mail[id].subscriber == Some(s) && db.mail[id].classKey == Some(key)
    && db.mail[id].openedAt == Some(start)
  }

  lemma SameWindowIsFiled(before: Db, after: Db, id: JobId, s: nat, key: string, windowMs: int, at: int)
    requires Calm(before, after, s, key)
    requires (s, key) in before.watches && before.watches[(s, key)].activatedAt.Some?
    requires OnFile(after, id, s, key, WindowStart(before, key, before.watches[(s, key)].activatedAt.value))
    ensures !Blind(after, (s, key), windowMs, at)
  {
  }

  lemma DisclosedIsOnFile(ws: seq<World>, steps: seq<Step>, config: Config, i: nat, id: JobId, s: nat, key: string)
    requires IsRun(ws, steps, config) && i < |steps| && Discloses(ws[i], steps[i], id, s, key)
    ensures ws[i + 1].db.watches == ws[i].db.watches && ws[i].db.watches[(s, key)].activatedAt.Some?
    ensures OnFile(ws[i + 1].db, id, s, key, WindowStart(ws[i + 1].db, key, ws[i].db.watches[(s, key)].activatedAt.value))
  {
    RunKeepsInv(ws, steps, config, i);
    assert IsStep(ws[i], steps[i], ws[i + 1], config);
    DisclosuresAreDue(ws[i], steps[i], config, id);
  }

  /** What the first disclosure leaves behind keeps an idle run from making a second one. */
  lemma IdleDisclosesNothing(
    ws: seq<World>, steps: seq<Step>, config: Config, i: nat, j: nat, first: JobId, second: JobId, s: nat, key: string)
    requires IsRun(ws, steps, config) && i <= j < |steps| && (s, key) in ws[i].db.watches && ws[i].db.watches[(s, key)].activatedAt.Some?
    requires OnFile(ws[i].db, first, s, key, WindowStart(ws[i].db, key, ws[i].db.watches[(s, key)].activatedAt.value))
    requires first in ws[j].db.mail && ws[j].db.mail[first].subscriber == Some(s)
    requires forall t | i <= t < j :: Idle(ws, t, s, key)
    ensures !Discloses(ws[j], steps[j], second, s, key)
  {
    RowsStepOverRuns(ws, steps, config, i, j, first);
    CalmOverRuns(ws, steps, config, i, j, first, s, key);
    if steps[j].op.DiscloseOp? { SameWindowIsFiled(ws[i].db, ws[j].db, first, s, key, steps[j].op.windowMs, steps[j].op.at); }
  }

  /** If the first disclosure is gone while its subscriber is there, the sweep took it. */
  lemma GoneIsPurged(ws: seq<World>, steps: seq<Step>, config: Config, i: nat, j: nat, first: JobId, s: nat, key: string)
    requires IsRun(ws, steps, config) && i < j < |steps| && Discloses(ws[i], steps[i], first, s, key)
    requires s in ws[j].db.subs && !FiledFor(ws[j].db, first, s)
    ensures exists t :: i < t < j && PurgesRow(ws[t], steps[t], first)
  {
    DisclosedIsOnFile(ws, steps, config, i, first, s, key);
    assert s in ws[i + 1].db.subs by { assert IsStep(ws[i], steps[i], ws[i + 1], config); }
    var t := RowsGoBySweep(ws, steps, config, i + 1, j, first, s);
  }

  lemma IdleKeepsFirst(
    ws: seq<World>, steps: seq<Step>, config: Config, i: nat, j: nat, first: JobId, second: JobId, s: nat, key: string)
    requires IsRun(ws, steps, config) && i < j < |steps|
    requires Discloses(ws[i], steps[i], first, s, key) && Discloses(ws[j], steps[j], second, s, key)
    requires FiledFor(ws[j].db, first, s)
    ensures exists t :: i < t < j && !Idle(ws, t, s, key)
  {
    DisclosedIsOnFile(ws, steps, config, i, first, s, key);
    if forall t | i < t < j :: Idle(ws, t, s, key) { IdleDisclosesNothing(ws, steps, config, i + 1, j, first, second, s, key); }
  }

  /**
   Two disclosures to one subscriber for one class: a step in between read the class or activated
   the watch again, or the retention sweep purged the first one, which was settled ninety days
   before.
   */
  lemma WindowsAreSeparated(
    ws: seq<World>, steps: seq<Step>, config: Config, i: nat, j: nat, first: JobId, second: JobId, s: nat, key: string)
    requires IsRun(ws, steps, config) && i < j < |steps|
    requires Discloses(ws[i], steps[i], first, s, key) && Discloses(ws[j], steps[j], second, s, key)
    ensures (exists t :: i < t < j && !Idle(ws, t, s, key)) || (exists t :: i < t < j && PurgesRow(ws[t], steps[t], first))
  {
    if FiledFor(ws[j].db, first, s) {
      IdleKeepsFirst(ws, steps, config, i, j, first, second, s, key);
    } else {
      GoneIsPurged(ws, steps, config, i, j, first, s, key);
    }
  }
}
