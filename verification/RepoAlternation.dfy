/**
 Openings alternate with closed readings: between two openings of a class for one reason a
 committed class state has the reason closed.

 An opening is decided on a row that may be purged while its observer holds it, and a purge starts
 the versions again at zero, so that a stale compare-and-set can win.  The theorems hold as long as
 no opening that wins is disturbed by an earlier one; RepoFreshness says when none can be, and
 RepoPurge has runs in which one is.
 */
module RepoAlternation {
  import opened RepoTables
  import opened RepoState
  import opened RepoStateProofs
  import opened RepoRuns
  import opened RepoInvariant
  import opened RepoTheorems
  import opened RepoWindows
  import opened RepoRecipients

  /** No opening of the class was committed from this value of the sequence on. */
  predicate NoAlertSince(history: seq<Entry>, key: string, from: nat) {
    forall i | from <= i < |history| :: !(history[i].Observed? && history[i].key == key && history[i].alerted.Some?)
  }

  /** Should the version of a held row be current, no opening was committed since the row was. */
  predicate StillGood(db: Db, key: string, base: ClassRow) {
    if key in db.classes
    then base.version <= db.classes[key].version
         && (base.version == db.classes[key].version ==> NoAlertSince(db.history, key, base.observedOrder))
    else base.version == 0 && NoAlertSince(db.history, key, base.observedOrder)
  }

  predicate HoldsFirst(x: Observer) { HeldRow(x).Some? && HeldRow(x).value.version == 0 }

  ghost predicate HeldsGood(observers: Observers, db: Db) {
    forall o | o in observers && HoldsFirst(observers[o]) :: StillGood(db, observers[o].key, HeldRow(observers[o]).value)
  }

  /** A purge of the class of a first version that is held takes that very row. */
  ghost predicate TakesOwn(w: World, step: Step) {
    forall o | o in w.observers && HoldsFirst(w.observers[o]) && TakesHeld(w, step, o) ::
      w.db.classes[w.observers[o].key] == HeldRow(w.observers[o]).value
  }

  lemma CurrentIsGood(db: Db, key: string)
    requires StateOk(db) && key in db.classes
    ensures NoAlertSince(db.history, key, db.classes[key].observedOrder)
  {
    assert IsLatest(db.history, key, db.classes[key]);
  }

  // ----- held rows -----

  lemma WriteKeepsGood(db: Db, key: string, base: ClassRow, written: string, seen: Seen, version: nat, alerted: Option<Reason>, now: int)
    requires StillGood(db, key, base)
    requires if written in db.classes then version > db.classes[written].version else version == 0 && alerted.None?
    ensures StillGood(WriteRow(db, written, seen, version, alerted, now), key, base)
  {
  }

  lemma WritingKeepsGood(w: World, step: Step, config: Config, key: string, base: ClassRow)
    requires Inv(w, config) && Enabled(w, step) && Writes(w, step.op) && StillGood(w.db, key, base)
    ensures StillGood(NextDb(w, step, config), key, base)
  {
    var x := w.observers[step.op.o];
    if step.op.Commit? {
      if AtVersion(w.db, x.key, x.base.version) {
        WriteKeepsGood(w.db, key, base, x.key, x.seen, x.base.version + 1, Some(x.reason), step.now);
      }
    } else {
      WriteKeepsGood(w.db, key, base, x.key, ActionOf(w, step.op).seen, NextVersion(w.db, x.key), None, step.now);
    }
  }

  lemma LeavingKeepsSilence(before: Db, after: Db, key: string, from: nat)
    requires NoAlertSince(before.history, key, from) && LeavesClasses(before, after)
    ensures NoAlertSince(after.history, key, from)
  {
    assert forall i | 0 <= i < |before.history| :: after.history[..|before.history|][i] == after.history[i];
  }

  lemma LeavingKeepsGood(before: Db, after: Db, key: string, base: ClassRow)
    requires StateOk(before) && StillGood(before, key, base) && LeavesClasses(before, after)
    requires key in before.classes && key !in after.classes ==> base.version == 0 && before.classes[key] == base
    ensures StillGood(after, key, base)
  {
    if key in before.classes && key !in after.classes { CurrentIsGood(before, key); }
    if NoAlertSince(before.history, key, base.observedOrder) { LeavingKeepsSilence(before, after, key, base.observedOrder); }
  }

  lemma HeldKeepsGood(w: World, step: Step, config: Config, o: nat)
    requires Inv(w, config) && HeldsGood(w.observers, w.db) && Enabled(w, step) && TakesOwn(w, step)
    requires o in w.observers && HoldsFirst(w.observers[o])
    ensures StillGood(NextDb(w, step, config), w.observers[o].key, HeldRow(w.observers[o]).value)
  {
    var key, base := w.observers[o].key, HeldRow(w.observers[o]).value;
    if Writes(w, step.op) {
      WritingKeepsGood(w, step, config, key, base);
    } else {
      NextLeavesClasses(w, step, config);
      if key in w.db.classes && key !in NextDb(w, step, config).classes {
        if !Purges(w, step, key) { OthersKeepClasses(w, step, config, key); }
        assert TakesHeld(w, step, o);
      }
      LeavingKeepsGood(w.db, NextDb(w, step, config), key, base);
    }
  }

  lemma NewHeldIsGood(w: World, step: Step, config: Config)
    requires Inv(w, config) && HeldsGood(w.observers, w.db) && Enabled(w, step)
    requires step.op.Read? || (step.op.Observe? && ActionOf(w, step.op).Open?)
    ensures var x := NextObservers(w, step)[step.op.o];
            HoldsFirst(x) ==> StillGood(NextDb(w, step, config), x.key, HeldRow(x).value)
  {
    if step.op.Read? && step.op.key in w.db.classes { CurrentIsGood(w.db, step.op.key); }
    assert NextDb(w, step, config) == w.db;
  }

  lemma NextHeldsGood(w: World, step: Step, config: Config)
    requires Inv(w, config) && HeldsGood(w.observers, w.db) && Enabled(w, step) && TakesOwn(w, step)
    ensures HeldsGood(NextObservers(w, step), NextDb(w, step, config))
  {
    if step.op.Read? || (step.op.Observe? && ActionOf(w, step.op).Open?) { NewHeldIsGood(w, step, config); }
    forall o | o in w.observers && HoldsFirst(w.observers[o])
      ensures StillGood(NextDb(w, step, config), w.observers[o].key, HeldRow(w.observers[o]).value)
    {
      HeldKeepsGood(w, step, config, o);
    }
  }

  // ----- the history -----

  /** An opening alternates if its reason was closed at `m` and no opening came after that. */
  lemma AppendAlternates(history: seq<Entry>, e: Entry, m: nat)
    requires OpeningsAreOpen(history) && Alternates(history)
    requires e.Observed? && e.alerted.Some? ==>
               m < |history| && Closed(history[m], e.key, e.alerted.value) && NoAlertSince(history, e.key, m + 1)
    ensures Alternates(history + [e])
  {
    var after := history + [e];
    forall i, j, c, reason | 0 <= i < j < |after| && Opened(after[i], c, reason) && Opened(after[j], c, reason)
      ensures exists n :: i < n < j && Closed(after[n], c, reason)
    {
      if j < |history| {
        var n :| i < n < j && Closed(history[n], c, reason);
        assert Closed(after[n], c, reason);
      } else {
        assert ReasonOpen(history[i].row, reason);
        assert i < m && Closed(after[m], c, reason);
      }
    }
  }

  lemma PassiveAlternates(before: seq<Entry>, after: seq<Entry>)
    requires Alternates(before)
    requires |before| <= |after| && after[..|before|] == before
    requires forall i | |before| <= i < |after| :: !after[i].Observed?
    ensures Alternates(after)
  {
    assert forall i | 0 <= i < |before| :: after[i] == before[i];
    forall i, j, key, reason | 0 <= i < j < |after| && Opened(after[i], key, reason) && Opened(after[j], key, reason)
      ensures exists m :: i < m < j && Closed(after[m], key, reason)
    {
      var m :| i < m < j && Closed(before[m], key, reason);
      assert Closed(after[m], key, reason);
    }
  }

  lemma BaseIsClosed(db: Db, x: Observer)
    requires x.Selected? && ObserverOk(x, db)
    ensures 0 < x.base.observedOrder <= |db.history| && Closed(db.history[x.base.observedOrder - 1], x.key, x.reason)
  {
  }

  lemma SwapHistory(db: Db, x: Observer, now: int)
    requires x.Selected? && AtVersion(db, x.key, x.base.version)
    ensures Swap(db, x.key, x.base.version, x.targets, x.seen, x.reason, x.openedAt, now).history
         == db.history + [Observed(x.key, RowFor(x.seen, x.base.version + 1, |db.history| + 1, now), Some(x.reason))]
  {
  }

  lemma CommitAlternates(db: Db, x: Observer, now: int)
    requires StateOk(db) && Alternates(db.history) && x.Selected? && ObserverOk(x, db)
    requires AtVersion(db, x.key, x.base.version) ==> NoAlertSince(db.history, x.key, x.base.observedOrder)
    ensures Alternates(Swap(db, x.key, x.base.version, x.targets, x.seen, x.reason, x.openedAt, now).history)
  {
    if AtVersion(db, x.key, x.base.version) {
      BaseIsClosed(db, x);
      SwapHistory(db, x, now);
      AppendAlternates(db.history, Observed(x.key, RowFor(x.seen, x.base.version + 1, |db.history| + 1, now), Some(x.reason)),
                       x.base.observedOrder - 1);
    }
  }

  lemma OtherAlternates(w: World, step: Step, config: Config)
    requires config.maxBackoffSeconds >= 1 && StateOk(w.db) && Alternates(w.db.history) && Enabled(w, step) && !step.op.Commit?
    ensures Alternates(NextDb(w, step, config).history)
  {
    if Writes(w, step.op) {
      var x := w.observers[step.op.o];
      var row := RowFor(ActionOf(w, step.op).seen, NextVersion(w.db, x.key), |w.db.history| + 1, step.now);
      AppendAlternates(w.db.history, Observed(x.key, row, None), 0);
    } else {
      NextLeavesClasses(w, step, config);
      PassiveAlternates(w.db.history, NextDb(w, step, config).history);
    }
  }

  /** The opening wins its compare-and-set. */
  predicate Wins(w: World, step: Step) {
    && step.op.Commit? && step.op.o in w.observers && w.observers[step.op.o].Selected?
    && AtVersion(w.db, w.observers[step.op.o].key, w.observers[step.op.o].base.version)
  }

  /** An opening that wins comes after no other opening of the class since the row it was decided on. */
  predicate Undisturbed(w: World, step: Step) {
    Wins(w, step) ==>
      NoAlertSince(w.db.history, w.observers[step.op.o].key, w.observers[step.op.o].base.observedOrder)
  }

  lemma NextAlternates(w: World, step: Step, config: Config)
    requires Inv(w, config) && Alternates(w.db.history) && Enabled(w, step) && Undisturbed(w, step)
    ensures Alternates(NextDb(w, step, config).history)
  {
    if step.op.Commit? {
      var x := w.observers[step.op.o];
      assert ObserverOk(x, w.db);
      CommitAlternates(w.db, x, step.now);
    } else {
      OtherAlternates(w, step, config);
    }
  }

  // ----- runs -----

  ghost predicate AllUndisturbed(ws: seq<World>, steps: seq<Step>)
    requires |ws| == |steps| + 1
  {
    forall t {:trigger steps[t]} | 0 <= t < |steps| :: Undisturbed(ws[t], steps[t])
  }

  lemma {:induction false} RunAlternates(ws: seq<World>, steps: seq<Step>, config: Config, t: nat)
    requires IsRun(ws, steps, config) && AllUndisturbed(ws, steps) && t < |ws|
    ensures Alternates(ws[t].db.history)
  {
    if t > 0 {
      RunAlternates(ws, steps, config, t - 1);
      RunKeepsInv(ws, steps, config, t - 1);
      assert IsStep(ws[t - 1], steps[t - 1], ws[t], config) && Undisturbed(ws[t - 1], steps[t - 1]);
      NextAlternates(ws[t - 1], steps[t - 1], config);
    }
  }

  /** In every reachable world two openings of one class for one reason have a closed reading between them. */
  lemma HistoryAlternates(ws: seq<World>, steps: seq<Step>, config: Config, t: nat, i: nat, j: nat, key: string, reason: Reason)
    requires IsRun(ws, steps, config) && AllUndisturbed(ws, steps) && t < |ws| && i < j < |ws[t].db.history|
    requires Opened(ws[t].db.history[i], key, reason) && Opened(ws[t].db.history[j], key, reason)
    ensures exists m :: i < m < j && Closed(ws[t].db.history[m], key, reason)
  {
    RunAlternates(ws, steps, config, t);
  }

  /** The step commits an opening of the class for the reason. */
  ghost predicate Opening(w: World, step: Step, key: string, reason: Reason) {
    Wins(w, step) && w.observers[step.op.o].key == key && w.observers[step.op.o].reason == reason
  }

  predicate ClassClosed(w: World, key: string, reason: Reason) { key in w.db.classes && !ReasonOpen(w.db.classes[key], reason) }

  lemma OpeningDraws(ws: seq<World>, steps: seq<Step>, config: Config, i: nat, key: string, reason: Reason)
    requires IsRun(ws, steps, config) && i < |steps| && Opening(ws[i], steps[i], key, reason)
    ensures |ws[i + 1].db.history| == |ws[i].db.history| + 1 && Opened(ws[i + 1].db.history[|ws[i].db.history|], key, reason)
  {
    assert IsStep(ws[i], steps[i], ws[i + 1], config);
  }

  /** A committed reading is the class's row once its step is done. */
  lemma DrawnIsCurrent(ws: seq<World>, steps: seq<Step>, config: Config, t: nat, n: nat, key: string)
    requires IsRun(ws, steps, config) && t < |steps| && |ws[t].db.history| <= n < |ws[t + 1].db.history|
    requires ws[t + 1].db.history[n].Observed? && ws[t + 1].db.history[n].key == key
    ensures key in ws[t + 1].db.classes && ws[t + 1].db.classes[key] == ws[t + 1].db.history[n].row
  {
    assert IsStep(ws[t], steps[t], ws[t + 1], config);
    assert ReadsClass(ws[t].db, ws[t + 1].db, key);
    ReadingDrawsOne(ws[t], steps[t], config, key);
    ReadingWrites(ws[t], steps[t], config, key);
  }

  lemma ReadingWrites(w: World, step: Step, config: Config, key: string)
    requires config.maxBackoffSeconds >= 1 && Enabled(w, step) && ReadsClass(w.db, NextDb(w, step, config), key)
    ensures var after := NextDb(w, step, config);
            |after.history| > |w.db.history| && key in after.classes
            && after.history[|w.db.history|].Observed? && after.classes[key] == after.history[|w.db.history|].row
  {
    if !Writes(w, step.op) { NextLeavesClasses(w, step, config); }
  }

  /** Between two openings of a class for one reason, a committed class state has the reason closed. */
  lemma OpeningsAlternate(ws: seq<World>, steps: seq<Step>, config: Config, i: nat, j: nat, key: string, reason: Reason)
    requires IsRun(ws, steps, config) && AllUndisturbed(ws, steps) && i < j < |steps|
    requires Opening(ws[i], steps[i], key, reason) && Opening(ws[j], steps[j], key, reason)
    ensures exists t :: i + 1 < t <= j && ClassClosed(ws[t], key, reason)
  {
    OpeningDraws(ws, steps, config, i, key, reason);
    OpeningDraws(ws, steps, config, j, key, reason);
    var a, b := |ws[i].db.history|, |ws[j].db.history|;
    HistoryGrows(ws, steps, config, i + 1, j + 1);
    HistoryGrows(ws, steps, config, i + 1, j);
    HistoryGrows(ws, steps, config, j, j + 1);
    var h := ws[j + 1].db.history;
    assert h[..|ws[i + 1].db.history|][a] == h[a];
    HistoryAlternates(ws, steps, config, j + 1, a, b, key, reason);
    var m :| a < m < b && Closed(h[m], key, reason);
    assert h[..b][m] == h[m];
    ClosedByAStep(ws, steps, config, i + 1, j, m, key, reason);
  }

  /** A closed reading drawn between two worlds is the class's row in one of the worlds between. */
  lemma {:induction false} ClosedByAStep(
    ws: seq<World>, steps: seq<Step>, config: Config, i: nat, j: nat, m: nat, key: string, reason: Reason)
    requires IsRun(ws, steps, config) && i <= j < |ws| && |ws[i].db.history| <= m < |ws[j].db.history|
    requires Closed(ws[j].db.history[m], key, reason)
    ensures exists t :: i < t <= j && ClassClosed(ws[t], key, reason)
    decreases j - i
  {
    HistoryGrows(ws, steps, config, j - 1, j);
    if m < |ws[j - 1].db.history| {
      assert ws[j].db.history[..|ws[j - 1].db.history|][m] == ws[j].db.history[m];
      ClosedByAStep(ws, steps, config, i, j - 1, m, key, reason);
    } else {
      DrawnIsCurrent(ws, steps, config, j - 1, m, key);
      assert ClassClosed(ws[j], key, reason);
    }
  }

  // ----- openings on the row that was read -----

  /** An opening whose compare-and-set wins finds the visibility order it read, not only the version. */
  predicate OrderHolds(w: World, step: Step) {
    Wins(w, step) ==>
      w.db.classes[w.observers[step.op.o].key].observedOrder == w.observers[step.op.o].base.observedOrder
  }

  lemma OrderedIsUndisturbed(w: World, step: Step, config: Config)
    requires Inv(w, config) && OrderHolds(w, step)
    ensures Undisturbed(w, step)
  {
    if Wins(w, step) { CurrentIsGood(w.db, w.observers[step.op.o].key); }
  }

  /** Whatever is purged, openings alternate in a run whose winning openings all find the order they read. */
  lemma OrderedOpeningsAlternate(ws: seq<World>, steps: seq<Step>, config: Config, t: nat)
    requires IsRun(ws, steps, config) && t < |ws|
    requires forall i {:trigger steps[i]} | 0 <= i < |steps| :: OrderHolds(ws[i], steps[i])
    ensures Alternates(ws[t].db.history)
  {
    forall i {:trigger steps[i]} | 0 <= i < |steps| ensures Undisturbed(ws[i], steps[i]) {
      RunKeepsInv(ws, steps, config, i);
      OrderedIsUndisturbed(ws[i], steps[i], config);
    }
    RunAlternates(ws, steps, config, t);
  }

  // ----- readings that are not held long -----

  /** A row that replaced what an observer holds was written since it read. */
  ghost predicate Young(w: World) {
    forall o | o in w.observers && HeldRow(w.observers[o]).Some? ::
      && w.observers[o].readAt <= w.clock
      && (w.observers[o].key in w.db.classes && w.db.classes[w.observers[o].key] != HeldRow(w.observers[o]).value ==>
            w.db.classes[w.observers[o].key].updatedAt >= w.observers[o].readAt)
  }

  ghost predicate AllPrompt(ws: seq<World>, steps: seq<Step>)
    requires |ws| == |steps| + 1
  {
    forall t {:trigger steps[t]} | 0 <= t < |steps| :: Prompt(ws[t], steps[t])
  }

  lemma WritesAreYoung(w: World, step: Step, config: Config, key: string)
    requires config.maxBackoffSeconds >= 1 && Enabled(w, step) && key in NextDb(w, step, config).classes
    ensures var after := NextDb(w, step, config);
            (key in w.db.classes && after.classes[key] == w.db.classes[key]) || after.classes[key].updatedAt == step.now
  {
    if !Writes(w, step.op) { NextLeavesClasses(w, step, config); }
  }

  lemma NextYoung(w: World, step: Step, config: Config)
    requires config.maxBackoffSeconds >= 1 && Enabled(w, step) && Young(w) && w.clock <= step.now
    ensures Young(Next(w, step, config))
  {
    var next := Next(w, step, config);
    forall o | o in next.observers && HeldRow(next.observers[o]).Some?
      ensures next.observers[o].readAt <= next.clock
      ensures next.observers[o].key in next.db.classes && next.db.classes[next.observers[o].key] != HeldRow(next.observers[o]).value ==>
                next.db.classes[next.observers[o].key].updatedAt >= next.observers[o].readAt
    {
      if next.observers[o].key in next.db.classes { WritesAreYoung(w, step, config, next.observers[o].key); }
      if step.op.Read? && o == step.op.o { assert next.db == w.db; } else { assert o in w.observers; }
    }
  }

  lemma {:induction false} RunIsYoung(ws: seq<World>, steps: seq<Step>, config: Config, t: nat)
    requires IsRun(ws, steps, config) && AllPrompt(ws, steps) && t < |ws|
    ensures Young(ws[t])
  {
    if t > 0 {
      RunIsYoung(ws, steps, config, t - 1);
      assert IsStep(ws[t - 1], steps[t - 1], ws[t], config) && Prompt(ws[t - 1], steps[t - 1]);
      NextYoung(ws[t - 1], steps[t - 1], config);
    }
  }

  /** A sweep that is not ahead of the clock purges, of the classes whose readings are held, only the rows that were read. */
  lemma PromptPurge(w: World, step: Step, o: nat)
    requires Young(w) && Prompt(w, step) && o in w.observers && TakesHeld(w, step, o)
    ensures w.db.classes[w.observers[o].key] == HeldRow(w.observers[o]).value
  {
  }

  /** An opening that wins was decided on a first version, or finds the order it read. */
  predicate FirstOrOrdered(w: World, step: Step) {
    Wins(w, step) && w.observers[step.op.o].base.version > 0 ==> OrderHolds(w, step)
  }

  ghost predicate AllFirstOrOrdered(ws: seq<World>, steps: seq<Step>)
    requires |ws| == |steps| + 1
  {
    forall t {:trigger steps[t]} | 0 <= t < |steps| :: FirstOrOrdered(ws[t], steps[t])
  }

  lemma PromptTakesOwn(w: World, step: Step)
    requires Young(w) && Prompt(w, step)
    ensures TakesOwn(w, step)
  {
    forall o | o in w.observers && TakesHeld(w, step, o)
      ensures w.db.classes[w.observers[o].key] == HeldRow(w.observers[o]).value
    {
      PromptPurge(w, step, o);
    }
  }

  lemma {:induction false} RunIsGood(ws: seq<World>, steps: seq<Step>, config: Config, t: nat)
    requires IsRun(ws, steps, config) && AllPrompt(ws, steps) && t < |ws|
    ensures HeldsGood(ws[t].observers, ws[t].db)
  {
    if t > 0 {
      RunIsGood(ws, steps, config, t - 1);
      RunKeepsInv(ws, steps, config, t - 1);
      RunIsYoung(ws, steps, config, t - 1);
      assert IsStep(ws[t - 1], steps[t - 1], ws[t], config) && Prompt(ws[t - 1], steps[t - 1]);
      PromptTakesOwn(ws[t - 1], steps[t - 1]);
      NextHeldsGood(ws[t - 1], steps[t - 1], config);
    }
  }

  lemma GoodIsUndisturbed(w: World, step: Step, config: Config)
    requires Inv(w, config) && HeldsGood(w.observers, w.db) && FirstOrOrdered(w, step)
    ensures Undisturbed(w, step)
  {
    if Wins(w, step) {
      if w.observers[step.op.o].base.version == 0 { assert HoldsFirst(w.observers[step.op.o]); }
      else { OrderedIsUndisturbed(w, step, config); }
    }
  }

  /**
   With no reading held as long as the retention and no sweep ahead of the clock, openings
   alternate, whatever is purged, if those that win past the first version find the order they read.
   */
  lemma PromptOpeningsAlternate(ws: seq<World>, steps: seq<Step>, config: Config, i: nat, j: nat, key: string, reason: Reason)
    requires IsRun(ws, steps, config) && AllPrompt(ws, steps) && AllFirstOrOrdered(ws, steps) && i < j < |steps|
    requires Opening(ws[i], steps[i], key, reason) && Opening(ws[j], steps[j], key, reason)
    ensures exists t :: i + 1 < t <= j && ClassClosed(ws[t], key, reason)
  {
    forall t {:trigger steps[t]} | 0 <= t < |steps| ensures Undisturbed(ws[t], steps[t]) {
      RunKeepsInv(ws, steps, config, t);
      RunIsGood(ws, steps, config, t);
      GoodIsUndisturbed(ws[t], steps[t], config);
    }
    OpeningsAlternate(ws, steps, config, i, j, key, reason);
  }

  // ----- readings whose rows are spared -----

  /** The held row is current or was replaced by later versions, and so was it for the select. */
  predicate StillThere(db: Db, x: Observer) {
    HeldRow(x).Some? ==>
      && Recent(db, x.key, HeldRow(x).value)
      && (x.Selected? ==> x.found.Some? && x.base.version <= x.found.value.version)
  }

  ghost predicate HeldsThere(observers: Observers, db: Db) { forall o | o in observers :: StillThere(db, observers[o]) }

  lemma HeldStaysThere(w: World, step: Step, config: Config, o: nat)
    requires Inv(w, config) && HeldsThere(w.observers, w.db) && Enabled(w, step) && SparesHeld(w, step) && o in w.observers
    ensures StillThere(NextDb(w, step, config), w.observers[o])
  {
    if HeldRow(w.observers[o]).Some? {
      assert !TakesHeld(w, step, o) && StillThere(w.db, w.observers[o]);
      ClassesAdvance(w, step, config, w.observers[o].key);
    }
  }

  lemma NextHeldsThere(w: World, step: Step, config: Config)
    requires Inv(w, config) && HeldsThere(w.observers, w.db) && Enabled(w, step) && SparesHeld(w, step)
    ensures HeldsThere(NextObservers(w, step), NextDb(w, step, config))
  {
    forall o | o in w.observers ensures StillThere(NextDb(w, step, config), w.observers[o]) {
      HeldStaysThere(w, step, config, o);
    }
    if step.op.Observe? { assert StillThere(w.db, w.observers[step.op.o]); }
  }

  lemma {:induction false} RunStaysThere(ws: seq<World>, steps: seq<Step>, config: Config, t: nat)
    requires IsRun(ws, steps, config) && t < |ws|
    requires forall i {:trigger steps[i]} | 0 <= i < |steps| :: SparesHeld(ws[i], steps[i])
    ensures HeldsThere(ws[t].observers, ws[t].db)
  {
    if t > 0 {
      RunStaysThere(ws, steps, config, t - 1);
      RunKeepsInv(ws, steps, config, t - 1);
      assert IsStep(ws[t - 1], steps[t - 1], ws[t], config);
      NextHeldsThere(ws[t - 1], steps[t - 1], config);
    }
  }

  /**
   In a run that purges no row while it is held, an opening whose compare-and-set wins replaces the
   row it was decided on, and its select found it: its recipients are those of that row.
   */
  lemma OpeningsReplaceTheirBase(ws: seq<World>, steps: seq<Step>, config: Config, i: nat)
    requires IsRun(ws, steps, config) && i < |steps| && steps[i].op.Commit?
    requires forall t {:trigger steps[t]} | 0 <= t < |steps| :: SparesHeld(ws[t], steps[t])
    ensures steps[i].op.o in ws[i].observers && ws[i].observers[steps[i].op.o].Selected?
    ensures var x, db := ws[i].observers[steps[i].op.o], ws[i].db;
            AtVersion(db, x.key, x.base.version) ==> FoundIt(x) && db.classes[x.key] == x.base
  {
    RunStaysThere(ws, steps, config, i);
    RunKeepsInv(ws, steps, config, i);
    assert IsStep(ws[i], steps[i], ws[i + 1], config);
    var x := ws[i].observers[steps[i].op.o];
    assert StillThere(ws[i].db, x) && ObserverOk(x, ws[i].db);
  }
}
