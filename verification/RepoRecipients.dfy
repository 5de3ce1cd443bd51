/** Who an opening alerts, in terms of the steps of the run rather than of stored orders. */
module RepoRecipients {
  import opened RepoTables
  import opened RepoWatchProofs
  import opened RepoStateProofs
  import opened RepoRuns
  import opened RepoInvariant
  import opened RepoTheorems
  import opened RepoWindows

  /** A step that reads a class draws one value, for the reading. */
  lemma ReadingDrawsOne(w: World, step: Step, config: Config, key: string)
    requires config.maxBackoffSeconds >= 1 && Enabled(w, step) && ReadsClass(w.db, NextDb(w, step, config), key)
    ensures var h := NextDb(w, step, config).history;
            |h| == |w.db.history| + 1 && h[|w.db.history|].Observed? && h[|w.db.history|].key == key
  {
    if Exclusive(w, step.op) {
      NextLeavesClasses(w, step, config);
    } else {
      UnlockedStepsLeaveWatches(w, step, config);
    }
  }

  /** The latest reading of the class was committed at step i. */
  ghost predicate LatestReading(ws: seq<World>, i: nat, j: nat, key: string) {
    && i < j < |ws| && ReadsClass(ws[i].db, ws[i + 1].db, key)
    && forall t {:trigger ws[t]} | i < t < j :: !ReadsClass(ws[t].db, ws[t + 1].db, key)
  }

  lemma {:induction false} ReadByAStep(ws: seq<World>, steps: seq<Step>, config: Config, i: nat, j: nat, key: string)
    requires IsRun(ws, steps, config) && i <= j < |ws|
    requires forall t {:trigger ws[t]} | i <= t < j :: !ReadsClass(ws[t].db, ws[t + 1].db, key)
    ensures LastObservation(ws[j].db.history, key) <= |ws[i].db.history|
    decreases j - i
  {
    if i < j {
      ReadByAStep(ws, steps, config, i, j - 1, key);
      HistoryGrows(ws, steps, config, j - 1, j);
      HistoryGrows(ws, steps, config, i, j - 1);
      UnreadKeepsLatest(ws[j - 1].db, ws[j].db, key);
    }
  }

  lemma UnreadKeepsLatest(before: Db, after: Db, key: string)
    requires |before.history| <= |after.history| && after.history[..|before.history|] == before.history
    requires !ReadsClass(before, after, key)
    ensures LastObservation(after.history, key) <= LastObservation(before.history, key)
  {
    var n := LastObservation(after.history, key);
    if n > 0 { assert after.history[..|before.history|][n - 1] == after.history[n - 1]; }
  }

  lemma LatestReadingIsDrawn(ws: seq<World>, steps: seq<Step>, config: Config, i: nat, j: nat, key: string)
    requires IsRun(ws, steps, config) && LatestReading(ws, i, j, key)
    ensures |ws[i + 1].db.history| == |ws[i].db.history| + 1 == LastObservation(ws[j].db.history, key)
  {
    assert IsStep(ws[i], steps[i], ws[i + 1], config);
    ReadingDrawsOne(ws[i], steps[i], config, key);
    ReadByAStep(ws, steps, config, i + 1, j, key);
    HistoryGrows(ws, steps, config, i + 1, j);
    assert ws[j].db.history[..|ws[i + 1].db.history|][|ws[i].db.history|] == ws[j].db.history[|ws[i].db.history|];
  }

  /**
   With the class last read at step i, an opening at j alerts a Confirmed subscriber with a live
   watch exactly when no step since i activated that watch: a later addition, revival or
   confirmation is never included, an earlier one always.
   */
  lemma LaterActivationsAreLeftOut(ws: seq<World>, steps: seq<Step>, config: Config, i: nat, j: nat, s: nat, key: string)
    requires IsRun(ws, steps, config) && LatestReading(ws, i, j, key)
    requires (s, key) in ws[j].db.watches && Live(ws[j].db.watches[(s, key)]) && IsConfirmed(ws[j].db.subs, s)
    ensures SawClosed(ws[j].db, s, key) <==> !exists t :: i < t < j && Draws(ws[t], ws[t + 1], Activated(s, key))
  {
    RunKeepsInv(ws, steps, config, j);
    LatestReadingIsDrawn(ws, steps, config, i, j, key);
    var last := LastActivation(ws[j].db.history, s, key);
    if t :| i < t < j && Draws(ws[t], ws[t + 1], Activated(s, key)) {
      ActivatedLater(ws, steps, config, i, t, j, s, key);
      assert WatchOk((s, key), ws[j].db.watches[(s, key)], ws[j].db.subs, ws[j].db.history);
    } else {
      NotActivatedLater(ws, steps, config, i, j, s, key);
      assert WatchOk((s, key), ws[j].db.watches[(s, key)], ws[j].db.subs, ws[j].db.history);
      DistinctEntries(ws[j].db.history, s, key);
    }
  }

  /** An activation and an observation never draw the same value. */
  lemma DistinctEntries(history: seq<Entry>, s: nat, key: string)
    ensures LastActivation(history, s, key) == LastObservation(history, key) ==> LastActivation(history, s, key) == 0
  {
  }
}
