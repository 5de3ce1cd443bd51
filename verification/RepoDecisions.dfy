/**
 What the worker makes of an observation (`handleObservation`, src/worker/v04.ts): the decision in
 terms of the observation and the held row, what it leaves in the tables, and where every committed
 class state comes from.
 */
module RepoDecisions {
  import opened RepoTables
  import opened RepoMail
  import opened RepoState
  import opened RepoStateProofs
  import opened RepoRuns
  import opened RepoInvariant
  import opened RepoTheorems

  // ----- the decision -----

  /** The held row, or what the process remembers of the class, was still fresh when the class was fetched. */
  predicate IsComparable(previous: Option<ClassRow>, processFresh: int, fetchedAt: int) {
    previous.Some? && (fetchedAt <= previous.value.freshUntil || fetchedAt <= processFresh)
  }

  predicate SeatsCame(row: ClassRow, seen: Seen) { row.openSeats == 0 && seen.openSeats > 0 }

  predicate WaitlistCame(row: ClassRow, seen: Seen) { !row.waitlistOpen && seen.waitlistOpen }

  /** A reading opens the class exactly when it can be compared with the held row and seats or a waitlist have come; any other is kept as seen. */
  lemma ReadingsOpenExactly(previous: Option<ClassRow>, seen: Seen, fetchedAt: int, trusted: bool, processFresh: int)
    ensures var action := Decide(previous, Parsed(seen, fetchedAt), trusted, processFresh);
            && (action.Open? <==> IsComparable(previous, processFresh, fetchedAt)
                                  && (SeatsCame(previous.value, seen) || WaitlistCame(previous.value, seen)))
            && (action.Open? ==> action.version == previous.value.version && action.seen == seen && action.openedAt == fetchedAt
                                 && (action.reason.SeatsOpen? <==> SeatsCame(previous.value, seen)))
            && (!action.Open? ==> action == Persist(seen))
  {
  }

  /** Without a body there is only the held row to go by: it is kept with its new freshness, or the answer is rejected. */
  lemma OthersKeepOrReport(previous: Option<ClassRow>, freshUntil: int, trusted: bool, processFresh: int)
    ensures var action := Decide(previous, NotModified(freshUntil), trusted, processFresh);
            if previous.Some? && trusted
            then action.Persist? && action.seen.freshUntil == freshUntil
                 && action.seen.openSeats == previous.value.openSeats && action.seen.waitlistOpen == previous.value.waitlistOpen
            else action == Reject
    ensures Decide(previous, ClassGone, trusted, processFresh) == Retire && Decide(previous, ParserBroke, trusted, processFresh) == Report
  {
  }

  // ----- its effect on the tables -----

  /** Only this class is written, at the next version and the newest order. */
  predicate OnlyWrites(before: Db, after: Db, key: string, now: int) {
    && after.subs == before.subs && after.watches == before.watches && after.incidents == before.incidents
    && key in after.classes && after.classes == before.classes[key := after.classes[key]]
    && after.classes[key].version == (if key in before.classes then before.classes[key].version + 1 else 0)
    && after.classes[key].observedOrder == |before.history| + 1 && after.classes[key].updatedAt == now
    && after.history == before.history + [Observed(key, after.classes[key], None)]
  }

  lemma OpenReasonsCancelNothing(db: Db, key: string, row: ClassRow)
    requires AlertsOpen(db.mail, db.classes) && key in db.classes
    requires row.openSeats == db.classes[key].openSeats && row.waitlistOpen == db.classes[key].waitlistOpen
    ensures CancelAll(db.mail, ClosedAlerts(db.mail, key, row), OpeningClosed, row.updatedAt) == db.mail
  {
    forall id | id in db.mail ensures id !in ClosedAlerts(db.mail, key, row) {
      assert AlertOk(db.mail[id], db.classes);
    }
  }

  /**
   A 304.  It is rejected, with nothing changed, unless it is trusted and a row was held; accepted, it
   writes the seats and the waitlist of that row, and if the row is still current every reason is as
   open as it was and no mail changes.
   */
  lemma NotModifiedStep(w: World, step: Step, config: Config)
    requires Inv(w, config) && Enabled(w, step) && step.op.Observe? && step.op.observation.NotModified?
    ensures var before, after, x := w.db, NextDb(w, step, config), w.observers[step.op.o];
            if x.previous.None? || !step.op.trusted then after == before
            else
              && OnlyWrites(before, after, x.key, step.now)
              && after.classes[x.key].freshUntil == step.op.observation.freshUntil
              && after.classes[x.key].openSeats == x.previous.value.openSeats
              && after.classes[x.key].waitlistOpen == x.previous.value.waitlistOpen
              && (Lookup(before.classes, x.key) == x.previous ==> after.mail == before.mail)
  {
    var x := w.observers[step.op.o];
    if x.previous.Some? && step.op.trusted && Lookup(w.db.classes, x.key) == x.previous {
      OpenReasonsCancelNothing(w.db, x.key, NextDb(w, step, config).classes[x.key]);
    }
  }

  /** A reading that opens nothing is written as it was seen; one that does waits, with what it saw, for its commit. */
  lemma ReadingStep(w: World, step: Step, config: Config)
    requires Inv(w, config) && Enabled(w, step) && step.op.Observe? && step.op.observation.Parsed?
    ensures var before, after, x, seen := w.db, NextDb(w, step, config), w.observers[step.op.o], step.op.observation.seen;
            if IsComparable(x.previous, step.op.processFresh, step.op.observation.fetchedAt)
               && (SeatsCame(x.previous.value, seen) || WaitlistCame(x.previous.value, seen))
            then
              && after == before && step.op.o in NextObservers(w, step) && NextObservers(w, step)[step.op.o].Selected?
              && NextObservers(w, step)[step.op.o].seen == seen && NextObservers(w, step)[step.op.o].key == x.key
              && NextObservers(w, step)[step.op.o].base == x.previous.value
            else
              && OnlyWrites(before, after, x.key, step.now) && after.classes[x.key].freshUntil == seen.freshUntil
              && after.classes[x.key].openSeats == seen.openSeats && after.classes[x.key].waitlistOpen == seen.waitlistOpen
  {
    var x := w.observers[step.op.o];
    ReadingsOpenExactly(x.previous, step.op.observation.seen, step.op.observation.fetchedAt, step.op.trusted, step.op.processFresh);
  }

  // ----- where class states come from -----

  /** The step is a reading of the class that saw these seats and this waitlist. */
  ghost predicate Saw(w: World, step: Step, key: string, openSeats: nat, waitlistOpen: bool) {
    && step.op.Observe? && step.op.observation.Parsed? && step.op.o in w.observers && w.observers[step.op.o].key == key
    && step.op.observation.seen.openSeats == openSeats && step.op.observation.seen.waitlistOpen == waitlistOpen
  }

  ghost predicate WasSeen(ws: seq<World>, steps: seq<Step>, t: nat, key: string, openSeats: nat, waitlistOpen: bool)
    requires t <= |steps| < |ws|
  {
    exists u {:trigger steps[u]} :: 0 <= u < t && Saw(ws[u], steps[u], key, openSeats, waitlistOpen)
  }

  ghost predicate AllSeen(ws: seq<World>, steps: seq<Step>, t: nat)
    requires t <= |steps| < |ws|
  {
    && (forall n | 0 <= n < |ws[t].db.history| && ws[t].db.history[n].Observed? ::
          var e := ws[t].db.history[n]; WasSeen(ws, steps, t, e.key, e.row.openSeats, e.row.waitlistOpen))
    && (forall o | o in ws[t].observers && ws[t].observers[o].Selected? ::
          var x := ws[t].observers[o]; WasSeen(ws, steps, t, x.key, x.seen.openSeats, x.seen.waitlistOpen))
  }

  lemma SeenLater(ws: seq<World>, steps: seq<Step>, t: nat, key: string, openSeats: nat, waitlistOpen: bool)
    requires t < |steps| < |ws| && WasSeen(ws, steps, t, key, openSeats, waitlistOpen)
    ensures WasSeen(ws, steps, t + 1, key, openSeats, waitlistOpen)
  {
  }

  /** What a step writes of a class was seen at that step or before. */
  lemma WrittenWasSeen(ws: seq<World>, steps: seq<Step>, config: Config, t: nat, n: nat)
    requires IsRun(ws, steps, config) && t < |steps| && AllSeen(ws, steps, t)
    requires |ws[t].db.history| <= n < |ws[t + 1].db.history| && ws[t + 1].db.history[n].Observed?
    ensures var e := ws[t + 1].db.history[n]; WasSeen(ws, steps, t + 1, e.key, e.row.openSeats, e.row.waitlistOpen)
  {
    var w, step := ws[t], steps[t];
    RunKeepsInv(ws, steps, config, t);
    assert IsStep(w, step, ws[t + 1], config);
    if !Writes(w, step.op) {
      NextLeavesClasses(w, step, config);
    } else {
      var x, e := w.observers[step.op.o], ws[t + 1].db.history[n];
      if step.op.Observe? && step.op.observation.Parsed? {
        assert Saw(w, step, e.key, e.row.openSeats, e.row.waitlistOpen);
      } else if step.op.Observe? {
        NotModifiedStep(w, step, config);
        assert ObserverOk(x, w.db);
        assert w.db.history[x.previous.value.observedOrder - 1].row == x.previous.value;
        SeenLater(ws, steps, t, e.key, e.row.openSeats, e.row.waitlistOpen);
      } else {
        SeenLater(ws, steps, t, e.key, e.row.openSeats, e.row.waitlistOpen);
      }
    }
  }

  /** Every committed class state of every run shows the seats and the waitlist that some reading of the class saw. */
  lemma {:induction false} StatesWereSeen(ws: seq<World>, steps: seq<Step>, config: Config, t: nat)
    requires IsRun(ws, steps, config) && t <= |steps|
    ensures AllSeen(ws, steps, t)
  {
    if t > 0 {
      var w, step := ws[t - 1], steps[t - 1];
      StatesWereSeen(ws, steps, config, t - 1);
      assert IsStep(w, step, ws[t], config);
      HistoryGrows(ws, steps, config, t - 1, t);
      forall n | 0 <= n < |ws[t].db.history| && ws[t].db.history[n].Observed?
        ensures var e := ws[t].db.history[n]; WasSeen(ws, steps, t, e.key, e.row.openSeats, e.row.waitlistOpen)
      {
        var e := ws[t].db.history[n];
        if n < |w.db.history| {
          assert ws[t].db.history[..|w.db.history|][n] == e;
          SeenLater(ws, steps, t - 1, e.key, e.row.openSeats, e.row.waitlistOpen);
        } else {
          WrittenWasSeen(ws, steps, config, t - 1, n);
        }
      }
      forall o | o in ws[t].observers && ws[t].observers[o].Selected?
        ensures var x := ws[t].observers[o]; WasSeen(ws, steps, t, x.key, x.seen.openSeats, x.seen.waitlistOpen)
      {
        var x := ws[t].observers[o];
        if o in w.observers && w.observers[o] == x {
          SeenLater(ws, steps, t - 1, x.key, x.seen.openSeats, x.seen.waitlistOpen);
        } else {
          SelectedSaw(w, step, o);
          assert Saw(w, steps[t - 1], x.key, x.seen.openSeats, x.seen.waitlistOpen);
        }
      }
    }
  }

  lemma SelectedSaw(w: World, step: Step, o: nat)
    requires Enabled(w, step) && o in NextObservers(w, step) && NextObservers(w, step)[o].Selected?
    requires !(o in w.observers && w.observers[o] == NextObservers(w, step)[o])
    ensures var x := NextObservers(w, step)[o]; Saw(w, step, x.key, x.seen.openSeats, x.seen.waitlistOpen)
  {
  }
}
