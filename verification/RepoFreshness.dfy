/**
 When no purge can make a stale opening win: how long a reading stays fresh, and how long it is
 held, stay together within the retention.  A row that is purged while it is held is then so old
 that its holder takes the class as new instead of opening it.
 */
module RepoFreshness {
  import opened RepoTables
  import opened RepoState
  import opened RepoStateProofs
  import opened RepoRuns
  import opened RepoInvariant
  import opened RepoTheorems
  import opened RepoAlternation

  /**
   What the observer asks to be kept is fresh for no longer than `span` from now on, what the
   process remembers no longer than that from the row on, and it fetched no earlier than it read.
   */
  predicate ReadsFresh(x: Observer, op: Op, now: int, span: nat)
    requires op.Observe? && x.Holding?
  {
    && (x.previous.Some? ==> op.processFresh <= x.previous.value.updatedAt + span)
    && match op.observation
       case NotModified(freshUntil) => freshUntil <= now + span
       case Parsed(seen, fetchedAt) => seen.freshUntil <= now + span && x.readAt <= fetchedAt
       case _ => true
  }

  /** One non-decreasing clock, no sweep ahead of it, readings fresh for no longer than `span` and held no longer than `hold`. */
  ghost predicate Bounded(w: World, step: Step, span: nat, hold: nat) {
    && w.clock <= step.now && (step.op.SweepOp? ==> step.op.at <= step.now)
    && (forall o | o in w.observers && HeldRow(w.observers[o]).Some? :: step.now <= w.observers[o].readAt + hold)
    && (step.op.Observe? && step.op.o in w.observers && w.observers[step.op.o].Holding? ==>
          ReadsFresh(w.observers[step.op.o], step.op, step.now, span))
  }

  ghost predicate AllBounded(ws: seq<World>, steps: seq<Step>, span: nat, hold: nat)
    requires |ws| == |steps| + 1
  {
    forall t {:trigger steps[t]} | 0 <= t < |steps| :: Bounded(ws[t], steps[t], span, hold)
  }

  predicate RowFresh(row: ClassRow, span: nat) { row.freshUntil <= row.updatedAt + span }

  /** A held row is current or was replaced by later versions, or it was no longer fresh when it was read. */
  predicate HeldFresh(db: Db, x: Observer, span: nat) {
    HeldRow(x).Some? ==>
      && RowFresh(HeldRow(x).value, span)
      && (Recent(db, x.key, HeldRow(x).value) || (x.Holding? && HeldRow(x).value.updatedAt + span < x.readAt))
  }

  ghost predicate AllFresh(w: World, span: nat) {
    && (forall key | key in w.db.classes :: RowFresh(w.db.classes[key], span))
    && (forall o | o in w.observers :: HeldFresh(w.db, w.observers[o], span))
    && (forall o | o in w.observers && w.observers[o].Selected? :: w.observers[o].seen.freshUntil <= w.clock + span)
  }

  // ----- one step -----

  lemma WrittenIsFresh(w: World, step: Step, config: Config, span: nat, hold: nat, key: string)
    requires config.maxBackoffSeconds >= 1 && AllFresh(w, span) && Enabled(w, step) && Bounded(w, step, span, hold)
    requires key in NextDb(w, step, config).classes
    ensures RowFresh(NextDb(w, step, config).classes[key], span)
  {
    if Writes(w, step.op) {
      assert step.op.o in w.observers;
      if step.op.Observe? { DecidedIsFresh(w, step, span); }
    } else {
      NextLeavesClasses(w, step, config);
    }
  }

  /** Whatever the worker decides to keep is what it observed. */
  lemma DecidedIsFresh(w: World, step: Step, span: nat)
    requires step.op.Observe? && step.op.o in w.observers && w.observers[step.op.o].Holding?
    requires ReadsFresh(w.observers[step.op.o], step.op, step.now, span)
    ensures var action := ActionOf(w, step.op);
            action.Persist? || action.Open? ==> action.seen.freshUntil <= step.now + span
  {
  }

  /** A purge of a held row within the bounds takes a row that was no longer fresh when it was read. */
  lemma PurgedIsStale(w: World, step: Step, span: nat, hold: nat, o: nat)
    requires Young(w) && Bounded(w, step, span, hold) && span + hold < TERMINAL_RETENTION_MS
    requires o in w.observers && TakesHeld(w, step, o)
    ensures HeldRow(w.observers[o]).value.updatedAt + span < w.observers[o].readAt
  {
    var key := w.observers[o].key;
    assert w.db.classes[key].updatedAt <= step.op.at - TERMINAL_RETENTION_MS;
  }

  lemma WaitingStaysFresh(w: World, step: Step, config: Config, span: nat, hold: nat, o: nat)
    requires Inv(w, config) && AllFresh(w, span) && Young(w) && Enabled(w, step)
    requires Bounded(w, step, span, hold) && span + hold < TERMINAL_RETENTION_MS && o in w.observers
    ensures HeldFresh(NextDb(w, step, config), w.observers[o], span)
  {
    var x := w.observers[o];
    assert HeldFresh(w.db, x, span);
    if HeldRow(x).Some? && Recent(w.db, x.key, HeldRow(x).value) {
      if Purges(w, step, x.key) {
        assert TakesHeld(w, step, o);
        PurgedIsStale(w, step, span, hold, o);
        assert x.Holding?;
      } else {
        ClassesAdvance(w, step, config, x.key);
      }
    }
  }

  /** A decision to open is taken only on a row that was still fresh when it was read. */
  lemma SelectedIsFresh(w: World, step: Step, config: Config, span: nat, hold: nat)
    requires Inv(w, config) && AllFresh(w, span) && Enabled(w, step) && Bounded(w, step, span, hold)
    requires step.op.Observe? && ActionOf(w, step.op).Open?
    ensures var x := NextObservers(w, step)[step.op.o];
            HeldFresh(NextDb(w, step, config), x, span) && x.seen.freshUntil <= step.now + span
  {
    var x := w.observers[step.op.o];
    assert HeldFresh(w.db, x, span);
    DecidedIsFresh(w, step, span);
    assert x.readAt <= step.op.observation.fetchedAt <= Max(x.previous.value.freshUntil, step.op.processFresh);
    assert NextDb(w, step, config) == w.db;
  }

  lemma NextObserversFresh(w: World, step: Step, config: Config, span: nat, hold: nat, o: nat)
    requires Inv(w, config) && AllFresh(w, span) && Young(w) && Enabled(w, step)
    requires Bounded(w, step, span, hold) && span + hold < TERMINAL_RETENTION_MS && o in NextObservers(w, step)
    ensures var x := NextObservers(w, step)[o];
            HeldFresh(NextDb(w, step, config), x, span) && (x.Selected? ==> x.seen.freshUntil <= step.now + span)
  {
    if step.op.Read? && o == step.op.o {
      assert NextDb(w, step, config) == w.db;
    } else if step.op.Observe? && o == step.op.o {
      SelectedIsFresh(w, step, config, span, hold);
    } else {
      WaitingStaysFresh(w, step, config, span, hold, o);
    }
  }

  lemma NextFresh(w: World, step: Step, config: Config, span: nat, hold: nat)
    requires Inv(w, config) && AllFresh(w, span) && Young(w) && Enabled(w, step)
    requires Bounded(w, step, span, hold) && span + hold < TERMINAL_RETENTION_MS
    ensures AllFresh(Next(w, step, config), span)
  {
    forall key | key in NextDb(w, step, config).classes ensures RowFresh(NextDb(w, step, config).classes[key], span) {
      WrittenIsFresh(w, step, config, span, hold, key);
    }
    forall o | o in NextObservers(w, step)
      ensures var x := NextObservers(w, step)[o];
              HeldFresh(NextDb(w, step, config), x, span) && (x.Selected? ==> x.seen.freshUntil <= step.now + span)
    {
      NextObserversFresh(w, step, config, span, hold, o);
    }
  }

  // ----- runs -----

  lemma {:induction false} RunIsFresh(ws: seq<World>, steps: seq<Step>, config: Config, span: nat, hold: nat, t: nat)
    requires IsRun(ws, steps, config) && AllBounded(ws, steps, span, hold) && span + hold < TERMINAL_RETENTION_MS && t < |ws|
    ensures AllFresh(ws[t], span) && Young(ws[t])
  {
    if t > 0 {
      RunIsFresh(ws, steps, config, span, hold, t - 1);
      RunKeepsInv(ws, steps, config, t - 1);
      assert IsStep(ws[t - 1], steps[t - 1], ws[t], config) && Bounded(ws[t - 1], steps[t - 1], span, hold);
      NextFresh(ws[t - 1], steps[t - 1], config, span, hold);
      NextYoung(ws[t - 1], steps[t - 1], config);
    }
  }

  /** Within the bounds an opening that wins replaces the very row it was decided on, whatever is purged. */
  lemma BoundedOpeningsReplaceTheirBase(ws: seq<World>, steps: seq<Step>, config: Config, span: nat, hold: nat, t: nat)
    requires IsRun(ws, steps, config) && AllBounded(ws, steps, span, hold) && span + hold < TERMINAL_RETENTION_MS
    requires t < |steps| && Wins(ws[t], steps[t])
    ensures var x := ws[t].observers[steps[t].op.o]; ws[t].db.classes[x.key] == x.base
  {
    RunIsFresh(ws, steps, config, span, hold, t);
    assert HeldFresh(ws[t].db, ws[t].observers[steps[t].op.o], span);
  }

  /** Within the bounds openings alternate, whatever is purged. */
  lemma BoundedOpeningsAlternate(ws: seq<World>, steps: seq<Step>, config: Config, span: nat, hold: nat, t: nat)
    requires IsRun(ws, steps, config) && AllBounded(ws, steps, span, hold) && span + hold < TERMINAL_RETENTION_MS && t < |ws|
    ensures Alternates(ws[t].db.history)
  {
    forall i {:trigger steps[i]} | 0 <= i < |steps| ensures OrderHolds(ws[i], steps[i]) {
      if Wins(ws[i], steps[i]) { BoundedOpeningsReplaceTheirBase(ws, steps, config, span, hold, i); }
    }
    OrderedOpeningsAlternate(ws, steps, config, t);
  }
}
