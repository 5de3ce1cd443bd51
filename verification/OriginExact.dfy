/**
 The conditions of the spacing and stop theorems are exact: where one of them fails, the protocol
 has a continuation, with every other condition kept, in which a start comes too early.
 */
module OriginExact {
  import opened OriginRecords
  import opened OriginProtocol
  import opened OriginPieces

  // ----- runs that end in an early start -----

  lemma {:induction false} AboveAll(keys: set<nat>) returns (w: nat)
    ensures forall k | k in keys :: k < w
  {
    if keys == {} { return 0; }
    var k :| k in keys;
    var above := AboveAll(keys - {k});
    w := if above > k then above else k + 1;
    assert forall j | j in keys :: j == k || j in keys - {k};
  }

  /** Steps that corrupt nothing and read no clock for a reset end in one start, at `at`. */
  ghost predicate StartsAt(s: World, rest: seq<Step>, at: int) {
    AssumedAlong(s, rest) && Harmless(rest) && Run(s, rest).starts == s.starts + [at]
  }

  /** With fence and marker gone, a worker never seen before can start the moment the record lets it. */
  lemma EarliestStart(s: World)
    requires s.operator.Rest? && s.disk.fence == NoFence && s.disk.marker == NoMarker && ReadState(s.disk.state).Stored?
    ensures exists rest :: StartsAt(s, rest, Earliest(s.disk.state.record, s.spacing))
  {
    var w := AboveAll(s.workers.Keys);
    assert w !in s.workers.Keys;
    var record := s.disk.state.record;
    Starting(s, w, record.lastPermitAt, Earliest(record, s.spacing));
    assert StartsAt(s, StartSteps(w, record.lastPermitAt, Earliest(record, s.spacing)), Earliest(record, s.spacing));
  }

  /** A reset that has read its record goes on to the end, and a worker starts as early as the record allows. */
  lemma RewritingStarts(s: World)
    requires s.operator.Rewriting? && Readable(s.operator.next)
    ensures exists rest :: StartsAt(s, rest, Earliest(s.operator.next, s.spacing))
  {
    ClearingEnds(s);
    var at := Earliest(s.operator.next, s.spacing);
    EarliestStart(Run(s, CLEARING));
    var steps :| StartsAt(Run(s, CLEARING), steps, at);
    RunsJoin(s, CLEARING, steps);
    assert StartsAt(s, CLEARING + steps, at);
  }

  /**
   Some assumed continuation, which keeps the record of a stop or lets its resets wait, has its one
   start before n.
   */
  ghost predicate CanLose(s: World, stands: bool, waits: bool, n: int) { exists rest :: Loses(s, rest, stands, waits, n) }

  ghost predicate Loses(s: World, rest: seq<Step>, stands: bool, waits: bool, n: int) {
    && AssumedAlong(s, rest) && (if waits then WaitsAlong(s, rest, stands) else KeptAlong(s, rest, stands, n))
    && exists at | at < n :: Run(s, rest).starts == s.starts + [at]
  }

  lemma LosesNext(s: World, step: Step, stands: bool, waits: bool, n: int)
    requires Assumed(s, step) && (if waits then Waits(s, step, stands) else Keeps(s, step, stands, n))
    requires Apply(s, step).starts == s.starts && CanLose(Apply(s, step), stands && Apply(s, step).disk.marker != NoMarker, waits, n)
    ensures CanLose(s, stands, waits, n)
  {
    var rest :| Loses(Apply(s, step), rest, stands && Apply(s, step).disk.marker != NoMarker, waits, n);
    RunFirst(s, step, rest);
    assert Loses(s, [step] + rest, stands, waits, n);
  }

  lemma RewritingLoses(s: World, stands: bool, waits: bool, n: int)
    requires s.operator.Rewriting? && Readable(s.operator.next) && Earliest(s.operator.next, s.spacing) < n
    ensures CanLose(s, stands, waits, n)
  {
    RewritingStarts(s);
    var rest :| StartsAt(s, rest, Earliest(s.operator.next, s.spacing));
    HarmlessIsKept(s, rest, stands, n);
    assert Loses(s, rest, stands, waits, n);
  }

  /** Whoever is inside may crash, and then nobody is. */
  lemma Emptying(s: World) returns (w: nat)
    requires Inv(s)
    ensures var next := Apply(s, Crash(w)); AllOut(next) && Inv(next) && next == s.(workers := next.workers)
  {
    w := if v :| v in s.workers && !s.workers[v].pc.Out? then v else 0;
    CrashKeepsInv(s, w);
  }

  /** A reading that covers the last start and is not before `least`, where the spacing does not forbid a start before n. */
  lemma LowReading(s: World, least: int, n: int) returns (reading: int)
    requires !Settled(s, n) && least + s.spacing < n
    ensures reading >= least && reading + s.spacing < n && ReadingCovers(s, reading)
  {
    reading := if s.starts == [] then least else Max(least, s.starts[|s.starts| - 1]);
    ReadingCoversExactly(s, reading);
  }

  /** A reset that is admitted with nobody inside reads low over a state file that forbids nothing. */
  lemma AdmittedLoses(s: World, least: int, stands: bool, n: int)
    requires s.operator.Admitted? && AllOut(s) && (stands ==> least >= s.operator.since)
    requires !Settled(s, n) && least + s.spacing < n && !PutsOff(s.disk.state, s.spacing, n)
    ensures CanLose(s, stands, true, n) && CanLose(s, false, false, n)
  {
    var reading := LowReading(s, least, n);
    ResetPutsOff(s.disk.state, reading, s.spacing, n);
    WritersStayReadable(s.disk.state, reading, 0);
    var next := Apply(s, ResetRead(reading));
    RewritingLoses(next, stands && next.disk.marker != NoMarker, true, n);
    RewritingLoses(next, false, false, n);
    LosesNext(s, ResetRead(reading), stands, true, n);
    LosesNext(s, ResetRead(reading), false, false, n);
  }

  /** Neither the spacing nor the state file forbids it: a new reset and a start come before n. */
  lemma NewResetLoses(s: World, waits: bool, n: int)
    requires Inv(s) && !Settled(s, n) && !PutsOff(s.disk.state, s.spacing, n)
    ensures CanLose(s, false, waits, n)
  {
    var a := Apply(s, ResetFails);
    StepKeepsInv(s, ResetFails);
    var w := Emptying(a);
    var b := Apply(a, Crash(w));
    var now := if ResumeAt(b.disk.marker).Some? then ResumeAt(b.disk.marker).value else 0;
    AdmitStep(b, now);
    AdmittedLoses(Apply(b, ResetAdmit(now)), n - s.spacing - 1, false, n);
    LosesNext(b, ResetAdmit(now), false, waits, n);
    LosesNext(a, Crash(w), false, waits, n);
    LosesNext(s, ResetFails, false, waits, n);
  }

  // ----- a worker that is inside when the fence is cleared -----

  /** Some assumed continuation has two starts too close. */
  ghost predicate CanBreak(s: World) { exists rest :: Breaks(s, rest) }

  ghost predicate Breaks(s: World, rest: seq<Step>) { AssumedAlong(s, rest) && !Spaced(Run(s, rest).starts, s.spacing) }

  lemma BreaksAfter(s: World, steps: seq<Step>)
    requires AssumedAlong(s, steps) && CanBreak(Run(s, steps))
    ensures CanBreak(s)
  {
    var rest :| Breaks(Run(s, steps), rest);
    RunsJoin(s, steps, rest);
    RunKeepsSpacing(s, steps);
    assert Breaks(s, steps + rest);
  }

  lemma BreaksNext(s: World, step: Step)
    requires Assumed(s, step) && CanBreak(Apply(s, step))
    ensures CanBreak(s)
  {
    RunFirst(s, step, []);
    assert [step] + [] == [step];
    BreaksAfter(s, [step]);
  }

  /** Whoever finds a record behind the last start starts too early. */
  lemma BehindBreaks(s: World)
    requires s.operator.Rest? && s.disk.fence == NoFence && s.disk.marker == NoMarker && ReadState(s.disk.state).Stored?
    requires !RecordCovers(s, s.disk.state.record)
    ensures CanBreak(s)
  {
    EarliestStart(s);
    var rest :| StartsAt(s, rest, Earliest(s.disk.state.record, s.spacing));
    Unspaced(s.starts, Earliest(s.disk.state.record, s.spacing), s.spacing);
    assert Breaks(s, rest);
  }

  lemma Unspaced(starts: seq<int>, at: int, spacing: int)
    requires starts != [] && at < starts[|starts| - 1] + spacing
    ensures !Spaced(starts + [at], spacing)
  {
    var all := starts + [at];
    assert all[|starts|] < all[|starts| - 1] + spacing;
  }

  /** One worker has just started at `at`; another is still about to write an earlier reservation r. */
  predicate Overlapping(s: World, w: nat, r: int, v: nat, at: int, token: nat) {
    && s.operator.Rest? && s.disk == Disk(FenceOf(token), Stored(NoCooldown(at)), NoMarker)
    && w != v && w in s.workers && s.workers[w].pc == Reserving(r) && r < at
    && v in s.workers && s.workers[v] == Worker(Started(at), token, false, Some(at), false)
    && s.starts != [] && s.starts[|s.starts| - 1] == at
  }

  /** The other writes while the first is releasing: the state file falls behind, and the fence goes. */
  lemma StaleWriteBreaks(s: World, w: nat, r: int, v: nat, at: int, token: nat)
    requires Overlapping(s, w, r, v, at, token)
    ensures CanBreak(s)
  {
    var a := Apply(s, Reconcile(v, Done));
    var b := Apply(a, BeginRelease(v));
    ReleasingAfterStart(s, v, at, token);
    var c := Apply(b, WriteReservation(w, Done));
    assert c.disk == Disk(FenceOf(token), Stored(NoCooldown(r)), NoMarker) && c.workers[v].pc == Releasing;
    var d := Apply(c, EndRelease(v, Unlinked));
    BehindBreaks(d);
    BreaksNext(c, EndRelease(v, Unlinked));
    BreaksNext(b, WriteReservation(w, Done));
    BreaksNext(a, BeginRelease(v));
    BreaksNext(s, Reconcile(v, Done));
  }

  lemma ReleasingAfterStart(s: World, v: nat, at: int, token: nat)
    requires s.disk == Disk(FenceOf(token), Stored(NoCooldown(at)), NoMarker)
    requires v in s.workers && s.workers[v] == Worker(Started(at), token, false, Some(at), false)
    ensures var b := Apply(Apply(s, Reconcile(v, Done)), BeginRelease(v));
            b == s.(workers := b.workers) && b.workers == s.workers[v := Worker(Releasing, token, false, Some(at), false)]
  {
    var a := Apply(s, Reconcile(v, Done));
    assert a == s.(workers := s.workers[v := Worker(Held, token, false, Some(at), false)]);
    assert a.workers[v := Worker(Releasing, token, false, Some(at), false)] == s.workers[v := Worker(Releasing, token, false, Some(at), false)];
  }

  /** The files are as a finished reset leaves them, but a worker is still inside. */
  predicate Intruded(s: World, w: nat) {
    && s.operator.Rest? && s.disk.fence == NoFence && s.disk.marker == NoMarker && ReadState(s.disk.state).Stored?
    && w in s.workers && s.workers[w].pc == Held
  }

  lemma IntruderBreaks(s: World, w: nat)
    requires Intruded(s, w)
    ensures CanBreak(s)
  {
    var a := Apply(s, Reserve(w, 0));
    var r := a.workers[w].pc.reserved;
    var v := AboveAll(s.workers.Keys);
    assert v !in s.workers.Keys && a == s.(workers := a.workers) && a.workers.Keys == s.workers.Keys;
    var at := Reservation(s.disk.state, r + 1, s.spacing, None);
    Starting(a, v, r + 1, at);
    StaleWriteBreaks(Run(a, StartSteps(v, r + 1, at)), w, r, v, at, s.nextToken);
    BreaksAfter(a, StartSteps(v, r + 1, at));
    BreaksNext(s, Reserve(w, 0));
  }

  /** The step that takes a worker inside to the state in which it holds the fence and does nothing. */
  function ToHeld(w: nat, pc: Pc): Step {
    match pc
    case Opened => WriteFence(w, true)
    case Reserving(_) => WriteReservation(w, FailedBeforeRename)
    case Started(_) => Reconcile(w, FailedBeforeRename)
    case Deferring(_) => WriteDeferral(w, FailedBeforeRename)
    case _ => Abandon(w)
  }

  lemma HeldAfter(s: World, w: nat)
    requires w in s.workers && !s.workers[w].pc.Out? && !s.workers[w].pc.Releasing?
    ensures var next := Apply(s, ToHeld(w, s.workers[w].pc));
            && w in next.workers && next.workers[w].pc == Held && next.operator == s.operator
            && next.disk.state == s.disk.state && next.spacing == s.spacing && Assumed(s, ToHeld(w, s.workers[w].pc))
  {
  }

  /** A reset that has read its record while a worker is inside clears the fence over it. */
  lemma InsideClearingBreaks(s: World, w: nat)
    requires s.operator.Rewriting? && Readable(s.operator.next) && w in s.workers && !s.workers[w].pc.Out?
    ensures CanBreak(s)
  {
    if s.workers[w].pc.Releasing? {
      ClearingEnds(s);
      ReleasingIntruderBreaks(Run(s, CLEARING), w);
      BreaksAfter(s, CLEARING);
    } else {
      HeldAfter(s, w);
      var step := ToHeld(w, s.workers[w].pc);
      var held := Apply(s, step);
      ClearingEnds(held);
      IntruderBreaks(Run(held, CLEARING), w);
      BreaksAfter(held, CLEARING);
      BreaksNext(s, step);
    }
  }

  /** A worker in the middle of its release removes the fence of whoever enters next. */
  lemma ReleasingIntruderBreaks(s: World, w: nat)
    requires s.operator.Rest? && s.disk.fence == NoFence && s.disk.marker == NoMarker && ReadState(s.disk.state).Stored?
    requires w in s.workers && s.workers[w].pc.Releasing?
    ensures CanBreak(s)
  {
    var v := AboveAll(s.workers.Keys);
    assert v !in s.workers.Keys;
    var a := Apply(s, OpenFence(v));
    var b := Apply(a, WriteFence(v, true));
    assert b.workers[v].pc == Held && b.workers[w].pc.Releasing?;
    var c := Apply(b, EndRelease(w, Unlinked));
    IntruderBreaks(c, v);
    BreaksNext(b, EndRelease(w, Unlinked));
    BreaksNext(a, WriteFence(v, true));
    BreaksNext(s, OpenFence(v));
  }

  /** The same when the record is already written and the worker has just entered. */
  lemma EnteredLateBreaks(s: World, w: nat)
    requires s.operator.Rewritten? && ReadState(s.disk.state).Stored? && w in s.workers && s.workers[w].pc == Opened
    ensures CanBreak(s)
  {
    var a := Apply(s, WriteFence(w, true));
    var b := Apply(a, ResetUnfence(Unlinked));
    var c := Apply(b, ResetUnmark(Unlinked));
    IntruderBreaks(c, w);
    BreaksNext(b, ResetUnmark(Unlinked));
    BreaksNext(a, ResetUnfence(Unlinked));
    BreaksNext(s, WriteFence(w, true));
  }

  // ----- spacing -----

  ghost predicate AlwaysSpaced(s: World) { forall rest | AssumedAlong(s, rest) :: Spaced(Run(s, rest).starts, s.spacing) }

  /** A reset's second reading that is not assumed, for either reason. */
  lemma UnassumedReadBreaks(s: World, now: int)
    requires Inv(s) && s.operator.Admitted? && !Assumed(s, ResetRead(now))
    ensures CanBreak(Apply(s, ResetRead(now)))
  {
    var next := Apply(s, ResetRead(now));
    WritersStayReadable(s.disk.state, now, 0);
    if AllOut(s) {
      ClearingEnds(next);
      BehindBreaks(Run(next, CLEARING));
      BreaksAfter(next, CLEARING);
    } else {
      var w :| w in s.workers && !s.workers[w].pc.Out?;
      InsideClearingBreaks(next, w);
    }
  }

  lemma UnassumedOpenBreaks(s: World, w: nat)
    requires Inv(s) && !Assumed(s, OpenFence(w)) && Apply(s, OpenFence(w)) != s && !EntersUnusable(s, OpenFence(w))
    ensures CanBreak(Apply(s, OpenFence(w)))
  {
    if s.operator.Rewriting? {
      InsideClearingBreaks(Apply(s, OpenFence(w)), w);
    } else {
      EnteredLateBreaks(Apply(s, OpenFence(w)), w);
    }
  }

  /** A worker enters while the fence is being cleared over a state file that was corrupted after the reset rewrote it. */
  predicate EntersUnusable(s: World, step: Step) {
    step.OpenFence? && s.operator.Rewritten? && ReadState(s.disk.state).Unusable?
  }

  /** Nobody can do anything with the state file, and nobody has anything to write to it. */
  ghost predicate Barred(s: World) {
    && Spaced(s.starts, s.spacing) && ReadState(s.disk.state).Unusable? && !s.operator.Rewriting?
    && (forall w | w in s.workers :: var pc := s.workers[w].pc; pc.Out? || pc.Opened? || pc.Held? || pc.Releasing?)
  }

  lemma BarredStep(s: World, step: Step)
    requires Barred(s) && Assumed(s, step)
    ensures Barred(Apply(s, step)) || Inv(Apply(s, step))
  {
    if AllOut(s) {
      StepKeepsInv(s, step);
    } else if IsOperators(step) {
      assert !step.ResetRead?;
    } else if !step.CorruptState? && !step.CorruptMarker? {
      BarredWorkerStep(s, step);
    }
  }

  lemma BarredWorkerStep(s: World, step: Step)
    requires Barred(s) && !IsOperators(step)
    ensures Barred(WorkerStep(s, step))
  {
    assert forall w :: var pc := WorkerOf(s, w).pc; pc.Out? || pc.Opened? || pc.Held? || pc.Releasing?;
  }

  lemma {:induction false} BarredIsSpaced(s: World, steps: seq<Step>)
    requires (Barred(s) || Inv(s)) && AssumedAlong(s, steps)
    ensures Spaced(Run(s, steps).starts, s.spacing)
    decreases |steps|
  {
    if steps != [] {
      if Inv(s) { StepKeepsInv(s, steps[0]); } else { BarredStep(s, steps[0]); }
      StepAppends(s, steps[0]);
      BarredIsSpaced(Apply(s, steps[0]), steps[1..]);
    }
  }

  lemma BarredAlways(s: World)
    requires Barred(s) || Inv(s)
    ensures AlwaysSpaced(s)
  {
    forall rest | AssumedAlong(s, rest) ensures Spaced(Run(s, rest).starts, s.spacing) {
      BarredIsSpaced(s, rest);
    }
  }

  /**
   The assumptions are exact: whatever step is taken from a sound world, everything after it stays
   spaced exactly when the step was assumed, or changed nothing, or let a worker in to a state file
   that nobody can use.
   */
  lemma AssumptionsAreExact(s: World, step: Step)
    requires Inv(s)
    ensures AlwaysSpaced(Apply(s, step)) <==> Assumed(s, step) || Apply(s, step) == s || EntersUnusable(s, step)
  {
    if Assumed(s, step) {
      StepKeepsInv(s, step);
      BarredAlways(Apply(s, step));
    } else if Apply(s, step) == s {
      BarredAlways(s);
    } else if EntersUnusable(s, step) {
      assert Barred(Apply(s, step));
      BarredAlways(Apply(s, step));
    } else if step.OpenFence? {
      UnassumedOpenBreaks(s, step.w);
    } else {
      UnassumedReadBreaks(s, step.now);
    }
  }

  // ----- the cooldown -----

  /** No continuation without a corruption of the state file starts before n. */
  ghost predicate ClearOf(s: World, n: int) {
    forall rest | AssumedAlong(s, rest) && CorruptState !in rest :: AddsNoneBefore(s.starts, Run(s, rest).starts, n)
  }

  lemma WaitedLossIsEarly(s: World, n: int)
    requires CanLose(s, false, true, n)
    ensures !ClearOf(s, n)
  {
    var rest :| Loses(s, rest, false, true, n);
    LosingIsEarly(s, rest, false, true, n);
    WaitingIsPlain(s, rest);
  }

  lemma {:induction false} WaitingIsPlain(s: World, steps: seq<Step>)
    requires WaitsAlong(s, steps, false)
    ensures CorruptState !in steps
    decreases |steps|
  {
    if steps != [] { WaitingIsPlain(Apply(s, steps[0]), steps[1..]); }
  }

  /** A deferral that reached the state file keeps starts before n away exactly as far as its record and the spacing say. */
  lemma CooldownIsExact(s: World, w: nat, write: Write, n: int)
    requires Inv(s) && WorkerOf(s, w).pc.Deferring? && !write.FailedBeforeRename?
    ensures ClearOf(WriteDeferralStep(s, w, write), n) <==>
            Earliest(WorkerOf(s, w).pc.record, s.spacing) >= n || Settled(s, n)
  {
    var next := WriteDeferralStep(s, w, write);
    InsiderIsAlone(s, w);
    WriteDeferralKeepsInv(s, w, write);
    if Settled(s, n) {
      forall rest | AssumedAlong(next, rest) ensures AddsNoneBefore(next.starts, Run(next, rest).starts, n) {
        SettledForGood(next, rest, n);
      }
    } else if PutsOff(next.disk.state, s.spacing, n) {
      assert Owes(next, n);
      forall rest | CorruptState !in rest ensures AddsNoneBefore(next.starts, Run(next, rest).starts, n) {
        OwesForGood(next, rest, n);
      }
    } else {
      NewResetLoses(next, true, n);
      WaitedLossIsEarly(next, n);
    }
  }

  // ----- the record of a stop -----

  /** No continuation that keeps the record of a stop starts before n. */
  ghost predicate NeverBefore(s: World, stands: bool, n: int) {
    forall rest | AssumedAlong(s, rest) && KeptAlong(s, rest, stands, n) :: AddsNoneBefore(s.starts, Run(s, rest).starts, n)
  }

  lemma LosingIsEarly(s: World, rest: seq<Step>, stands: bool, waits: bool, n: int)
    requires Loses(s, rest, stands, waits, n)
    ensures !AddsNoneBefore(s.starts, Run(s, rest).starts, n)
  {
    assert Run(s, rest).starts[|s.starts|] < n;
  }

  lemma LossIsNotNever(s: World, stands: bool, n: int)
    requires CanLose(s, stands, false, n)
    ensures !NeverBefore(s, stands, n)
  {
    var rest :| Loses(s, rest, stands, false, n);
    LosingIsEarly(s, rest, stands, false, n);
  }

  /** With the marker about to go and a state file that forbids nothing, the stop is lost. */
  lemma UnmarkingLoses(s: World, waits: bool, n: int)
    requires Inv(s) && s.operator.Unfenced? && !Settled(s, n) && !PutsOff(s.disk.state, s.spacing, n)
    ensures CanLose(s, true, waits, n)
  {
    var step := ResetUnmark(Unlinked);
    StepKeepsInv(s, step);
    NewResetLoses(Apply(s, step), waits, n);
    LosesNext(s, step, true, waits, n);
  }

  lemma UnfencingLoses(s: World, n: int)
    requires Inv(s) && s.operator.Rewritten? && s.disk.marker != NoMarker
    requires !Settled(s, n) && !PutsOff(s.disk.state, s.spacing, n)
    ensures CanLose(s, true, false, n)
  {
    var step := ResetUnfence(Unlinked);
    StepKeepsInv(s, step);
    UnmarkingLoses(Apply(s, step), false, n);
    LosesNext(s, step, true, false, n);
  }

  /** A step that does not keep the record has a continuation that does and starts before n. */
  lemma UnkeptStepLoses(s: World, step: Step, stands: bool, n: int)
    requires Inv(s) && Assumed(s, step) && Stopped(s, stands, n) && !Keeps(s, step, stands, n)
    ensures CanLose(Apply(s, step), stands && Apply(s, step).disk.marker != NoMarker, false, n)
  {
    var next := Apply(s, step);
    StepKeepsInv(s, step);
    if step.ResetRead? {
      WritersStayReadable(s.disk.state, step.now, 0);
      RewritingLoses(next, stands, false, n);
    } else if !stands {
      NewResetLoses(next, false, n);
    } else if s.operator.Rewritten? {
      UnfencingLoses(next, n);
    } else {
      UnmarkingLoses(next, false, n);
    }
  }

  /**
   While a stop is kept, everything after the next step stays clear of starts before n exactly when
   that step keeps its record: a reset's second reading, a corruption of the state file, any step.
   */
  lemma KeptStepsAreExact(s: World, step: Step, stands: bool, n: int)
    requires Inv(s) && Assumed(s, step) && Stopped(s, stands, n)
    ensures NeverBefore(Apply(s, step), stands && Apply(s, step).disk.marker != NoMarker, n) <==> Keeps(s, step, stands, n)
  {
    var next := Apply(s, step);
    var still := stands && next.disk.marker != NoMarker;
    if Keeps(s, step, stands, n) {
      StepKeepsInv(s, step);
      StoppedStep(s, step, stands, n);
      forall rest | AssumedAlong(next, rest) && KeptAlong(next, rest, still, n)
        ensures AddsNoneBefore(next.starts, Run(next, rest).starts, n)
      {
        StoppedForGood(next, rest, still, n);
      }
    } else {
      UnkeptStepLoses(s, step, stands, n);
      LossIsNotNever(next, still, n);
    }
  }

  /** A stop engaged now holds up to n, on every continuation that keeps its record, exactly when no reset has already cleared the fence without one. */
  lemma StopIsExact(s: World, w: nat, now: int, reason: StopReason, delay: Option<int>, write: Write, n: int)
    requires Inv(s) && MayEngage(s, w, write)
    ensures NeverBefore(Apply(s, Engage(w, now, reason, delay, write)), true, n) <==> Unhindered(s, n)
  {
    var step := Engage(w, now, reason, delay, write);
    var engaged := Apply(s, step);
    StepKeepsInv(s, step);
    if Unhindered(s, n) {
      EngagedIsStopped(s, w, now, reason, delay, write, n);
      forall rest | AssumedAlong(engaged, rest) && KeptAlong(engaged, rest, true, n)
        ensures AddsNoneBefore(engaged.starts, Run(engaged, rest).starts, n)
      {
        StoppedForGood(engaged, rest, true, n);
      }
    } else {
      UnmarkingLoses(engaged, false, n);
      LossIsNotNever(engaged, true, n);
    }
  }

  // ----- a stop that only waiting resets remove -----

  ghost predicate WaitedNeverBefore(s: World, n: int) {
    forall rest | AssumedAlong(s, rest) && WaitsAlong(s, rest, true) :: AddsNoneBefore(s.starts, Run(s, rest).starts, n)
  }

  lemma WaitedLossIsNotNever(s: World, n: int)
    requires CanLose(s, true, true, n)
    ensures !WaitedNeverBefore(s, n)
  {
    var rest :| Loses(s, rest, true, true, n);
    LosingIsEarly(s, rest, true, true, n);
  }

  /** The state file is corrupted, which waiting allows, and an admitted reset reads low. */
  lemma AdmittedWaitLoses(s: World, n: int)
    requires Inv(s) && s.operator.Admitted? && s.disk.marker != NoMarker
    requires !Settled(s, n) && s.operator.since + s.spacing < n
    ensures CanLose(s, true, true, n)
  {
    var w := Emptying(s);
    var a := Apply(s, Crash(w));
    AdmittedLoses(Apply(a, CorruptState), s.operator.since, true, n);
    LosesNext(a, CorruptState, true, true, n);
    LosesNext(s, Crash(w), true, true, n);
  }

  /** A new reset is admitted at the moment the marker names. */
  lemma NewWaitLoses(s: World, n: int)
    requires Inv(s) && s.disk.marker != NoMarker && ResumeAt(s.disk.marker).Some?
    requires !Settled(s, n) && ResumeAt(s.disk.marker).value + s.spacing < n
    ensures CanLose(s, true, true, n)
  {
    var now := ResumeAt(s.disk.marker).value;
    var a := Apply(s, ResetFails);
    StepKeepsInv(s, ResetFails);
    AdmitStep(a, now);
    StepKeepsInv(a, ResetAdmit(now));
    AdmittedWaitLoses(Apply(a, ResetAdmit(now)), n);
    LosesNext(a, ResetAdmit(now), true, true, n);
    LosesNext(s, ResetFails, true, true, n);
  }

  /**
   A rate-limit stop engaged now that only waiting resets remove forbids the starts before n
   exactly when the moment it names, and the reset already on its way, are late enough.
   */
  lemma WaitedStopIsExact(s: World, w: nat, now: int, delay: Option<int>, write: Write, n: int)
    requires Inv(s) && MayEngage(s, w, write)
    ensures WaitedNeverBefore(Apply(s, Engage(w, now, SourceRateLimited, delay, write)), n) <==>
            Survives(s, now + BoundedResumeDelay(delay), n)
  {
    var step := Engage(w, now, SourceRateLimited, delay, write);
    var engaged := Apply(s, step);
    StepKeepsInv(s, step);
    EngagedMarkerIsAccepted(SourceRateLimited, now, delay);
    if Survives(s, now + BoundedResumeDelay(delay), n) {
      forall rest | AssumedAlong(engaged, rest) && WaitsAlong(engaged, rest, true)
        ensures AddsNoneBefore(engaged.starts, Run(engaged, rest).starts, n)
      {
        WaitedStopHolds(s, w, now, delay, write, rest, n);
      }
    } else {
      HinderedStopLoses(s, w, now, delay, write, n);
    }
  }

  lemma HinderedStopLoses(s: World, w: nat, now: int, delay: Option<int>, write: Write, n: int)
    requires Inv(s) && MayEngage(s, w, write) && !Survives(s, now + BoundedResumeDelay(delay), n)
    ensures !WaitedNeverBefore(Apply(s, Engage(w, now, SourceRateLimited, delay, write)), n)
  {
    var step := Engage(w, now, SourceRateLimited, delay, write);
    var engaged := Apply(s, step);
    StepKeepsInv(s, step);
    EngagedMarkerIsAccepted(SourceRateLimited, now, delay);
    if !Unhindered(s, n) {
      UnmarkingLoses(engaged, true, n);
    } else if now + BoundedResumeDelay(delay) + s.spacing < n {
      NewWaitLoses(engaged, n);
    } else {
      AdmittedWaitLoses(engaged, n);
    }
    WaitedLossIsNotNever(engaged, n);
  }
}
