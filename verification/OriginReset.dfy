/**
 Why the conditions of the spacing and stop theorems are needed: runs from the initial files, each
 with one of them broken, in which a start comes too early.  The spacing is a second; in the runs
 about the stop, a 429 at 1000 ms names 5000 ms.
 */
module OriginReset {
  import opened OriginRecords
  import opened OriginProtocol
  import opened OriginPieces
  import opened OriginExact

  // ----- the initial files -----

  const FILES := Quiet(Missing, map[], Rest, 0, [])

  /** Worker 1 has made its first physical start. */
  function OneInside(operator: Operator, at: int): World {
    World(1000, Disk(FenceOf(0), Stored(NoCooldown(at)), NoMarker), map[1 := Worker(Started(at), 0, false, Some(at), false)],
          operator, 1, [at])
  }

  lemma FirstStart(s: World, now: int, at: int)
    requires s == Quiet(s.disk.state, map[], s.operator, 0, []) && !s.operator.Rewriting? && !s.operator.Rewritten?
    requires !ReadState(s.disk.state).Unusable? && at == Reservation(ReadState(s.disk.state), now, 1000, None)
    ensures AssumedAlong(s, StartSteps(1, now, at)) && Run(s, StartSteps(1, now, at)) == OneInside(s.operator, at)
  {
    Starting(s, 1, now, at);
    assert s.workers[1 := OneInside(s.operator, at).workers[1]] == OneInside(s.operator, at).workers;
  }

  // ----- a reset whose reading is behind the last start -----

  const CRASHING := [Crash(1), CorruptState]
  const CORRUPT := World(1000, Disk(FenceOf(0), Unusable, NoMarker), map[1 := IDLE], Rest, 1, [5000])
  const REWOUND := Quiet(Stored(NoCooldown(0)), map[1 := IDLE], Rest, 1, [5000])

  lemma CrashingStep(s: World)
    requires s.workers.Keys == {1}
    ensures Apply(s, Crash(1)) == s.(workers := map[1 := IDLE])
    ensures Apply(s.(workers := map[1 := IDLE]), CorruptState) == s.(workers := map[1 := IDLE], disk := s.disk.(state := Unusable))
  {
    assert s.workers[1 := IDLE] == map[1 := IDLE];
  }

  lemma CrashLeaves()
    ensures AssumedAlong(OneInside(Rest, 5000), CRASHING) && Run(OneInside(Rest, 5000), CRASHING) == CORRUPT
  {
    CrashingStep(OneInside(Rest, 5000));
    PassingRuns([OneInside(Rest, 5000), OneInside(Rest, 5000).(workers := map[1 := IDLE]), CORRUPT], CRASHING);
  }

  /** After a start at 5000 a crash leaves the fence, and the state file is corrupted. */
  lemma CrashingSteps()
    ensures Initial(FILES) && AssumedAlong(FILES, StartSteps(1, 4000, 5000) + CRASHING)
    ensures Run(FILES, StartSteps(1, 4000, 5000) + CRASHING) == CORRUPT
  {
    FirstStart(FILES, 4000, 5000);
    CrashLeaves();
    RunsJoin(FILES, StartSteps(1, 4000, 5000), CRASHING);
  }

  lemma RewoundStarts()
    ensures AssumedAlong(REWOUND, StartSteps(2, 0, 1000)) && Run(REWOUND, StartSteps(2, 0, 1000)).starts == [5000, 1000]
  {
    Starting(REWOUND, 2, 0, 1000);
  }

  const UNTIL_READING := StartSteps(1, 4000, 5000) + CRASHING + [ResetAdmit(0)]
  const AFTER_READING := CLEARING + StartSteps(2, 0, 1000)
  const BACKWARD := UNTIL_READING + ([ResetRead(0)] + AFTER_READING)

  lemma UntilReading()
    ensures AssumedAlong(FILES, UNTIL_READING) && Run(FILES, UNTIL_READING) == CORRUPT.(operator := Admitted(0))
  {
    CrashingSteps();
    RunsJoin(FILES, StartSteps(1, 4000, 5000) + CRASHING, [ResetAdmit(0)]);
    AdmitStep(CORRUPT, 0);
    RunFirst(CORRUPT, ResetAdmit(0), []);
  }

  lemma AfterReading()
    ensures var read := Apply(CORRUPT.(operator := Admitted(0)), ResetRead(0));
            AssumedAlong(read, AFTER_READING) && Run(read, AFTER_READING).starts == [5000, 1000]
  {
    var read := Apply(CORRUPT.(operator := Admitted(0)), ResetRead(0));
    ClearBegins(CORRUPT.(operator := Admitted(0)), 0, 0);
    ClearingEnds(read);
    RewoundStarts();
    RunsJoin(read, CLEARING, StartSteps(2, 0, 1000));
  }

  /**
   One run from the initial files, in which nothing but a reset's reading of 0 after the start at
   5000, over a corrupt state file and with nobody inside, is not assumed: the next start is at 1000.
   */
  lemma BackwardResetBreaksSpacing()
    ensures Initial(FILES) && AssumedAlong(FILES, UNTIL_READING)
    ensures AllOut(Run(FILES, UNTIL_READING)) && !ReadingCovers(Run(FILES, UNTIL_READING), 0)
    ensures AssumedAlong(Apply(Run(FILES, UNTIL_READING), ResetRead(0)), AFTER_READING)
    ensures !Spaced(Run(FILES, BACKWARD).starts, FILES.spacing)
  {
    UntilReading();
    AfterReading();
    RunsJoin(FILES, UNTIL_READING, [ResetRead(0)] + AFTER_READING);
    RunFirst(Run(FILES, UNTIL_READING), ResetRead(0), AFTER_READING);
    assert [5000] + [1000] == [5000, 1000];
    Unspaced([5000], 1000, 1000);
  }

  // ----- stops that are lost -----

  /** The first physical start, at 1000, is answered with a 429, and the deferral cannot be written. */
  const ANSWERED := [Reconcile(1, Done), Defer(1, 1000, 5000), WriteDeferral(1, FailedBeforeRename)]
  const STOP := Engage(1, 1000, SourceRateLimited, Some(4000), Done)
  const MARKED := Marked(StopMarker(SourceRateLimited, 1000, Some(4000)))

  function AtStop(operator: Operator): World {
    World(1000, Disk(FenceOf(0), Stored(NoCooldown(1000)), NoMarker), map[1 := Worker(Held, 0, true, Some(1000), false)],
          operator, 1, [1000])
  }

  lemma AnsweredSteps(operator: Operator)
    ensures AssumedAlong(OneInside(operator, 1000), ANSWERED) && Run(OneInside(operator, 1000), ANSWERED) == AtStop(operator)
  {
    var s := OneInside(operator, 1000);
    var a := s.(workers := map[1 := Worker(Held, 0, false, Some(1000), false)]);
    var b := s.(workers := map[1 := Worker(Deferring(Record(1000, Some(5000), Some(1000))), 0, false, Some(1000), false)]);
    ReconcilingStep(s, a);
    DeferringSteps(a, b, AtStop(operator));
    PassingRuns([s, a, b, AtStop(operator)], ANSWERED);
  }

  lemma ReconcilingStep(s: World, a: World)
    requires s.disk.state == Stored(NoCooldown(1000)) && s.workers == map[1 := Worker(Started(1000), 0, false, Some(1000), false)]
    requires a == s.(workers := map[1 := Worker(Held, 0, false, Some(1000), false)])
    ensures Apply(s, Reconcile(1, Done)) == a
  {
    assert s.workers[1 := Worker(Held, 0, false, Some(1000), false)] == a.workers;
  }

  lemma DeferringSteps(a: World, b: World, c: World)
    requires a.disk.state == Stored(NoCooldown(1000)) && a.workers == map[1 := Worker(Held, 0, false, Some(1000), false)]
    requires b == a.(workers := map[1 := Worker(Deferring(Record(1000, Some(5000), Some(1000))), 0, false, Some(1000), false)])
    requires c == a.(workers := map[1 := Worker(Held, 0, true, Some(1000), false)])
    ensures Apply(a, Defer(1, 1000, 5000)) == b && Apply(b, WriteDeferral(1, FailedBeforeRename)) == c
  {
    assert a.workers[1 := b.workers[1]] == b.workers && b.workers[1 := c.workers[1]] == c.workers;
  }

  /** From files on which the first start is at 1000 to the moment before the stop is engaged. */
  lemma ReachesStop(s: World)
    requires s == Quiet(s.disk.state, map[], s.operator, 0, []) && !s.operator.Rewriting? && !s.operator.Rewritten?
    requires s.disk.state == Missing || s.disk.state == Stored(NoCooldown(0))
    ensures AssumedAlong(s, StartSteps(1, 0, 1000) + ANSWERED) && Run(s, StartSteps(1, 0, 1000) + ANSWERED) == AtStop(s.operator)
  {
    FirstStart(s, 0, 1000);
    AnsweredSteps(s.operator);
    RunsJoin(s, StartSteps(1, 0, 1000), ANSWERED);
  }

  // ----- from the initial files to the stop -----

  const REACHING := StartSteps(1, 0, 1000) + ANSWERED

  /** No reset is under way. */
  lemma RestReachesStop()
    ensures AssumedAlong(FILES, REACHING) && Run(FILES, REACHING) == AtStop(Rest)
  {
    ReachesStop(FILES);
  }

  const ADMITTED_BEFORE := [ResetAdmit(0)] + REACHING

  /** A reset has taken its first reading, 0, when the worker enters. */
  lemma AdmittedReachesStop()
    ensures AssumedAlong(FILES, ADMITTED_BEFORE) && Run(FILES, ADMITTED_BEFORE) == AtStop(Admitted(0))
  {
    AdmitStep(FILES, 0);
    ReachesStop(FILES.(operator := Admitted(0)));
    RunFirst(FILES, ResetAdmit(0), REACHING);
  }

  const UNFENCING := [ResetRead(0), ResetWrite(Done), ResetUnfence(Unlinked)]

  lemma UnfencingSteps()
    ensures AssumedAlong(FILES.(operator := Admitted(0)), UNFENCING)
         && Run(FILES.(operator := Admitted(0)), UNFENCING) == Quiet(Stored(NoCooldown(0)), map[], Unfenced(0), 0, [])
  {
    var s := FILES.(operator := Admitted(0));
    var next := NoCooldown(0);
    var a := s.(operator := Rewriting(0, next));
    var b := Quiet(Stored(next), map[], Rewritten(0), 0, []);
    ClearBegins(s, 0, 0);
    ClearEnds(a, 0, next, b, b.(operator := Unfenced(0)), b.(operator := Rest));
    PassingRuns([s, a, b, b.(operator := Unfenced(0))], UNFENCING);
  }

  const UNFENCED_BEFORE := [ResetAdmit(0)] + (UNFENCING + REACHING)

  /** A reset without a marker has cleared the fence when the worker enters. */
  lemma UnfencedReachesStop()
    ensures AssumedAlong(FILES, UNFENCED_BEFORE) && Run(FILES, UNFENCED_BEFORE) == AtStop(Unfenced(0))
  {
    AdmitStep(FILES, 0);
    UnfencingSteps();
    ReachesStop(Quiet(Stored(NoCooldown(0)), map[], Unfenced(0), 0, []));
    RunsJoin(FILES.(operator := Admitted(0)), UNFENCING, REACHING);
    RunFirst(FILES, ResetAdmit(0), UNFENCING + REACHING);
  }

  // ----- and past it -----

  /** One assumed run from the initial files that engages the stop and then starts before the 5000 it names. */
  ghost predicate LosesStop(before: seq<Step>, rest: seq<Step>) {
    && Initial(FILES) && AssumedAlong(FILES, before + ([STOP] + rest))
    && !AddsNoneBefore(Run(FILES, before).starts, Run(FILES, before + ([STOP] + rest)).starts, 5000)
  }

  function Engaged(operator: Operator): World {
    AtStop(operator).(disk := Disk(FenceOf(0), Stored(NoCooldown(1000)), MARKED))
  }

  /** The stop is engaged in a sound world, and neither the spacing nor the state file forbids what it does. */
  lemma Engaging(before: seq<Step>, operator: Operator)
    requires AssumedAlong(FILES, before) && Run(FILES, before) == AtStop(operator)
    ensures Apply(AtStop(operator), STOP) == Engaged(operator) && Inv(Engaged(operator))
    ensures !Settled(Engaged(operator), 5000) && !PutsOff(Engaged(operator).disk.state, 1000, 5000)
    ensures ResumeAt(Engaged(operator).disk.marker) == Some(5000)
  {
    RunKeepsInv(FILES, before);
    StepKeepsInv(AtStop(operator), STOP);
  }

  lemma Joined(before: seq<Step>, operator: Operator, first: seq<Step>, rest: seq<Step>, stands: bool, waits: bool)
    requires AssumedAlong(FILES, before) && Run(FILES, before) == AtStop(operator) && AssumedAlong(Engaged(operator), first)
    requires Run(Engaged(operator), first).starts == [1000] && Loses(Run(Engaged(operator), first), rest, stands, waits, 5000)
    ensures LosesStop(before, first + rest)
  {
    Engaging(before, operator);
    RunsJoin(Engaged(operator), first, rest);
    LosingIsEarly(Run(Engaged(operator), first), rest, stands, waits, 5000);
    RunFirst(AtStop(operator), STOP, first + rest);
    RunsJoin(FILES, before, [STOP] + (first + rest));
  }

  /** The stop is engaged while a reset is admitted: every reset waits, and the stop is lost. */
  lemma AdmittedResetLosesStop()
    ensures Run(FILES, ADMITTED_BEFORE).operator == Admitted(0)
    ensures exists rest :: LosesStop(ADMITTED_BEFORE, rest) && WaitsAlong(Apply(Run(FILES, ADMITTED_BEFORE), STOP), rest, true)
  {
    AdmittedReachesStop();
    Engaging(ADMITTED_BEFORE, Admitted(0));
    AdmittedWaitLoses(Engaged(Admitted(0)), 5000);
    var rest :| Loses(Engaged(Admitted(0)), rest, true, true, 5000);
    Joined(ADMITTED_BEFORE, Admitted(0), [], rest, true, true);
    assert [] + rest == rest;
  }

  /** The stop is engaged when a reset has cleared the fence, and the same reset removes it: the record is kept, and the stop lost. */
  lemma UnfencedResetLosesStop()
    ensures Run(FILES, UNFENCED_BEFORE).operator == Unfenced(0)
    ensures exists rest :: LosesStop(UNFENCED_BEFORE, rest) && KeptAlong(Apply(Run(FILES, UNFENCED_BEFORE), STOP), rest, true, 5000)
  {
    UnfencedReachesStop();
    Engaging(UNFENCED_BEFORE, Unfenced(0));
    UnmarkingLoses(Engaged(Unfenced(0)), false, 5000);
    var rest :| Loses(Engaged(Unfenced(0)), rest, true, false, 5000);
    Joined(UNFENCED_BEFORE, Unfenced(0), [], rest, true, false);
    assert [] + rest == rest;
  }

  // ----- a record that is not kept -----

  const OUT := map[1 := IDLE]

  /** The worker is gone and the state file corrupt when the reset is admitted at 5000 and reads 1000. */
  const SLIPPING := [Crash(1), CorruptState, ResetAdmit(5000), ResetRead(1000)]

  lemma SlippingSteps()
    ensures AssumedAlong(Engaged(Rest), SLIPPING)
    ensures Run(Engaged(Rest), SLIPPING)
         == Engaged(Rest).(workers := OUT, disk := Engaged(Rest).disk.(state := Unusable), operator := Rewriting(5000, NoCooldown(1000)))
  {
    var s := Engaged(Rest);
    var a := s.(workers := OUT);
    var b := a.(disk := s.disk.(state := Unusable));
    var c := b.(operator := Admitted(5000));
    var d := b.(operator := Rewriting(5000, NoCooldown(1000)));
    CrashingStep(s);
    AdmitStep(b, 5000);
    PassingRuns([s, a, b, c, d], SLIPPING);
  }

  /**
   No reset is on its way, and corrupting the state file while the marker stands does no harm by
   itself; but the reset's second reading is behind its first, though not behind the last start.
   */
  lemma SlippedReadingLosesStop()
    ensures Survives(Run(FILES, REACHING), 5000, 5000)
    ensures exists rest :: LosesStop(REACHING, SLIPPING + rest) && Harmless(rest)
  {
    RestReachesStop();
    Engaging(REACHING, Rest);
    SlippingSteps();
    var read := Run(Engaged(Rest), SLIPPING);
    RewritingStarts(read);
    var rest :| StartsAt(read, rest, 2000);
    HarmlessIsKept(read, rest, true, 5000);
    assert Loses(read, rest, true, true, 5000);
    Joined(REACHING, Rest, SLIPPING, rest, true, true);
  }

  /** A reset waits until 5000 and rewrites the state, which is corrupted before the marker goes. */
  const WAITING := [Crash(1), ResetAdmit(5000), ResetRead(5000)]
  const BLANKING := [ResetWrite(Done), CorruptState]
  const REWRITING := WAITING + BLANKING

  function Blanked(): World {
    Engaged(Rest).(workers := OUT, disk := Engaged(Rest).disk.(state := Unusable), operator := Rewritten(5000))
  }

  lemma RewritingSteps()
    ensures AssumedAlong(Engaged(Rest), REWRITING) && Run(Engaged(Rest), REWRITING) == Blanked()
  {
    WaitingSteps();
    BlankingSteps();
    RunsJoin(Engaged(Rest), WAITING, BLANKING);
  }

  lemma BlankingSteps()
    ensures var read := Engaged(Rest).(workers := OUT, operator := Rewriting(5000, NoCooldown(5000)));
            AssumedAlong(read, BLANKING) && Run(read, BLANKING) == Blanked()
  {
    var a := Engaged(Rest).(workers := OUT, operator := Rewriting(5000, NoCooldown(5000)));
    var b := a.(disk := a.disk.(state := Stored(NoCooldown(5000))), operator := Rewritten(5000));
    PassingRuns([a, b, Blanked()], BLANKING);
  }

  lemma WaitingSteps()
    ensures AssumedAlong(Engaged(Rest), WAITING)
    ensures Run(Engaged(Rest), WAITING) == Engaged(Rest).(workers := OUT, operator := Rewriting(5000, NoCooldown(5000)))
  {
    var a := Engaged(Rest).(workers := OUT);
    CrashingStep(Engaged(Rest));
    AdmitStep(a, 5000);
    PassingRuns([Engaged(Rest), a, a.(operator := Admitted(5000)), a.(operator := Rewriting(5000, NoCooldown(5000)))], WAITING);
  }

  /** From there on the record is kept, and the stop is lost. */
  lemma CorruptedRewriteLosesStop()
    ensures Survives(Run(FILES, REACHING), 5000, 5000)
    ensures exists rest :: LosesStop(REACHING, REWRITING + rest)
                           && KeptAlong(Run(Apply(Run(FILES, REACHING), STOP), REWRITING), rest, true, 5000)
  {
    RestReachesStop();
    Engaging(REACHING, Rest);
    RewritingSteps();
    RunKeepsInv(Engaged(Rest), REWRITING);
    UnfencingLoses(Blanked(), 5000);
    var rest :| Loses(Blanked(), rest, true, false, 5000);
    Joined(REACHING, Rest, REWRITING, rest, true, false);
  }
}
