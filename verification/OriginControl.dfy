/**
 The file-backed origin control and safety-stop store in the form the program gives them: objects
 whose calls read and rewrite shared files.

 Each call is specified by what it does to the protocol's world when nothing interrupts it, and
 each such effect is a run of the protocol's steps, so what OriginProtocol proves of all runs
 holds of these calls.  Clock readings, write outcomes, abort signals and the kill switch are
 parameters; None is a reading that is not a finite number.  One fence's calls are serial, as its
 executor makes them.
 */
module OriginControl {
  import opened OriginRecords
  import opened OriginProtocol

  datatype Block = FenceActive | FenceUnavailable | StateInvalid | PersistFailed

  datatype StartResult = StartDone | StartThrew | Interrupted | Aborted | Blocked(why: Block)

  datatype Surroundings = Surroundings(
    current: Option<int>, reservationWrite: Write, afterReservation: Option<int>, abortedEarly: bool,
    killSwitch: bool, abortedLate: bool, actual: Option<int>, startThrows: bool, reconcileWrite: Write)

  // ----- the effect of whole calls -----

  /** `runWithPermit` from its durable reservation on. */
  function PermitTail(s: World, w: nat, env: Surroundings): (World, StartResult) {
    var checked := BeforeStartStep(s, w, env.killSwitch);
    if env.afterReservation.None? then (GiveUpStep(s, w, true), Blocked(StateInvalid))
    else if env.abortedEarly then (GiveUpStep(s, w, false), Aborted)
    else if env.killSwitch || WorkerOf(s, w).stopped || s.disk.marker != NoMarker then (checked, Interrupted)
    else if env.abortedLate then (GiveUpStep(checked, w, false), Aborted)
    else if env.actual.None? then (GiveUpStep(checked, w, true), Blocked(StateInvalid))
    else StartTail(checked, w, env.actual.value, env)
  }

  function StartTail(s: World, w: nat, actual: int, env: Surroundings): (World, StartResult) {
    var begun := StartStep(s, w, actual);
    if begun.starts == s.starts then (begun, Blocked(StateInvalid))
    else
      (ReconcileStep(begun, w, env.reconcileWrite),
       if !env.reconcileWrite.Done? then Blocked(PersistFailed) else if env.startThrows then StartThrew else StartDone)
  }

  function PermitCall(s: World, w: nat, requestsPerSecond: real, env: Surroundings): (World, StartResult) {
    if RequestSpacing(requestsPerSecond).None? || ReadState(s.disk.state).Unusable? || env.current.None? then
      (GiveUpStep(s, w, true), Blocked(StateInvalid))
    else
      var reserved := WriteReservationStep(ReserveStep(s, w, env.current.value), w, env.reservationWrite);
      if !env.reservationWrite.Done? then (reserved, Blocked(PersistFailed)) else PermitTail(reserved, w, env)
  }

  /** The permit call may go on to its reservation, past it, and to a start. */
  predicate SoundFor(s: World, requestsPerSecond: real, env: Surroundings) {
    0.0 < requestsPerSecond <= 1.0 && env.current.Some? && !ReadState(s.disk.state).Unusable?
  }

  predicate ReservedFor(s: World, requestsPerSecond: real, env: Surroundings) {
    SoundFor(s, requestsPerSecond, env) && env.reservationWrite.Done? && env.afterReservation.Some?
  }

  predicate DueFor(s: World, w: nat, requestsPerSecond: real, env: Surroundings) {
    && ReservedFor(s, requestsPerSecond, env) && !env.abortedEarly && !env.abortedLate
    && !env.killSwitch && !WorkerOf(s, w).stopped && s.disk.marker == NoMarker
    && env.actual.Some? && MayStart(s.disk.state, env.current.value, s.spacing, WorkerOf(s, w).lastActual, env.actual.value)
  }

  /** When a permit call starts, what it answers and what it leaves behind. */
  lemma PermitAnswers(s: World, w: nat, requestsPerSecond: real, env: Surroundings)
    requires w in s.workers && s.workers[w].pc == Held
    requires RequestSpacing(requestsPerSecond).Some? ==> RequestSpacing(requestsPerSecond).value == s.spacing
    ensures var (after, result) := PermitCall(s, w, requestsPerSecond, env);
            var due, me, stop := DueFor(s, w, requestsPerSecond, env), s.workers[w], env.killSwitch || s.workers[w].stopped || s.disk.marker != NoMarker;
            && after.starts == s.starts + (if due then [env.actual.value] else [])
            && (result.StartDone? || result.StartThrew? <==> due && env.reconcileWrite.Done?)
            && (result.StartDone? || result.StartThrew? ==>
                  after.disk.state == Stored(Record(env.actual.value, None, None)) && after.workers[w].lastActual == env.actual)
            && (result.StartThrew? <==> due && env.reconcileWrite.Done? && env.startThrows)
            && (result.Interrupted? <==> ReservedFor(s, requestsPerSecond, env) && !env.abortedEarly && stop)
            && (result.Aborted? <==> ReservedFor(s, requestsPerSecond, env) && (env.abortedEarly || (env.abortedLate && !stop)))
            && (result == Blocked(PersistFailed) <==>
                  SoundFor(s, requestsPerSecond, env) && (!env.reservationWrite.Done? || (due && !env.reconcileWrite.Done?)))
            && (result.Blocked? && result != Blocked(PersistFailed) ==> result == Blocked(StateInvalid))
            && after.workers[w].retained == (me.retained || result.Blocked?)
            && (!SoundFor(s, requestsPerSecond, env) || env.reservationWrite.FailedBeforeRename? ==> after.disk.state == s.disk.state)
  {
    if SoundFor(s, requestsPerSecond, env) && env.actual.Some? {
      ReservationIsFirst(s.disk.state, env.current.value, s.spacing, WorkerOf(s, w).lastActual, env.actual.value);
    }
  }

  function DeferCall(s: World, w: nat, setAt: Option<int>, requested: Option<int>, write: Write): World {
    if setAt.None? || requested.None? || ReadState(s.disk.state).Unusable? then GiveUpStep(s, w, true)
    else WriteDeferralStep(DeferStep(s, w, setAt.value, requested.value), w, write)
  }

  function ReleaseCall(s: World, w: nat, unlink: Unlink): World {
    EndReleaseStep(BeginReleaseStep(s, w), w, unlink)
  }

  function ClearCall(s: World, resetAt: Option<int>, write: Write, unlink: Unlink): World {
    if resetAt.None? then OperatorStep(s, ResetFails)
    else
      var wrote := OperatorStep(OperatorStep(s, ResetRead(resetAt.value)), ResetWrite(write));
      if !write.Done? then wrote else OperatorStep(wrote, ResetUnfence(unlink))
  }

  /** The moment a reset waits for: the marker's, or the one the resetting process itself could not persist. */
  function ResumeFor(file: MarkerFile, volatileResume: Option<int>): Option<int> {
    if ReadMarker(file).Marked? && file.marker.reason.SourceRateLimited? then file.marker.resumeNotBefore else volatileResume
  }

  /**
   A rate-limit marker that the reader accepts names a later moment; or there is no such marker, and
   a stop that this process could not persist does.
   */
  predicate TooEarly(file: MarkerFile, volatileResume: Option<int>, now: int) {
    if file.Marked? && file.marker.reason.SourceRateLimited? && file.marker.resumeNotBefore.Some?
       && 0 <= file.marker.resumeNotBefore.value - file.marker.stoppedAt <= 86_400_000
    then now < file.marker.resumeNotBefore.value
    else volatileResume.Some? && now < volatileResume.value
  }

  predicate MayReset(file: MarkerFile, volatileResume: Option<int>, now: int) {
    var resume := ResumeFor(file, volatileResume);
    resume.Some? ==> now >= resume.value
  }

  lemma ResetWaits(file: MarkerFile, volatileResume: Option<int>, now: int)
    ensures MayReset(file, volatileResume, now) <==> !TooEarly(file, volatileResume, now)
  {
  }

  function ResetCall(
    s: World, now: int, volatileResume: Option<int>, resetAt: Option<int>, write: Write, unfence: Unlink, unmark: Unlink): World
  {
    if !s.operator.Rest? || !MayReset(s.disk.marker, volatileResume, now) then s
    else
      var admitted := OperatorStep(s, ResetAdmit(now));
      var cleared := ClearCall(admitted, resetAt, write, unfence);
      if cleared.operator.Rest? then cleared else OperatorStep(cleared, ResetUnmark(unmark))
  }

  // ----- every call is a run of the protocol -----

  /** Some run that keeps the protocol's assumptions leads from s to next. */
  ghost predicate Reaches(s: World, next: World) {
    exists steps :: AssumedAlong(s, steps) && Run(s, steps) == next
  }

  lemma {:induction false} RunAppends(s: World, steps: seq<Step>, last: Step)
    ensures Run(s, steps + [last]) == Apply(Run(s, steps), last)
    ensures AssumedAlong(s, steps + [last]) <==> AssumedAlong(s, steps) && Assumed(Run(s, steps), last)
    decreases |steps|
  {
    if steps == [] {
      assert steps + [last] == [last] && [last][1..] == [];
    } else {
      assert (steps + [last])[1..] == steps[1..] + [last];
      RunAppends(Apply(s, steps[0]), steps[1..], last);
    }
  }

  lemma ReachesItself(s: World)
    ensures Reaches(s, s)
  {
    assert AssumedAlong(s, []) && Run(s, []) == s;
  }

  lemma Then(s: World, now: World, step: Step)
    requires Reaches(s, now) && Assumed(now, step)
    ensures Reaches(s, Apply(now, step))
  {
    var steps :| AssumedAlong(s, steps) && Run(s, steps) == now;
    RunAppends(s, steps, step);
  }

  /** A call that begins in a sound world ends in one: the starts stay spaced. */
  lemma CallsStaySound(s: World, next: World)
    requires Inv(s) && Reaches(s, next)
    ensures Inv(next) && Spaced(next.starts, s.spacing)
  {
    var steps :| AssumedAlong(s, steps) && Run(s, steps) == next;
    RunKeepsInv(s, steps);
    RunKeepsSpacing(s, steps);
  }

  lemma StartTailReaches(s: World, now: World, w: nat, actual: int, env: Surroundings)
    requires Reaches(s, now)
    ensures Reaches(s, StartTail(now, w, actual, env).0)
  {
    Then(s, now, Start(w, actual));
    Then(s, StartStep(now, w, actual), Reconcile(w, env.reconcileWrite));
  }

  lemma GivingUpReaches(s: World, now: World, w: nat)
    requires Reaches(s, now)
    ensures Reaches(s, GiveUpStep(now, w, true)) && Reaches(s, GiveUpStep(now, w, false))
  {
    Then(s, now, Block(w));
    Then(s, now, Abandon(w));
  }

  lemma PermitTailReaches(s: World, now: World, w: nat, env: Surroundings)
    requires Reaches(s, now)
    ensures Reaches(s, PermitTail(now, w, env).0)
  {
    var checked := BeforeStartStep(now, w, env.killSwitch);
    assert Reaches(s, checked) by { Then(s, now, BeforeStart(w, env.killSwitch)); }
    GivingUpReaches(s, now, w);
    GivingUpReaches(s, checked, w);
    if env.actual.Some? { StartTailReaches(s, checked, w, env.actual.value, env); }
  }

  lemma ReservingReaches(s: World, w: nat, now: int, write: Write)
    ensures Reaches(s, WriteReservationStep(ReserveStep(s, w, now), w, write))
  {
    ReachesItself(s);
    Then(s, s, Reserve(w, now));
    Then(s, ReserveStep(s, w, now), WriteReservation(w, write));
  }

  lemma PermitCallReaches(s: World, w: nat, requestsPerSecond: real, env: Surroundings)
    ensures Reaches(s, PermitCall(s, w, requestsPerSecond, env).0)
  {
    ReachesItself(s);
    GivingUpReaches(s, s, w);
    if env.current.Some? {
      ReservingReaches(s, w, env.current.value, env.reservationWrite);
      PermitTailReaches(s, WriteReservationStep(ReserveStep(s, w, env.current.value), w, env.reservationWrite), w, env);
    }
  }

  lemma ReleaseCallReaches(s: World, w: nat, unlink: Unlink)
    ensures Reaches(s, ReleaseCall(s, w, unlink))
  {
    ReachesItself(s);
    Then(s, s, BeginRelease(w));
    Then(s, BeginReleaseStep(s, w), EndRelease(w, unlink));
  }

  lemma DeferCallReaches(s: World, w: nat, setAt: Option<int>, requested: Option<int>, write: Write)
    ensures Reaches(s, DeferCall(s, w, setAt, requested, write))
  {
    ReachesItself(s);
    GivingUpReaches(s, s, w);
    if setAt.Some? && requested.Some? {
      Then(s, s, Defer(w, setAt.value, requested.value));
      Then(s, DeferStep(s, w, setAt.value, requested.value), WriteDeferral(w, write));
    }
  }

  /** The reading of a reset that the protocol assumes. */
  predicate GoodReading(s: World, resetAt: Option<int>) { resetAt.Some? ==> ReadingCovers(s, resetAt.value) }

  lemma ClearCallReaches(s: World, now: World, resetAt: Option<int>, write: Write, unlink: Unlink)
    requires Reaches(s, now) && now.operator.Admitted? && AllOut(now) && GoodReading(now, resetAt)
    ensures Reaches(s, ClearCall(now, resetAt, write, unlink))
  {
    Then(s, now, ResetFails);
    if resetAt.Some? {
      var read := OperatorStep(now, ResetRead(resetAt.value));
      Then(s, now, ResetRead(resetAt.value));
      Then(s, read, ResetWrite(write));
      Then(s, OperatorStep(read, ResetWrite(write)), ResetUnfence(unlink));
    }
  }

  lemma AdmittedReset(s: World, now: int, volatileResume: Option<int>)
    requires s.operator.Rest? && MayReset(s.disk.marker, volatileResume, now)
    ensures OperatorStep(s, ResetAdmit(now)) == s.(operator := Admitted(now))
  {
  }

  lemma ResetCallReaches(
    s: World, now: int, volatileResume: Option<int>, resetAt: Option<int>, write: Write, unfence: Unlink, unmark: Unlink)
    requires AllOut(s) && GoodReading(s, resetAt)
    ensures Reaches(s, ResetCall(s, now, volatileResume, resetAt, write, unfence, unmark))
  {
    var admitted := OperatorStep(s, ResetAdmit(now));
    ReachesItself(s);
    Then(s, s, ResetAdmit(now));
    if s.operator.Rest? && admitted.operator.Admitted? {
      AdmittedReads(s, now, resetAt);
      ClearedReaches(s, admitted, resetAt, write, unfence, unmark);
    }
  }

  lemma ClearedReaches(s: World, now: World, resetAt: Option<int>, write: Write, unfence: Unlink, unmark: Unlink)
    requires Reaches(s, now) && now.operator.Admitted? && AllOut(now) && GoodReading(now, resetAt)
    ensures Reaches(s, ClearCall(now, resetAt, write, unfence))
    ensures Reaches(s, OperatorStep(ClearCall(now, resetAt, write, unfence), ResetUnmark(unmark)))
  {
    ClearCallReaches(s, now, resetAt, write, unfence);
    Then(s, ClearCall(now, resetAt, write, unfence), ResetUnmark(unmark));
  }

  lemma AdmittedReads(s: World, now: int, resetAt: Option<int>)
    requires AllOut(s) && GoodReading(s, resetAt)
    ensures AllOut(OperatorStep(s, ResetAdmit(now))) && GoodReading(OperatorStep(s, ResetAdmit(now)), resetAt)
  {
  }

  // ----- the objects -----

  /** Of two updates of one worker only the later one is left. */
  lemma LastUpdate()
    ensures forall m: map<nat, Worker>, a: Worker, b: Worker {:trigger m[0 := a][0 := b]} :: m[0 := a][0 := b] == m[0 := b]
  {
  }

  class Files {
    var fence: Fence
    var state: StateFile
    var marker: MarkerFile
    var nextToken: nat
    ghost var starts: seq<int>

    constructor (state: StateFile)
      ensures fence == NoFence && this.state == state && marker == NoMarker && nextToken == 0 && starts == []
    {
      fence, this.state, marker, nextToken, starts := NoFence, state, NoMarker, 0, [];
    }

    /** The protocol's world with these files, one worker and the Operator where they stand. */
    ghost function Seen(spacing: nat, me: Worker, operator: Operator): World
      reads this
    {
      World(spacing, Disk(fence, state, marker), map[0 := me], operator, nextToken, starts)
    }

    method WriteState(record: Record, write: Write)
      modifies `state
      ensures state == if write.FailedBeforeRename? then old(state) else Stored(record)
    {
      if !write.FailedBeforeRename? { state := Stored(record); }
    }

    /** `acquireFence`: exclusive creation, then the durable owner token. */
    method AcquireFence(openable: bool, writeOk: bool, stopped: bool, ghost spacing: nat)
      returns (handle: FenceHandle?, why: Block)
      modifies `fence, `nextToken
      ensures old(fence) != NoFence || !openable ==>
                handle == null && fence == old(fence) && nextToken == old(nextToken)
      ensures old(fence) == NoFence && openable && !writeOk ==>
                handle == null && fence == PartialFence(old(nextToken))
      ensures old(fence) == NoFence && openable && writeOk ==>
                && handle != null && fresh(handle) && handle.files == this && fence == FenceOf(handle.token)
                && handle.token == old(nextToken) && nextToken == old(nextToken) + 1 && !handle.retained && handle.lastActual.None?
                && Seen(spacing, handle.Me(), Rest) ==
                     WriteFenceStep(OpenStep(old(Seen(spacing, Worker(Out, 0, false, None, stopped), Rest)), 0), 0, true)
      ensures handle == null ==> why == if old(fence) != NoFence then FenceActive else FenceUnavailable
    {
      if fence != NoFence { return null, FenceActive; }
      if !openable { return null, FenceUnavailable; }
      var token := nextToken;
      nextToken := nextToken + 1;
      fence := PartialFence(token);
      if !writeOk { return null, FenceUnavailable; }
      fence := FenceOf(token);
      why := FenceUnavailable;
      handle := new FenceHandle(this, token, stopped);
    }

    /** `clearFence`: the last-permit time is carried forward before the stale fence goes. */
    method ClearFence(resetAt: Option<int>, write: Write, unlink: Unlink, ghost s: World)
      returns (cleared: bool)
      requires s.operator.Admitted? && s.disk == Disk(fence, state, marker)
      modifies `state, `fence
      ensures ClearCall(s, resetAt, write, unlink) ==
              s.(disk := Disk(fence, state, marker), operator := if cleared then Unfenced(s.operator.since) else Rest)
      ensures cleared <==> resetAt.Some? && write.Done? && unlink.Unlinked?
      ensures resetAt.None? || !write.Done? ==> fence == old(fence)
      ensures cleared ==> fence == NoFence && state == Stored(ResetRecord(ReadState(old(state)), resetAt.value))
    {
      var previous := ReadState(state);
      if resetAt.None? { return false; }
      WriteState(ResetRecord(previous, resetAt.value), write);
      if !write.Done? { return false; }
      if !unlink.NotUnlinked? { fence := NoFence; }
      cleared := unlink.Unlinked?;
    }
  }

  class FenceHandle {
    const files: Files
    const token: nat
    const stopped: bool
    var retained: bool
    var lastActual: Option<int>

    constructor (files: Files, token: nat, stopped: bool)
      ensures this.files == files && Me() == Worker(Held, token, false, None, stopped)
    {
      this.files, this.token, this.stopped := files, token, stopped;
      retained, lastActual := false, None;
    }

    ghost function Me(): Worker
      reads this
    {
      Worker(Held, token, retained, lastActual, stopped)
    }

    ghost function Seen(spacing: nat, pc: Pc): World
      reads this, files
    {
      files.Seen(spacing, Me().(pc := pc), Rest)
    }

    /**
     `runWithPermit`: reserve durably, wait, look again, start, reconcile.

     A start is made, at the actual reading, exactly when the reservation is durable, nothing stops or
     aborts the permit and the reading respects spacing and cooldown.  The answer tells of such a
     start, or that its task threw, if it was also recorded; otherwise it names what came first, and
     a block retains the fence.
     */
    method RunWithPermit(requestsPerSecond: real, env: Surroundings, ghost spacing: nat) returns (result: StartResult)
      requires RequestSpacing(requestsPerSecond).Some? ==> RequestSpacing(requestsPerSecond).value == spacing
      modifies this, files`state, files`starts
      ensures (Seen(spacing, Held), result) == PermitCall(old(Seen(spacing, Held)), 0, requestsPerSecond, env)
      ensures files.starts == old(files.starts) + (if DueFor(old(Seen(spacing, Held)), 0, requestsPerSecond, env) then [env.actual.value] else [])
      ensures result.StartDone? || result.StartThrew? <==> DueFor(old(Seen(spacing, Held)), 0, requestsPerSecond, env) && env.reconcileWrite.Done?
      ensures result.StartDone? || result.StartThrew? ==>
                && files.state == Stored(Record(env.actual.value, None, None)) && lastActual == env.actual
                && (result.StartThrew? <==> env.startThrows)
      ensures result.Interrupted? <==>
                ReservedFor(old(Seen(spacing, Held)), requestsPerSecond, env) && !env.abortedEarly && (env.killSwitch || stopped || files.marker != NoMarker)
      ensures result.Aborted? <==>
                ReservedFor(old(Seen(spacing, Held)), requestsPerSecond, env)
                && (env.abortedEarly || (env.abortedLate && !env.killSwitch && !stopped && files.marker == NoMarker))
      ensures result == Blocked(PersistFailed) <==>
                SoundFor(old(Seen(spacing, Held)), requestsPerSecond, env)
                && (!env.reservationWrite.Done? || (DueFor(old(Seen(spacing, Held)), 0, requestsPerSecond, env) && !env.reconcileWrite.Done?))
      ensures result.Blocked? && result != Blocked(PersistFailed) ==> result == Blocked(StateInvalid)
      ensures retained == (old(retained) || result.Blocked?)
      ensures !SoundFor(old(Seen(spacing, Held)), requestsPerSecond, env) || env.reservationWrite.FailedBeforeRename? ==> files.state == old(files.state)
    {
      ghost var before := Seen(spacing, Held);
      result := Permit(requestsPerSecond, env, spacing);
      PermitAnswers(before, 0, requestsPerSecond, env);
    }

    method Permit(requestsPerSecond: real, env: Surroundings, ghost spacing: nat) returns (result: StartResult)
      requires RequestSpacing(requestsPerSecond).Some? ==> RequestSpacing(requestsPerSecond).value == spacing
      modifies this, files`state, files`starts
      ensures (Seen(spacing, Held), result) == PermitCall(old(Seen(spacing, Held)), 0, requestsPerSecond, env)
    {
      LastUpdate();
      var spacingMs := RequestSpacing(requestsPerSecond);
      var previous := ReadState(files.state);
      if spacingMs.None? || previous.Unusable? || env.current.None? {
        retained := true;
        return Blocked(StateInvalid);
      }
      var reserved := Reservation(previous, env.current.value, spacingMs.value, lastActual);
      files.WriteState(NoCooldown(reserved), env.reservationWrite);
      if !env.reservationWrite.Done? {
        retained := true;
        assert Seen(spacing, Held) == WriteReservationStep(ReserveStep(old(Seen(spacing, Held)), 0, env.current.value), 0, env.reservationWrite);
        return Blocked(PersistFailed);
      }
      result := WaitAndStart(reserved, env, spacing);
    }

    /** The part of `runWithPermit` after its reservation is durable. */
    method WaitAndStart(reserved: int, env: Surroundings, ghost spacing: nat) returns (result: StartResult)
      modifies this, files`state, files`starts
      ensures (Seen(spacing, Held), result) == PermitTail(old(Seen(spacing, Waiting(reserved))), 0, env)
    {
      LastUpdate();
      if env.afterReservation.None? {
        retained := true;
        return Blocked(StateInvalid);
      }
      if env.abortedEarly { return Aborted; }
      if env.killSwitch || stopped || files.marker != NoMarker { return Interrupted; }
      if env.abortedLate { return Aborted; }
      if env.actual.None? {
        retained := true;
        return Blocked(StateInvalid);
      }
      result := StartNow(reserved, env.actual.value, env, spacing);
    }

    /** The synchronous start and its reconciling record. */
    method StartNow(reserved: int, actual: int, env: Surroundings, ghost spacing: nat) returns (result: StartResult)
      modifies this, files`state, files`starts
      ensures (Seen(spacing, Held), result) == StartTail(old(Seen(spacing, Cleared(reserved))), 0, actual, env)
    {
      LastUpdate();
      if actual < reserved {
        retained := true;
        return Blocked(StateInvalid);
      }
      lastActual := Some(actual);
      files.starts := files.starts + [actual];
      files.WriteState(NoCooldown(actual), env.reconcileWrite);
      if !env.reconcileWrite.Done? {
        retained := true;
        return Blocked(PersistFailed);
      }
      result := if env.startThrows then StartThrew else StartDone;
    }

    /** `deferUntil`: the cooldown never shortens, and a failure to persist it retains the fence. */
    method DeferUntil(setAt: Option<int>, requested: Option<int>, write: Write, ghost spacing: nat) returns (deferred: bool)
      modifies this`retained, files`state
      ensures Seen(spacing, Held) == DeferCall(old(Seen(spacing, Held)), 0, setAt, requested, write)
      ensures deferred <==> setAt.Some? && requested.Some? && !ReadState(old(files.state)).Unusable? && write.Done?
      ensures setAt.None? || requested.None? || ReadState(old(files.state)).Unusable? || write.FailedBeforeRename? ==>
                files.state == old(files.state)
      ensures deferred ==>
                && files.state.Stored?
                && files.state.record.lastPermitAt == (if old(files.state).Stored? then old(files.state).record.lastPermitAt else setAt.value)
                && files.state.record.notBefore.Some?
                && var bounded := BoundedNotBefore(setAt.value, requested.value);
                   if old(files.state).Stored? && old(files.state).record.notBefore.Some? && old(files.state).record.notBefore.value > bounded
                   then files.state == old(files.state)
                   else files.state.record.notBefore == Some(bounded) && files.state.record.notBeforeSetAt == setAt
      ensures retained == (old(retained) || !deferred)
    {
      LastUpdate();
      var previous := ReadState(files.state);
      if setAt.None? || requested.None? || previous.Unusable? {
        retained := true;
        return false;
      }
      WritersStayReadable(files.state, setAt.value, requested.value);
      files.WriteState(DeferRecord(previous, setAt.value, requested.value), write);
      if !write.Done? { retained := true; }
      deferred := write.Done?;
    }

    /**
     `release`: only an unretained owner whose last start is durable removes the fence; every
     other ending leaves it as evidence.
     */
    method Release(unlink: Unlink, ghost spacing: nat) returns (removed: bool)
      modifies files`fence
      ensures Seen(spacing, Out) == ReleaseCall(old(Seen(spacing, Held)), 0, unlink)
      ensures removed <==>
                && !retained && old(files.fence) == FenceOf(token) && !unlink.NotUnlinked?
                && (lastActual.Some? ==> ReadState(files.state).Stored? && files.state.record.lastPermitAt >= lastActual.value)
      ensures files.fence == if removed then NoFence else old(files.fence)
    {
      LastUpdate();
      var state := ReadState(files.state);
      if retained || files.fence != FenceOf(token) { return false; }
      if lastActual.Some? && (!state.Stored? || state.record.lastPermitAt < lastActual.value) { return false; }
      removed := !unlink.NotUnlinked?;
      if removed { files.fence := NoFence; }
    }
  }

  // ----- the safety-stop store -----

  class SafetyStopStore {
    const files: Files
    /** The volatile stop: set while a marker write is unconfirmed, kept when it fails. */
    var volatileStop: bool
    var volatileResumeNotBefore: Option<int>

    constructor (files: Files)
      ensures this.files == files && !volatileStop && volatileResumeNotBefore == None
    {
      this.files := files;
      volatileStop, volatileResumeNotBefore := false, None;
    }

    method Inspect() returns (stopped: bool)
      ensures stopped <==> files.marker != NoMarker || volatileStop
    {
      stopped := files.marker != NoMarker || volatileStop;
    }

    /** `engage`: an existing stop is never replaced; an unconfirmed write stops this process. */
    method Engage(reason: StopReason, now: int, delay: Option<int>, write: Write) returns (persisted: bool)
      modifies this, files`marker
      ensures old(files.marker) != NoMarker || old(volatileStop) ==>
                files.marker == old(files.marker) && volatileStop == old(volatileStop)
      ensures old(files.marker) == NoMarker && !old(volatileStop) ==>
                && files.marker == (if write.FailedBeforeRename? then NoMarker else Marked(StopMarker(reason, now, delay)))
                && volatileStop == !write.Done?
      ensures files.marker != NoMarker || volatileStop
      ensures files.marker.Marked? && old(files.marker) == NoMarker ==> ReadMarker(files.marker) == files.marker
      ensures persisted <==> old(files.marker) != NoMarker || (!old(volatileStop) && write.Done?)
    {
      var stopped := Inspect();
      if stopped { return files.marker != NoMarker; }
      var marker := StopMarker(reason, now, delay);
      EngagedMarkerIsAccepted(reason, now, delay);
      volatileStop, volatileResumeNotBefore := true, marker.resumeNotBefore;
      if !write.FailedBeforeRename? { files.marker := Marked(marker); }
      if !write.Done? { return false; }
      volatileStop, volatileResumeNotBefore := false, None;
      persisted := true;
    }

    /**
     `reset`: refused before the resume time, of the marker or of this process's own unpersisted
     stop; otherwise the fence is cleared, with the last-permit time carried forward, and then the
     marker goes.
     */
    method Reset(now: int, resetAt: Option<int>, write: Write, unfence: Unlink, unmark: Unlink, ghost s: World)
      returns (done: bool)
      requires s.operator == Rest && s.disk == Disk(files.fence, files.state, files.marker)
      modifies this, files`state, files`fence, files`marker
      ensures ResetCall(s, now, old(volatileResumeNotBefore), resetAt, write, unfence, unmark) ==
              s.(disk := Disk(files.fence, files.state, files.marker))
      ensures done <==>
                && !TooEarly(old(files.marker), old(volatileResumeNotBefore), now)
                && resetAt.Some? && write.Done? && unfence.Unlinked? && unmark.Unlinked?
      ensures done ==>
                && files.marker == NoMarker && files.fence == NoFence && !volatileStop && volatileResumeNotBefore == None
                && files.state == Stored(ResetRecord(ReadState(old(files.state)), resetAt.value))
      ensures TooEarly(old(files.marker), old(volatileResumeNotBefore), now) ==>
                files.state == old(files.state) && files.fence == old(files.fence) && files.marker == old(files.marker)
      ensures !unfence.Unlinked? || resetAt.None? || !write.Done? ==> files.marker == old(files.marker)
      ensures resetAt.None? || !write.Done? ==> files.fence == old(files.fence)
      ensures !done ==> volatileStop == old(volatileStop) && volatileResumeNotBefore == old(volatileResumeNotBefore)
    {
      var resume := if ReadMarker(files.marker).Marked? && files.marker.marker.reason.SourceRateLimited?
                    then files.marker.marker.resumeNotBefore else volatileResumeNotBefore;
      ResetWaits(files.marker, volatileResumeNotBefore, now);
      if resume.Some? && now < resume.value { return false; }
      assert !TooEarly(old(files.marker), old(volatileResumeNotBefore), now);
      AdmittedReset(s, now, volatileResumeNotBefore);
      done := Clear(resetAt, write, unfence, unmark, s.(operator := Admitted(now)));
    }

    /** An admitted reset: the fence, then the marker. */
    method Clear(resetAt: Option<int>, write: Write, unfence: Unlink, unmark: Unlink, ghost s: World) returns (done: bool)
      requires s.operator.Admitted? && s.disk == Disk(files.fence, files.state, files.marker)
      modifies this, files`state, files`fence, files`marker
      ensures var cleared := ClearCall(s, resetAt, write, unfence);
              (if cleared.operator.Rest? then cleared else OperatorStep(cleared, ResetUnmark(unmark))) ==
              s.(disk := Disk(files.fence, files.state, files.marker), operator := Rest)
      ensures done <==> resetAt.Some? && write.Done? && unfence.Unlinked? && unmark.Unlinked?
      ensures done ==>
                && files.marker == NoMarker && files.fence == NoFence && !volatileStop && volatileResumeNotBefore == None
                && files.state == Stored(ResetRecord(ReadState(old(files.state)), resetAt.value))
      ensures !unfence.Unlinked? || resetAt.None? || !write.Done? ==> files.marker == old(files.marker)
      ensures resetAt.None? || !write.Done? ==> files.fence == old(files.fence)
      ensures !done ==> volatileStop == old(volatileStop) && volatileResumeNotBefore == old(volatileResumeNotBefore)
    {
      var cleared := files.ClearFence(resetAt, write, unfence, s);
      if !cleared { return false; }
      done := RemoveMarker(unmark);
    }

    /** The end of a reset: a stop kept in memory goes with the marker. */
    method RemoveMarker(unmark: Unlink) returns (done: bool)
      modifies this, files`marker
      ensures files.marker == if unmark.NotUnlinked? then old(files.marker) else NoMarker
      ensures done <==> unmark.Unlinked?
      ensures done ==> !volatileStop && volatileResumeNotBefore == None
      ensures !done ==> volatileStop == old(volatileStop) && volatileResumeNotBefore == old(volatileResumeNotBefore)
    {
      if !unmark.NotUnlinked? { files.marker := NoMarker; }
      done := unmark.Unlinked?;
      if done { volatileStop, volatileResumeNotBefore := false, None; }
    }
  }
}
