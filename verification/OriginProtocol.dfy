/**
 The durable origin permit protocol as a transition system: worker processes, the Operator and
 the files they share.  A worker may crash between any two steps, clocks may jump, and a write
 may fail before its rename or be renamed without being synced.

 The steps follow `acquireFence`, `runWithPermit`, `deferUntil`, `release` and `clearFence`
 (src/worker/source-origin-control.ts), `engage` and `reset` (src/worker/source-safety-stop.ts)
 and the section loop of `runCacheAwarePollCycle` (src/worker/v04.ts).
 */
module OriginProtocol {
  import opened OriginRecords

  /** The fence file: absent, created but not yet (or never) written, or naming its owner. */
  datatype Fence = NoFence | PartialFence(owner: nat) | FenceOf(owner: nat)

  datatype Disk = Disk(fence: Fence, state: StateFile, marker: MarkerFile)

  /** Where a worker is; Out means it holds no fence object. */
  datatype Pc =
    | Out
    | Opened
    | Held
    | Reserving(reserved: int)
    | Waiting(reserved: int)
    | Cleared(reserved: int)
    | Started(at: int)
    | Deferring(record: Record)
    | Releasing

  /** `stopped` is the process's own volatile stop; it outlives one fence but not the process. */
  datatype Worker = Worker(pc: Pc, token: nat, retained: bool, lastActual: Option<int>, stopped: bool)

  const IDLE := Worker(Out, 0, false, None, false)

  /** How far an Operator reset has come; `since` is the reading it compared with the marker. */
  datatype Operator =
    | Rest
    | Admitted(since: int)
    | Rewriting(since: int, next: Record)
    | Rewritten(since: int)
    | Unfenced(since: int)

  datatype World = World(
    spacing: nat, disk: Disk, workers: map<nat, Worker>, operator: Operator, nextToken: nat, starts: seq<int>)

  datatype Write = Done | FailedBeforeRename | RenamedNotSynced

  datatype Unlink = Unlinked | NotUnlinked | UnlinkedNotSynced

  datatype Step =
    | OpenFence(w: nat)
    | WriteFence(w: nat, ok: bool)
    | Reserve(w: nat, now: int)
    | WriteReservation(w: nat, write: Write)
    | BeforeStart(w: nat, killSwitch: bool)
    | Start(w: nat, now: int)
    | Reconcile(w: nat, write: Write)
    | Abandon(w: nat)
    | Block(w: nat)
    | Defer(w: nat, now: int, requested: int)
    | WriteDeferral(w: nat, write: Write)
    | Engage(w: nat, now: int, reason: StopReason, delay: Option<int>, write: Write)
    | BeginRelease(w: nat)
    | EndRelease(w: nat, unlink: Unlink)
    | Crash(w: nat)
    | ResetAdmit(now: int)
    | ResetRead(now: int)
    | ResetWrite(write: Write)
    | ResetUnfence(unlink: Unlink)
    | ResetUnmark(unlink: Unlink)
    | ResetFails
    | CorruptState
    | CorruptMarker

  function WorkerOf(s: World, w: nat): Worker { if w in s.workers then s.workers[w] else IDLE }

  function Put(s: World, w: nat, worker: Worker): World { s.(workers := s.workers[w := worker]) }

  function WriteState(s: World, record: Record, write: Write): World {
    if write.FailedBeforeRename? then s else s.(disk := s.disk.(state := Stored(record)))
  }

  // A worker's steps.  A step that its control flow does not reach changes nothing.

  function OpenStep(s: World, w: nat): World {
    var me := WorkerOf(s, w);
    if me.pc != Out || s.disk.fence != NoFence then s
    else
      Put(s, w, Worker(Opened, s.nextToken, false, None, me.stopped))
        .(disk := s.disk.(fence := PartialFence(s.nextToken)), nextToken := s.nextToken + 1)
  }

  function WriteFenceStep(s: World, w: nat, ok: bool): World {
    var me := WorkerOf(s, w);
    if me.pc != Opened then s
    else if !ok then Put(s, w, me.(pc := Out))
    else Put(s, w, me.(pc := Held)).(disk := s.disk.(fence := FenceOf(me.token)))
  }

  function ReserveStep(s: World, w: nat, now: int): World {
    var me, previous := WorkerOf(s, w), ReadState(s.disk.state);
    if me.pc != Held then s
    else if previous.Unusable? then Put(s, w, me.(retained := true))
    else Put(s, w, me.(pc := Reserving(Reservation(previous, now, s.spacing, me.lastActual))))
  }

  function WriteReservationStep(s: World, w: nat, write: Write): World {
    var me := WorkerOf(s, w);
    if !me.pc.Reserving? then s
    else
      var wrote := WriteState(s, NoCooldown(me.pc.reserved), write);
      if write.Done? then Put(wrote, w, me.(pc := Waiting(me.pc.reserved)))
      else Put(wrote, w, me.(pc := Held, retained := true))
  }

  function BeforeStartStep(s: World, w: nat, killSwitch: bool): World {
    var me := WorkerOf(s, w);
    if !me.pc.Waiting? then s
    else if killSwitch || me.stopped || s.disk.marker != NoMarker then Put(s, w, me.(pc := Held))
    else Put(s, w, me.(pc := Cleared(me.pc.reserved)))
  }

  function StartStep(s: World, w: nat, now: int): World {
    var me := WorkerOf(s, w);
    if !me.pc.Cleared? then s
    else if now < me.pc.reserved then Put(s, w, me.(pc := Held, retained := true))
    else Put(s, w, me.(pc := Started(now), lastActual := Some(now))).(starts := s.starts + [now])
  }

  function ReconcileStep(s: World, w: nat, write: Write): World {
    var me := WorkerOf(s, w);
    if !me.pc.Started? then s
    else Put(WriteState(s, NoCooldown(me.pc.at), write), w, me.(pc := Held, retained := me.retained || !write.Done?))
  }

  /** An abort or an interruption ends the permit; a clock that is no number also retains the fence. */
  function GiveUpStep(s: World, w: nat, blocked: bool): World {
    var me := WorkerOf(s, w);
    if me.pc.Waiting? || me.pc.Cleared? || me.pc.Held? then
      Put(s, w, me.(pc := Held, retained := me.retained || blocked))
    else s
  }

  function DeferStep(s: World, w: nat, now: int, requested: int): World {
    var me, previous := WorkerOf(s, w), ReadState(s.disk.state);
    if me.pc != Held then s
    else if previous.Unusable? then Put(s, w, me.(retained := true))
    else Put(s, w, me.(pc := Deferring(DeferRecord(previous, now, requested))))
  }

  function WriteDeferralStep(s: World, w: nat, write: Write): World {
    var me := WorkerOf(s, w);
    if !me.pc.Deferring? then s
    else Put(WriteState(s, me.pc.record, write), w, me.(pc := Held, retained := me.retained || !write.Done?))
  }

  function EngageStep(s: World, w: nat, marker: Marker, write: Write): World {
    var me := WorkerOf(s, w);
    if me.pc != Held || s.disk.marker != NoMarker then s
    else if me.stopped then Put(s, w, me.(retained := true))
    else
      var marked := if write.FailedBeforeRename? then s else s.(disk := s.disk.(marker := Marked(marker)));
      if write.Done? then marked else Put(marked, w, me.(retained := true, stopped := true))
  }

  function BeginReleaseStep(s: World, w: nat): World {
    var me, state := WorkerOf(s, w), ReadState(s.disk.state);
    if me.pc != Held then s
    else if me.retained || s.disk.fence != FenceOf(me.token) then Put(s, w, me.(pc := Out))
    else if me.lastActual.Some? && (!state.Stored? || state.record.lastPermitAt < me.lastActual.value) then
      Put(s, w, me.(pc := Out))
    else Put(s, w, me.(pc := Releasing))
  }

  function EndReleaseStep(s: World, w: nat, unlink: Unlink): World {
    var me := WorkerOf(s, w);
    if me.pc != Releasing then s
    else Put(s, w, me.(pc := Out)).(disk := if unlink.NotUnlinked? then s.disk else s.disk.(fence := NoFence))
  }

  function OperatorStep(s: World, step: Step): World {
    match (step, s.operator)
    case (ResetAdmit(now), Rest) =>
      var resume := ResumeAt(s.disk.marker);
      if resume.Some? && now < resume.value then s else s.(operator := Admitted(now))
    case (ResetRead(now), Admitted(since)) =>
      s.(operator := Rewriting(since, ResetRecord(ReadState(s.disk.state), now)))
    case (ResetWrite(write), Rewriting(since, next)) =>
      WriteState(s, next, write).(operator := if write.Done? then Rewritten(since) else Rest)
    case (ResetUnfence(unlink), Rewritten(since)) =>
      s.(disk := if unlink.NotUnlinked? then s.disk else s.disk.(fence := NoFence),
         operator := if unlink.Unlinked? then Unfenced(since) else Rest)
    case (ResetUnmark(unlink), Unfenced(_)) =>
      s.(disk := if unlink.NotUnlinked? then s.disk else s.disk.(marker := NoMarker), operator := Rest)
    case (ResetFails, _) => s.(operator := Rest)
    case _ => s
  }

  predicate IsOperators(step: Step) {
    step.ResetAdmit? || step.ResetRead? || step.ResetWrite? || step.ResetUnfence? || step.ResetUnmark? || step.ResetFails?
  }

  function WorkerStep(s: World, step: Step): World {
    match step
    case OpenFence(w) => OpenStep(s, w)
    case WriteFence(w, ok) => WriteFenceStep(s, w, ok)
    case Reserve(w, now) => ReserveStep(s, w, now)
    case WriteReservation(w, write) => WriteReservationStep(s, w, write)
    case BeforeStart(w, killSwitch) => BeforeStartStep(s, w, killSwitch)
    case Start(w, now) => StartStep(s, w, now)
    case Reconcile(w, write) => ReconcileStep(s, w, write)
    case Abandon(w) => GiveUpStep(s, w, false)
    case Block(w) => GiveUpStep(s, w, true)
    case Defer(w, now, requested) => DeferStep(s, w, now, requested)
    case WriteDeferral(w, write) => WriteDeferralStep(s, w, write)
    case Engage(w, now, reason, delay, write) => EngageStep(s, w, StopMarker(reason, now, delay), write)
    case BeginRelease(w) => BeginReleaseStep(s, w)
    case EndRelease(w, unlink) => EndReleaseStep(s, w, unlink)
    case Crash(w) => Put(s, w, IDLE)
    case _ => s
  }

  function Apply(s: World, step: Step): World {
    if step.CorruptState? then s.(disk := s.disk.(state := Unusable))
    else if step.CorruptMarker? then s.(disk := s.disk.(marker := BadMarker))
    else if IsOperators(step) then OperatorStep(s, step)
    else WorkerStep(s, step)
  }

  // ----- what is assumed of the surroundings -----

  predicate AllOut(s: World) { forall w | w in s.workers :: s.workers[w].pc == Out }

  /**
   The assumptions the code relies on.  The fence is cleared only when no worker is inside a fenced
   operation and none enters one meanwhile; before and after that, while a reset looks at the marker
   or removes it, workers come and go.  The record a reset writes allows no start within the spacing
   of the last one.  Every worker runs at the one configured rate, which is the world's `spacing`.
   */
  predicate Assumed(s: World, step: Step) {
    match step
    case OpenFence(_) => !s.operator.Rewriting? && !s.operator.Rewritten?
    case ResetRead(now) => AllOut(s) && ReadingCovers(s, now)
    case _ => true
  }

  /** What a reset with this reading writes covers the last start. */
  predicate ReadingCovers(s: World, now: int) {
    RecordCovers(s, ResetRecord(ReadState(s.disk.state), now))
  }

  predicate AtLeastLast(starts: seq<int>, at: int) { starts != [] ==> at >= starts[|starts| - 1] }

  /** A worker that finds this record starts no less than the spacing after the last start. */
  predicate RecordCovers(s: World, r: Record) { AtLeastLast(s.starts, Earliest(r, s.spacing) - s.spacing) }

  /** Before the first start: any files, a fence left behind by a dead owner included. */
  predicate Initial(s: World) { AllOut(s) && s.operator == Rest && s.starts == [] }

  function Run(s: World, steps: seq<Step>): World
    decreases |steps|
  {
    if steps == [] then s else Run(Apply(s, steps[0]), steps[1..])
  }

  predicate AssumedAlong(s: World, steps: seq<Step>)
    decreases |steps|
  {
    steps != [] ==> Assumed(s, steps[0]) && AssumedAlong(Apply(s, steps[0]), steps[1..])
  }

  // ----- the invariant -----

  /** The state file, if usable, covers the last start; it is missing only before any. */
  predicate Covers(s: World) {
    match ReadState(s.disk.state)
    case Missing => s.starts == []
    case Unusable => true
    case Stored(r) => RecordCovers(s, r)
  }

  predicate Spaced(starts: seq<int>, spacing: int) {
    forall i, j | 0 <= i < j < |starts| :: starts[j] >= starts[i] + spacing
  }

  /** What the one worker inside the fence knows. */
  predicate InsideOk(s: World, me: Worker) {
    && s.disk.fence != NoFence && s.disk.fence.owner == me.token
    && !s.operator.Rewriting? && !s.operator.Rewritten?
    && (me.lastActual.Some? ==> s.starts != [] && s.starts[|s.starts| - 1] == me.lastActual.value)
    && (me.lastActual.None? || me.pc == Releasing ==> Covers(s))
    && match me.pc
       case Reserving(r) => AtLeastLast(s.starts, r - s.spacing)
       case Waiting(r) => !s.disk.state.Missing? && AtLeastLast(s.starts, r - s.spacing)
       case Cleared(r) => !s.disk.state.Missing? && AtLeastLast(s.starts, r - s.spacing)
       case Started(at) => me.lastActual == Some(at)
       case Deferring(r) => Readable(r) && (me.lastActual.None? ==> RecordCovers(s, r))
       case _ => true
  }

  predicate OperatorOk(s: World) {
    match s.operator
    case Rewriting(_, next) => AllOut(s) && Readable(next) && RecordCovers(s, next)
    case Rewritten(_) => AllOut(s) && !s.disk.state.Missing? && Covers(s)
    case _ => true
  }

  ghost predicate Inv(s: World) {
    && Spaced(s.starts, s.spacing)
    && (s.disk.state.Missing? ==> s.starts == [])
    && (forall v, w | v in s.workers && w in s.workers && v != w :: s.workers[v].pc.Out? || s.workers[w].pc.Out?)
    && (forall w | w in s.workers && !s.workers[w].pc.Out? :: InsideOk(s, s.workers[w]))
    && (s.disk.fence == NoFence ==> AllOut(s) && Covers(s))
    && OperatorOk(s)
  }

  predicate OthersOut(s: World, w: nat) {
    forall v | v in s.workers && v != w :: s.workers[v].pc.Out?
  }

  /** The one worker that is, or may step, inside the fence moves to `me`. */
  lemma OwnerMoves(s: World, w: nat, me: Worker, next: World)
    requires Inv(s) && OthersOut(s, w) && !s.operator.Rewriting? && !s.operator.Rewritten?
    requires next.workers == s.workers[w := me] && next.operator == s.operator
    requires Spaced(next.starts, next.spacing)
    requires next.disk.state.Missing? ==> next.starts == []
    requires me.pc.Out? || InsideOk(next, me)
    requires next.disk.fence == NoFence ==> me.pc.Out? && Covers(next)
    ensures Inv(next)
  {
  }

  lemma InsiderIsAlone(s: World, w: nat)
    requires Inv(s) && !WorkerOf(s, w).pc.Out?
    ensures w in s.workers && OthersOut(s, w) && InsideOk(s, WorkerOf(s, w))
  {
  }

  lemma OpenKeepsInv(s: World, w: nat)
    requires Inv(s) && Assumed(s, OpenFence(w))
    ensures Inv(OpenStep(s, w))
  {
    var next := OpenStep(s, w);
    if next != s { OwnerMoves(s, w, next.workers[w], next); }
  }

  lemma WriteFenceKeepsInv(s: World, w: nat, ok: bool)
    requires Inv(s)
    ensures Inv(WriteFenceStep(s, w, ok))
  {
    var next := WriteFenceStep(s, w, ok);
    if WorkerOf(s, w).pc == Opened {
      InsiderIsAlone(s, w);
      OwnerMoves(s, w, WorkerOf(next, w), next);
    }
  }

  lemma ReserveKeepsInv(s: World, w: nat, now: int)
    requires Inv(s)
    ensures Inv(ReserveStep(s, w, now))
  {
    var next := ReserveStep(s, w, now);
    if WorkerOf(s, w).pc == Held {
      InsiderIsAlone(s, w);
      OwnerMoves(s, w, WorkerOf(next, w), next);
    }
  }

  lemma WriteReservationKeepsInv(s: World, w: nat, write: Write)
    requires Inv(s)
    ensures Inv(WriteReservationStep(s, w, write))
  {
    var next := WriteReservationStep(s, w, write);
    if WorkerOf(s, w).pc.Reserving? {
      InsiderIsAlone(s, w);
      OwnerMoves(s, w, WorkerOf(next, w), next);
    }
  }

  lemma BeforeStartKeepsInv(s: World, w: nat, killSwitch: bool)
    requires Inv(s)
    ensures Inv(BeforeStartStep(s, w, killSwitch))
  {
    var next := BeforeStartStep(s, w, killSwitch);
    if WorkerOf(s, w).pc.Waiting? {
      InsiderIsAlone(s, w);
      OwnerMoves(s, w, WorkerOf(next, w), next);
    }
  }

  lemma StartKeepsInv(s: World, w: nat, now: int)
    requires Inv(s)
    ensures Inv(StartStep(s, w, now))
  {
    var next := StartStep(s, w, now);
    if WorkerOf(s, w).pc.Cleared? {
      InsiderIsAlone(s, w);
      OwnerMoves(s, w, WorkerOf(next, w), next);
    }
  }

  lemma ReconcileKeepsInv(s: World, w: nat, write: Write)
    requires Inv(s)
    ensures Inv(ReconcileStep(s, w, write))
  {
    var next := ReconcileStep(s, w, write);
    if WorkerOf(s, w).pc.Started? {
      InsiderIsAlone(s, w);
      OwnerMoves(s, w, WorkerOf(next, w), next);
    }
  }

  lemma GiveUpKeepsInv(s: World, w: nat, blocked: bool)
    requires Inv(s)
    ensures Inv(GiveUpStep(s, w, blocked))
  {
    var next := GiveUpStep(s, w, blocked);
    if WorkerOf(s, w).pc.Waiting? || WorkerOf(s, w).pc.Cleared? || WorkerOf(s, w).pc.Held? {
      InsiderIsAlone(s, w);
      OwnerMoves(s, w, WorkerOf(next, w), next);
    }
  }

  lemma DeferKeepsInv(s: World, w: nat, now: int, requested: int)
    requires Inv(s)
    ensures Inv(DeferStep(s, w, now, requested))
  {
    var next := DeferStep(s, w, now, requested);
    if WorkerOf(s, w).pc == Held {
      InsiderIsAlone(s, w);
      OwnerMoves(s, w, WorkerOf(next, w), next);
    }
  }

  lemma WriteDeferralKeepsInv(s: World, w: nat, write: Write)
    requires Inv(s)
    ensures Inv(WriteDeferralStep(s, w, write))
  {
    var next := WriteDeferralStep(s, w, write);
    if WorkerOf(s, w).pc.Deferring? {
      InsiderIsAlone(s, w);
      OwnerMoves(s, w, WorkerOf(next, w), next);
    }
  }

  lemma EngageKeepsInv(s: World, w: nat, marker: Marker, write: Write)
    requires Inv(s)
    ensures Inv(EngageStep(s, w, marker, write))
  {
    var next := EngageStep(s, w, marker, write);
    if WorkerOf(s, w).pc == Held {
      InsiderIsAlone(s, w);
      OwnerMoves(s, w, WorkerOf(next, w), next);
    }
  }

  lemma BeginReleaseKeepsInv(s: World, w: nat)
    requires Inv(s)
    ensures Inv(BeginReleaseStep(s, w))
  {
    var next := BeginReleaseStep(s, w);
    if WorkerOf(s, w).pc == Held {
      InsiderIsAlone(s, w);
      OwnerMoves(s, w, WorkerOf(next, w), next);
    }
  }

  lemma EndReleaseKeepsInv(s: World, w: nat, unlink: Unlink)
    requires Inv(s)
    ensures Inv(EndReleaseStep(s, w, unlink))
  {
    var next := EndReleaseStep(s, w, unlink);
    if WorkerOf(s, w).pc == Releasing {
      InsiderIsAlone(s, w);
      OwnerMoves(s, w, WorkerOf(next, w), next);
    }
  }

  lemma CrashKeepsInv(s: World, w: nat)
    requires Inv(s)
    ensures Inv(Put(s, w, IDLE))
  {
    var next := Put(s, w, IDLE);
    if !WorkerOf(s, w).pc.Out? {
      InsiderIsAlone(s, w);
      OwnerMoves(s, w, IDLE, next);
    } else {
      forall v | v in next.workers && !next.workers[v].pc.Out? ensures v in s.workers && InsideOk(next, s.workers[v]) {
        assert InsideOk(s, s.workers[v]);
      }
    }
  }

  lemma OperatorKeepsInv(s: World, step: Step)
    requires Inv(s) && Assumed(s, step)
    ensures Inv(OperatorStep(s, step))
  {
  }

  lemma CorruptionKeepsInv(s: World)
    requires Inv(s)
    ensures Inv(Apply(s, CorruptState)) && Inv(Apply(s, CorruptMarker))
  {
    var a, b := Apply(s, CorruptState), Apply(s, CorruptMarker);
    forall w | w in s.workers && !s.workers[w].pc.Out? ensures InsideOk(a, s.workers[w]) && InsideOk(b, s.workers[w]) {
      assert InsideOk(s, s.workers[w]);
    }
  }

  lemma WorkerStepKeepsInv(s: World, step: Step)
    requires Inv(s) && Assumed(s, step)
    ensures Inv(WorkerStep(s, step))
  {
    match step
    case OpenFence(w) => OpenKeepsInv(s, w);
    case WriteFence(w, ok) => WriteFenceKeepsInv(s, w, ok);
    case Reserve(w, now) => ReserveKeepsInv(s, w, now);
    case WriteReservation(w, write) => WriteReservationKeepsInv(s, w, write);
    case BeforeStart(w, killSwitch) => BeforeStartKeepsInv(s, w, killSwitch);
    case Start(w, now) => StartKeepsInv(s, w, now);
    case Reconcile(w, write) => ReconcileKeepsInv(s, w, write);
    case Abandon(w) => GiveUpKeepsInv(s, w, false);
    case Block(w) => GiveUpKeepsInv(s, w, true);
    case Defer(w, now, requested) => DeferKeepsInv(s, w, now, requested);
    case WriteDeferral(w, write) => WriteDeferralKeepsInv(s, w, write);
    case Engage(w, now, reason, delay, write) => EngageKeepsInv(s, w, StopMarker(reason, now, delay), write);
    case BeginRelease(w) => BeginReleaseKeepsInv(s, w);
    case EndRelease(w, unlink) => EndReleaseKeepsInv(s, w, unlink);
    case Crash(w) => CrashKeepsInv(s, w);
    case _ =>
  }

  lemma StepKeepsInv(s: World, step: Step)
    requires Inv(s) && Assumed(s, step)
    ensures Inv(Apply(s, step))
  {
    if step.CorruptState? || step.CorruptMarker? {
      CorruptionKeepsInv(s);
    } else if IsOperators(step) {
      OperatorKeepsInv(s, step);
    } else {
      WorkerStepKeepsInv(s, step);
    }
  }

  lemma {:induction false} RunKeepsInv(s: World, steps: seq<Step>)
    requires Inv(s) && AssumedAlong(s, steps)
    ensures Inv(Run(s, steps))
    decreases |steps|
  {
    if steps != [] {
      StepKeepsInv(s, steps[0]);
      RunKeepsInv(Apply(s, steps[0]), steps[1..]);
    }
  }

  // ----- spacing -----

  /**
   In every run, whatever crashes, failed writes, corruptions of the state file, clock jumps and
   Operator resets it holds, any two physical starts have clock readings at least the spacing
   apart, in the order in which they happened.
   */
  lemma StartsAreSpaced(s: World, steps: seq<Step>)
    requires Initial(s) && AssumedAlong(s, steps)
    ensures Spaced(Run(s, steps).starts, s.spacing)
  {
    RunKeepsInv(s, steps);
    RunKeepsSpacing(s, steps);
  }

  /** Never are two workers inside the fence, and nobody is while a reset rewrites the state and clears the fence. */
  lemma FenceIsExclusive(s: World, steps: seq<Step>, v: nat, w: nat)
    requires Initial(s) && AssumedAlong(s, steps)
    ensures var end := Run(s, steps);
            && (!WorkerOf(end, v).pc.Out? && !WorkerOf(end, w).pc.Out? ==> v == w)
            && (!WorkerOf(end, v).pc.Out? ==>
                  !end.operator.Rewriting? && !end.operator.Rewritten? && end.disk.fence != NoFence)
  {
    RunKeepsInv(s, steps);
  }

  lemma {:induction false} RunKeepsSpacing(s: World, steps: seq<Step>)
    ensures Run(s, steps).spacing == s.spacing
    decreases |steps|
  {
    if steps != [] { RunKeepsSpacing(Apply(s, steps[0]), steps[1..]); }
  }

  // ----- the origin cooldown -----

  /** A worker that finds this file starts at n at the earliest. */
  predicate PutsOff(file: StateFile, spacing: int, n: int) {
    file.Stored? && Readable(file.record) && Earliest(file.record, spacing) >= n
  }

  /** No start before n is possible any more: not from the file, and not from work in progress. */
  predicate Owes(s: World, n: int) {
    && PutsOff(s.disk.state, s.spacing, n)
    && (forall w | w in s.workers :: WorkerOwes(s.workers[w].pc, s.spacing, n))
    && (s.operator.Rewriting? ==> PutsOff(Stored(s.operator.next), s.spacing, n))
  }

  predicate WorkerOwes(pc: Pc, spacing: int, n: int) {
    match pc
    case Reserving(r) => r >= n
    case Waiting(r) => r >= n
    case Cleared(r) => r >= n
    case Started(at) => at >= n
    case Deferring(r) => PutsOff(Stored(r), spacing, n)
    case _ => true
  }

  /** One step adds at most one start, and none before n. */
  predicate AddsNoneBefore(before: seq<int>, after: seq<int>, n: int) {
    before <= after && forall i | |before| <= i < |after| :: after[i] >= n
  }

  /** A step that replaces one worker, the files and perhaps adds a start keeps the debt. */
  lemma OneOwes(s: World, w: nat, next: World, n: int)
    requires Owes(s, n)
    requires exists me :: next.workers == s.workers[w := me] && WorkerOwes(me.pc, s.spacing, n)
    requires next.operator == s.operator && next.spacing == s.spacing && PutsOff(next.disk.state, s.spacing, n)
    ensures Owes(next, n)
  {
  }

  lemma ReadingOwes(s: World, w: nat, now: int, requested: int, n: int)
    requires Owes(s, n)
    ensures Owes(ReserveStep(s, w, now), n) && Owes(DeferStep(s, w, now, requested), n)
  {
    var me := WorkerOf(s, w);
    if me.pc == Held {
      WritersOnlyPutOff(s.disk.state, now, requested, s.spacing, me.lastActual);
      var reserved := Reserving(Reservation(s.disk.state, now, s.spacing, me.lastActual));
      assert WorkerOwes(reserved, s.spacing, n);
      OneOwes(s, w, Put(s, w, me.(pc := reserved)), n);
      var deferring := Deferring(DeferRecord(s.disk.state, now, requested));
      assert WorkerOwes(deferring, s.spacing, n);
      OneOwes(s, w, Put(s, w, me.(pc := deferring)), n);
    }
  }

  lemma WritingOwes(s: World, w: nat, write: Write, n: int)
    requires Owes(s, n)
    ensures Owes(WriteReservationStep(s, w, write), n)
    ensures Owes(ReconcileStep(s, w, write), n)
    ensures Owes(WriteDeferralStep(s, w, write), n)
  {
    assert WorkerOwes(WorkerOf(s, w).pc, s.spacing, n);
  }

  lemma StartOwes(s: World, w: nat, now: int, n: int)
    requires Owes(s, n)
    ensures Owes(StartStep(s, w, now), n)
  {
    assert WorkerOwes(WorkerOf(s, w).pc, s.spacing, n);
  }

  lemma WorkerStepStarts(s: World, step: Step, n: int)
    requires Owes(s, n)
    ensures AddsNoneBefore(s.starts, WorkerStep(s, step).starts, n)
  {
    assert step.Start? ==> WorkerOwes(WorkerOf(s, step.w).pc, s.spacing, n);
  }

  lemma FenceOwes(s: World, w: nat, ok: bool, unlink: Unlink, n: int)
    requires Owes(s, n)
    ensures Owes(OpenStep(s, w), n) && Owes(WriteFenceStep(s, w, ok), n)
    ensures Owes(BeginReleaseStep(s, w), n) && Owes(EndReleaseStep(s, w, unlink), n)
  {
  }

  lemma PassingOwes(s: World, w: nat, flag: bool, marker: Marker, write: Write, n: int)
    requires Owes(s, n)
    ensures Owes(BeforeStartStep(s, w, flag), n) && Owes(GiveUpStep(s, w, flag), n)
    ensures Owes(EngageStep(s, w, marker, write), n) && Owes(Put(s, w, IDLE), n)
  {
    assert WorkerOwes(WorkerOf(s, w).pc, s.spacing, n);
  }

  predicate TouchesState(step: Step) {
    step.Reserve? || step.Defer? || step.WriteReservation? || step.Reconcile? || step.WriteDeferral? || step.Start?
  }

  lemma StateStepOwes(s: World, step: Step, n: int)
    requires Owes(s, n) && TouchesState(step)
    ensures Owes(WorkerStep(s, step), n)
  {
    match step
    case Reserve(w, now) => ReadingOwes(s, w, now, 0, n);
    case Defer(w, now, requested) => ReadingOwes(s, w, now, requested, n);
    case WriteReservation(w, write) => WritingOwes(s, w, write, n);
    case Reconcile(w, write) => WritingOwes(s, w, write, n);
    case WriteDeferral(w, write) => WritingOwes(s, w, write, n);
    case Start(w, now) => StartOwes(s, w, now, n);
  }

  lemma OtherStepOwes(s: World, step: Step, n: int)
    requires Owes(s, n) && !TouchesState(step)
    ensures Owes(WorkerStep(s, step), n)
  {
    var any := StopMarker(RobotsDisallow, 0, None);
    match step
    case OpenFence(w) => FenceOwes(s, w, true, Unlinked, n);
    case WriteFence(w, ok) => FenceOwes(s, w, ok, Unlinked, n);
    case BeginRelease(w) => FenceOwes(s, w, true, Unlinked, n);
    case EndRelease(w, unlink) => FenceOwes(s, w, true, unlink, n);
    case BeforeStart(w, killSwitch) => PassingOwes(s, w, killSwitch, any, Done, n);
    case Abandon(w) => PassingOwes(s, w, false, any, Done, n);
    case Block(w) => PassingOwes(s, w, true, any, Done, n);
    case Engage(w, now, reason, delay, write) => PassingOwes(s, w, false, StopMarker(reason, now, delay), write, n);
    case Crash(w) => PassingOwes(s, w, false, any, Done, n);
    case _ =>
  }

  lemma OperatorStepOwes(s: World, step: Step, n: int)
    requires Owes(s, n)
    ensures Owes(OperatorStep(s, step), n) && OperatorStep(s, step).starts == s.starts
  {
    if step.ResetRead? { WritersOnlyPutOff(s.disk.state, step.now, 0, s.spacing, None); }
  }

  lemma OwesStep(s: World, step: Step, n: int)
    requires Owes(s, n) && !step.CorruptState?
    ensures Owes(Apply(s, step), n) && AddsNoneBefore(s.starts, Apply(s, step).starts, n)
  {
    if IsOperators(step) {
      OperatorStepOwes(s, step, n);
    } else if !step.CorruptMarker? {
      if TouchesState(step) { StateStepOwes(s, step, n); } else { OtherStepOwes(s, step, n); }
      WorkerStepStarts(s, step, n);
    }
  }

  lemma {:induction false} OwesForGood(s: World, steps: seq<Step>, n: int)
    requires Owes(s, n) && CorruptState !in steps
    ensures AddsNoneBefore(s.starts, Run(s, steps).starts, n)
    decreases |steps|
  {
    if steps != [] {
      var next := Apply(s, steps[0]);
      OwesStep(s, steps[0], n);
      OwesForGood(next, steps[1..], n);
    }
  }

  /**
   Once a deferral has reached the state file, synced or not, no start on any continuation
   without a corruption of that file comes before the cooldown it asked for: not after a crash
   before the safety stop is written, not after a restart, not after a reset however early.
   */
  lemma CooldownHolds(
    s: World, w: nat, previous: StateFile, setAt: int, requested: int, n: int, write: Write, rest: seq<Step>)
    requires Inv(s) && !previous.Unusable? && (previous.Stored? ==> Readable(previous.record))
    requires WorkerOf(s, w).pc == Deferring(DeferRecord(previous, setAt, requested)) && n <= BoundedNotBefore(setAt, requested)
    requires !write.FailedBeforeRename? && CorruptState !in rest
    ensures AddsNoneBefore(s.starts, Run(WriteDeferralStep(s, w, write), rest).starts, n)
  {
    if previous.Stored? { WritersOnlyPutOff(previous, setAt, requested, s.spacing, None); }
    InsiderIsAlone(s, w);
    assert Owes(WriteDeferralStep(s, w, write), n);
    OwesForGood(WriteDeferralStep(s, w, write), rest, n);
  }

  // ----- the safety stop -----

  /** No worker has passed its last look at the marker. */
  predicate NoneCleared(s: World) { forall w | w in s.workers :: !s.workers[w].pc.Cleared? }

  /** The spacing alone forbids starts before n. */
  predicate Settled(s: World, n: int) { s.starts != [] && s.starts[|s.starts| - 1] + s.spacing >= n }

  /** A marker forbids starts, and the reset that may remove it leaves a state file that forbids those before n. */
  predicate StopOwes(s: World, n: int) {
    && s.disk.marker != NoMarker && NoneCleared(s)
    && match s.operator
       case Rewriting(_, next) => PutsOff(Stored(next), s.spacing, n)
       case Rewritten(_) => PutsOff(s.disk.state, s.spacing, n)
       case Unfenced(_) => Owes(s, n)
       case _ => true
  }

  /**
   What keeps the record of a stop while its marker stands: what a reset writes allows no start
   before n, and the state file is not corrupted once a reset has rewritten it.
   */
  predicate KeepsRecord(s: World, step: Step, n: int) {
    && (step.ResetRead? && s.operator.Admitted? ==> PutsOff(Stored(ResetRecord(ReadState(s.disk.state), step.now)), s.spacing, n))
    && (step.CorruptState? ==> !s.operator.Rewritten? && !s.operator.Unfenced?)
  }

  /** From the moment the marker goes the state file is the only record. */
  predicate Keeps(s: World, step: Step, stands: bool, n: int) {
    Settled(s, n) || if stands then KeepsRecord(s, step, n) else !step.CorruptState?
  }

  /** The marker stands up to here if `stands`. */
  predicate KeptAlong(s: World, steps: seq<Step>, stands: bool, n: int)
    decreases |steps|
  {
    steps != [] ==>
      && Keeps(s, steps[0], stands, n)
      && KeptAlong(Apply(s, steps[0]), steps[1..], stands && Apply(s, steps[0]).disk.marker != NoMarker, n)
  }

  /** What is known while a stop is kept. */
  predicate Stopped(s: World, stands: bool, n: int) {
    Settled(s, n) || if stands then StopOwes(s, n) else Owes(s, n)
  }

  lemma WorkerStepKeepsStop(s: World, step: Step, n: int)
    requires Inv(s) && StopOwes(s, n) && !IsOperators(step) && !step.CorruptState? && !step.CorruptMarker?
    requires Assumed(s, step)
    ensures StopOwes(Apply(s, step), n) && Apply(s, step).starts == s.starts
  {
    MarkerStays(s, step);
    if s.operator.Unfenced? { OwesStep(s, step, n); }
    if s.operator.Rewriting? || s.operator.Rewritten? { AllOutStays(s, step); }
  }

  /** While the fence is being cleared, with every worker out, no worker touches the disk. */
  lemma AllOutStays(s: World, step: Step)
    requires AllOut(s) && !step.OpenFence?
    ensures WorkerStep(s, step).disk == s.disk && WorkerStep(s, step).operator == s.operator && WorkerStep(s, step).spacing == s.spacing
  {
    assert forall w :: WorkerOf(s, w).pc == Out;
  }

  /** The record a reset writes forbids starts before n exactly when its reading does or a usable state already did. */
  lemma ResetPutsOff(file: StateFile, now: int, spacing: nat, n: int)
    ensures PutsOff(Stored(ResetRecord(ReadState(file), now)), spacing, n) <==> now + spacing >= n || PutsOff(file, spacing, n)
  {
    WritersStayReadable(file, now, 0);
    if ReadState(file).Stored? { WritersOnlyPutOff(file, now, 0, spacing, None); }
  }

  /** It covers the last start exactly when its reading is not behind it, or a usable state already covered it. */
  lemma ReadingCoversExactly(s: World, now: int)
    ensures ReadingCovers(s, now) <==>
            AtLeastLast(s.starts, now) || (ReadState(s.disk.state).Stored? && RecordCovers(s, s.disk.state.record))
  {
    if ReadState(s.disk.state).Stored? { WritersOnlyPutOff(s.disk.state, now, 0, s.spacing, None); }
  }

  lemma OperatorKeepsStop(s: World, step: Step, n: int)
    requires Inv(s) && Assumed(s, step) && StopOwes(s, n) && KeepsRecord(s, step, n)
    ensures OperatorStep(s, step).starts == s.starts
    ensures if OperatorStep(s, step).disk.marker != NoMarker then StopOwes(OperatorStep(s, step), n) else Owes(OperatorStep(s, step), n)
  {
  }

  lemma CorruptionKeepsStop(s: World, step: Step, n: int)
    requires Inv(s) && StopOwes(s, n) && KeepsRecord(s, step, n) && (step.CorruptState? || step.CorruptMarker?)
    ensures StopOwes(Apply(s, step), n) && Apply(s, step).starts == s.starts
  {
  }

  lemma StandingStep(s: World, step: Step, n: int)
    requires Inv(s) && Assumed(s, step) && StopOwes(s, n) && KeepsRecord(s, step, n)
    ensures var next := Apply(s, step);
            next.starts == s.starts && if next.disk.marker != NoMarker then StopOwes(next, n) else Owes(next, n)
  {
    if IsOperators(step) {
      OperatorKeepsStop(s, step, n);
    } else if step.CorruptState? || step.CorruptMarker? {
      CorruptionKeepsStop(s, step, n);
    } else {
      MarkerStays(s, step);
      WorkerStepKeepsStop(s, step, n);
    }
  }

  lemma StepAppends(s: World, step: Step)
    ensures s.starts <= Apply(s, step).starts && Apply(s, step).spacing == s.spacing
  {
  }

  /** One more start after a settled world is past n, and leaves it settled. */
  lemma SettledStep(s: World, step: Step, n: int)
    requires Inv(s) && Assumed(s, step) && Settled(s, n)
    ensures Settled(Apply(s, step), n) && AddsNoneBefore(s.starts, Apply(s, step).starts, n)
  {
    StepKeepsInv(s, step);
    StepAppends(s, step);
    var starts, last := Apply(s, step).starts, |s.starts| - 1;
    assert s.starts[last] == starts[last];
  }

  lemma {:induction false} SettledForGood(s: World, steps: seq<Step>, n: int)
    requires Inv(s) && AssumedAlong(s, steps) && Settled(s, n)
    ensures AddsNoneBefore(s.starts, Run(s, steps).starts, n)
    decreases |steps|
  {
    if steps != [] {
      var next := Apply(s, steps[0]);
      StepKeepsInv(s, steps[0]);
      SettledStep(s, steps[0], n);
      SettledForGood(next, steps[1..], n);
      NoneBeforeJoins(s.starts, next.starts, Run(s, steps).starts, n);
    }
  }

  lemma StoppedStep(s: World, step: Step, stands: bool, n: int)
    requires Inv(s) && Assumed(s, step) && Stopped(s, stands, n) && Keeps(s, step, stands, n)
    ensures var next := Apply(s, step);
            Stopped(next, stands && next.disk.marker != NoMarker, n) && AddsNoneBefore(s.starts, next.starts, n)
  {
    if Settled(s, n) {
      SettledStep(s, step, n);
    } else if stands {
      StandingStep(s, step, n);
    } else {
      OwesStep(s, step, n);
    }
  }

  /** While the record of a stop is kept, every start added is at n or later. */
  lemma {:induction false} StoppedForGood(s: World, steps: seq<Step>, stands: bool, n: int)
    requires Inv(s) && AssumedAlong(s, steps) && Stopped(s, stands, n) && KeptAlong(s, steps, stands, n)
    ensures AddsNoneBefore(s.starts, Run(s, steps).starts, n)
    decreases |steps|
  {
    if steps != [] {
      var next := Apply(s, steps[0]);
      StepKeepsInv(s, steps[0]);
      StoppedStep(s, steps[0], stands, n);
      StoppedForGood(next, steps[1..], stands && next.disk.marker != NoMarker, n);
      NoneBeforeJoins(s.starts, next.starts, Run(s, steps).starts, n);
    }
  }

  lemma NoneBeforeJoins(a: seq<int>, b: seq<int>, c: seq<int>, n: int)
    requires AddsNoneBefore(a, b, n) && AddsNoneBefore(b, c, n)
    ensures AddsNoneBefore(a, c, n)
  {
    assert forall i | |a| <= i < |b| :: c[i] == b[i];
  }

  /**
   No reset is about to remove a stop engaged now without a record of it: none has cleared the
   fence, or the state file it left forbids the starts, or the spacing does.
   */
  predicate Unhindered(s: World, n: int) {
    s.operator.Unfenced? ==> PutsOff(s.disk.state, s.spacing, n) || Settled(s, n)
  }

  /** A worker inside the fence can put a stop on disk. */
  predicate MayEngage(s: World, w: nat, write: Write) {
    WorkerOf(s, w).pc == Held && s.disk.marker == NoMarker && !WorkerOf(s, w).stopped && !write.FailedBeforeRename?
  }

  /**
   Once a stop has reached the marker file, synced or not, no start on any continuation that keeps
   its record up to n comes before n, whatever became of the origin cooldown and of the state
   file, of the marker itself, and however many resets are tried, one already admitted included.
   */
  lemma StopHolds(s: World, w: nat, now: int, reason: StopReason, delay: Option<int>, write: Write, rest: seq<Step>, n: int)
    requires Inv(s) && MayEngage(s, w, write) && Unhindered(s, n)
    requires var engaged := Apply(s, Engage(w, now, reason, delay, write));
             AssumedAlong(engaged, rest) && KeptAlong(engaged, rest, true, n)
    ensures var engaged := Apply(s, Engage(w, now, reason, delay, write));
            AddsNoneBefore(s.starts, Run(engaged, rest).starts, n)
  {
    var step := Engage(w, now, reason, delay, write);
    StepKeepsInv(s, step);
    EngagedIsStopped(s, w, now, reason, delay, write, n);
    StoppedForGood(Apply(s, step), rest, true, n);
  }

  lemma EngagedIsStopped(s: World, w: nat, now: int, reason: StopReason, delay: Option<int>, write: Write, n: int)
    requires Inv(s) && MayEngage(s, w, write) && Unhindered(s, n)
    ensures var engaged := Apply(s, Engage(w, now, reason, delay, write));
            Stopped(engaged, true, n) && engaged.starts == s.starts && engaged.disk.marker == Marked(StopMarker(reason, now, delay))
  {
    InsiderIsAlone(s, w);
    if s.operator.Unfenced? && !Settled(s, n) { OwesStep(s, Engage(w, now, reason, delay, write), n); }
  }

  // ----- resets that wait for the marker -----

  /** The reset's second reading is not behind its first, and the files keep the record. */
  predicate Waits(s: World, step: Step, stands: bool) {
    if stands then
      && (step.ResetRead? && s.operator.Admitted? ==> step.now >= s.operator.since)
      && !step.CorruptMarker?
      && (step.CorruptState? ==> !s.operator.Rewritten? && !s.operator.Unfenced?)
    else !step.CorruptState?
  }

  predicate WaitsAlong(s: World, steps: seq<Step>, stands: bool)
    decreases |steps|
  {
    steps != [] ==>
      && Waits(s, steps[0], stands)
      && WaitsAlong(Apply(s, steps[0]), steps[1..], stands && Apply(s, steps[0]).disk.marker != NoMarker)
  }

  /** The spacing after the moment the marker names, and after the reading of a reset already admitted, is n or later. */
  predicate AdmitsFrom(s: World, n: int) {
    && ResumeAt(s.disk.marker).Some? && ResumeAt(s.disk.marker).value + s.spacing >= n
    && NoneCleared(s)
    && (s.operator.Admitted? ==> s.operator.since + s.spacing >= n)
  }

  lemma AdmissionStays(s: World, step: Step, n: int)
    requires AdmitsFrom(s, n) && Waits(s, step, true)
    ensures Apply(s, step).disk.marker != NoMarker ==> AdmitsFrom(Apply(s, step), n)
  {
    if !IsOperators(step) { MarkerStays(s, step); }
  }

  /** A reset is admitted only once the marker's moment has come, so such a run keeps the record up to that moment. */
  lemma {:induction false} WaitingKeeps(s: World, steps: seq<Step>, stands: bool, n: int)
    requires WaitsAlong(s, steps, stands) && (stands ==> AdmitsFrom(s, n))
    ensures KeptAlong(s, steps, stands, n)
    decreases |steps|
  {
    if steps != [] {
      var next := Apply(s, steps[0]);
      if stands { AdmissionStays(s, steps[0], n); }
      if steps[0].ResetRead? { ResetPutsOff(s.disk.state, steps[0].now, s.spacing, n); }
      WaitingKeeps(next, steps[1..], stands && next.disk.marker != NoMarker, n);
    }
  }

  /**
   What a rate-limit stop engaged now promises: it names a moment late enough, and a reset that is
   already on its way was admitted late enough, or has left the record behind.
   */
  predicate Survives(s: World, resume: int, n: int) {
    || Settled(s, n)
    || (resume + s.spacing >= n && Unhindered(s, n) && (s.operator.Admitted? ==> s.operator.since + s.spacing >= n))
  }

  /** A rate-limit stop that nothing but waiting resets removes forbids every start before n, no later than the spacing after the moment it names. */
  lemma WaitedStopHolds(s: World, w: nat, now: int, delay: Option<int>, write: Write, rest: seq<Step>, n: int)
    requires Inv(s) && MayEngage(s, w, write) && Survives(s, now + BoundedResumeDelay(delay), n)
    requires var engaged := Apply(s, Engage(w, now, SourceRateLimited, delay, write));
             AssumedAlong(engaged, rest) && WaitsAlong(engaged, rest, true)
    ensures var engaged := Apply(s, Engage(w, now, SourceRateLimited, delay, write));
            AddsNoneBefore(s.starts, Run(engaged, rest).starts, n)
  {
    var step := Engage(w, now, SourceRateLimited, delay, write);
    InsiderIsAlone(s, w);
    EngagedMarkerIsAccepted(SourceRateLimited, now, delay);
    if Settled(s, n) {
      StepKeepsInv(s, step);
      SettledStep(s, step, n);
      SettledForGood(Apply(s, step), rest, n);
    } else {
      WaitingKeeps(Apply(s, step), rest, true, n);
      StopHolds(s, w, now, SourceRateLimited, delay, write, rest, n);
    }
  }

  predicate Unmarks(step: Step) { step.ResetUnmark? && !step.unlink.NotUnlinked? }

  /** While any marker, readable or not, stays on disk, no worker starts a request. */
  lemma {:induction false} MarkerForbidsStarts(s: World, steps: seq<Step>)
    requires s.disk.marker != NoMarker && NoneCleared(s)
    requires forall i | 0 <= i < |steps| :: !Unmarks(steps[i])
    ensures Run(s, steps).starts == s.starts
    decreases |steps|
  {
    if steps != [] {
      var next := Apply(s, steps[0]);
      assert next.disk.marker != NoMarker && NoneCleared(next) && next.starts == s.starts by {
        if !IsOperators(steps[0]) { MarkerStays(s, steps[0]); }
        assert !Unmarks(steps[0]);
      }
      MarkerForbidsStarts(next, steps[1..]);
    }
  }

  lemma MarkerStays(s: World, step: Step)
    requires s.disk.marker != NoMarker && NoneCleared(s)
    ensures var next := WorkerStep(s, step);
            next.disk.marker == s.disk.marker && NoneCleared(next) && next.starts == s.starts && next.operator == s.operator
  {
    assert forall w :: !WorkerOf(s, w).pc.Cleared?;
  }

  // ----- a rate-limit answer -----

  /**
   After a 429 at t with worker delay d, either durable record is enough: the deferral, unless its
   own reading fell so far behind t that a day after it is still earlier, forbids every start
   before t + d.
   */
  lemma DeferralReachesDelay(s: World, w: nat, t: int, eligibleAt: int, setAt: int, write: Write, rest: seq<Step>)
    requires Inv(s) && WorkerOf(s, w).pc == Held && !ReadState(s.disk.state).Unusable?
    requires setAt + MAX_DEFER_MS >= t + WorkerDelay(t, eligibleAt)
    requires !write.FailedBeforeRename? && CorruptState !in rest
    ensures var d := WorkerDelay(t, eligibleAt);
            AddsNoneBefore(s.starts, Run(WriteDeferralStep(DeferStep(s, w, setAt, t + d), w, write), rest).starts, t + d)
  {
    var d := WorkerDelay(t, eligibleAt);
    DeferKeepsInv(s, w, setAt, t + d);
    OriginCooldownCovers(t, eligibleAt, setAt);
    CooldownHolds(DeferStep(s, w, setAt, t + d), w, ReadState(s.disk.state), setAt, t + d, t + d, write, rest);
  }

  /** The stop marker does so through every waiting reset, if its reading is behind t by no more than the spacing and what it adds itself. */
  lemma StopReachesDelay(s: World, w: nat, t: int, eligibleAt: int, stoppedAt: int, write: Write, rest: seq<Step>)
    requires Inv(s) && MayEngage(s, w, write)
    requires stoppedAt + s.spacing >= t - (if WorkerDelay(t, eligibleAt) == 0 then MAX_DEFER_MS else 0)
    requires var n := t + WorkerDelay(t, eligibleAt);
             Unhindered(s, n) && (s.operator.Admitted? ==> s.operator.since + s.spacing >= n)
    requires var engaged := Apply(s, Engage(w, stoppedAt, SourceRateLimited, Some(WorkerDelay(t, eligibleAt)), write));
             AssumedAlong(engaged, rest) && WaitsAlong(engaged, rest, true)
    ensures var d := WorkerDelay(t, eligibleAt);
            AddsNoneBefore(s.starts, Run(Apply(s, Engage(w, stoppedAt, SourceRateLimited, Some(d), write)), rest).starts, t + d)
  {
    var d := WorkerDelay(t, eligibleAt);
    WaitedStopHolds(s, w, stoppedAt, Some(d), write, rest, t + d);
  }
}
