/** Pieces of protocol runs, a worker's first start and an Operator's reset, and how to join them. */
module OriginPieces {
  import opened OriginRecords
  import opened OriginProtocol

  // ----- composing runs -----

  /** The worlds ws are those of a run of the steps. */
  ghost predicate Passes(ws: seq<World>, steps: seq<Step>) {
    |ws| == |steps| + 1 && forall i {:trigger steps[i]} | 0 <= i < |steps| :: ws[i + 1] == Apply(ws[i], steps[i])
  }

  ghost predicate AllAssumed(ws: seq<World>, steps: seq<Step>)
    requires |ws| == |steps| + 1
  {
    forall i {:trigger steps[i]} | 0 <= i < |steps| :: Assumed(ws[i], steps[i])
  }

  lemma {:induction false} PassingRuns(ws: seq<World>, steps: seq<Step>)
    requires Passes(ws, steps)
    ensures Run(ws[0], steps) == ws[|steps|]
    ensures AllAssumed(ws, steps) ==> AssumedAlong(ws[0], steps)
    decreases |steps|
  {
    if steps != [] {
      assert steps[0] == steps[0];
      forall i {:trigger steps[1..][i]} | 0 <= i < |steps[1..]| ensures ws[1..][i + 1] == Apply(ws[1..][i], steps[1..][i]) {
        assert steps[1..][i] == steps[i + 1];
      }
      PassingRuns(ws[1..], steps[1..]);
      if AllAssumed(ws, steps) {
        forall i {:trigger steps[1..][i]} | 0 <= i < |steps[1..]| ensures Assumed(ws[1..][i], steps[1..][i]) {
          assert steps[1..][i] == steps[i + 1];
        }
      }
    }
  }

  lemma {:induction false} RunsJoin(s: World, first: seq<Step>, second: seq<Step>)
    ensures Run(s, first + second) == Run(Run(s, first), second)
    ensures AssumedAlong(s, first + second) <==> AssumedAlong(s, first) && AssumedAlong(Run(s, first), second)
    decreases |first|
  {
    if first == [] {
      assert first + second == second;
    } else {
      assert (first + second)[1..] == first[1..] + second;
      RunsJoin(Apply(s, first[0]), first[1..], second);
    }
  }

  // ----- pieces -----

  /** A worker enters and makes one physical start. */
  function StartSteps(w: nat, now: int, at: int): seq<Step> {
    [OpenFence(w), WriteFence(w, true), Reserve(w, now), WriteReservation(w, Done), BeforeStart(w, false), Start(w, at)]
  }

  /** The worker has entered and started at `at`, as its record says. */
  function AfterStart(s: World, w: nat, at: int): World {
    s.(disk := Disk(FenceOf(s.nextToken), Stored(NoCooldown(at)), NoMarker), nextToken := s.nextToken + 1,
       workers := s.workers[w := Worker(Started(at), s.nextToken, false, Some(at), false)], starts := s.starts + [at])
  }

  /** Nobody inside, no marker: any worker may come. */
  function Quiet(state: StateFile, workers: map<nat, Worker>, operator: Operator, nextToken: nat, starts: seq<int>): World {
    World(1000, Disk(NoFence, state, NoMarker), workers, operator, nextToken, starts)
  }

  function Inside(pc: Pc, token: nat): Worker { Worker(pc, token, false, None, false) }

  lemma StartingPasses(s: World, w: nat, now: int, at: int)
    requires s.disk.fence == NoFence && s.disk.marker == NoMarker && WorkerOf(s, w).pc == Out && !WorkerOf(s, w).stopped
    requires !ReadState(s.disk.state).Unusable? && at == Reservation(ReadState(s.disk.state), now, s.spacing, None)
    requires !s.operator.Rewriting? && !s.operator.Rewritten?
    ensures exists ws :: Passes(ws, StartSteps(w, now, at)) && AllAssumed(ws, StartSteps(w, now, at)) && ws[0] == s && ws[6] == AfterStart(s, w, at)
  {
    var t := s.nextToken;
    var a := s.(disk := s.disk.(fence := PartialFence(t)), nextToken := t + 1, workers := s.workers[w := Inside(Opened, t)]);
    var b := a.(disk := s.disk.(fence := FenceOf(t)), workers := s.workers[w := Inside(Held, t)]);
    var c := b.(workers := s.workers[w := Inside(Reserving(at), t)]);
    var d := b.(disk := Disk(FenceOf(t), Stored(NoCooldown(at)), NoMarker), workers := s.workers[w := Inside(Waiting(at), t)]);
    var e := d.(workers := s.workers[w := Inside(Cleared(at), t)]);
    var f := d.(workers := s.workers[w := Inside(Started(at), t).(lastActual := Some(at))], starts := s.starts + [at]);
    EnteringSteps(s, w, a, b);
    ReservingSteps(b, w, now, at, c, d);
    StartingSteps(d, w, at, e, f);
    var ws := [s, a, b, c, d, e, f];
    assert Passes(ws, StartSteps(w, now, at));
    StartIsAssumed(ws, w, now, at);
  }

  lemma StartIsAssumed(ws: seq<World>, w: nat, now: int, at: int)
    requires |ws| == 7 && !ws[0].operator.Rewriting? && !ws[0].operator.Rewritten?
    ensures AllAssumed(ws, StartSteps(w, now, at))
  {
  }

  lemma EnteringSteps(s: World, w: nat, a: World, b: World)
    requires s.disk.fence == NoFence && WorkerOf(s, w).pc == Out && !WorkerOf(s, w).stopped
    requires a == s.(disk := s.disk.(fence := PartialFence(s.nextToken)), nextToken := s.nextToken + 1,
                     workers := s.workers[w := Inside(Opened, s.nextToken)])
    requires b == a.(disk := s.disk.(fence := FenceOf(s.nextToken)), workers := s.workers[w := Inside(Held, s.nextToken)])
    ensures Apply(s, OpenFence(w)) == a && Apply(a, WriteFence(w, true)) == b
  {
    assert a.workers[w := Inside(Held, s.nextToken)] == b.workers;
  }

  lemma ReservingSteps(b: World, w: nat, now: int, at: int, c: World, d: World)
    requires w in b.workers && b.workers[w].pc == Held && b.workers[w].lastActual.None?
    requires !ReadState(b.disk.state).Unusable? && at == Reservation(ReadState(b.disk.state), now, b.spacing, None)
    requires c == b.(workers := b.workers[w := b.workers[w].(pc := Reserving(at))])
    requires d == b.(disk := b.disk.(state := Stored(NoCooldown(at))), workers := b.workers[w := b.workers[w].(pc := Waiting(at))])
    ensures Apply(b, Reserve(w, now)) == c && Apply(c, WriteReservation(w, Done)) == d
  {
    assert c.workers[w := b.workers[w].(pc := Waiting(at))] == d.workers;
  }

  lemma StartingSteps(d: World, w: nat, at: int, e: World, f: World)
    requires w in d.workers && d.workers[w].pc == Waiting(at) && !d.workers[w].stopped && d.disk.marker == NoMarker
    requires e == d.(workers := d.workers[w := d.workers[w].(pc := Cleared(at))])
    requires f == d.(workers := d.workers[w := d.workers[w].(pc := Started(at), lastActual := Some(at))], starts := d.starts + [at])
    ensures Apply(d, BeforeStart(w, false)) == e && Apply(e, Start(w, at)) == f
  {
    assert e.workers[w := d.workers[w].(pc := Started(at), lastActual := Some(at))] == f.workers;
  }

  /** The part of a reset after its second reading. */
  const CLEARING := [ResetWrite(Done), ResetUnfence(Unlinked), ResetUnmark(Unlinked)]

  lemma ClearBegins(s: World, since: int, reading: int)
    requires s.operator == Admitted(since)
    ensures Apply(s, ResetRead(reading)) == s.(operator := Rewriting(since, ResetRecord(ReadState(s.disk.state), reading)))
  {
  }

  lemma ClearEnds(s: World, since: int, next: Record, a: World, b: World, c: World)
    requires s.operator == Rewriting(since, next)
    requires a == s.(disk := s.disk.(state := Stored(next)), operator := Rewritten(since))
    requires b == s.(disk := Disk(NoFence, Stored(next), s.disk.marker), operator := Unfenced(since))
    requires c == s.(disk := Disk(NoFence, Stored(next), NoMarker), operator := Rest)
    ensures Apply(s, ResetWrite(Done)) == a && Apply(a, ResetUnfence(Unlinked)) == b && Apply(b, ResetUnmark(Unlinked)) == c
  {
  }

  lemma Starting(s: World, w: nat, now: int, at: int)
    requires s.disk.fence == NoFence && s.disk.marker == NoMarker && WorkerOf(s, w).pc == Out && !WorkerOf(s, w).stopped
    requires !ReadState(s.disk.state).Unusable? && at == Reservation(ReadState(s.disk.state), now, s.spacing, None)
    requires !s.operator.Rewriting? && !s.operator.Rewritten?
    ensures AssumedAlong(s, StartSteps(w, now, at))
    ensures Run(s, StartSteps(w, now, at)) == AfterStart(s, w, at)
  {
    StartingPasses(s, w, now, at);
    var ws :| Passes(ws, StartSteps(w, now, at)) && AllAssumed(ws, StartSteps(w, now, at)) && ws[0] == s && ws[6] == AfterStart(s, w, at);
    PassingRuns(ws, StartSteps(w, now, at));
  }

  lemma RunFirst(s: World, step: Step, rest: seq<Step>)
    ensures Run(s, [step] + rest) == Run(Apply(s, step), rest)
    ensures AssumedAlong(s, [step] + rest) <==> Assumed(s, step) && AssumedAlong(Apply(s, step), rest)
    ensures forall stands, n :: KeptAlong(s, [step] + rest, stands, n) <==>
              Keeps(s, step, stands, n) && KeptAlong(Apply(s, step), rest, stands && Apply(s, step).disk.marker != NoMarker, n)
    ensures forall stands :: WaitsAlong(s, [step] + rest, stands) <==>
              Waits(s, step, stands) && WaitsAlong(Apply(s, step), rest, stands && Apply(s, step).disk.marker != NoMarker)
  {
    assert ([step] + rest)[0] == step && ([step] + rest)[1..] == rest;
  }

  lemma AdmitStep(s: World, now: int)
    requires s.operator == Rest && (ResumeAt(s.disk.marker).Some? ==> now >= ResumeAt(s.disk.marker).value)
    ensures Apply(s, ResetAdmit(now)) == s.(operator := Admitted(now))
  {
  }

  /** Steps that corrupt nothing and read no clock for a reset. */
  predicate Harmless(steps: seq<Step>) {
    forall step | step in steps :: !step.CorruptState? && !step.CorruptMarker? && !step.ResetRead?
  }

  lemma {:induction false} HarmlessIsKept(s: World, steps: seq<Step>, stands: bool, n: int)
    requires if stands then Harmless(steps) else CorruptState !in steps
    ensures KeptAlong(s, steps, stands, n)
    ensures WaitsAlong(s, steps, stands)
    decreases |steps|
  {
    if steps != [] {
      assert forall step | step in steps[1..] :: step in steps;
      assert steps[0] in steps;
      HarmlessIsKept(Apply(s, steps[0]), steps[1..], stands && Apply(s, steps[0]).disk.marker != NoMarker, n);
    }
  }

  lemma ClearingEnds(s: World)
    requires s.operator.Rewriting?
    ensures AssumedAlong(s, CLEARING)
    ensures Run(s, CLEARING) == s.(disk := Disk(NoFence, Stored(s.operator.next), NoMarker), operator := Rest)
  {
    var since, next := s.operator.since, s.operator.next;
    var a := s.(disk := s.disk.(state := Stored(next)), operator := Rewritten(since));
    var b := s.(disk := Disk(NoFence, Stored(next), s.disk.marker), operator := Unfenced(since));
    var c := s.(disk := Disk(NoFence, Stored(next), NoMarker), operator := Rest);
    ClearEnds(s, since, next, a, b, c);
    PassingRuns([s, a, b, c], CLEARING);
  }
}
