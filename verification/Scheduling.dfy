/**
 The two in-process schedulers of the worker (src/worker/poller.ts): a permit limiter that
 hands permits over in arrival order, and a task queue fed while it runs.

 JavaScript runs one continuation at a time, so each method below is one such turn; any order
 of calls is an interleaving of the asynchronous tasks.
 */
module Scheduling {

  datatype Option<T> = None | Some(value: T)

  // ----- the permit limiter -----

  class PermitLimiter {
    const limit: nat
    var active: nat
    var waiters: seq<nat>
    ghost var holders: set<nat>
    ghost var arrived: seq<nat>
    ghost var granted: seq<nat>

    /**
     Every permit in use has one holder, nobody waits while a permit is free, and permits have
     been granted in order of arrival: the arrivals are the grants followed by the waiters.
     */
    ghost predicate Valid()
      reads this
    {
      && active == |holders| <= limit
      && (waiters != [] ==> active == limit)
      && arrived == granted + waiters
      && (forall i, j | 0 <= i < j < |arrived| :: arrived[i] != arrived[j])
      && (forall t | t in holders :: t in granted)
    }

    constructor (limit: nat)
      requires limit >= 1
      ensures Valid() && this.limit == limit && arrived == granted == [] && holders == {}
    {
      this.limit := limit;
      active, waiters, holders, arrived, granted := 0, [], {}, [], [];
    }

    /** A task asks for a permit: it gets a free one or joins the end of the line. */
    method Acquire(task: nat)
      requires Valid() && task !in arrived
      modifies this
      ensures Valid()
      ensures arrived == old(arrived) + [task]
      ensures old(active) < limit ==>
                holders == old(holders) + {task} && waiters == old(waiters) == []
      ensures old(active) == limit ==>
                holders == old(holders) && waiters == old(waiters) + [task]
    {
      arrived := arrived + [task];
      if active < limit {
        active := active + 1;
        holders, granted := holders + {task}, granted + [task];
      } else {
        waiters := waiters + [task];
      }
    }

    /** A task gives its permit back: the first waiter takes it over, or it becomes free. */
    method Release(task: nat)
      requires Valid() && task in holders
      modifies this
      ensures Valid()
      ensures arrived == old(arrived)
      ensures old(waiters) != [] ==>
                && holders == old(holders) - {task} + {old(waiters)[0]}
                && waiters == old(waiters)[1..] && active == old(active)
      ensures old(waiters) == [] ==>
                holders == old(holders) - {task} && waiters == [] && active == old(active) - 1
    {
      if waiters != [] {
        var next := waiters[0];
        WaitersHoldNothing();
        assert next in waiters;
        waiters := waiters[1..];
        holders, granted := holders - {task} + {next}, granted + [next];
        assert |holders| == active;
      } else {
        active := active - 1;
        holders := holders - {task};
      }
    }

    /** No task both holds a permit and waits for one. */
    lemma WaitersHoldNothing()
      requires Valid()
      ensures forall t | t in waiters :: t !in holders
    {
      forall t | t in waiters ensures t !in holders {
        var i :| 0 <= i < |waiters| && waiters[i] == t;
        assert arrived[|granted| + i] == t;
        forall j | 0 <= j < |granted| ensures granted[j] != t {
          assert arrived[j] == granted[j];
        }
      }
    }
  }

  // ----- the task queue -----

  datatype Outcome = Fulfilled | Rejected(error: string)

  /** A worker runs the item it last took, or has returned and awaits its clean-up turn. */
  datatype Worker = Running(index: nat) | Returned

  datatype Settlement = Settlement(index: nat, outcome: Outcome)

  datatype DrainResult = Pending | Drained | Throws(error: string)

  function FirstError(log: seq<Settlement>): Option<string> {
    if log == [] then None
    else if log[0].outcome.Rejected? then Some(log[0].outcome.error)
    else FirstError(log[1..])
  }

  lemma {:induction false} FirstErrorGrows(log: seq<Settlement>, s: Settlement)
    ensures FirstError(log + [s]) ==
            if FirstError(log).Some? then FirstError(log)
            else if s.outcome.Rejected? then Some(s.outcome.error) else None
  {
    if log == [] {
      assert log + [s] == [s] && [s][1..] == [];
    } else {
      FirstErrorGrows(log[1..], s);
      assert (log + [s])[1..] == log[1..] + [s];
    }
  }

  /** Item i's task has settled. */
  ghost predicate Done(settled: seq<Settlement>, i: nat) {
    exists k :: 0 <= k < |settled| && settled[k].index == i
  }

  /** Some worker is running item i. */
  ghost predicate Runs(workers: map<nat, Worker>, i: nat) {
    exists w :: w in workers && workers[w] == Running(i)
  }

  /**
   The books balance: of the first `cursor` items each is settled, once, or running, on one
   worker, and no other item is either.
   */
  ghost predicate Balanced(cursor: nat, workers: map<nat, Worker>, settled: seq<Settlement>) {
    && (forall w | w in workers && workers[w].Running? ::
          workers[w].index < cursor && !Done(settled, workers[w].index))
    && (forall v, w | v in workers && w in workers && v != w && workers[v].Running? :: workers[v] != workers[w])
    && (forall k | 0 <= k < |settled| :: settled[k].index < cursor)
    && (forall j, k | 0 <= j < k < |settled| :: settled[j].index != settled[k].index)
    && (forall i: nat | i < cursor :: Done(settled, i) || Runs(workers, i))
  }

  /** A worker that is new or has just settled its item may take the next one. */
  lemma TakesNext(cursor: nat, workers: map<nat, Worker>, settled: seq<Settlement>, w: nat)
    requires Balanced(cursor, workers, settled) && (w in workers ==> workers[w].Returned?)
    ensures Balanced(cursor + 1, workers[w := Running(cursor)], settled)
  {
    var after := workers[w := Running(cursor)];
    forall i: nat | i < cursor + 1 ensures Done(settled, i) || Runs(after, i) {
      if i == cursor {
        assert after[w] == Running(cursor);
      } else if !Done(settled, i) {
        var v :| v in workers && workers[v] == Running(i);
        assert after[v] == Running(i);
      }
    }
    assert !Done(settled, cursor);
  }

  lemma Settles(cursor: nat, workers: map<nat, Worker>, settled: seq<Settlement>, w: nat, outcome: Outcome)
    requires Balanced(cursor, workers, settled) && w in workers && workers[w].Running?
    ensures Balanced(cursor, workers[w := Returned], settled + [Settlement(workers[w].index, outcome)])
  {
    var index := workers[w].index;
    var after, log := workers[w := Returned], settled + [Settlement(index, outcome)];
    assert log[|settled|].index == index;
    forall i: nat | i < cursor ensures Done(log, i) || Runs(after, i) {
      if Done(settled, i) {
        var k :| 0 <= k < |settled| && settled[k].index == i;
        assert log[k].index == i;
      } else if i != index {
        var v :| v in workers && workers[v] == Running(i);
        assert after[v] == Running(i);
      }
    }
    forall v | v in after && after[v].Running? ensures !Done(log, after[v].index) {
      assert workers[v] != workers[w];
    }
  }

  lemma Leaves(cursor: nat, workers: map<nat, Worker>, settled: seq<Settlement>, w: nat)
    requires Balanced(cursor, workers, settled) && w in workers && workers[w].Returned?
    ensures Balanced(cursor, workers - {w}, settled)
  {
    forall i: nat | i < cursor && !Done(settled, i) ensures Runs(workers - {w}, i) {
      var v :| v in workers && workers[v] == Running(i);
      assert (workers - {w})[v] == Running(i);
    }
  }

  /** The log names items 0, 1, 2, … up to n, once each and in that order. */
  ghost predicate InOrder(log: seq<nat>, n: nat) {
    |log| == n && forall i | 0 <= i < n :: log[i] == i
  }

  class TaskQueue<T> {
    const limit: nat
    var items: seq<T>
    var cursor: nat
    var workers: map<nat, Worker>
    var nextWorker: nat
    var firstFailure: Option<string>
    /** The item indices in the order their tasks were started, and the settlements in order. */
    ghost var started: seq<nat>
    ghost var settled: seq<Settlement>

    /** Everything but the promise that free capacity is put to use. */
    ghost predicate Consistent()
      reads this
    {
      && limit >= 1 && cursor <= |items| && |workers| <= limit
      && (forall w | w in workers :: w < nextWorker)
      && InOrder(started, cursor)
      && Balanced(cursor, workers, settled)
      && firstFailure == FirstError(settled)
    }

    /** Nothing is left untaken while fewer than `limit` workers exist. */
    ghost predicate Valid()
      reads this
    {
      Consistent() && (cursor < |items| ==> |workers| == limit)
    }

    constructor (limit: nat)
      requires limit >= 1
      ensures Valid() && this.limit == limit && items == [] && settled == [] && workers == map[]
    {
      this.limit := limit;
      items, cursor, workers, nextWorker, firstFailure := [], 0, map[], 0, None;
      started, settled := [], [];
    }

    /** One pass of a worker's loop up to its await: it takes the next item. */
    method Take(worker: nat)
      requires Consistent() && cursor < |items|
      requires if worker in workers then workers[worker].Returned? else worker == nextWorker && |workers| < limit
      modifies `cursor, `workers, `nextWorker, `started
      ensures Consistent()
      ensures workers == old(workers)[worker := Running(old(cursor))]
      ensures cursor == old(cursor) + 1
      ensures nextWorker == old(nextWorker) + if worker == old(nextWorker) then 1 else 0
    {
      TakesNext(cursor, workers, settled, worker);
      if worker == nextWorker { nextWorker := nextWorker + 1; }
      started := started + [cursor];
      workers := workers[worker := Running(cursor)];
      cursor := cursor + 1;
    }

    method Start()
      requires Consistent()
      modifies `cursor, `workers, `nextWorker, `started
      ensures Valid()
      ensures forall w | w in old(workers) :: w in workers && workers[w] == old(workers[w])
      ensures forall w | w in workers :: w in old(workers) || w >= old(nextWorker)
      ensures cursor - old(cursor) == |workers| - |old(workers)| >= 0
    {
      while |workers| < limit && cursor < |items|
        invariant Consistent()
        invariant forall w | w in old(workers) :: w in workers && workers[w] == old(workers[w])
        invariant forall w | w in workers :: w in old(workers) || w >= old(nextWorker)
        invariant nextWorker >= old(nextWorker)
        invariant cursor - old(cursor) == |workers| - |old(workers)| >= 0
      {
        Take(nextWorker);
      }
    }

    /** `add`: the items join the end of the queue and idle capacity takes them at once. */
    method Add(next: seq<T>)
      requires Valid()
      modifies this
      ensures Valid()
      ensures items == old(items) + next && settled == old(settled)
      ensures forall w | w in old(workers) :: w in workers && workers[w] == old(workers[w])
    {
      items := items + next;
      Start();
    }

    /** A task settles: its worker records a first failure, then takes the next item or returns. */
    method Settle(worker: nat, outcome: Outcome)
      requires Valid() && worker in workers && workers[worker].Running?
      modifies this
      ensures Valid()
      ensures items == old(items)
      ensures settled == old(settled) + [Settlement(old(workers[worker].index), outcome)]
      ensures workers == old(workers)[worker := if old(cursor) < |items| then Running(old(cursor)) else Returned]
      ensures cursor == old(cursor) + if old(cursor) < |items| then 1 else 0
    {
      Record(worker, outcome);
      if cursor < |items| { Take(worker); }
    }

    /** The worker's books after its task settled, before it looks for more work. */
    method Record(worker: nat, outcome: Outcome)
      requires Consistent() && worker in workers && workers[worker].Running?
      modifies `firstFailure, `settled, `workers
      ensures Consistent()
      ensures settled == old(settled) + [Settlement(old(workers[worker].index), outcome)]
      ensures workers == old(workers)[worker := Returned] && |workers| == |old(workers)|
    {
      var index := workers[worker].index;
      FirstErrorGrows(settled, Settlement(index, outcome));
      Settles(cursor, workers, settled, worker, outcome);
      if outcome.Rejected? && firstFailure.None? { firstFailure := Some(outcome.error); }
      settled := settled + [Settlement(index, outcome)];
      workers := workers[worker := Returned];
    }

    /** The clean-up turn of a returned worker: it leaves, and freed capacity is used again. */
    method CleanUp(worker: nat)
      requires Valid() && worker in workers && workers[worker].Returned?
      modifies this
      ensures Valid()
      ensures items == old(items) && settled == old(settled)
      ensures worker !in workers
      ensures forall w | w in old(workers) && w != worker :: w in workers && workers[w] == old(workers[w])
    {
      Leaves(cursor, workers, settled, worker);
      workers := workers - {worker};
      assert |workers| == |old(workers)| - 1;
      Start();
    }

    /** `drain`, looked at when it wakes: it goes on waiting exactly while a worker is left. */
    method Drain() returns (result: DrainResult)
      requires Valid()
      modifies this
      ensures Valid() && items == old(items) && settled == old(settled)
      ensures result.Pending? <==> workers != map[]
      ensures !result.Pending? ==> AllSettled()
      ensures !result.Pending? ==>
                result == match FirstError(settled) case None => Drained case Some(e) => Throws(e)
    {
      Start();
      if |workers| > 0 { return Pending; }
      EmptyMeansDone();
      result := match firstFailure case None => Drained case Some(e) => Throws(e);
    }

    /** Every item ever added was started once, in order, and has settled exactly once. */
    ghost predicate AllSettled()
      reads this
    {
      && InOrder(started, |items|)
      && (forall i: nat | i < |items| :: Done(settled, i))
      && (forall j, k | 0 <= j < k < |settled| :: settled[j].index != settled[k].index)
      && |settled| == |items|
    }

    lemma EmptyMeansDone()
      requires Valid() && workers == map[]
      ensures AllSettled()
    {
      assert |workers| == 0;
      forall i: nat | i < |items| ensures Done(settled, i) {
        assert !Runs(workers, i);
      }
      InjectiveOnto(settled, |items|);
    }

    /** The tasks in flight never outnumber the limit. */
    lemma NeverMoreThanLimit(inFlight: set<nat>)
      requires Valid()
      requires forall i | i in inFlight :: Runs(workers, i)
      ensures |inFlight| <= limit
    {
      var runner := map i | i in inFlight :: var w :| w in workers && workers[w] == Running(i); w;
      assert runner.Keys == inFlight;
      InjectionBound(runner, workers.Keys);
    }
  }

  lemma {:induction false} InjectionBound(f: map<nat, nat>, into: set<nat>)
    requires forall i | i in f :: f[i] in into
    requires forall i, j | i in f && j in f && i != j :: f[i] != f[j]
    ensures |f.Keys| <= |into|
    decreases |f.Keys|
  {
    if f.Keys != {} {
      var i :| i in f;
      var g := f - {i};
      assert g.Keys == f.Keys - {i};
      InjectionBound(g, into - {f[i]});
    }
  }

  lemma InjectiveOnto(log: seq<Settlement>, n: nat)
    requires forall j, k | 0 <= j < k < |log| :: log[j].index != log[k].index
    requires forall k | 0 <= k < |log| :: log[k].index < n
    requires forall i: nat | i < n :: Done(log, i)
    ensures |log| == n
  {
    AtMost(log, n);
    AtLeast(log, n);
  }

  lemma AtMost(log: seq<Settlement>, n: nat)
    requires forall j, k | 0 <= j < k < |log| :: log[j].index != log[k].index
    requires forall k | 0 <= k < |log| :: log[k].index < n
    ensures |log| <= n
  {
    var there := map k | k in Below(|log|) :: log[k].index;
    assert there.Keys == Below(|log|);
    forall j, k | j in there && k in there && j != k ensures there[j] != there[k] {
      assert j < k || k < j;
    }
    InjectionBound(there, Below(n));
  }

  lemma AtLeast(log: seq<Settlement>, n: nat)
    requires forall i: nat | i < n :: Done(log, i)
    ensures n <= |log|
  {
    var back := map i | i in Below(n) :: Position(log, i);
    assert back.Keys == Below(n);
    InjectionBound(back, Below(|log|));
  }

  ghost function Position(log: seq<Settlement>, i: nat): (k: nat)
    requires Done(log, i)
    ensures k < |log| && log[k].index == i
  {
    var k: nat :| k < |log| && log[k].index == i;
    k
  }

  function Below(n: nat): (s: set<nat>)
    ensures |s| == n && forall k: nat :: k in s <==> k < n
  {
    if n == 0 then {} else Below(n - 1) + {n - 1}
  }
}
