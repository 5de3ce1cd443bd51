/**
 The fixed-window request limiter (src/server/rate-limit.ts): the in-memory limiter, the
 increment-with-expiry script it has to agree with, and how many requests either can admit.
 Times are integer milliseconds.
 */
module RateLimit {

  datatype Window = Window(count: nat, resetAtMs: int)
  datatype Decision = Decision(allowed: bool, retryAfterSeconds: int)
  datatype Request = Request(now: int, key: string, max: int, windowSeconds: int)

  type Windows = map<string, Window>

  function Max(a: int, b: int): int { if a >= b then a else b }

  function CeilSeconds(ms: int): int { (ms + 999) / 1000 }

  function Step(windows: Windows, r: Request): (Windows, Decision) {
    if r.key !in windows || windows[r.key].resetAtMs <= r.now then
      (windows[r.key := Window(1, r.now + r.windowSeconds * 1000)], Decision(true, r.windowSeconds))
    else
      var w := windows[r.key];
      (windows[r.key := w.(count := w.count + 1)],
       Decision(w.count + 1 <= r.max, Max(1, CeilSeconds(w.resetAtMs - r.now))))
  }

  // ----- the shared-store script -----

  /** INCR on a store whose keys are gone once their deadline has come. */
  function Incr(store: Windows, key: string, now: int): Windows {
    if key in store && now < store[key].resetAtMs
    then store[key := store[key].(count := store[key].count + 1)]
    else store[key := Window(1, now)]
  }

  function PExpire(store: Windows, key: string, now: int, ms: int): Windows
    requires key in store
  {
    store[key := store[key].(resetAtMs := now + ms)]
  }

  function Script(store: Windows, r: Request): (Windows, Decision) {
    var counted := Incr(store, r.key, r.now);
    var count := counted[r.key].count;
    var timed := if count == 1 then PExpire(counted, r.key, r.now, r.windowSeconds * 1000) else counted;
    var ttl := timed[r.key].resetAtMs - r.now;
    (timed, Decision(count <= r.max, Max(1, CeilSeconds(ttl))))
  }

  /** Every stored counter has counted its first request. */
  ghost predicate Counted(windows: Windows) { forall k | k in windows :: windows[k].count >= 1 }

  lemma StepCounts(windows: Windows, r: Request)
    requires Counted(windows)
    ensures Counted(Step(windows, r).0)
  {
  }

  /**
   With at least one request per window and a window of at least a second, as the configuration
   guarantees, the script and the in-memory limiter answer alike from like states.
   */
  lemma ScriptAgrees(windows: Windows, r: Request)
    requires Counted(windows) && r.max >= 1 && r.windowSeconds >= 1
    ensures Script(windows, r) == Step(windows, r)
  {
    var counted := Incr(windows, r.key, r.now);
    if counted[r.key].count == 1 {
      assert PExpire(counted, r.key, r.now, r.windowSeconds * 1000) == Step(windows, r).0;
    } else {
      assert counted == Step(windows, r).0;
    }
  }

  // ----- whole request traces -----

  function Run(reqs: seq<Request>, n: nat): Windows
    requires n <= |reqs|
  {
    if n == 0 then map[] else Step(Run(reqs, n - 1), reqs[n - 1]).0
  }

  predicate Allowed(reqs: seq<Request>, i: nat)
    requires i < |reqs|
  {
    Step(Run(reqs, i), reqs[i]).1.allowed
  }

  /** How many of the first n requests of the key, made in [from, until), were admitted. */
  function Admitted(reqs: seq<Request>, n: nat, key: string, from: int, until: int): nat
    requires n <= |reqs|
  {
    if n == 0 then 0
    else
      Admitted(reqs, n - 1, key, from, until) +
      if reqs[n - 1].key == key && from <= reqs[n - 1].now < until && Allowed(reqs, n - 1) then 1 else 0
  }

  /** The clock never goes back, and one key always has one limit and one window. */
  ghost predicate FixedPolicy(reqs: seq<Request>, key: string, max: int, windowSeconds: int) {
    && (forall i, j | 0 <= i < j < |reqs| :: reqs[i].now <= reqs[j].now)
    && (forall i | 0 <= i < |reqs| && reqs[i].key == key ::
          reqs[i].max == max && reqs[i].windowSeconds == windowSeconds)
  }

  /**
   What the key's current window says about the interval that begins at `from` and lasts one
   window: a window opened before it has spent its first request outside it, and at most one
   window opens inside it.
   */
  lemma {:induction false} WindowBound(reqs: seq<Request>, n: nat, key: string, max: int, windowSeconds: nat, from: int)
    requires n <= |reqs| && FixedPolicy(reqs, key, max, windowSeconds)
    ensures var until := from + windowSeconds * 1000;
            var a, m := Admitted(reqs, n, key, from, until), Max(1, max);
            var windows := Run(reqs, n);
            && (a > 0 ==> n > 0 && reqs[n - 1].now >= from)
            && (key !in windows ==> a == 0)
            && (key in windows ==>
                  var w := windows[key];
                  var start := w.resetAtMs - windowSeconds * 1000;
                  var spent := if w.count <= m then w.count else m;
                  && w.count >= 1 && n > 0 && start <= reqs[n - 1].now
                  && a <= 2 * m - 1
                  && (start < from ==> a <= spent - 1)
                  && (from <= start < until ==> a <= m - 1 + spent))
  {
    if n > 0 { WindowBound(reqs, n - 1, key, max, windowSeconds, from); }
  }

  /**
   Over every trace, every half-open interval of one window's length admits at most 2·max - 1
   requests of a key (and one when max is below one), although windows start at arbitrary first
   requests.
   */
  lemma AtMostTwiceMax(reqs: seq<Request>, key: string, max: int, windowSeconds: nat, from: int)
    requires FixedPolicy(reqs, key, max, windowSeconds)
    ensures Admitted(reqs, |reqs|, key, from, from + windowSeconds * 1000) <= 2 * Max(1, max) - 1
  {
    WindowBound(reqs, |reqs|, key, max, windowSeconds, from);
  }

  // ----- the script over whole traces -----

  function ScriptRun(reqs: seq<Request>, n: nat): Windows
    requires n <= |reqs|
  {
    if n == 0 then map[] else Script(ScriptRun(reqs, n - 1), reqs[n - 1]).0
  }

  /** From an empty store the script keeps the limiter's windows and gives its answers, whatever the requests and clocks. */
  lemma {:induction false} ScriptFollows(reqs: seq<Request>, n: nat)
    requires n <= |reqs| && forall i | 0 <= i < |reqs| :: reqs[i].max >= 1 && reqs[i].windowSeconds >= 1
    ensures ScriptRun(reqs, n) == Run(reqs, n) && Counted(Run(reqs, n))
    ensures n < |reqs| ==> Script(ScriptRun(reqs, n), reqs[n]).1 == Step(Run(reqs, n), reqs[n]).1
  {
    if n > 0 {
      ScriptFollows(reqs, n - 1);
      ScriptAgrees(Run(reqs, n - 1), reqs[n - 1]);
      StepCounts(Run(reqs, n - 1), reqs[n - 1]);
    }
    if n < |reqs| { ScriptAgrees(Run(reqs, n), reqs[n]); }
  }

  // ----- the bound is met -----

  /** One early request, max - 1 just before the window closes, and max just after. */
  function WorstTrace(key: string, max: nat, windowSeconds: nat, n: nat): seq<Request> {
    seq(n, i => Request(if i == 0 then 0 else if i < max then windowSeconds * 1000 - 1 else windowSeconds * 1000,
                        key, max, windowSeconds))
  }

  lemma {:induction false} WorstTraceAdmits(key: string, max: nat, windowSeconds: nat, n: nat)
    requires max >= 1 && windowSeconds >= 1 && n <= 2 * max
    ensures var reqs := WorstTrace(key, max, windowSeconds, 2 * max);
            var l := windowSeconds * 1000;
            && (1 <= n <= max ==> Run(reqs, n) == map[key := Window(n, l)])
            && (max < n ==> Run(reqs, n) == map[key := Window(n - max, 2 * l)])
            && Admitted(reqs, n, key, l - 1, 2 * l - 1) == Max(0, n - 1)
  {
    if n > 0 { WorstTraceAdmits(key, max, windowSeconds, n - 1); }
  }

  /** For every limit and window some trace admits exactly 2·max - 1 requests in one window. */
  lemma BoundIsMet(key: string, max: nat, windowSeconds: nat)
    requires max >= 1 && windowSeconds >= 1
    ensures var reqs := WorstTrace(key, max, windowSeconds, 2 * max);
            var from := windowSeconds * 1000 - 1;
            && FixedPolicy(reqs, key, max, windowSeconds)
            && Admitted(reqs, |reqs|, key, from, from + windowSeconds * 1000) == 2 * max - 1
  {
    WorstTraceAdmits(key, max, windowSeconds, 2 * max);
  }

  // ----- the limiter itself -----

  /** The key's window is over, or there was none. */
  predicate IsNewWindow(windows: Windows, r: Request) { r.key !in windows || windows[r.key].resetAtMs <= r.now }

  lemma {:induction false} RunOfPrefix(reqs: seq<Request>, r: Request, n: nat)
    requires n <= |reqs|
    ensures Run(reqs + [r], n) == Run(reqs, n)
  {
    if n > 0 { RunOfPrefix(reqs, r, n - 1); }
  }

  /** The interval of one window that begins at `from` has admitted fewer than twice the limit. */
  predicate InBound(reqs: seq<Request>, key: string, max: int, windowSeconds: int, from: int) {
    Admitted(reqs, |reqs|, key, from, from + windowSeconds * 1000) <= 2 * Max(1, max) - 1
  }

  class MemoryRateLimiter {
    var windows: Windows
    /** Every request so far. */
    ghost var trace: seq<Request>

    ghost predicate Valid()
      reads this
    {
      windows == Run(trace, |trace|)
    }

    constructor ()
      ensures Valid() && trace == []
    {
      windows, trace := map[], [];
    }

    /**
     A request.  Whatever came before at the same policy, no interval of one window has admitted 2·max
     requests; the wait told is the least number of seconds, one at least, after which the window is over.
     */
    method Consume(r: Request) returns (decision: Decision)
      requires Valid()
      modifies this
      ensures Valid() && trace == old(trace) + [r]
      ensures decision.allowed == Allowed(trace, |trace| - 1)
      ensures FixedPolicy(trace, r.key, r.max, r.windowSeconds) && r.windowSeconds >= 0 ==>
                forall from :: InBound(trace, r.key, r.max, r.windowSeconds, from)
      ensures r.key in windows && decision.allowed == (IsNewWindow(old(windows), r) || windows[r.key].count <= r.max)
      ensures if IsNewWindow(old(windows), r) then windows[r.key] == Window(1, r.now + r.windowSeconds * 1000)
              else windows[r.key] == Window(old(windows)[r.key].count + 1, old(windows)[r.key].resetAtMs)
      ensures if IsNewWindow(old(windows), r) then decision.retryAfterSeconds == r.windowSeconds
              else windows[r.key].resetAtMs <= r.now + decision.retryAfterSeconds * 1000
                   && (decision.retryAfterSeconds == 1 || r.now + (decision.retryAfterSeconds - 1) * 1000 < windows[r.key].resetAtMs)
      ensures forall key | key in old(windows) && key != r.key :: key in windows && windows[key] == old(windows)[key]
    {
      ghost var before := trace;
      decision := Count(r);
      trace := trace + [r];
      RunOfPrefix(before, r, |before|);
      if FixedPolicy(trace, r.key, r.max, r.windowSeconds) && r.windowSeconds >= 0 {
        forall from ensures InBound(trace, r.key, r.max, r.windowSeconds, from) {
          AtMostTwiceMax(trace, r.key, r.max, r.windowSeconds, from);
        }
      }
    }

    method Count(r: Request) returns (decision: Decision)
      modifies this`windows
      ensures (windows, decision) == Step(old(windows), r)
    {
      if r.key !in windows || windows[r.key].resetAtMs <= r.now {
        windows := windows[r.key := Window(1, r.now + r.windowSeconds * 1000)];
        return Decision(true, r.windowSeconds);
      }
      var existing := windows[r.key];
      existing := existing.(count := existing.count + 1);
      windows := windows[r.key := existing];
      decision := Decision(existing.count <= r.max, Max(1, CeilSeconds(existing.resetAtMs - r.now)));
    }
  }
}
