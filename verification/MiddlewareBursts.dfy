/** Runs of the threads that make an address fail as often as the limiters let it. */
module MiddlewareBursts {
  import opened Basics
  import opened MiddlewareThreads
  import opened MiddlewareHistory
  import A = AuthLimiters
  import H = AuthHistory
  import W = AuthWindows
  import L = RequestLimiters
  import R = RequestHistory
  import Q = MiddlewareQuota

  // ---------------------------------------------------------------- runs and the failures they record

  /** What one step adds to the failures recorded. */
  function Adds(s: State, step: Step): seq<int> {
    if step.Record? then [s.now] else []
  }

  /** The times at which a run records failures. */
  ghost function Fails(l: Limits, s: State, steps: seq<Step>): seq<int>
    requires ValidRun(l, s, steps)
    decreases steps
  {
    if steps == [] then [] else Adds(s, steps[0]) + Fails(l, Apply(l, s, steps[0]), steps[1..])
  }

  ghost predicate CallIsAbout(l: Limits, ip: string, s: State, step: Step)
    requires Enabled(l, s, step)
  {
    CallOf(l, s, step).Some? ==> CallOf(l, s, step).value.ip == ip
  }

  /** All calls of the failure limiter concern one address. */
  ghost predicate IsAbout(l: Limits, ip: string, s: State, steps: seq<Step>)
    requires ValidRun(l, s, steps)
    decreases steps
  {
    steps == [] || (CallIsAbout(l, ip, s, steps[0]) && IsAbout(l, ip, Apply(l, s, steps[0]), steps[1..]))
  }

  /** The steps lead from s to t, concern one address, and record failures of it at these times. */
  ghost predicate Traces(l: Limits, ip: string, s: State, steps: seq<Step>, t: State, more: seq<int>) {
    Leads(l, s, steps, t) && IsAbout(l, ip, s, steps) && Fails(l, s, steps) == more
  }

  /** Some run leads from s to t and records failures of the address at these times. */
  ghost predicate Yields(l: Limits, ip: string, s: State, t: State, more: seq<int>) {
    exists steps: seq<Step> :: Traces(l, ip, s, steps, t, more)
  }

  lemma {:induction false} TraceFirst(l: Limits, ip: string, s: State, step: Step, rest: seq<Step>, t: State,
                                      more: seq<int>)
    requires Enabled(l, s, step) && CallIsAbout(l, ip, s, step) && Traces(l, ip, Apply(l, s, step), rest, t, more)
    ensures Traces(l, ip, s, [step] + rest, t, Adds(s, step) + more)
  {
    var steps := [step] + rest;
    assert steps[0] == step && steps[1..] == rest;
  }

  lemma {:induction false} TraceSelf(l: Limits, ip: string, s: State)
    ensures Traces(l, ip, s, [], s, [])
  {
  }

  lemma {:induction false} TraceRest(l: Limits, ip: string, s: State, steps: seq<Step>, t: State, more: seq<int>)
    returns (later: seq<int>)
    requires Traces(l, ip, s, steps, t, more) && steps != []
    ensures Enabled(l, s, steps[0]) && CallIsAbout(l, ip, s, steps[0])
    ensures Traces(l, ip, Apply(l, s, steps[0]), steps[1..], t, later) && more == Adds(s, steps[0]) + later
  {
    later := Fails(l, Apply(l, s, steps[0]), steps[1..]);
  }

  lemma {:induction false} TracesOn(l: Limits, ip: string, s: State, first: seq<Step>, m: State, second: seq<Step>,
                                    t: State, early: seq<int>, late: seq<int>)
    requires Traces(l, ip, s, first, m, early) && Traces(l, ip, m, second, t, late)
    ensures Traces(l, ip, s, first + second, t, early + late)
    decreases first
  {
    if first == [] {
      assert first + second == second && early + late == late;
    } else {
      var step, rest := first[0], first[1..];
      var between := TraceRest(l, ip, s, first, m, early);
      TracesOn(l, ip, Apply(l, s, step), rest, m, second, t, between, late);
      TraceFirst(l, ip, s, step, rest + second, t, between + late);
      assert first + second == [step] + (rest + second);
      assert early + late == Adds(s, step) + (between + late);
    }
  }

  /** What a run about one address leaves in the history of the limiter. */
  lemma {:induction false} TraceHistory(l: Limits, ip: string, s: State, steps: seq<Step>, t: State, more: seq<int>,
                                        before: seq<H.Event>)
    requires Traces(l, ip, s, steps, t, more) && W.OnlyAbout(before, ip)
    ensures W.OnlyAbout(Calls(l, s, steps, before), ip)
    ensures H.FailTimes(Calls(l, s, steps, before), ip) == H.FailTimes(before, ip) + more
    decreases steps
  {
    if steps == [] {
      assert H.FailTimes(before, ip) + [] == H.FailTimes(before, ip);
    } else {
      var step := steps[0];
      var later := TraceRest(l, ip, s, steps, t, more);
      var longer := Extended(before, CallOf(l, s, step));
      OneCall(ip, before, CallOf(l, s, step));
      TraceHistory(l, ip, Apply(l, s, step), steps[1..], t, later, longer);
      Regroup(H.FailTimes(before, ip), Adds(s, step), later);
    }
  }

  lemma Regroup(a: seq<int>, b: seq<int>, c: seq<int>)
    ensures a + b + c == a + (b + c)
  {
  }

  lemma {:induction false} OneCall(ip: string, before: seq<H.Event>, call: Option<H.Event>)
    requires W.OnlyAbout(before, ip) && (call.Some? ==> call.value.ip == ip)
    ensures W.OnlyAbout(Extended(before, call), ip)
    ensures H.FailTimes(Extended(before, call), ip)
         == H.FailTimes(before, ip) + (if call.Some? && call.value.Failure? then [call.value.at] else [])
  {
    if call.Some? {
      H.FailTimesSnoc(before, call.value, ip);
    }
    assert H.FailTimes(before, ip) + [] == H.FailTimes(before, ip);
  }

  lemma {:induction false} YieldOn(l: Limits, ip: string, s: State, m: State, t: State, early: seq<int>, late: seq<int>)
    requires Yields(l, ip, s, m, early) && Yields(l, ip, m, t, late)
    ensures Yields(l, ip, s, t, early + late)
  {
    var first: seq<Step> :| Traces(l, ip, s, first, m, early);
    var second: seq<Step> :| Traces(l, ip, m, second, t, late);
    TracesOn(l, ip, s, first, m, second, t, early, late);
  }

  /** Two parts, one of which records nothing. */
  lemma {:induction false} QuietlyOn(l: Limits, ip: string, s: State, m: State, t: State, more: seq<int>)
    requires Yields(l, ip, s, m, []) && Yields(l, ip, m, t, more)
    ensures Yields(l, ip, s, t, more)
  {
    YieldOn(l, ip, s, m, t, [], more);
    assert [] + more == more;
  }

  lemma {:induction false} YieldSelf(l: Limits, ip: string, s: State)
    ensures Yields(l, ip, s, s, [])
  {
    TraceSelf(l, ip, s);
  }

  lemma {:induction false} YieldStep(l: Limits, ip: string, s: State, step: Step, t: State)
    requires Enabled(l, s, step) && Apply(l, s, step) == t && CallIsAbout(l, ip, s, step)
    ensures Yields(l, ip, s, t, Adds(s, step))
  {
    TraceSelf(l, ip, t);
    TraceFirst(l, ip, s, step, [], t, []);
    assert Adds(s, step) + [] == Adds(s, step);
  }

  // ---------------------------------------------------------------- scenes with one address

  function Single<T>(ip: string, x: Option<T>): map<string, T> {
    if x.Some? then map[ip := x.value] else map[]
  }

  function Scene(ip: string, e: Option<A.Entry>, w: Option<L.Window>, now: int, threads: seq<Thread>): State {
    State(now, Single(ip, e), Single(ip, w), threads)
  }

  /** The entry, unless it has expired. */
  function Live(l: Limits, e: Option<A.Entry>, now: int): Option<A.Entry> {
    if e.Some? && A.Expired(l.policy, e.value, now) then None else e
  }

  /** An entry with f failures since `start`, or none yet. */
  function Counted(f: nat, start: int): Option<A.Entry> {
    if f == 0 then None else Some(A.Entry(f, start))
  }

  lemma {:induction false} TickTo(l: Limits, ip: string, e: Option<A.Entry>, w: Option<L.Window>, now: int, later: int,
                                  threads: seq<Thread>)
    requires now <= later
    ensures Yields(l, ip, Scene(ip, e, w, now, threads), Scene(ip, e, w, later, threads), [])
  {
    YieldStep(l, ip, Scene(ip, e, w, now, threads), Tick(later - now), Scene(ip, e, w, later, threads));
  }

  /** A thread takes a request with a wrong token as far as the recording. */
  lemma {:induction false} Enter(l: Limits, ip: string, e: Option<A.Entry>, w: Option<L.Window>, now: int,
                                 threads: seq<Thread>, i: nat)
    requires i < |threads| && threads[i] == Idle
    requires Live(l, e, now).Some? ==> e.value.failures <= l.policy.maxFailures
    requires L.Answer(l.quota, w, now) == 0
    ensures Yields(l, ip, Scene(ip, e, w, now, threads),
                   Scene(ip, Live(l, e, now), Some(L.Next(w, now)), now, threads[i := Failing(ip)]), [])
  {
    var s := Scene(ip, e, w, now, threads);
    var s1 := Scene(ip, e, w, now, threads[i := Arrived(ip, false)]);
    var s2 := Scene(ip, Live(l, e, now), w, now, threads[i := Cleared(ip, false)]);
    var s3 := Scene(ip, Live(l, e, now), Some(L.Next(w, now)), now, threads[i := Admitted(ip, false)]);
    var s4 := Scene(ip, Live(l, e, now), Some(L.Next(w, now)), now, threads[i := Failing(ip)]);
    YieldStep(l, ip, s, Begin(i, ip, false), s1);
    CheckedBlock(l, ip, e, w, now, threads, i);
    CheckedRate(l, ip, Live(l, e, now), w, now, threads, i);
    YieldStep(l, ip, s3, CheckToken(i), s4);
    QuietlyOn(l, ip, s2, s3, s4, []);
    QuietlyOn(l, ip, s1, s2, s4, []);
    QuietlyOn(l, ip, s, s1, s4, []);
  }

  lemma {:induction false} CheckedBlock(l: Limits, ip: string, e: Option<A.Entry>, w: Option<L.Window>, now: int,
                                        threads: seq<Thread>, i: nat)
    requires i < |threads| && (Live(l, e, now).Some? ==> e.value.failures <= l.policy.maxFailures)
    ensures Yields(l, ip, Scene(ip, e, w, now, threads[i := Arrived(ip, false)]),
                   Scene(ip, Live(l, e, now), w, now, threads[i := Cleared(ip, false)]), [])
  {
    var s := Scene(ip, e, w, now, threads[i := Arrived(ip, false)]);
    var t := Scene(ip, Live(l, e, now), w, now, threads[i := Cleared(ip, false)]);
    assert A.Queried(l.policy, Single(ip, e), ip, now) == Single(ip, Live(l, e, now));
    assert s.threads[i := Cleared(ip, false)] == t.threads;
    YieldStep(l, ip, s, CheckBlock(i), t);
  }

  lemma {:induction false} CheckedRate(l: Limits, ip: string, e: Option<A.Entry>, w: Option<L.Window>, now: int,
                                       threads: seq<Thread>, i: nat)
    requires i < |threads| && L.Answer(l.quota, w, now) == 0
    ensures Yields(l, ip, Scene(ip, e, w, now, threads[i := Cleared(ip, false)]),
                   Scene(ip, e, Some(L.Next(w, now)), now, threads[i := Admitted(ip, false)]), [])
  {
    var s := Scene(ip, e, w, now, threads[i := Cleared(ip, false)]);
    var t := Scene(ip, e, Some(L.Next(w, now)), now, threads[i := Admitted(ip, false)]);
    assert L.Lookup(s.windows, ip) == w;
    assert L.Counted(s.windows, ip, now) == t.windows && |t.windows| == 1;
    assert s.threads[i := Admitted(ip, false)] == t.threads;
    YieldStep(l, ip, s, CheckRate(i), t);
  }

  /** And records the failure. */
  lemma {:induction false} Leave(l: Limits, ip: string, f: nat, start: int, w: Option<L.Window>, now: int,
                                 threads: seq<Thread>, i: nat)
    requires i < |threads| && threads[i] == Failing(ip)
    requires start <= now <= start + l.policy.window && (f == 0 ==> start == now)
    ensures Yields(l, ip, Scene(ip, Counted(f, start), w, now, threads),
                   Scene(ip, Counted(f + 1, start), w, now, threads[i := Idle]), [now])
  {
    var s := Scene(ip, Counted(f, start), w, now, threads);
    var t := Scene(ip, Counted(f + 1, start), w, now, threads[i := Idle]);
    assert A.Recorded(l.policy, s.failures, ip, now) == t.failures && |t.failures| == 1;
    YieldStep(l, ip, s, Record(i, f + 1 > l.policy.maxFailures, t.failures), t);
  }

  /** The first of n threads are about to record a failure, the others are idle. */
  function Threads(failing: nat, n: nat, ip: string): seq<Thread>
    requires failing <= n
  {
    seq(n, i => if i < failing then Failing(ip) else Idle)
  }

  lemma OneMoreFails(k: nat, n: nat, ip: string)
    requires k < n
    ensures Threads(k, n, ip)[k] == Idle && Threads(k, n, ip)[k := Failing(ip)] == Threads(k + 1, n, ip)
    ensures Threads(k + 1, n, ip)[k] == Failing(ip) && Threads(k + 1, n, ip)[k := Idle] == Threads(k, n, ip)
  {
  }

  lemma {:induction false} LastLeaves(l: Limits, ip: string, f: nat, start: int, w: Option<L.Window>, now: int,
                                      k: nat, n: nat)
    requires 1 <= k <= n && start <= now <= start + l.policy.window && (f == 0 ==> start == now)
    ensures Yields(l, ip, Scene(ip, Counted(f, start), w, now, Threads(k, n, ip)),
                   Scene(ip, Counted(f + 1, start), w, now, Threads(k - 1, n, ip)), [now])
  {
    OneMoreFails(k - 1, n, ip);
    Leave(l, ip, f, start, w, now, Threads(k, n, ip), k - 1);
  }

  /** All threads that are about to record do so, at once. */
  lemma {:induction false} AllLeave(l: Limits, ip: string, f: nat, start: int, w: Option<L.Window>, now: int,
                                    k: nat, n: nat)
    requires k <= n && start <= now <= start + l.policy.window && (f == 0 ==> start == now)
    ensures Yields(l, ip, Scene(ip, Counted(f, start), w, now, Threads(k, n, ip)),
                   Scene(ip, Counted(f + k, start), w, now, Threads(0, n, ip)), W.Repeat(now, k))
    decreases k
  {
    if k == 0 {
      YieldSelf(l, ip, Scene(ip, Counted(f, start), w, now, Threads(0, n, ip)));
      assert W.Repeat(now, 0) == [];
    } else {
      AllLeave(l, ip, f + 1, start, w, now, k - 1, n);
      LastLeavesFirst(l, ip, f, start, w, now, k, n, Scene(ip, Counted(f + k, start), w, now, Threads(0, n, ip)),
                      W.Repeat(now, k - 1));
      RepeatFirst(now, k);
    }
  }

  lemma {:induction false} LastLeavesFirst(l: Limits, ip: string, f: nat, start: int, w: Option<L.Window>, now: int,
                                           k: nat, n: nat, t: State, rest: seq<int>)
    requires 1 <= k <= n && start <= now <= start + l.policy.window && (f == 0 ==> start == now)
    requires Yields(l, ip, Scene(ip, Counted(f + 1, start), w, now, Threads(k - 1, n, ip)), t, rest)
    ensures Yields(l, ip, Scene(ip, Counted(f, start), w, now, Threads(k, n, ip)), t, [now] + rest)
  {
    LastLeaves(l, ip, f, start, w, now, k, n);
    YieldOn(l, ip, Scene(ip, Counted(f, start), w, now, Threads(k, n, ip)),
            Scene(ip, Counted(f + 1, start), w, now, Threads(k - 1, n, ip)), t, [now], rest);
  }

  lemma RepeatFirst(t: int, k: nat)
    requires k > 0
    ensures W.Repeat(t, k) == [t] + W.Repeat(t, k - 1)
  {
  }

  predicate Between(times: seq<int>, from: int, to: int) {
    forall t | t in times :: from <= t <= to
  }

  // ---------------------------------------------------------------- one window

  /** One of n threads about to record does so and enters again, k times, each time as early as the request limiter
      admits it. */
  lemma {:induction false} Reenter(l: Limits, ip: string, f: nat, start: int, w: L.Window, now: int,
                                   k: nat, end: int, n: nat)
    returns (w': L.Window, later: int, more: seq<int>)
    requires n >= 1 && l.quota.maxRpm >= 1 && f + k <= l.policy.maxFailures
    requires w.start <= now && start <= now <= end <= start + l.policy.window && (f == 0 ==> start == now)
    requires k <= R.Left(l.quota, w, now, end)
    ensures now <= later <= end && |more| == k && Between(more, now, later) && (k == 0 ==> later == now)
    ensures end < w.start + R.MINUTE ==> w'.start == w.start
    ensures Yields(l, ip, Scene(ip, Counted(f, start), Some(w), now, Threads(n, n, ip)),
                   Scene(ip, Counted(f + k, start), Some(w'), later, Threads(n, n, ip)), more)
    decreases k
  {
    if k == 0 {
      w', later, more := w, now, [];
      YieldSelf(l, ip, Scene(ip, Counted(f, start), Some(w), now, Threads(n, n, ip)));
    } else {
      var slot := R.NextSlot(l.quota, w, now);
      var next := L.Next(Some(w), slot);
      R.SlotIsAllowed(l.quota, w, now, end);
      R.OverIsAMinute(w, slot);
      ReenterOnce(l, ip, f, start, w, now, slot, n);
      var rest;
      w', later, rest := Reenter(l, ip, f + 1, start, next, slot, k - 1, end, n);
      more := [now] + rest;
      YieldOn(l, ip, Scene(ip, Counted(f, start), Some(w), now, Threads(n, n, ip)),
              Scene(ip, Counted(f + 1, start), Some(next), slot, Threads(n, n, ip)),
              Scene(ip, Counted(f + k, start), Some(w'), later, Threads(n, n, ip)), [now], rest);
    }
  }

  lemma {:induction false} ReenterOnce(l: Limits, ip: string, f: nat, start: int, w: L.Window, now: int,
                                       slot: int, n: nat)
    requires n >= 1 && f < l.policy.maxFailures && start <= now <= slot <= start + l.policy.window
    requires (f == 0 ==> start == now) && L.Answer(l.quota, Some(w), slot) == 0
    ensures Yields(l, ip, Scene(ip, Counted(f, start), Some(w), now, Threads(n, n, ip)),
                   Scene(ip, Counted(f + 1, start), Some(L.Next(Some(w), slot)), slot, Threads(n, n, ip)), [now])
  {
    var all, e := Threads(n, n, ip), Counted(f + 1, start);
    var one := all[n - 1 := Idle];
    var s := Scene(ip, Counted(f, start), Some(w), now, all);
    var t := Scene(ip, e, Some(L.Next(Some(w), slot)), slot, all);
    assert one[n - 1 := Failing(ip)] == all;
    Leave(l, ip, f, start, Some(w), now, all, n - 1);
    TickTo(l, ip, e, Some(w), now, slot, one);
    Enter(l, ip, e, Some(w), slot, one, n - 1);
    QuietlyOn(l, ip, Scene(ip, e, Some(w), now, one), Scene(ip, e, Some(w), slot, one), t, []);
    YieldOn(l, ip, s, Scene(ip, e, Some(w), now, one), t, [now], []);
    assert [now] + [] == [now];
  }

  /** k threads get themselves admitted, one a minute, before anything is recorded. */
  lemma {:induction false} OneAMinute(l: Limits, ip: string, k: nat, n: nat) returns (now: int)
    requires 1 <= k <= n && l.quota.maxRpm >= 1
    ensures Yields(l, ip, Start(0, n), Scene(ip, None, Some(L.Window(1, now)), now, Threads(k, n, ip)), [])
    decreases k
  {
    var idle := Threads(k - 1, n, ip);
    var w: Option<L.Window>;
    if k == 1 {
      now, w := 0, None;
      assert Start(0, n) == Scene(ip, None, None, 0, idle);
      YieldSelf(l, ip, Start(0, n));
    } else {
      var before := OneAMinute(l, ip, k - 1, n);
      now, w := before + R.MINUTE, Some(L.Window(1, before));
      R.OverIsAMinute(w.value, now);
      TickTo(l, ip, None, w, before, now, idle);
      QuietlyOn(l, ip, Start(0, n), Scene(ip, None, w, before, idle), Scene(ip, None, w, now, idle), []);
    }
    OneEnters(l, ip, w, now, k, n);
    QuietlyOn(l, ip, Start(0, n), Scene(ip, None, w, now, idle),
              Scene(ip, None, Some(L.Window(1, now)), now, Threads(k, n, ip)), []);
  }

  lemma {:induction false} OneEnters(l: Limits, ip: string, w: Option<L.Window>, now: int, k: nat, n: nat)
    requires 1 <= k <= n && l.quota.maxRpm >= 1 && (w.Some? ==> L.Over(w.value, now))
    ensures Yields(l, ip, Scene(ip, None, w, now, Threads(k - 1, n, ip)),
                   Scene(ip, None, Some(L.Window(1, now)), now, Threads(k, n, ip)), [])
  {
    OneMoreFails(k - 1, n, ip);
    Enter(l, ip, None, w, now, Threads(k - 1, n, ip), k - 1);
  }

  /** From n threads about to record, with k requests left in the window: k + n failures. */
  lemma {:induction false} Burst(l: Limits, ip: string, w: L.Window, start: int, k: nat, end: int, n: nat)
    returns (w': L.Window, now: int, more: seq<int>)
    requires n >= 1 && l.quota.maxRpm >= 1 && k <= l.policy.maxFailures
    requires w.start <= start <= end <= start + l.policy.window && k <= R.Left(l.quota, w, start, end)
    ensures start <= now <= end && |more| == k + n && Between(more, start, now)
    ensures Yields(l, ip, Scene(ip, None, Some(w), start, Threads(n, n, ip)),
                   Scene(ip, Counted(k + n, start), Some(w'), now, Threads(0, n, ip)), more)
  {
    var early;
    w', now, early := Reenter(l, ip, 0, start, w, start, k, end, n);
    AllLeave(l, ip, k, start, Some(w'), now, n, n);
    more := early + W.Repeat(now, n);
    YieldOn(l, ip, Scene(ip, None, Some(w), start, Threads(n, n, ip)),
            Scene(ip, Counted(k, start), Some(w'), now, Threads(n, n, ip)),
            Scene(ip, Counted(k + n, start), Some(w'), now, Threads(0, n, ip)), early, W.Repeat(now, n));
  }

  /** The window of the last request before the burst, and when the burst begins, so that all that the request
      limiter can admit in a window of failures is left. */
  lemma {:induction false} AllIsLeft(l: Limits, w: L.Window) returns (start: int)
    requires l.policy.window >= 0 && l.quota.maxRpm >= 1 && w.requests == 1
    ensures start >= w.start
    ensures R.Left(l.quota, w, start, start + l.policy.window) == R.Capacity(l.quota, l.policy.window + 1)
  {
    start := w.start + (if l.policy.window % R.MINUTE == 0 then R.MINUTE else R.MINUTE - 1);
    R.RoomAndLeft(l.quota, l.policy.window);
  }

  /** From the start to k + n failures in one window, with k requests admitted after the first of them. */
  lemma {:induction false} LongBurst(l: Limits, ip: string, k: nat, n: nat)
    returns (t: State, start: int, more: seq<int>)
    requires l.policy.window >= 0 && l.quota.maxRpm >= 1 && n >= 1
    requires k <= l.policy.maxFailures && k <= R.Capacity(l.quota, l.policy.window + 1)
    ensures Yields(l, ip, Start(0, n), t, more)
    ensures t.failures == map[ip := A.Entry(k + n, start)] && start <= t.now <= start + l.policy.window
    ensures |more| == k + n && Between(more, start, start + l.policy.window)
  {
    var before := OneAMinute(l, ip, n, n);
    var w, all := L.Window(1, before), Threads(n, n, ip);
    start := AllIsLeft(l, w);
    TickTo(l, ip, None, Some(w), before, start, all);
    var s1, s2 := Scene(ip, None, Some(w), before, all), Scene(ip, None, Some(w), start, all);
    QuietlyOn(l, ip, Start(0, n), s1, s2, []);
    var w', now;
    w', now, more := Burst(l, ip, w, start, k, start + l.policy.window, n);
    t := Scene(ip, Counted(k + n, start), Some(w'), now, Threads(0, n, ip));
    QuietlyOn(l, ip, Start(0, n), s2, t, more);
  }

  /** For every policy, every quota of at least one and every number of threads some run takes an address to the
      limit, within one window that is still open. */
  lemma {:induction false} BoundIsAttained(l: Limits, ip: string, n: nat) returns (steps: seq<Step>, start: int)
    requires l.policy.window >= 0 && l.quota.maxRpm >= 1 && n >= 1
    ensures ValidRun(l, Start(0, n), steps)
    ensures Exec(l, Start(0, n), steps).failures == map[ip := A.Entry(Q.FailureLimit(l, n), start)]
    ensures start <= Exec(l, Start(0, n), steps).now <= start + l.policy.window
  {
    var k: nat := Q.FailureLimit(l, n) - n;
    var t, more;
    t, start, more := LongBurst(l, ip, k, n);
    steps := RunOf(l, ip, Start(0, n), t, more);
  }

  lemma {:induction false} RunOf(l: Limits, ip: string, s: State, t: State, more: seq<int>) returns (steps: seq<Step>)
    requires Yields(l, ip, s, t, more)
    ensures Leads(l, s, steps, t) && H.FailTimes(Calls(l, s, steps, []), ip) == more
    ensures W.OnlyAbout(Calls(l, s, steps, []), ip)
  {
    steps :| Traces(l, ip, s, steps, t, more);
    TraceHistory(l, ip, s, steps, t, more, []);
    assert [] + more == more;
  }

  ghost predicate SomeoneIsBlocked(l: Limits, s: State) {
    exists ip: string :: A.Blocks(l.policy, s.failures, ip, s.now)
  }

  /** Settings under which some address is ever blocked. */
  ghost predicate CanBlock(l: Limits, n: nat) {
    exists now: int, steps: seq<Step> ::
      ValidRun(l, Start(now, n), steps) && SomeoneIsBlocked(l, Exec(l, Start(now, n), steps))
  }

  /** Guessing gets an address blocked in some run exactly when the two limiters together let it fail more than
      max_failures times in a window; otherwise is_blocked never answers yes. */
  lemma {:induction false} BlockingIsPossible(l: Limits, n: nat)
    requires l.policy.window >= 0
    ensures CanBlock(l, n) <==> Q.FailureLimit(l, n) > l.policy.maxFailures
  {
    if CanBlock(l, n) {
      var now: int, steps: seq<Step> :|
        ValidRun(l, Start(now, n), steps) && SomeoneIsBlocked(l, Exec(l, Start(now, n), steps));
      var t := Exec(l, Start(now, n), steps);
      var ip: string :| A.Blocks(l.policy, t.failures, ip, t.now);
      Q.FailuresLimited(l, now, n, steps, ip);
    }
    if Q.FailureLimit(l, n) > l.policy.maxFailures {
      var steps, start := BoundIsAttained(l, "", n);
      var t := Exec(l, Start(0, n), steps);
      assert A.Blocks(l.policy, t.failures, "", t.now);
      assert SomeoneIsBlocked(l, t);
    }
  }

  // ---------------------------------------------------------------- two windows in a row

  /** k threads get themselves admitted at once, in a new window of requests and with no failure that still counts. */
  lemma {:induction false} EnterAll(l: Limits, ip: string, e: Option<A.Entry>, w: Option<L.Window>, now: int,
                                    k: nat, n: nat)
    requires 1 <= k <= n && k <= l.quota.maxRpm && Live(l, e, now) == None && (w.Some? ==> L.Over(w.value, now))
    ensures Yields(l, ip, Scene(ip, e, w, now, Threads(0, n, ip)),
                   Scene(ip, None, Some(L.Window(k, now)), now, Threads(k, n, ip)), [])
    decreases k
  {
    var before, after := Threads(k - 1, n, ip), Threads(k, n, ip);
    OneMoreFails(k - 1, n, ip);
    if k == 1 {
      Enter(l, ip, e, w, now, before, 0);
    } else {
      var w1 := Some(L.Window(k - 1, now));
      EnterAll(l, ip, e, w, now, k - 1, n);
      Enter(l, ip, None, w1, now, before, k - 1);
      QuietlyOn(l, ip, Scene(ip, e, w, now, Threads(0, n, ip)), Scene(ip, None, w1, now, before),
                Scene(ip, None, Some(L.Window(k, now)), now, after), []);
    }
  }

  /** A first failure at `start`, and all others that the window takes one tick later. */
  lemma {:induction false} SlowStart(l: Limits, ip: string, w: L.Window, start: int, n: nat)
    returns (w': L.Window, late: seq<int>)
    requires n >= 1 && l.policy.window >= 1 && w.requests == n && l.quota.maxRpm >= l.policy.maxFailures + n
    requires w.start <= start && start + 1 < w.start + R.MINUTE
    ensures |late| == l.policy.maxFailures + n - 1 && Between(late, start + 1, start + 1) && w'.start == w.start
    ensures Yields(l, ip, Scene(ip, None, Some(w), start, Threads(n, n, ip)),
                   Scene(ip, Counted(l.policy.maxFailures + n, start), Some(w'), start + 1, Threads(0, n, ip)),
                   [start] + late)
  {
    if l.policy.maxFailures == 0 {
      w', late := w, W.Repeat(start + 1, n - 1);
      SlowStartAlone(l, ip, w, start, n);
    } else {
      w', late := SlowStartAgain(l, ip, w, start, n);
    }
  }

  lemma {:induction false} SlowStartAlone(l: Limits, ip: string, w: L.Window, start: int, n: nat)
    requires n >= 1 && l.policy.window >= 1
    ensures Yields(l, ip, Scene(ip, None, Some(w), start, Threads(n, n, ip)),
                   Scene(ip, Counted(n, start), Some(w), start + 1, Threads(0, n, ip)),
                   [start] + W.Repeat(start + 1, n - 1))
  {
    var s, m := Scene(ip, None, Some(w), start, Threads(n, n, ip)), Threads(n - 1, n, ip);
    OneGoesFirst(l, ip, w, start, n);
    AllLeave(l, ip, 1, start, Some(w), start + 1, n - 1, n);
    YieldOn(l, ip, s, Scene(ip, Counted(1, start), Some(w), start + 1, m),
            Scene(ip, Counted(n, start), Some(w), start + 1, Threads(0, n, ip)), [start], W.Repeat(start + 1, n - 1));
  }

  lemma {:induction false} SlowStartAgain(l: Limits, ip: string, w: L.Window, start: int, n: nat)
    returns (w': L.Window, late: seq<int>)
    requires n >= 1 && l.policy.window >= 1 && l.policy.maxFailures >= 1 && w.requests == n
    requires l.quota.maxRpm >= l.policy.maxFailures + n && w.start <= start && start + 1 < w.start + R.MINUTE
    ensures |late| == l.policy.maxFailures + n - 1 && Between(late, start + 1, start + 1) && w'.start == w.start
    ensures Yields(l, ip, Scene(ip, None, Some(w), start, Threads(n, n, ip)),
                   Scene(ip, Counted(l.policy.maxFailures + n, start), Some(w'), start + 1, Threads(0, n, ip)),
                   [start] + late)
  {
    var all, b, w1 := Threads(n, n, ip), l.policy.maxFailures + n, L.Window(n + 1, w.start);
    R.OverIsAMinute(w, start + 1);
    ReenterOnce(l, ip, 0, start, w, start, start + 1, n);
    w', late := QuickRest(l, ip, w1, start, n);
    YieldOn(l, ip, Scene(ip, None, Some(w), start, all), Scene(ip, Counted(1, start), Some(w1), start + 1, all),
            Scene(ip, Counted(b, start), Some(w'), start + 1, Threads(0, n, ip)), [start], late);
  }

  lemma {:induction false} OneGoesFirst(l: Limits, ip: string, w: L.Window, start: int, n: nat)
    requires n >= 1 && l.policy.window >= 1
    ensures Yields(l, ip, Scene(ip, None, Some(w), start, Threads(n, n, ip)),
                   Scene(ip, Counted(1, start), Some(w), start + 1, Threads(n - 1, n, ip)), [start])
  {
    var s, m := Scene(ip, None, Some(w), start, Threads(n, n, ip)), Threads(n - 1, n, ip);
    LastLeaves(l, ip, 0, start, Some(w), start, n, n);
    TickTo(l, ip, Counted(1, start), Some(w), start, start + 1, m);
    YieldOn(l, ip, s, Scene(ip, Counted(1, start), Some(w), start, m),
            Scene(ip, Counted(1, start), Some(w), start + 1, m), [start], []);
    assert [start] + [] == [start];
  }

  /** After the first failure, with room in the window of requests: the rest within one tick. */
  lemma {:induction false} QuickRest(l: Limits, ip: string, w: L.Window, start: int, n: nat)
    returns (w': L.Window, late: seq<int>)
    requires n >= 1 && l.policy.window >= 1 && l.policy.maxFailures >= 1 && w.requests == n + 1
    requires l.quota.maxRpm >= l.policy.maxFailures + n && w.start <= start && start + 1 < w.start + R.MINUTE
    ensures |late| == l.policy.maxFailures + n - 1 && Between(late, start + 1, start + 1) && w'.start == w.start
    ensures Yields(l, ip, Scene(ip, Counted(1, start), Some(w), start + 1, Threads(n, n, ip)),
                   Scene(ip, Counted(l.policy.maxFailures + n, start), Some(w'), start + 1, Threads(0, n, ip)), late)
  {
    var max, now, all := l.policy.maxFailures, start + 1, Threads(n, n, ip);
    var later, early;
    w', later, early := Reenter(l, ip, 1, start, w, now, max - 1, now, n);
    AllLeave(l, ip, max, start, Some(w'), now, n, n);
    late := early + W.Repeat(now, n);
    YieldOn(l, ip, Scene(ip, Counted(1, start), Some(w), now, all), Scene(ip, Counted(max, start), Some(w'), now, all),
            Scene(ip, Counted(max + n, start), Some(w'), now, Threads(0, n, ip)), early, W.Repeat(now, n));
  }

  lemma {:induction false} CountAll(p: A.Policy, times: seq<int>, more: seq<int>, from: int)
    requires Between(more, from, from + p.window)
    ensures CountInside(p, times + more, from) == CountInside(p, times, from) + |more|
    decreases |more|
  {
    if more == [] {
      assert times + more == times;
    } else {
      var before, t := more[..|more| - 1], more[|more| - 1];
      assert forall x | x in before :: x in more;
      CountAll(p, times, before, from);
      CountInsideSnoc(p, times + before, t, from);
      assert t in more && times + more == times + before + [t];
    }
  }

  /** When two windows of failures in a row are to begin, so that the request limiter opens a new window with the
      second of them. */
  function FirstStart(p: A.Policy): int {
    if p.window + 1 >= R.MINUTE then 0 else R.MINUTE - p.window - 1
  }

  /** Two full windows in a row, the first of which begins with a single failure. */
  lemma {:induction false} TwoWindows(l: Limits, ip: string, n: nat)
    returns (t: State, late: seq<int>, next: seq<int>)
    requires n >= 1 && l.policy.window >= 1 && l.quota.maxRpm >= l.policy.maxFailures + n
    ensures var start, b := FirstStart(l.policy), l.policy.maxFailures + n;
      && |late| == b - 1 && Between(late, start + 1, start + 1)
      && |next| == b && Between(next, start + l.policy.window + 1, start + l.policy.window + 1)
      && Yields(l, ip, Start(0, n), t, [start] + late + next)
  {
    var start, b := FirstStart(l.policy), l.policy.maxFailures + n;
    var w := L.Window(n, 0);
    var all, idle := Threads(n, n, ip), Threads(0, n, ip);
    assert Start(0, n) == Scene(ip, None, None, 0, idle);
    EnterAll(l, ip, None, None, 0, n, n);
    TickTo(l, ip, None, Some(w), 0, start, all);
    QuietlyOn(l, ip, Start(0, n), Scene(ip, None, Some(w), 0, all), Scene(ip, None, Some(w), start, all), []);
    var w';
    w', late := SlowStart(l, ip, w, start, n);
    var m := Scene(ip, Counted(b, start), Some(w'), start + 1, idle);
    QuietlyOn(l, ip, Start(0, n), Scene(ip, None, Some(w), start, all), m, [start] + late);
    t, next := NextWindow(l, ip, b, start, w', n);
    YieldOn(l, ip, Start(0, n), m, t, [start] + late, next);
  }

  lemma {:induction false} NextWindow(l: Limits, ip: string, b: nat, start: int, w: L.Window, n: nat)
    returns (t: State, next: seq<int>)
    requires n >= 1 && l.policy.window >= 1 && l.quota.maxRpm >= l.policy.maxFailures + n && b >= 1
    requires w.start <= start && start + l.policy.window + 1 >= w.start + R.MINUTE
    ensures |next| == l.policy.maxFailures + n
    ensures Between(next, start + l.policy.window + 1, start + l.policy.window + 1)
    ensures Yields(l, ip, Scene(ip, Counted(b, start), Some(w), start + 1, Threads(0, n, ip)), t, next)
  {
    var now, e := start + l.policy.window + 1, Counted(b, start);
    var idle, all, w1 := Threads(0, n, ip), Threads(n, n, ip), L.Window(n, now);
    var s, s1 := Scene(ip, e, Some(w), start + 1, idle), Scene(ip, None, Some(w1), now, all);
    R.OverIsAMinute(w, now);
    TickTo(l, ip, e, Some(w), start + 1, now, idle);
    EnterAll(l, ip, e, Some(w), now, n, n);
    QuietlyOn(l, ip, s, Scene(ip, e, Some(w), now, idle), s1, []);
    var w2, later;
    w2, later, next := Burst(l, ip, w1, now, l.policy.maxFailures, now, n);
    t := Scene(ip, Counted(l.policy.maxFailures + n, now), Some(w2), later, idle);
    QuietlyOn(l, ip, s, s1, t, next);
  }

  /** With a request quota that leaves room for max_failures + n, the bound on an interval of a window's length is
      exact as well: all but one failure of a window, and one tick later all of the next. */
  lemma {:induction false} IntervalBoundIsReached(l: Limits, ip: string, n: nat) returns (steps: seq<Step>, from: int)
    requires n >= 1 && l.policy.window >= 1 && l.quota.maxRpm >= l.policy.maxFailures + n
    ensures ValidRun(l, Start(0, n), steps) && H.Uncrowded(l.policy, Calls(l, Start(0, n), steps, []))
    ensures CountInside(l.policy, H.FailTimes(Calls(l, Start(0, n), steps, []), ip), from)
         == 2 * Q.FailureLimit(l, n) - 1
  {
    var t, late, next := TwoWindows(l, ip, n);
    var start := FirstStart(l.policy);
    from := start + 1;
    steps := RunOf(l, ip, Start(0, n), t, [start] + late + next);
    W.AloneIsUncrowded(l.policy, Calls(l, Start(0, n), steps, []), ip);
    CountInsideSnoc(l.policy, [], start, from);
    assert [] + [start] == [start];
    CountAll(l.policy, [start], late, from);
    CountAll(l.policy, [start] + late, next, from);
    R.RoomGrows(l.quota, 0, l.policy.window);
  }

  /** With a failure limit no smaller than what the request limiter admits in a window, the bound by admissions is
      exact: n and the capacity of a window, within one interval of that length. */
  lemma {:induction false} AdmissionsAreReached(l: Limits, ip: string, n: nat) returns (steps: seq<Step>, from: int)
    requires n >= 1 && l.policy.window >= 0 && l.quota.maxRpm >= 1
    requires R.Capacity(l.quota, l.policy.window + 1) <= l.policy.maxFailures
    ensures ValidRun(l, Start(0, n), steps)
    ensures CountInside(l.policy, H.FailTimes(Calls(l, Start(0, n), steps, []), ip), from)
         == n + R.Capacity(l.quota, l.policy.window + 1)
  {
    var t, more;
    t, from, more := LongBurst(l, ip, R.Capacity(l.quota, l.policy.window + 1), n);
    steps := RunOf(l, ip, Start(0, n), t, more);
    CountAll(l.policy, [], more, from);
    assert [] + more == more;
  }
}
