/** The bound on failures for the full history of failures, whatever the table has forgotten: in one window, and in
    any interval of a window's length. */
module MiddlewareHistory {
  import opened Basics
  import opened T = MiddlewareThreads
  import opened H = AuthHistory
  import C = AuthCrowding
  import Q = MiddlewareQuota
  import A = AuthLimiters
  import R = RequestHistory
  import L = RequestLimiters
  import RR = RequestRuns

  // ---------------------------------------------------------------- the limiter's part of a run

  /** The limiter call that a step makes, if it makes one. */
  ghost function CallOf(l: Limits, s: State, step: Step): Option<Event>
    requires Enabled(l, s, step)
  {
    match step
    case CheckBlock(i) => Some(Query(s.threads[i].ip, s.now, A.Blocks(l.policy, s.failures, s.threads[i].ip, s.now)))
    case Record(i, blocked, _) => Some(Failure(s.threads[i].ip, s.now, blocked))
    case _ => None
  }

  /** The calls of a run, added to those made before it. */
  ghost function Calls(l: Limits, s: State, steps: seq<Step>, before: seq<Event>): seq<Event>
    requires ValidRun(l, s, steps)
    decreases steps
  {
    if steps == [] then before
    else Calls(l, Apply(l, s, steps[0]), steps[1..], Extended(before, CallOf(l, s, steps[0])))
  }

  function Extended(events: seq<Event>, call: Option<Event>): seq<Event> {
    if call.Some? then events + [call.value] else events
  }

  /** Tables whose every entry counts at most b failures. */
  ghost predicate Within(tables: seq<A.Table>, b: int) {
    forall m: A.Table, ip: string | m in tables && ip in m :: m[ip].failures <= b
  }

  /** So far the calls are a run of the limiter, with tables that stay within the bound, up to the present table. */
  ghost predicate Recorded(l: Limits, s: State, events: seq<Event>, tables: seq<A.Table>) {
    && l.policy.window >= 0
    && Run(l.policy, events, tables) && H.After(events, s.now) && tables[|events|] == s.failures
    && Within(tables, Q.FailureLimit(l, |s.threads|))
  }

  /** A table that both limiters keep within the limit. */
  ghost predicate Limited(l: Limits, s: State) {
    exists events: seq<R.Event>, tables: seq<L.Table> :: Q.Limited(l, s, events, tables)
  }

  lemma {:induction false} LimitedStep(l: Limits, s: State, step: Step)
    requires Enabled(l, s, step) && Limited(l, s) && l.policy.window >= 0
    ensures Limited(l, Apply(l, s, step)) && |Apply(l, s, step).threads| == |s.threads|
    ensures forall ip | ip in Apply(l, s, step).failures ::
      Apply(l, s, step).failures[ip].failures <= Q.FailureLimit(l, |s.threads|)
  {
    var events: seq<R.Event>, tables: seq<L.Table> :| Q.Limited(l, s, events, tables);
    var longer := Q.LimitedStep(l, s, step, events, tables);
    var t, all := Apply(l, s, step), Q.More(events, Q.RateCall(l, s, step));
    forall ip | ip in t.failures
      ensures t.failures[ip].failures <= Q.FailureLimit(l, |s.threads|)
    {
      Q.LimitedTable(l, t, all, longer, ip);
    }
  }

  lemma {:induction false} RecordedCall(l: Limits, s: State, step: Step, events: seq<Event>, tables: seq<A.Table>)
    requires Enabled(l, s, step) && Recorded(l, s, events, tables) && CallOf(l, s, step).Some?
    requires |Apply(l, s, step).threads| == |s.threads|
    requires forall ip | ip in Apply(l, s, step).failures ::
      Apply(l, s, step).failures[ip].failures <= Q.FailureLimit(l, |s.threads|)
    ensures Recorded(l, Apply(l, s, step), events + [CallOf(l, s, step).value], tables + [Apply(l, s, step).failures])
  {
    C.RunSnoc(l.policy, events, tables, CallOf(l, s, step).value, Apply(l, s, step).failures);
  }

  lemma {:induction false} RecordedStep(l: Limits, s: State, step: Step, events: seq<Event>, tables: seq<A.Table>)
    returns (longer: seq<A.Table>)
    requires Enabled(l, s, step) && Recorded(l, s, events, tables) && Limited(l, s)
    ensures var t := Apply(l, s, step);
      Limited(l, t) && |t.threads| == |s.threads| && Recorded(l, t, Extended(events, CallOf(l, s, step)), longer)
  {
    LimitedStep(l, s, step);
    longer := tables;
    if CallOf(l, s, step).Some? {
      RecordedCall(l, s, step, events, tables);
      longer := tables + [Apply(l, s, step).failures];
    }
  }

  lemma {:induction false} RecordedRun(l: Limits, s: State, steps: seq<Step>, events: seq<Event>, tables: seq<A.Table>)
    returns (longer: seq<A.Table>)
    requires ValidRun(l, s, steps) && Recorded(l, s, events, tables) && Limited(l, s)
    ensures Run(l.policy, Calls(l, s, steps, events), longer)
    ensures Within(longer, Q.FailureLimit(l, |s.threads|))
    decreases steps
  {
    if steps == [] {
      longer := tables;
    } else {
      var more := RecordedStep(l, s, steps[0], events, tables);
      longer := RecordedRun(l, Apply(l, s, steps[0]), steps[1..], Extended(events, CallOf(l, s, steps[0])), more);
    }
  }

  // ---------------------------------------------------------------- bounded windows

  /** No window that these failures ever opened counts more than b of them. */
  predicate WindowsWithin(p: A.Policy, times: seq<int>, b: int) {
    times == [] || (WindowOf(p, times).value.failures <= b && WindowsWithin(p, times[..|times| - 1], b))
  }

  lemma {:induction false} RecordedWindow(p: A.Policy, events: seq<Event>, tables: seq<A.Table>, b: int)
    requires Run(p, events, tables) && Uncrowded(p, events) && p.window >= 0 && Within(tables, b)
    requires events != [] && events[|events| - 1].Failure?
    ensures var times := FailTimes(events, events[|events| - 1].ip);
      WindowOf(p, times).Some? && WindowOf(p, times).value.failures <= b
  {
    var event, m := events[|events| - 1], tables[|events|];
    var before := FailTimes(events[..|events| - 1], event.ip);
    RunMirrors(p, events, tables, event.at);
    assert MirrorsIp(p, m, FailTimes(events, event.ip), event.ip, event.at);
    WindowSnoc(p, before, event.at);
    assert m in tables;
  }

  /** With tables within the bound, and never too many windows open, so are the windows of the history. */
  lemma {:induction false} HistoryWithin(p: A.Policy, events: seq<Event>, tables: seq<A.Table>, b: int, ip: string)
    requires Run(p, events, tables) && Uncrowded(p, events) && p.window >= 0 && Within(tables, b)
    ensures WindowsWithin(p, FailTimes(events, ip), b)
    decreases |events|
  {
    if events != [] {
      var n := |events| - 1;
      RunUpTo(p, events, tables, n);
      UncrowdedUpTo(p, events, n);
      assert Within(tables[..n + 1], b);
      HistoryWithin(p, events[..n], tables[..n + 1], b, ip);
      if events[n].Failure? && events[n].ip == ip {
        RecordedWindow(p, events, tables, b);
        WindowsSnoc(p, FailTimes(events[..n], ip), events[n].at, b);
      }
    }
  }

  lemma WindowsSnoc(p: A.Policy, times: seq<int>, t: int, b: int)
    requires WindowsWithin(p, times, b) && WindowOf(p, times + [t]).Some?
    requires WindowOf(p, times + [t]).value.failures <= b
    ensures WindowsWithin(p, times + [t], b)
  {
    assert (times + [t])[..|times|] == times;
  }

  // ---------------------------------------------------------------- any interval of a window's length

  predicate Inside(p: A.Policy, t: int, from: int) { from <= t <= from + p.window }

  /** How many of the failures lie in [from, from + window]. */
  function CountInside(p: A.Policy, times: seq<int>, from: int): nat {
    if times == [] then 0
    else
      var last := |times| - 1;
      CountInside(p, times[..last], from) + (if Inside(p, times[last], from) then 1 else 0)
  }

  /** The count, bounded by where the current window lies. */
  predicate CountFits(p: A.Policy, count: int, w: Option<A.Entry>, from: int, b: int) {
    if w.None? then count == 0
    else if w.value.start < from then count <= w.value.failures - 1
    else if w.value.start <= from + p.window then count <= b - 1 + w.value.failures
    else count <= 2 * b - 1
  }

  lemma {:induction false} WindowStarts(p: A.Policy, times: seq<int>)
    requires Sorted(times) && times != []
    ensures WindowOf(p, times).Some? && WindowOf(p, times).value.start <= times[|times| - 1]
    ensures WindowOf(p, times).value.failures >= 1
  {
    if |times| > 1 {
      WindowStarts(p, times[..|times| - 1]);
    }
  }

  lemma {:induction false} NoneInside(p: A.Policy, times: seq<int>, from: int)
    requires Sorted(times) && (times != [] ==> times[|times| - 1] < from)
    ensures CountInside(p, times, from) == 0
  {
    if times != [] {
      NoneInside(p, times[..|times| - 1], from);
    }
  }

  lemma {:induction false} CountAlwaysFits(p: A.Policy, times: seq<int>, from: int, b: int)
    requires Sorted(times) && WindowsWithin(p, times, b) && p.window >= 0
    ensures CountFits(p, CountInside(p, times, from), WindowOf(p, times), from, b)
  {
    if times != [] {
      var before, t := times[..|times| - 1], times[|times| - 1];
      CountAlwaysFits(p, before, from, b);
      WindowStarts(p, times);
      if before != [] {
        WindowStarts(p, before);
      }
      if t < from {
        NoneInside(p, times, from);
      }
    }
  }

  lemma {:induction false} FailTimesSorted(events: seq<Event>, ip: string)
    requires forall i, j | 0 <= i < j < |events| :: events[i].at <= events[j].at
    ensures Sorted(FailTimes(events, ip))
    ensures forall t | t in FailTimes(events, ip) :: events != [] && t <= events[|events| - 1].at
  {
    if events != [] {
      var before := FailTimes(events[..|events| - 1], ip);
      FailTimesSorted(events[..|events| - 1], ip);
      assert forall i | 0 <= i < |before| :: before[i] in before;
    }
  }

  // ---------------------------------------------------------------- the same interval, by admissions

  lemma CountInsideSnoc(p: A.Policy, times: seq<int>, t: int, from: int)
    ensures CountInside(p, times + [t], from) == CountInside(p, times, from) + (if Inside(p, t, from) then 1 else 0)
  {
    assert (times + [t])[..|times|] == times;
  }

  /** Failures in the interval, and those that may still come, were admitted: by one of the n threads before the
      interval, or in it. */
  ghost predicate IntervalPaid(l: Limits, s: State, fails: seq<int>, rates: seq<R.Event>, ip: string, from: int) {
    var count, owing := CountInside(l.policy, fails, from), Count(s.threads, Q.OwesFor(ip));
    && (forall e | e in rates :: e.at <= s.now)
    && (forall t | t in fails :: t <= s.now)
    && count <= |s.threads| + R.AllowedEvents(rates, ip, from, l.policy.window + 1)
    && (s.now <= from + l.policy.window ==> count + owing <= |s.threads| + Q.AllowedSince(rates, ip, from))
  }

  /** The failures of one address that a step records. */
  function AddsFor(s: State, step: Step, ip: string): seq<int> {
    if step.Record? && step.i < |s.threads| && s.threads[step.i].Failing? && s.threads[step.i].ip == ip then [s.now]
    else []
  }

  lemma {:induction false} IntervalRate(l: Limits, s: State, i: nat, fails: seq<int>, rates: seq<R.Event>,
                                        ip: string, from: int)
    requires Enabled(l, s, CheckRate(i)) && IntervalPaid(l, s, fails, rates, ip, from)
    ensures var step := CheckRate(i);
      IntervalPaid(l, Apply(l, s, step), fails, Q.More(rates, Q.RateCall(l, s, step)), ip, from)
  {
    var t, call := Apply(l, s, CheckRate(i)), Q.RateCall(l, s, CheckRate(i)).value;
    CountUpdate(s.threads, i, t.threads[i], Q.OwesFor(ip));
    Q.SinceSnoc(rates, call, ip, from, l.policy.window + 1);
    if s.now < from {
      NotInsideYet(l.policy, fails, from);
      assert Count(t.threads, Q.OwesFor(ip)) <= |t.threads|;
    }
  }

  lemma {:induction false} NotInsideYet(p: A.Policy, times: seq<int>, from: int)
    requires forall t | t in times :: t < from
    ensures CountInside(p, times, from) == 0
  {
    if times != [] {
      var before, last := times[..|times| - 1], times[|times| - 1];
      assert last in times && forall t | t in before :: t in times;
      NotInsideYet(p, before, from);
    }
  }

  lemma {:induction false} IntervalRecord(l: Limits, s: State, step: Step, fails: seq<int>, rates: seq<R.Event>,
                                          ip: string, from: int)
    requires Enabled(l, s, step) && step.Record? && IntervalPaid(l, s, fails, rates, ip, from)
    ensures IntervalPaid(l, Apply(l, s, step), fails + AddsFor(s, step, ip), rates, ip, from)
  {
    var t := Apply(l, s, step);
    CountUpdate(s.threads, step.i, Idle, Q.OwesFor(ip));
    if AddsFor(s, step, ip) == [] {
      assert fails + [] == fails;
    } else {
      IntervalFailure(l, s, t, fails, rates, ip, from);
    }
  }

  /** One of the owed failures comes. */
  lemma {:induction false} IntervalFailure(l: Limits, s: State, t: State, fails: seq<int>, rates: seq<R.Event>,
                                           ip: string, from: int)
    requires IntervalPaid(l, s, fails, rates, ip, from) && t.now == s.now && |t.threads| == |s.threads|
    requires Count(t.threads, Q.OwesFor(ip)) + 1 == Count(s.threads, Q.OwesFor(ip))
    ensures IntervalPaid(l, t, fails + [s.now], rates, ip, from)
  {
    CountInsideSnoc(l.policy, fails, s.now, from);
    if s.now <= from + l.policy.window {
      Q.SinceIsWithin(rates, ip, from, l.policy.window + 1);
    }
  }

  lemma {:induction false} IntervalOther(l: Limits, s: State, step: Step, fails: seq<int>, rates: seq<R.Event>,
                                         ip: string, from: int)
    requires Enabled(l, s, step) && !step.Record? && !step.CheckRate? && IntervalPaid(l, s, fails, rates, ip, from)
    ensures IntervalPaid(l, Apply(l, s, step), fails, rates, ip, from)
  {
    if !step.Tick? {
      CountUpdate(s.threads, step.i, Apply(l, s, step).threads[step.i], Q.OwesFor(ip));
    }
  }

  lemma {:induction false} IntervalStep(l: Limits, s: State, step: Step, fails: seq<int>, rates: seq<R.Event>,
                                        ip: string, from: int)
    requires Enabled(l, s, step) && IntervalPaid(l, s, fails, rates, ip, from)
    ensures IntervalPaid(l, Apply(l, s, step), fails + AddsFor(s, step, ip),
                         Q.More(rates, Q.RateCall(l, s, step)), ip, from)
  {
    if step.Record? {
      IntervalRecord(l, s, step, fails, rates, ip, from);
    } else {
      assert fails + [] == fails;
      if step.CheckRate? {
        IntervalRate(l, s, step.i, fails, rates, ip, from);
      } else {
        IntervalOther(l, s, step, fails, rates, ip, from);
      }
    }
  }

  lemma {:induction false} CallAdds(l: Limits, s: State, step: Step, events: seq<Event>, ip: string)
    requires Enabled(l, s, step)
    ensures FailTimes(Extended(events, CallOf(l, s, step)), ip) == FailTimes(events, ip) + AddsFor(s, step, ip)
  {
    if CallOf(l, s, step).Some? {
      FailTimesSnoc(events, CallOf(l, s, step).value, ip);
    }
    assert FailTimes(events, ip) + [] == FailTimes(events, ip);
  }

  lemma {:induction false} IntervalRun(l: Limits, s: State, steps: seq<Step>, events: seq<Event>,
                                       rates: seq<R.Event>, tables: seq<L.Table>, ip: string, from: int)
    requires ValidRun(l, s, steps) && l.policy.window >= 0
    requires IntervalPaid(l, s, FailTimes(events, ip), rates, ip, from) && Q.Rated(l, s, rates, tables)
    ensures CountInside(l.policy, FailTimes(Calls(l, s, steps, events), ip), from)
         <= |s.threads| + R.Capacity(l.quota, l.policy.window + 1)
    decreases steps
  {
    if steps == [] {
      RR.LimiterThroughput(l.quota, rates, tables, ip, from, l.policy.window + 1);
    } else {
      var step := steps[0];
      var longer := Q.RatedStep(l, s, step, rates, tables);
      CallAdds(l, s, step, events, ip);
      IntervalStep(l, s, step, FailTimes(events, ip), rates, ip, from);
      IntervalRun(l, Apply(l, s, step), steps[1..], Extended(events, CallOf(l, s, step)),
                  Q.More(rates, Q.RateCall(l, s, step)), longer, ip, from);
    }
  }

  /** Whatever is evicted, no interval of a window's length contains more failures of an address than the n threads
      and the requests that the request limiter admits in it. */
  lemma {:induction false} IntervalAdmitted(l: Limits, now: int, n: nat, steps: seq<Step>, ip: string, from: int)
    requires l.policy.window >= 0 && ValidRun(l, Start(now, n), steps)
    ensures CountInside(l.policy, FailTimes(Calls(l, Start(now, n), steps, []), ip), from)
         <= n + R.Capacity(l.quota, l.policy.window + 1)
  {
    var s := Start(now, n);
    assert IntervalPaid(l, s, FailTimes([], ip), [], ip, from);
    IntervalRun(l, s, steps, [], [], [map[]], ip, from);
  }

  /** With n threads, and while no more than max_tracked_ips windows are open, no window of the history, whether the
      table still has it or not, ever counts more failures of an address than the limit for n threads; and no interval
      of a window's length contains more than one less than twice that. */
  lemma {:induction false} HistoryBounded(l: Limits, now: int, n: nat, steps: seq<Step>, ip: string, from: int)
    requires l.policy.window >= 0 && ValidRun(l, Start(now, n), steps)
    requires Uncrowded(l.policy, Calls(l, Start(now, n), steps, []))
    ensures var times, bound := FailTimes(Calls(l, Start(now, n), steps, []), ip), Q.FailureLimit(l, n);
      && WindowsWithin(l.policy, times, bound)
      && CountInside(l.policy, times, from) <= if bound == 0 then 0 else 2 * bound - 1
  {
    var s, bound := Start(now, n), Q.FailureLimit(l, n);
    var events := Calls(l, s, steps, []);
    Q.LimitedStart(l, now, n);
    assert Limited(l, s);
    var tables := RecordedRun(l, s, steps, [], [map[]]);
    HistoryWithin(l.policy, events, tables, bound, ip);
    FailTimesSorted(events, ip);
    var times := FailTimes(events, ip);
    CountAlwaysFits(l.policy, times, from, bound);
    if times != [] {
      WindowStarts(l.policy, times);
    }
  }
}
