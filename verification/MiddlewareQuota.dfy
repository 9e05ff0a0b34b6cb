/** Both limiters together: failures in one window are bounded by the requests that the request limiter admits. */
module MiddlewareQuota {
  import opened Basics
  import opened MiddlewareThreads
  import opened R = RequestHistory
  import A = AuthLimiters
  import L = RequestLimiters
  import RR = RequestRuns

  /** The call of the request limiter that a step makes, if it makes one. */
  function RateCall(l: Limits, s: State, step: Step): Option<Event> {
    if step.CheckRate? && step.i < |s.threads| && s.threads[step.i].Cleared? then
      var ip := s.threads[step.i].ip;
      Some(Event(ip, s.now, L.Answer(l.quota, L.Lookup(s.windows, ip), s.now)))
    else None
  }

  function More(events: seq<Event>, call: Option<Event>): seq<Event> {
    if call.Some? then events + [call.value] else events
  }

  /** So far the calls are a run of the request limiter, up to the present table. */
  ghost predicate Rated(l: Limits, s: State, events: seq<Event>, tables: seq<L.Table>) {
    && Run(l.quota, events, tables) && tables[|events|] == s.windows && forall e | e in events :: e.at <= s.now
  }

  /** The thread was admitted for this address and may still record a failure. */
  predicate Owes(t: Thread, ip: string) {
    (t.Admitted? || t.Failing?) && t.ip == ip
  }

  function OwesFor(ip: string): Thread -> bool {
    t => Owes(t, ip)
  }

  /** The requests of an address that were allowed at or after a time. */
  function AllowedSince(events: seq<Event>, ip: string, start: int): nat {
    if events == [] then 0
    else
      var last := events[|events| - 1];
      AllowedSince(events[..|events| - 1], ip, start) + Tally(IsAllowed(last, ip) && start <= last.at)
  }

  predicate IsAllowed(e: Event, ip: string) { e.ip == ip && e.retry == 0 }

  function Tally(yes: bool): nat { if yes then 1 else 0 }

  lemma {:induction false} SinceSnoc(events: seq<Event>, e: Event, ip: string, start: int, length: int)
    ensures AllowedSince(events + [e], ip, start)
         == AllowedSince(events, ip, start) + Tally(IsAllowed(e, ip) && start <= e.at)
    ensures AllowedEvents(events + [e], ip, start, length)
         == AllowedEvents(events, ip, start, length) + Tally(IsAllowed(e, ip) && Within(e.at, start, length))
  {
    assert (events + [e])[..|events|] == events;
  }

  /** As long as the interval from the start is not over, it holds all that were allowed since. */
  lemma {:induction false} SinceIsWithin(events: seq<Event>, ip: string, start: int, length: int)
    requires forall e | e in events :: e.at < start + length
    ensures AllowedSince(events, ip, start) == AllowedEvents(events, ip, start, length)
  {
    if events != [] {
      SinceIsWithin(events[..|events| - 1], ip, start, length);
    }
  }

  /** An entry's failures, and those its address may still record, were each admitted: by one of the n threads
      before the window started, or since. */
  ghost predicate PaidFor(l: Limits, n: nat, now: int, e: A.Entry, owing: nat, events: seq<Event>, ip: string) {
    && e.start <= now
    && e.failures + owing <= n + AllowedSince(events, ip, e.start)
    && e.failures <= n + AllowedEvents(events, ip, e.start, l.policy.window + 1)
  }

  ghost predicate Paid(l: Limits, s: State, events: seq<Event>) {
    forall ip | ip in s.failures ::
      PaidFor(l, |s.threads|, s.now, s.failures[ip], Count(s.threads, OwesFor(ip)), events, ip)
  }

  /** Replacing a thread by one that owes for no more addresses than before. */
  lemma {:induction false} PaidUpdate(l: Limits, s: State, i: nat, t: Thread, events: seq<Event>)
    requires Paid(l, s, events) && i < |s.threads|
    requires forall ip: string :: Owes(t, ip) ==> Owes(s.threads[i], ip)
    ensures Paid(l, s.(threads := s.threads[i := t]), events)
  {
    forall ip | ip in s.failures
      ensures PaidFor(l, |s.threads|, s.now, s.failures[ip], Count(s.threads[i := t], OwesFor(ip)), events, ip)
    {
      CountUpdate(s.threads, i, t, OwesFor(ip));
    }
  }

  lemma {:induction false} PaidFewer(l: Limits, s: State, fewer: A.Table, events: seq<Event>)
    requires Paid(l, s, events) && forall ip | ip in fewer :: ip in s.failures && fewer[ip] == s.failures[ip]
    ensures Paid(l, s.(failures := fewer), events)
  {
    forall ip | ip in fewer
      ensures PaidFor(l, |s.threads|, s.now, fewer[ip], Count(s.threads, OwesFor(ip)), events, ip)
    {
      assert PaidFor(l, |s.threads|, s.now, s.failures[ip], Count(s.threads, OwesFor(ip)), events, ip);
    }
  }

  lemma {:induction false} PaidRate(l: Limits, s: State, i: nat, events: seq<Event>)
    requires Paid(l, s, events) && Enabled(l, s, CheckRate(i))
    ensures Paid(l, Apply(l, s, CheckRate(i)), More(events, RateCall(l, s, CheckRate(i))))
  {
    var t, call := Apply(l, s, CheckRate(i)), RateCall(l, s, CheckRate(i)).value;
    forall ip | ip in t.failures
      ensures PaidFor(l, |t.threads|, t.now, t.failures[ip], Count(t.threads, OwesFor(ip)), events + [call], ip)
    {
      assert PaidFor(l, |s.threads|, s.now, s.failures[ip], Count(s.threads, OwesFor(ip)), events, ip);
      CountUpdate(s.threads, i, t.threads[i], OwesFor(ip));
      SinceSnoc(events, call, ip, s.failures[ip].start, l.policy.window + 1);
    }
  }

  /** One failure more in a window, or the first of a new one. */
  lemma {:induction false} PaidBump(l: Limits, s: State, ip: string, owing: nat, events: seq<Event>)
    requires Paid(l, s, events) && l.policy.window >= 0 && 1 + owing == Count(s.threads, OwesFor(ip))
    requires forall e | e in events :: e.at <= s.now
    ensures PaidFor(l, |s.threads|, s.now, A.Bumped(l.policy, s.failures, ip, s.now), owing, events, ip)
  {
    if ip in s.failures && !A.Expired(l.policy, s.failures[ip], s.now) {
      SinceIsWithin(events, ip, s.failures[ip].start, l.policy.window + 1);
    }
  }

  lemma {:induction false} PaidRecord(l: Limits, s: State, i: nat, blocked: bool, after: A.Table, events: seq<Event>)
    requires Paid(l, s, events) && Enabled(l, s, Record(i, blocked, after)) && l.policy.window >= 0
    requires forall e | e in events :: e.at <= s.now
    ensures Paid(l, Apply(l, s, Record(i, blocked, after)), events)
  {
    var t, mine := Apply(l, s, Record(i, blocked, after)), s.threads[i].ip;
    RecordedIs(l.policy, s.failures, mine, s.now, blocked, after);
    forall ip | ip in t.failures
      ensures PaidFor(l, |t.threads|, t.now, t.failures[ip], Count(t.threads, OwesFor(ip)), events, ip)
    {
      CountUpdate(s.threads, i, Idle, OwesFor(ip));
      if ip == mine {
        PaidBump(l, s, mine, Count(t.threads, OwesFor(mine)), events);
      } else {
        assert PaidFor(l, |s.threads|, s.now, s.failures[ip], Count(s.threads, OwesFor(ip)), events, ip);
      }
    }
  }

  lemma RecordedIs(p: A.Policy, m: A.Table, ip: string, now: int, blocked: bool, after: A.Table)
    requires A.Records(p, m, ip, now, blocked, after)
    ensures forall k | k in after :: if k == ip then after[k] == A.Bumped(p, m, ip, now) else k in m && after[k] == m[k]
  {
  }

  lemma {:induction false} PaidStep(l: Limits, s: State, step: Step, events: seq<Event>)
    requires Paid(l, s, events) && Enabled(l, s, step) && l.policy.window >= 0
    requires forall e | e in events :: e.at <= s.now
    ensures Paid(l, Apply(l, s, step), More(events, RateCall(l, s, step)))
  {
    match step
    case Tick(_) =>
      var later := Apply(l, s, step).now;
      forall ip | ip in s.failures
        ensures PaidFor(l, |s.threads|, later, s.failures[ip], Count(s.threads, OwesFor(ip)), events, ip)
      {
      }
    case Begin(i, ip, valid) => PaidUpdate(l, s, i, Arrived(ip, valid), events);
    case CheckBlock(i) =>
      var t := Apply(l, s, step);
      PaidFewer(l, s, t.failures, events);
      PaidUpdate(l, s.(failures := t.failures), i, t.threads[i], events);
    case CheckRate(i) => PaidRate(l, s, i, events);
    case CheckToken(i) => PaidUpdate(l, s, i, Apply(l, s, step).threads[i], events);
    case Record(i, blocked, after) => PaidRecord(l, s, i, blocked, after, events);
  }

  lemma {:induction false} RatedStep(l: Limits, s: State, step: Step, events: seq<Event>, tables: seq<L.Table>)
    returns (longer: seq<L.Table>)
    requires Enabled(l, s, step) && Rated(l, s, events, tables)
    ensures Rated(l, Apply(l, s, step), More(events, RateCall(l, s, step)), longer)
  {
    longer := tables;
    if step.CheckRate? {
      RR.RunSnoc(l.quota, events, tables, RateCall(l, s, step).value);
      longer := tables + [Apply(l, s, step).windows];
    }
  }

  // ---------------------------------------------------------------- the limit

  /** Without threads, or with a quota of zero, nobody is ever admitted. */
  predicate Closed(l: Limits, n: nat) { l.quota.maxRpm == 0 || n == 0 }

  predicate Shut(s: State) {
    s.failures == map[] && forall t | t in s.threads :: !t.Admitted? && !t.Failing?
  }

  lemma {:induction false} ShutStep(l: Limits, s: State, step: Step)
    requires Shut(s) && Enabled(l, s, step) && Closed(l, |s.threads|)
    ensures Shut(Apply(l, s, step))
  {
    var t := Apply(l, s, step);
    forall i: nat | i < |t.threads|
      ensures !t.threads[i].Admitted? && !t.threads[i].Failing?
    {
      assert s.threads[i] in s.threads;
    }
  }

  /** What n threads can make an address fail in one window: max_failures and one each, or one each and as many as
      the request limiter admits in that time. */
  function FailureLimit(l: Limits, n: nat): nat
    requires l.policy.window >= 0
  {
    if Closed(l, n) then 0 else n + Min(l.policy.maxFailures, Capacity(l.quota, l.policy.window + 1))
  }

  /** The limit is max_failures + n exactly when the request limiter admits max_failures requests in a window of
      failures, and so whenever its quota for a minute is that large. */
  lemma FullLimit(l: Limits, n: nat)
    requires l.policy.window >= 0 && !Closed(l, n)
    ensures FailureLimit(l, n) == l.policy.maxFailures + n <==>
      l.policy.maxFailures <= Capacity(l.quota, l.policy.window + 1)
    ensures l.policy.maxFailures <= l.quota.maxRpm ==> FailureLimit(l, n) == l.policy.maxFailures + n
  {
    RoomGrows(l.quota, 0, l.policy.window);
  }

  /** What both limiters keep. */
  ghost predicate Limited(l: Limits, s: State, events: seq<Event>, tables: seq<L.Table>) {
    Bounded(l, s) && Paid(l, s, events) && Rated(l, s, events, tables) && (Closed(l, |s.threads|) ==> Shut(s))
  }

  lemma {:induction false} LimitedStart(l: Limits, now: int, n: nat)
    ensures Limited(l, Start(now, n), [], [map[]])
  {
  }

  lemma {:induction false} LimitedStep(l: Limits, s: State, step: Step, events: seq<Event>, tables: seq<L.Table>)
    returns (longer: seq<L.Table>)
    requires Enabled(l, s, step) && Limited(l, s, events, tables) && l.policy.window >= 0
    ensures Limited(l, Apply(l, s, step), More(events, RateCall(l, s, step)), longer)
    ensures |Apply(l, s, step).threads| == |s.threads|
  {
    BoundedStep(l, s, step);
    PaidStep(l, s, step, events);
    longer := RatedStep(l, s, step, events, tables);
    if Closed(l, |s.threads|) {
      ShutStep(l, s, step);
    }
  }

  lemma {:induction false} LimitedTable(l: Limits, s: State, events: seq<Event>, tables: seq<L.Table>, ip: string)
    requires Limited(l, s, events, tables) && l.policy.window >= 0 && ip in s.failures
    ensures s.failures[ip].failures <= FailureLimit(l, |s.threads|)
  {
    assert PaidFor(l, |s.threads|, s.now, s.failures[ip], Count(s.threads, OwesFor(ip)), events, ip);
    RR.LimiterThroughput(l.quota, events, tables, ip, s.failures[ip].start, l.policy.window + 1);
  }

  lemma {:induction false} LimitedRun(l: Limits, s: State, steps: seq<Step>, events: seq<Event>, tables: seq<L.Table>)
    returns (all: seq<Event>, longer: seq<L.Table>)
    requires ValidRun(l, s, steps) && Limited(l, s, events, tables) && l.policy.window >= 0
    ensures Limited(l, Exec(l, s, steps), all, longer) && |Exec(l, s, steps).threads| == |s.threads|
    decreases steps
  {
    if steps == [] {
      all, longer := events, tables;
    } else {
      var more := LimitedStep(l, s, steps[0], events, tables);
      all, longer := LimitedRun(l, Apply(l, s, steps[0]), steps[1..], More(events, RateCall(l, s, steps[0])), more);
    }
  }

  /** The bound by both limiters: with n threads, no count of failures in a window exceeds n and the smaller of
      max_failures and what the request limiter admits in a window. */
  lemma {:induction false} FailuresLimited(l: Limits, now: int, n: nat, steps: seq<Step>, ip: string)
    requires l.policy.window >= 0 && ValidRun(l, Start(now, n), steps)
    requires ip in Exec(l, Start(now, n), steps).failures
    ensures Exec(l, Start(now, n), steps).failures[ip].failures <= FailureLimit(l, n)
  {
    LimitedStart(l, now, n);
    var all, longer := LimitedRun(l, Start(now, n), steps, [], [map[]]);
    LimitedTable(l, Exec(l, Start(now, n), steps), all, longer, ip);
  }
}
