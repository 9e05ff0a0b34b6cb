/** The failure limiter against the history of failures: what a call answers, over every run.

    The reference keeps, for each address, the times of all its failures, and forgets nothing.
 */
module AuthHistory {
  import opened Basics
  import opened AuthLimiters

  datatype Event =
    | Failure(ip: string, at: int, blocked: bool)  // check_and_record_failure and its answer
    | Query(ip: string, at: int, blocked: bool)    // is_blocked and its answer

  ghost predicate Does(p: Policy, m: Table, event: Event, after: Table) {
    match event
    case Failure(ip, at, blocked) => Records(p, m, ip, at, blocked, after)
    case Query(ip, at, blocked) => blocked == Blocks(p, m, ip, at) && after == Queried(p, m, ip, at)
  }

  /** A run: the calls on a fresh limiter in order, with the table before and after each of them. */
  ghost predicate Run(p: Policy, events: seq<Event>, tables: seq<Table>) {
    && |tables| == |events| + 1 && tables[0] == map[]
    && (forall i | 0 <= i < |events| :: Does(p, tables[i], events[i], tables[i + 1]))
    && (forall i, j | 0 <= i < j < |events| :: events[i].at <= events[j].at)
  }

  /** The times of the failures recorded for one address. */
  function FailTimes(events: seq<Event>, ip: string): seq<int> {
    if events == [] then []
    else
      var last, before := events[|events| - 1], FailTimes(events[..|events| - 1], ip);
      if last.Failure? && last.ip == ip then before + [last.at] else before
  }

  /** The window that a list of failure times is in: it opens with a failure and is followed by a new one
      with the first failure after it has expired. */
  function WindowOf(p: Policy, times: seq<int>): Option<Entry> {
    if times == [] then None
    else
      var before, t := WindowOf(p, times[..|times| - 1]), times[|times| - 1];
      if before.Some? && !Expired(p, before.value, t) then Some(Entry(before.value.failures + 1, before.value.start))
      else Some(Entry(1, t))
  }

  predicate Open(p: Policy, window: Option<Entry>, now: int) {
    window.Some? && !Expired(p, window.value, now)
  }

  /** What the reference answers to is_blocked. */
  predicate OverLimit(p: Policy, times: seq<int>, now: int) {
    Open(p, WindowOf(p, times), now) && WindowOf(p, times).value.failures > p.maxFailures
  }

  lemma {:induction false} WindowSnoc(p: Policy, times: seq<int>, t: int)
    ensures WindowOf(p, times + [t])
         == (if Open(p, WindowOf(p, times), t)
             then Some(Entry(WindowOf(p, times).value.failures + 1, WindowOf(p, times).value.start))
             else Some(Entry(1, t)))
  {
    assert (times + [t])[..|times|] == times;
  }

  // ---------------------------------------------------------------- eviction is unobservable

  /** The addresses with an open window at time now. */
  function OpenIps(p: Policy, events: seq<Event>, now: int): set<string> {
    set e | e in events && Open(p, WindowOf(p, FailTimes(events, e.ip)), now) :: e.ip
  }

  /** The table never had to drop an open window: without a cap, or because no failure left more of them
      than the cap allows. */
  ghost predicate Uncrowded(p: Policy, events: seq<Event>) {
    p.cap == 0 ||
    forall n {:trigger events[..n]} | 0 < n <= |events| :: |OpenIps(p, events[..n], events[n - 1].at)| <= p.cap
  }

  /** Table and history agree on every open window. */
  ghost predicate Mirrors(p: Policy, m: Table, events: seq<Event>, now: int) {
    forall ip: string :: MirrorsIp(p, m, FailTimes(events, ip), ip, now)
  }

  predicate MirrorsIp(p: Policy, m: Table, times: seq<int>, ip: string, now: int) {
    var window := WindowOf(p, times);
    && (Open(p, window, now) <==> ip in m && !Expired(p, m[ip], now))
    && (Open(p, window, now) ==> m[ip] == window.value)
  }

  lemma {:induction false} UnknownIp(events: seq<Event>, ip: string)
    requires forall e | e in events :: e.ip != ip
    ensures FailTimes(events, ip) == []
  {
    if events != [] {
      UnknownIp(events[..|events| - 1], ip);
    }
  }

  /** With table and history in agreement, the live part of the table has one entry per open window. */
  lemma LiveKeys(p: Policy, m: Table, events: seq<Event>, now: int)
    requires Mirrors(p, m, events, now)
    ensures Live(p, m, now).Keys == OpenIps(p, events, now)
  {
    forall ip: string
      ensures ip in Live(p, m, now) <==> ip in OpenIps(p, events, now)
    {
      assert MirrorsIp(p, m, FailTimes(events, ip), ip, now);
      if forall e | e in events :: e.ip != ip {
        UnknownIp(events, ip);
      } else {
        var e :| e in events && e.ip == ip;
      }
    }
  }

  lemma RecordedMirrors(p: Policy, m: Table, events: seq<Event>, event: Event)
    requires event.Failure? && Mirrors(p, m, events, event.at)
    ensures Mirrors(p, Recorded(p, m, event.ip, event.at), events + [event], event.at)
  {
    var all := events + [event];
    assert all[..|events|] == events;
    forall ip: string
      ensures MirrorsIp(p, Recorded(p, m, event.ip, event.at), FailTimes(all, ip), ip, event.at)
    {
      assert MirrorsIp(p, m, FailTimes(events, ip), ip, event.at);
      if ip == event.ip {
        WindowSnoc(p, FailTimes(events, ip), event.at);
      }
    }
  }

  /** Evicting from a table whose live part fits under the cap drops expired entries only. */
  lemma EvictionKeepsLive(p: Policy, before: Table, after: Table, now: int)
    requires Evicts(p, before, after, now) && |Live(p, before, now)| <= p.cap
    ensures after == Live(p, before, now)
  {
    SubsetSize(after.Keys, Live(p, before, now).Keys);
  }

  lemma LiveMirrors(p: Policy, m: Table, events: seq<Event>, now: int)
    requires Mirrors(p, m, events, now)
    ensures Mirrors(p, Live(p, m, now), events, now)
  {
    forall ip: string
      ensures MirrorsIp(p, Live(p, m, now), FailTimes(events, ip), ip, now)
    {
      assert MirrorsIp(p, m, FailTimes(events, ip), ip, now);
    }
  }

  /** Time passes for table and history alike. */
  lemma MirrorsLater(p: Policy, m: Table, events: seq<Event>, now: int, later: int)
    requires Mirrors(p, m, events, now) && now <= later
    ensures Mirrors(p, m, events, later)
  {
    forall ip: string
      ensures MirrorsIp(p, m, FailTimes(events, ip), ip, later)
    {
      assert MirrorsIp(p, m, FailTimes(events, ip), ip, now);
      FreshOrDead(p, m, FailTimes(events, ip), ip, now, later);
    }
  }

  lemma FreshOrDead(p: Policy, m: Table, times: seq<int>, ip: string, now: int, later: int)
    requires MirrorsIp(p, m, times, ip, now) && now <= later
    ensures MirrorsIp(p, m, times, ip, later)
  {
  }

  lemma FailureMirrors(p: Policy, m: Table, events: seq<Event>, event: Event, after: Table)
    requires event.Failure? && Mirrors(p, m, events, event.at)
    requires Does(p, m, event, after)
    requires p.cap == 0 || |OpenIps(p, events + [event], event.at)| <= p.cap
    ensures Mirrors(p, after, events + [event], event.at)
  {
    var r := Recorded(p, m, event.ip, event.at);
    RecordedMirrors(p, m, events, event);
    if p.cap > 0 && |r| > p.cap {
      LiveKeys(p, r, events + [event], event.at);
      EvictionKeepsLive(p, r, after, event.at);
      LiveMirrors(p, r, events + [event], event.at);
    }
  }

  lemma QueryMirrors(p: Policy, m: Table, events: seq<Event>, event: Event, after: Table)
    requires event.Query? && Mirrors(p, m, events, event.at)
    requires Does(p, m, event, after)
    ensures Mirrors(p, after, events + [event], event.at)
  {
    var all := events + [event];
    assert all[..|events|] == events;
    forall ip: string
      ensures MirrorsIp(p, after, FailTimes(all, ip), ip, event.at)
    {
      assert MirrorsIp(p, m, FailTimes(events, ip), ip, event.at);
    }
  }

  /** A time no earlier than any event of the run. */
  predicate After(events: seq<Event>, now: int) {
    events == [] || events[|events| - 1].at <= now
  }

  lemma {:induction false} RunMirrors(p: Policy, events: seq<Event>, tables: seq<Table>, now: int)
    requires Run(p, events, tables) && Uncrowded(p, events) && After(events, now)
    ensures Mirrors(p, tables[|events|], events, now)
    decreases |events|
  {
    var n := |events|;
    if n == 0 {
      forall ip: string
        ensures MirrorsIp(p, tables[0], FailTimes(events, ip), ip, now)
      {
      }
    } else {
      var shorter, event := events[..n - 1], events[n - 1];
      RunUpTo(p, events, tables, n - 1);
      UncrowdedUpTo(p, events, n - 1);
      UncrowdedUpTo(p, events, n);
      assert events[..n] == events;
      RunMirrors(p, shorter, tables[..n], event.at);
      assert Does(p, tables[n - 1], event, tables[n]);
      assert shorter + [event] == events;
      if event.Failure? {
        FailureMirrors(p, tables[n - 1], shorter, event, tables[n]);
      } else {
        QueryMirrors(p, tables[n - 1], shorter, event, tables[n]);
      }
      MirrorsLater(p, tables[n], events, event.at, now);
    }
  }

  /** The answer that the reference gives to an event, from the history before it. */
  predicate ReferenceAnswer(p: Policy, events: seq<Event>, event: Event) {
    match event
    case Failure(ip, at, _) => OverLimit(p, FailTimes(events, ip) + [at], at)
    case Query(ip, at, _) => OverLimit(p, FailTimes(events, ip), at)
  }

  /** A call on a table that mirrors the history answers as the reference does. */
  lemma AnswerMatches(p: Policy, m: Table, events: seq<Event>, event: Event, after: Table)
    requires Mirrors(p, m, events, event.at) && Does(p, m, event, after) && p.window >= 0
    ensures event.blocked == ReferenceAnswer(p, events, event)
  {
    assert MirrorsIp(p, m, FailTimes(events, event.ip), event.ip, event.at);
    WindowSnoc(p, FailTimes(events, event.ip), event.at);
  }

  /** The part of a run before event i is a run, and so is the part up to and with it. */
  lemma RunUpTo(p: Policy, events: seq<Event>, tables: seq<Table>, n: nat)
    requires Run(p, events, tables) && n <= |events|
    ensures Run(p, events[..n], tables[..n + 1])
  {
    var shorter, fewer := events[..n], tables[..n + 1];
    forall i | 0 <= i < n
      ensures Does(p, fewer[i], shorter[i], fewer[i + 1])
    {
      assert Does(p, tables[i], events[i], tables[i + 1]);
    }
  }

  lemma UncrowdedUpTo(p: Policy, events: seq<Event>, n: nat)
    requires Uncrowded(p, events) && n <= |events|
    ensures Uncrowded(p, events[..n])
    ensures n > 0 && p.cap > 0 ==> |OpenIps(p, events[..n], events[n - 1].at)| <= p.cap
  {
    var shorter := events[..n];
    forall k | 0 < k <= n && p.cap != 0
      ensures |OpenIps(p, shorter[..k], shorter[k - 1].at)| <= p.cap
    {
      assert shorter[..k] == events[..k];
    }
  }

  /** Erasing and evicting are unobservable: as long as no more than cap windows are open at once, every
      answer is that of the history that forgets nothing. */
  lemma AnswersMatchHistory(p: Policy, events: seq<Event>, tables: seq<Table>, i: nat)
    requires Run(p, events, tables) && Uncrowded(p, events) && p.window >= 0
    requires i < |events|
    ensures events[i].blocked == ReferenceAnswer(p, events[..i], events[i])
  {
    RunUpTo(p, events, tables, i);
    UncrowdedUpTo(p, events, i);
    RunMirrors(p, events[..i], tables[..i + 1], events[i].at);
    assert Does(p, tables[i], events[i], tables[i + 1]);
    AnswerMatches(p, tables[i], events[..i], events[i], tables[i + 1]);
  }

  /** The events of one address. */
  function Only(events: seq<Event>, ip: string): seq<Event> {
    if events == [] then []
    else
      var last, before := events[|events| - 1], Only(events[..|events| - 1], ip);
      if last.ip == ip then before + [last] else before
  }

  lemma {:induction false} OnlyKeepsTimes(events: seq<Event>, ip: string)
    ensures FailTimes(Only(events, ip), ip) == FailTimes(events, ip)
  {
    if events != [] {
      var shorter, last := events[..|events| - 1], events[|events| - 1];
      OnlyKeepsTimes(shorter, ip);
      if last.ip == ip {
        var only := Only(shorter, ip);
        assert (only + [last])[..|only|] == only;
      }
    }
  }

  /** Addresses do not affect each other: the answer depends on the caller's own events alone. */
  lemma AddressesAreIndependent(p: Policy, events: seq<Event>, tables: seq<Table>, i: nat)
    requires Run(p, events, tables) && Uncrowded(p, events) && p.window >= 0
    requires i < |events|
    ensures events[i].blocked == ReferenceAnswer(p, Only(events[..i], events[i].ip), events[i])
  {
    AnswersMatchHistory(p, events, tables, i);
    OnlyKeepsTimes(events[..i], events[i].ip);
  }

  lemma {:induction false} FailTimesSnoc(events: seq<Event>, event: Event, ip: string)
    ensures FailTimes(events + [event], ip)
         == (if event.Failure? && event.ip == ip then FailTimes(events, ip) + [event.at] else FailTimes(events, ip))
  {
    assert (events + [event])[..|events|] == events;
  }

  // ---------------------------------------------------------------- every block is justified

  /** How many failures of an address were recorded at or after a time. */
  function FailuresSince(events: seq<Event>, ip: string, start: int): nat {
    CountSince(FailTimes(events, ip), start)
  }

  /** Every entry counts failures that did happen, since its window opened. */
  ghost predicate Backed(m: Table, events: seq<Event>, now: int) {
    forall ip | ip in m :: m[ip].start <= now && m[ip].failures <= CountSince(FailTimes(events, ip), m[ip].start)
  }

  lemma RecordedBacked(p: Policy, m: Table, events: seq<Event>, event: Event)
    requires event.Failure? && Backed(m, events, event.at)
    ensures Backed(Recorded(p, m, event.ip, event.at), events + [event], event.at)
  {
    var all := events + [event];
    assert all[..|events|] == events;
    var r := Recorded(p, m, event.ip, event.at);
    forall ip | ip in r
      ensures r[ip].start <= event.at && r[ip].failures <= CountSince(FailTimes(all, ip), r[ip].start)
    {
      if ip == event.ip {
        CountSinceSnoc(FailTimes(events, ip), event.at, r[ip].start);
      }
    }
  }

  lemma BackedStep(p: Policy, m: Table, events: seq<Event>, event: Event, after: Table)
    requires Backed(m, events, event.at) && Does(p, m, event, after)
    ensures Backed(after, events + [event], event.at)
  {
    assert (events + [event])[..|events|] == events;
    if event.Failure? {
      RecordedBacked(p, m, events, event);
    } else {
      forall ip | ip in after
        ensures FailTimes(events + [event], ip) == FailTimes(events, ip)
      {
      }
    }
  }

  lemma {:induction false} RunBacked(p: Policy, events: seq<Event>, tables: seq<Table>, n: nat)
    requires Run(p, events, tables) && n < |events|
    ensures Backed(tables[n], events[..n], events[n].at)
  {
    if n > 0 {
      RunBacked(p, events, tables, n - 1);
      assert Does(p, tables[n - 1], events[n - 1], tables[n]);
      BackedStep(p, tables[n - 1], events[..n - 1], events[n - 1], tables[n]);
      assert events[..n - 1] + [events[n - 1]] == events[..n];
      BackedLater(tables[n], events[..n], events[n - 1].at, events[n].at);
    }
  }

  lemma BackedLater(m: Table, events: seq<Event>, now: int, later: int)
    requires Backed(m, events, now) && now <= later
    ensures Backed(m, events, later)
  {
  }

  /** An unexpired entry over the limit, if the failures it counts were recorded since its start. */
  lemma OverLimitIsBacked(p: Policy, e: Entry, times: seq<int>, now: int)
    requires e.failures <= CountSince(times, e.start) && !Expired(p, e, now) && e.failures > p.maxFailures
    ensures CountSince(times, now - p.window) > p.maxFailures
  {
    CountSinceEarlier(times, e.start, now - p.window);
  }

  lemma FailureBlocks(p: Policy, m: Table, event: Event, after: Table)
    requires event.Failure? && Does(p, m, event, after) && event.blocked && p.window >= 0
    ensures Blocks(p, Recorded(p, m, event.ip, event.at), event.ip, event.at)
  {
  }

  lemma FailureIsBacked(p: Policy, m: Table, events: seq<Event>, event: Event)
    requires event.Failure? && Backed(m, events, event.at)
    requires Blocks(p, Recorded(p, m, event.ip, event.at), event.ip, event.at)
    ensures FailuresSince(events + [event], event.ip, event.at - p.window) > p.maxFailures
  {
    RecordedBacked(p, m, events, event);
    OverLimitIsBacked(p, Bumped(p, m, event.ip, event.at), FailTimes(events + [event], event.ip), event.at);
  }

  lemma QueryIsBacked(p: Policy, m: Table, events: seq<Event>, event: Event)
    requires event.Query? && Backed(m, events, event.at) && Blocks(p, m, event.ip, event.at)
    ensures FailuresSince(events + [event], event.ip, event.at - p.window) > p.maxFailures
  {
    OverLimitIsBacked(p, m[event.ip], FailTimes(events, event.ip), event.at);
    FailTimesSnoc(events, event, event.ip);
  }

  lemma BlockIsBacked(p: Policy, m: Table, events: seq<Event>, event: Event, after: Table)
    requires Backed(m, events, event.at) && Does(p, m, event, after) && p.window >= 0 && event.blocked
    ensures FailuresSince(events + [event], event.ip, event.at - p.window) > p.maxFailures
  {
    if event.Failure? {
      FailureBlocks(p, m, event, after);
      FailureIsBacked(p, m, events, event);
    } else {
      QueryIsBacked(p, m, events, event);
    }
  }

  lemma {:induction false} CallIsBacked(p: Policy, events: seq<Event>, tables: seq<Table>,
                                        before: seq<Event>, event: Event)
    requires Run(p, events, tables) && p.window >= 0 && |before| < |events|
    requires before == events[..|before|] && event == events[|before|] && event.blocked
    ensures FailuresSince(before + [event], event.ip, event.at - p.window) > p.maxFailures
  {
    var i := |before|;
    RunBacked(p, events, tables, i);
    assert Does(p, tables[i], event, tables[i + 1]);
    BlockIsBacked(p, tables[i], before, event, tables[i + 1]);
  }

  /** A block is never a mistake: whenever a call answers blocked at time t, whatever was erased or evicted,
      more than max_failures failures of that address were recorded in [t - window, t]. */
  lemma {:induction false} BlocksAreJustified(p: Policy, events: seq<Event>, tables: seq<Table>, i: nat)
    requires Run(p, events, tables) && p.window >= 0 && i < |events| && events[i].blocked
    ensures FailuresSince(events[..i + 1], events[i].ip, events[i].at - p.window) > p.maxFailures
    ensures forall k | 0 <= k <= i :: events[k].at <= events[i].at
  {
    var event := events[i];
    CallIsBacked(p, events, tables, events[..i], event);
    assert events[..i + 1] == events[..i] + [event];
  }

  // ---------------------------------------------------------------- eviction

  lemma BoundedStep(p: Policy, m: Table, event: Event, after: Table)
    requires p.cap > 0 && |m| <= p.cap && Does(p, m, event, after)
    ensures |after| <= p.cap
  {
    if event.Query? && after != m {
      assert m.Keys == after.Keys + {event.ip};
    }
  }

  /** The table never outgrows a positive cap. */
  lemma {:induction false} TableIsCapped(p: Policy, events: seq<Event>, tables: seq<Table>, i: nat)
    requires Run(p, events, tables) && p.cap > 0 && i < |tables|
    ensures |tables[i]| <= p.cap
    decreases i
  {
    if i > 0 {
      TableIsCapped(p, events, tables, i - 1);
      assert Does(p, tables[i - 1], events[i - 1], tables[i]);
      BoundedStep(p, tables[i - 1], events[i - 1], tables[i]);
    }
  }

  lemma RestSize<T>(part: set<T>, all: set<T>)
    requires part <= all
    ensures |all - part| == |all| - |part|
  {
    assert all == part + (all - part);
  }

  lemma {:induction false} EvictionDropsOne(p: Policy, before: Table, after: Table, now: int)
    requires Evicts(p, before, after, now) && |before| <= p.cap + 1
    ensures |Live(p, before, now).Keys - after.Keys| <= 1
  {
    var live := Live(p, before, now).Keys;
    SubsetSize(live, before.Keys);
    RestSize(after.Keys, live);
    assert |live| == |Live(p, before, now)| && |after.Keys| == |after|;
  }

  /** From a table within the cap, recording a failure drops at most one unexpired entry. */
  lemma AtMostOneLiveEntryGoes(p: Policy, m: Table, ip: string, now: int, blocked: bool, after: Table)
    requires p.cap > 0 && |m| <= p.cap && Records(p, m, ip, now, blocked, after)
    ensures |Live(p, Recorded(p, m, ip, now), now).Keys - after.Keys| <= 1
  {
    var r := Recorded(p, m, ip, now);
    assert r.Keys == m.Keys + {ip};
    if |r| > p.cap {
      EvictionDropsOne(p, r, after, now);
    } else {
      assert Live(p, r, now).Keys - after.Keys == {};
    }
  }

  lemma {:induction false} NewcomerGoes(p: Policy, m: Table, ip: string, now: int, blocked: bool, after: Table)
    requires p.cap > 0 && |m| <= p.cap && p.window >= 0
    requires forall k | k in m :: m[k].start <= now
    requires Records(p, m, ip, now, blocked, after)
    ensures ip in after || (ip !in m && |m| == p.cap && forall k | k in m :: m[k].start >= now)
  {
    var r := Recorded(p, m, ip, now);
    var live := Live(p, r, now);
    assert r.Keys == m.Keys + {ip} && ip in live;
    if ip in m {
      assert r.Keys == m.Keys;
    } else if ip !in after {
      SubsetSize(live.Keys, r.Keys);
      SubsetSize(after.Keys, live.Keys);
      SubsetSize(after.Keys, live.Keys - {ip});
      assert live.Keys == (live.Keys - {ip}) + {ip};
      SubsetSize(live.Keys - {ip}, m.Keys);
      assert after.Keys == m.Keys;
    }
  }

  lemma {:induction false} NewcomerCanGo(p: Policy, m: Table, ip: string, now: int)
    requires p.cap > 0 && |m| == p.cap && p.window >= 0 && ip !in m
    requires forall k | k in m :: m[k].start == now
    ensures exists blocked :: Records(p, m, ip, now, blocked, m)
  {
    var r := Recorded(p, m, ip, now);
    assert r.Keys == m.Keys + {ip};
    assert Live(p, r, now) == r;
    assert Records(p, m, ip, now, r[ip].failures > p.maxFailures, m);
  }

  /** The address just recorded survives every possible eviction exactly when it was known, or there was
      room, or some other entry is older; in particular whenever the clock has moved on since the others. */
  lemma {:induction false} NewcomerSurvives(p: Policy, m: Table, ip: string, now: int)
    requires p.cap > 0 && |m| <= p.cap && p.window >= 0
    requires forall k | k in m :: m[k].start <= now
    ensures (forall blocked, after | Records(p, m, ip, now, blocked, after) :: ip in after)
       <==> (ip in m || |m| < p.cap || exists k :: k in m && m[k].start < now)
  {
    forall blocked, after | Records(p, m, ip, now, blocked, after)
      ensures ip in after || (ip !in m && |m| == p.cap && forall k | k in m :: m[k].start >= now)
    {
      NewcomerGoes(p, m, ip, now, blocked, after);
    }
    if ip !in m && |m| == p.cap && (forall k | k in m :: m[k].start >= now) {
      NewcomerCanGo(p, m, ip, now);
    }
  }
}
