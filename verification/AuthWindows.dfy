/** The failure limiter's fixed windows against the sliding window that is documented. */
module AuthWindows {
  import opened Basics
  import opened AuthLimiters
  import opened AuthHistory
  import opened AuthCrowding

  /** Sorted times, none of them after now. */
  predicate UpTo(times: seq<int>, now: int) {
    Sorted(times) && (times != [] ==> times[|times| - 1] <= now)
  }

  /** The sliding window: more than max_failures failures in [now - window, now]. */
  predicate SlidingBlocks(p: Policy, times: seq<int>, now: int) {
    CountSince(times, now - p.window) > p.maxFailures
  }

  lemma {:induction false} NoneSince(times: seq<int>, start: int)
    requires Sorted(times) && (times != [] ==> times[|times| - 1] < start)
    ensures CountSince(times, start) == 0
  {
    if times != [] {
      NoneSince(times[..|times| - 1], start);
    }
  }

  /** With a window of no length the failures of one instant are counted, and all of them. */
  lemma {:induction false} InstantWindow(p: Policy, times: seq<int>)
    requires p.window == 0 && Sorted(times) && times != []
    ensures var last := times[|times| - 1]; WindowOf(p, times) == Some(Entry(CountSince(times, last), last))
  {
    var before, last := times[..|times| - 1], times[|times| - 1];
    if before != [] {
      InstantWindow(p, before);
      if before[|before| - 1] < last {
        NoneSince(before, last);
      }
    }
  }

  lemma {:induction false} InstantIsExact(p: Policy, times: seq<int>, now: int)
    requires p.window == 0 && UpTo(times, now)
    ensures OverLimit(p, times, now) <==> SlidingBlocks(p, times, now)
  {
    if times != [] {
      InstantWindow(p, times);
      if times[|times| - 1] < now {
        NoneSince(times, now);
      }
    }
  }

  // ---------------------------------------------------------------- failures that a fixed window forgets

  function Repeat(t: int, k: nat): seq<int> {
    seq(k, _ => t)
  }

  /** One failure at 0 and k more just before the window that it opened is over. */
  function Straddling(p: Policy, k: nat): seq<int> {
    [0] + Repeat(p.window, k)
  }

  lemma {:induction false} StraddlingSnoc(p: Policy, k: nat)
    requires k > 0
    ensures Straddling(p, k) == Straddling(p, k - 1) + [p.window]
  {
  }

  lemma {:induction false} StraddlingWindow(p: Policy, k: nat)
    requires p.window >= 1
    ensures WindowOf(p, Straddling(p, k)) == Some(Entry(k + 1, 0))
    ensures CountSince(Straddling(p, k), 1) == k
  {
    if k == 0 {
      assert Straddling(p, 0) == [] + [0];
      WindowSnoc(p, [], 0);
      CountSinceSnoc([], 0, 1);
    } else {
      StraddlingWindow(p, k - 1);
      StraddlingSnoc(p, k);
      WindowSnoc(p, Straddling(p, k - 1), p.window);
      CountSinceSnoc(Straddling(p, k - 1), p.window, 1);
    }
  }

  lemma StraddlingUpTo(p: Policy, k: nat)
    requires p.window >= 0
    ensures UpTo(Straddling(p, k), p.window + 1)
  {
  }

  /** One tick after the window is over, all but the first of these failures lie in the last window's length, and
      the history does not block. */
  lemma {:induction false} StraddlingGoesFree(p: Policy)
    requires p.window >= 1
    ensures var times := Straddling(p, p.maxFailures + 1);
      && UpTo(times, p.window + 1) && !OverLimit(p, times, p.window + 1) && SlidingBlocks(p, times, p.window + 1)
  {
    StraddlingWindow(p, p.maxFailures + 1);
    StraddlingUpTo(p, p.maxFailures + 1);
  }

  /** The documented sliding window is what the history of windows keeps exactly for a window of no length, which
      no configuration has. */
  lemma {:induction false} SlidingWindowOnlyForInstants(p: Policy)
    requires p.window >= 0
    ensures (forall times, now | UpTo(times, now) :: OverLimit(p, times, now) <==> SlidingBlocks(p, times, now))
       <==> p.window == 0
  {
    if p.window == 0 {
      forall times, now | UpTo(times, now)
        ensures OverLimit(p, times, now) <==> SlidingBlocks(p, times, now)
      {
        InstantIsExact(p, times, now);
      }
    } else {
      StraddlingGoesFree(p);
    }
  }

  // ---------------------------------------------------------------- the same for runs of the limiter

  /** All events concern one address. */
  predicate OnlyAbout(events: seq<Event>, ip: string) {
    forall e | e in events :: e.ip == ip
  }

  /** One address alone never crowds the table. */
  lemma {:induction false} AloneIsUncrowded(p: Policy, events: seq<Event>, ip: string)
    requires OnlyAbout(events, ip)
    ensures Uncrowded(p, events)
  {
    forall n {:trigger events[..n]} | 0 < n <= |events| && p.cap > 0
      ensures |OpenIps(p, events[..n], events[n - 1].at)| <= p.cap
    {
      assert OpenIps(p, events[..n], events[n - 1].at) <= {ip};
      SubsetSize(OpenIps(p, events[..n], events[n - 1].at), {ip});
    }
  }

  /** Failures of one address at any times make a run. */
  lemma {:induction false} RunOf(p: Policy, times: seq<int>, ip: string)
    returns (events: seq<Event>, tables: seq<Table>)
    requires Sorted(times)
    ensures Run(p, events, tables) && FailTimes(events, ip) == times && OnlyAbout(events, ip)
    ensures events != [] ==> times != [] && events[|events| - 1].at == times[|times| - 1]
  {
    if times == [] {
      events, tables := [], [map[]];
    } else {
      var earlier, t := times[..|times| - 1], times[|times| - 1];
      var before, fewer := RunOf(p, earlier, ip);
      events, tables := OneFailureMore(p, before, fewer, ip, t);
      assert times == earlier + [t];
    }
  }

  lemma {:induction false} OneFailureMore(p: Policy, before: seq<Event>, fewer: seq<Table>, ip: string, t: int)
    returns (events: seq<Event>, tables: seq<Table>)
    requires Run(p, before, fewer) && OnlyAbout(before, ip) && After(before, t)
    ensures Run(p, events, tables) && FailTimes(events, ip) == FailTimes(before, ip) + [t] && OnlyAbout(events, ip)
    ensures events != [] && events[|events| - 1].at == t
  {
    var blocked, after := FailureCanBeRecorded(p, fewer[|before|], ip, t);
    var event := Failure(ip, t, blocked);
    RunSnoc(p, before, fewer, event, after);
    FailTimesSnoc(before, event, ip);
    events, tables := before + [event], fewer + [after];
  }

  /** A query after a run about one address is answered as the history answers. */
  lemma {:induction false} AskAlone(p: Policy, events: seq<Event>, tables: seq<Table>, query: Event)
    requires Run(p, events, tables) && OnlyAbout(events, query.ip) && p.window >= 0
    requires query.Query? && After(events, query.at) && query.blocked == Blocks(p, tables[|events|], query.ip, query.at)
    ensures Run(p, events + [query], tables + [Queried(p, tables[|events|], query.ip, query.at)])
    ensures query.blocked == OverLimit(p, FailTimes(events, query.ip), query.at)
  {
    RunSnoc(p, events, tables, query, Queried(p, tables[|events|], query.ip, query.at));
    AloneIsUncrowded(p, events, query.ip);
    RunMirrors(p, events, tables, query.at);
    assert MirrorsIp(p, tables[|events|], FailTimes(events, query.ip), query.ip, query.at);
  }

  /** For every policy whose window has a length, some run of the limiter lets an address go although more than
      max_failures of its failures lie within the last window's length. */
  lemma {:induction false} BlockIsMissed(p: Policy, ip: string) returns (events: seq<Event>, tables: seq<Table>)
    requires p.window >= 1
    ensures Run(p, events, tables) && events != []
    ensures var last := events[|events| - 1];
      last == Query(ip, last.at, false) && FailuresSince(events, ip, last.at - p.window) > p.maxFailures
  {
    var times, now := Straddling(p, p.maxFailures + 1), p.window + 1;
    StraddlingGoesFree(p);
    var before, fewer := RunOf(p, times, ip);
    var query := Query(ip, now, Blocks(p, fewer[|before|], ip, now));
    AskAlone(p, before, fewer, query);
    FailTimesSnoc(before, query, ip);
    events, tables := before + [query], fewer + [Queried(p, fewer[|before|], ip, now)];
  }

  /** With one tolerated failure and a window of a minute: a failure at 0 and two at 60 s are not held against the
      address one tick later. */
  lemma {:induction false} MissedMinute(ip: string) returns (events: seq<Event>, tables: seq<Table>)
    ensures var p, minute := Policy(1, 60 * TICKS_PER_SECOND, 1), 60 * TICKS_PER_SECOND;
      && Run(p, events, tables) && FailTimes(events, ip) == [0, minute, minute]
      && events != [] && events[|events| - 1] == Query(ip, minute + 1, false)
  {
    var p, minute := Policy(1, 60 * TICKS_PER_SECOND, 1), 60 * TICKS_PER_SECOND;
    StraddlingGoesFree(p);
    assert Straddling(p, 2) == [0, minute, minute];
    var before, fewer := RunOf(p, Straddling(p, 2), ip);
    var query := Query(ip, minute + 1, Blocks(p, fewer[|before|], ip, minute + 1));
    AskAlone(p, before, fewer, query);
    FailTimesSnoc(before, query, ip);
    events, tables := before + [query], fewer + [Queried(p, fewer[|before|], ip, minute + 1)];
  }
}
