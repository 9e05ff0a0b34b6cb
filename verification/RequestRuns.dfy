/** What the request limiter promises over every run, with its table, its sweep and any other addresses. */
module RequestRuns {
  import opened Basics
  import opened RequestLimiters
  import opened RequestHistory

  // ---------------------------------------------------------------- throughput

  /** Throughput of the limiter itself: over any run, in any interval. */
  lemma LimiterThroughput(q: Quota, events: seq<Event>, tables: seq<Table>, ip: string, from: int, length: int)
    requires Run(q, events, tables) && length >= 1
    ensures AllowedEvents(events, ip, from, length) <= Capacity(q, length)
  {
    AllowedEventsAreAllowed(q, events, tables, ip, from, length);
    TimesSorted(events, ip);
    ThroughputBound(q, TimesOf(events, ip), from, length);
  }

  lemma {:induction false} RunSnoc(q: Quota, events: seq<Event>, tables: seq<Table>, event: Event)
    requires Run(q, events, tables) && (events != [] ==> events[|events| - 1].at <= event.at)
    requires event.retry == Answer(q, Lookup(tables[|events|], event.ip), event.at)
    ensures Run(q, events + [event], tables + [Afterwards(q, tables[|events|], event.ip, event.at)])
  {
    var all, longer := events + [event], tables + [Afterwards(q, tables[|events|], event.ip, event.at)];
    forall i | 0 <= i < |all|
      ensures Does(q, longer[i], all[i], longer[i + 1])
    {
      if i < |events| {
        assert Does(q, tables[i], events[i], tables[i + 1]);
      }
    }
  }

  /** Requests of one address at any times make a run. */
  lemma {:induction false} RunOf(q: Quota, times: seq<int>, ip: string) returns (events: seq<Event>, tables: seq<Table>)
    requires Sorted(times)
    ensures Run(q, events, tables) && TimesOf(events, ip) == times
    ensures events != [] ==> times != [] && events[|events| - 1].at == times[|times| - 1]
  {
    if times == [] {
      events, tables := [], [map[]];
    } else {
      var t := times[|times| - 1];
      var before, fewer := RunOf(q, times[..|times| - 1], ip);
      var event := Event(ip, t, Answer(q, Lookup(fewer[|before|], ip), t));
      RunSnoc(q, before, fewer, event);
      TimesSnoc(before, event, ip);
      events := before + [event];
      tables := fewer + [Afterwards(q, fewer[|before|], ip, t)];
    }
  }

  /** Some run does give an address that many requests in an interval of that length. */
  lemma LimiterPeak(q: Quota, ip: string, length: int) returns (events: seq<Event>, tables: seq<Table>, from: int)
    requires q.maxRpm >= 1 && length >= 1
    ensures Run(q, events, tables) && AllowedEvents(events, ip, from, length) == Capacity(q, length)
  {
    var times;
    times, from := CapacityIsReached(q, length);
    events, tables := RunOf(q, times, ip);
    AllowedEventsAreAllowed(q, events, tables, ip, from, length);
  }

  // ---------------------------------------------------------------- refusals

  lemma {:induction false} TimesUpTo(events: seq<Event>, i: nat)
    requires i < |events| && forall j, k | 0 <= j < k < |events| :: events[j].at <= events[k].at
    ensures var times := TimesOf(events[..i], events[i].ip);
      TimesOf(events[..i + 1], events[i].ip) == times + [events[i].at] && Sorted(times + [events[i].at])
  {
    assert events[..i + 1] == events[..i] + [events[i]];
    TimesSnoc(events[..i], events[i], events[i].ip);
    TimesSorted(events[..i + 1], events[i].ip);
  }

  /** Whenever a call refuses, more than max_rpm requests of its address, this one included, came within the last
      60 seconds. */
  lemma {:induction false} RefusedCallsAreJustified(q: Quota, events: seq<Event>, tables: seq<Table>, i: nat)
    requires Run(q, events, tables) && q.maxRpm >= 1 && i < |events| && events[i].retry != 0
    ensures CountSince(TimesOf(events[..i + 1], events[i].ip), events[i].at - MINUTE + 1) > q.maxRpm
  {
    SweepIsUnobservable(q, events, tables, i);
    TimesUpTo(events, i);
    RefusalsAreJustified(q, TimesOf(events[..i], events[i].ip), events[i].at);
  }

  lemma {:induction false} RefusedSnoc(q: Quota, times: seq<int>, more: seq<int>, t: int)
    requires AllRefused(q, times, more) && Answer(q, WindowOf(times + more), t) != 0
    ensures AllRefused(q, times, more + [t])
    decreases more
  {
    if more == [] {
      assert times + more == times && more + [t] == [t] && [t][1..] == [];
    } else {
      assert times + [more[0]] + more[1..] == times + more;
      RefusedSnoc(q, times + [more[0]], more[1..], t);
      assert (more + [t])[1..] == more[1..] + [t];
    }
  }

  /** The requests of an address between two calls of a run, the first of which and all in between are refused. */
  lemma {:induction false} RefusedBetween(q: Quota, events: seq<Event>, tables: seq<Table>, ip: string, i: nat, j: nat)
    returns (more: seq<int>)
    requires Run(q, events, tables) && i < j <= |events|
    requires forall k | i < k < j && events[k].ip == ip :: events[k].retry != 0
    ensures TimesOf(events[..j], ip) == TimesOf(events[..i + 1], ip) + more
    ensures AllRefused(q, TimesOf(events[..i + 1], ip), more)
    decreases j
  {
    more := [];
    if i + 1 < j {
      var last := events[j - 1];
      more := RefusedBetween(q, events, tables, ip, i, j - 1);
      TimesSnoc(events[..j - 1], last, ip);
      assert events[..j] == events[..j - 1] + [last];
      if last.ip == ip {
        SweepIsUnobservable(q, events, tables, j - 1);
        RefusedSnoc(q, TimesOf(events[..i + 1], ip), more, last.at);
        more := more + [last.at];
      }
    }
  }

  /** Retry-After over whole runs. Call i was refused, call j of the same address comes later, and those of that
      address in between were refused too: then the delay was between 1 and 60 seconds, overstated the time left
      by less than a second, and call j is allowed exactly when the window is a minute old; so whoever waits that
      long gets through, whatever other addresses did. */
  lemma {:induction false} WaitingIsRewarded(q: Quota, events: seq<Event>, tables: seq<Table>, i: nat, j: nat)
    requires Run(q, events, tables) && q.maxRpm >= 1 && i < j < |events|
    requires events[i].ip == events[j].ip && events[i].retry != 0
    requires forall k | i < k < j && events[k].ip == events[i].ip :: events[k].retry != 0
    ensures WindowOf(TimesOf(events[..i + 1], events[i].ip)).Some?
    ensures var over := WindowOf(TimesOf(events[..i + 1], events[i].ip)).value.start + MINUTE;
      var retry := events[i].retry * TICKS_PER_SECOND;
      && 1 <= events[i].retry <= 60 && over - events[i].at <= retry < over - events[i].at + TICKS_PER_SECOND
      && (events[j].retry == 0 <==> events[j].at >= over)
      && (events[j].at >= events[i].at + retry ==> events[j].retry == 0)
  {
    var ip := events[i].ip;
    var times := TimesOf(events[..i], ip);
    SweepIsUnobservable(q, events, tables, i);
    SweepIsUnobservable(q, events, tables, j);
    TimesUpTo(events, i);
    var more := RefusedBetween(q, events, tables, ip, i, j);
    RetryAfterIsHonest(q, times, events[i].at, more, events[j].at);
    WindowStarts(times + [events[i].at]);
    AllowedAgain(q, times, events[i].at, more, events[j].at);
  }

  // ---------------------------------------------------------------- the cap is soft

  /** The addresses whose window is still running, by the history. */
  function Running(events: seq<Event>, now: int): set<string> {
    set e | e in events && IsRunning(WindowOf(TimesOf(events, e.ip)), now) :: e.ip
  }

  predicate IsRunning(w: Option<Window>, now: int) {
    w.Some? && !Over(w.value, now)
  }

  lemma {:induction false} UnknownIp(events: seq<Event>, ip: string)
    requires forall e | e in events :: e.ip != ip
    ensures TimesOf(events, ip) == []
  {
    if events != [] {
      UnknownIp(events[..|events| - 1], ip);
    }
  }

  lemma {:induction false} FreshKeys(q: Quota, m: Table, events: seq<Event>, now: int)
    requires Tracks(q, m, events, now) && q.maxRpm >= 1
    ensures Fresh(m, now).Keys == Running(events, now)
  {
    forall ip: string
      ensures ip in Fresh(m, now) <==> ip in Running(events, now)
    {
      assert SameWindow(q, Lookup(m, ip), WindowOf(TimesOf(events, ip)), now);
      if forall e | e in events :: e.ip != ip {
        UnknownIp(events, ip);
      } else {
        var e :| e in events && e.ip == ip;
      }
    }
  }

  lemma SubmapSize(a: Table, b: Table)
    requires a.Keys <= b.Keys
    ensures |a| <= |b|
  {
    assert b.Keys == a.Keys + (b.Keys - a.Keys);
    assert |b.Keys| == |a.Keys| + |b.Keys - a.Keys|;
  }

  lemma {:induction false} SweptTable(q: Quota, m: Table, ip: string, now: int)
    requires q.cap > 0 && Answer(q, Lookup(m, ip), now) == 0
    ensures var after := Afterwards(q, m, ip, now);
      && (|after| > q.cap <==> |Fresh(after, now).Keys| > q.cap)
      && (after == Counted(m, ip, now) || after == Fresh(Counted(m, ip, now), now))
  {
    var counted := Counted(m, ip, now);
    var swept := Fresh(counted, now);
    SubmapSize(swept, counted);
    assert Fresh(swept, now) == swept;
  }

  /** A call that allowed leaves more entries than the cap exactly when more windows than that are running. */
  lemma {:induction false} AllowedCallCap(q: Quota, events: seq<Event>, tables: seq<Table>, i: nat)
    requires Run(q, events, tables) && q.cap > 0 && q.maxRpm >= 1 && i < |events| && events[i].retry == 0
    ensures |tables[i + 1]| > q.cap <==> |Running(events[..i + 1], events[i].at)| > q.cap
  {
    assert Does(q, tables[i], events[i], tables[i + 1]);
    RunUpTo(q, events, tables, i + 1);
    RunTracks(q, events[..i + 1], tables[..i + 2], events[i].at);
    FreshKeys(q, tables[i + 1], events[..i + 1], events[i].at);
    SweptTable(q, tables[i], events[i].ip, events[i].at);
  }

  /** A refused call finds its address in the table, and leaves the same addresses there. */
  lemma {:induction false} RefusedCallKeepsKeys(q: Quota, m: Table, event: Event, after: Table)
    requires Does(q, m, event, after) && q.maxRpm >= 1 && event.retry != 0
    ensures after.Keys == m.Keys
  {
  }

  /** The last call up to call i that was allowed. */
  ghost predicate LastAllowed(events: seq<Event>, i: nat, j: nat)
    requires i <= |events|
  {
    j < i && events[j].retry == 0 && forall k | j < k < i :: events[k].retry != 0
  }

  /** More windows than the cap were running after the last call that was allowed. */
  ghost predicate Overfull(q: Quota, events: seq<Event>, i: nat)
    requires i <= |events|
  {
    exists j: nat :: LastAllowed(events, i, j) && |Running(events[..j + 1], events[j].at)| > q.cap
  }

  lemma OnlyOneIsLast(events: seq<Event>, i: nat, j: nat)
    requires i < |events| && events[i].retry == 0 && LastAllowed(events, i + 1, j)
    ensures j == i
  {
  }

  lemma {:induction false} OverfullAllowed(q: Quota, events: seq<Event>, i: nat)
    requires i < |events| && events[i].retry == 0
    ensures Overfull(q, events, i + 1) <==> |Running(events[..i + 1], events[i].at)| > q.cap
  {
    assert LastAllowed(events, i + 1, i);
    forall j: nat | LastAllowed(events, i + 1, j)
      ensures |Running(events[..j + 1], events[j].at)| == |Running(events[..i + 1], events[i].at)|
    {
      OnlyOneIsLast(events, i, j);
    }
  }

  lemma {:induction false} OverfullRefused(q: Quota, events: seq<Event>, i: nat)
    requires i < |events| && events[i].retry != 0
    ensures Overfull(q, events, i + 1) <==> Overfull(q, events, i)
  {
    assert forall j: nat :: LastAllowed(events, i + 1, j) <==> LastAllowed(events, i, j);
  }

  /** max_tracked_ips is a soft cap: at any point of any run the table has more entries than that exactly when
      more windows than that were running after the last call that was allowed. */
  lemma {:induction false} CapIsSoft(q: Quota, events: seq<Event>, tables: seq<Table>, i: nat)
    requires Run(q, events, tables) && q.cap > 0 && q.maxRpm >= 1 && i <= |events|
    ensures |tables[i]| > q.cap <==> Overfull(q, events, i)
  {
    if i > 0 {
      var last := i - 1;
      if events[last].retry == 0 {
        AllowedCallCap(q, events, tables, last);
        OverfullAllowed(q, events, last);
      } else {
        CapIsSoft(q, events, tables, last);
        assert Does(q, tables[last], events[last], tables[i]);
        RefusedCallKeepsKeys(q, tables[last], events[last], tables[i]);
        OverfullRefused(q, events, last);
        assert |tables[i].Keys| == |tables[last].Keys|;
      }
    }
  }

  /** With a quota of zero nothing is allowed and nothing is ever swept: the table keeps every address. */
  lemma {:induction false} ZeroQuotaKeepsAll(q: Quota, events: seq<Event>, tables: seq<Table>, i: nat)
    requires Run(q, events, tables) && q.maxRpm == 0 && i <= |events|
    ensures tables[i].Keys == set k | 0 <= k < i :: events[k].ip
  {
    if i > 0 {
      ZeroQuotaKeepsAll(q, events, tables, i - 1);
      assert Does(q, tables[i - 1], events[i - 1], tables[i]);
    }
  }

  /** So the table does outgrow its cap: with one place, two addresses in the same minute. */
  lemma {:induction false} CapIsExceeded(a: string, b: string)
    requires a != b
    ensures var q, second := Quota(10, 1), TICKS_PER_SECOND;
      var tables: seq<Table> := [map[], map[a := Window(1, 0)], map[a := Window(1, 0), b := Window(1, second)]];
      Run(q, [Event(a, 0, 0), Event(b, second, 0)], tables) && |tables[2]| > q.cap
  {
    var q, second := Quota(10, 1), TICKS_PER_SECOND;
    var t0: Table, t1: Table := map[], map[a := Window(1, 0)];
    var t2: Table := map[a := Window(1, 0), b := Window(1, second)];
    assert Counted(t0, a, 0) == t1 && Counted(t1, b, second) == t2 && Fresh(t2, second) == t2;
    assert t2.Keys == {a, b} && |t1| == 1;
    TwoCalls(q, Event(a, 0, 0), Event(b, second, 0), t0, t1, t2);
    assert |t2.Keys| == 2;
  }

  lemma {:induction false} TwoCalls(q: Quota, one: Event, two: Event, t0: Table, t1: Table, t2: Table)
    requires t0 == map[] && one.at <= two.at && Does(q, t0, one, t1) && Does(q, t1, two, t2)
    ensures Run(q, [one, two], [t0, t1, t2])
  {
    var events, tables := [one, two], [t0, t1, t2];
    assert tables[0] == t0 && tables[1] == t1 && tables[2] == t2 && events[0] == one && events[1] == two;
  }
}
