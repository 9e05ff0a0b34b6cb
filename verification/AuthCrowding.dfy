/** When eviction shows: the failure limiter once more windows are open than its table has places for. */
module AuthCrowding {
  import opened Basics
  import opened AuthLimiters
  import opened AuthHistory

  /** Every answer given is the one that the full history calls for. */
  ghost predicate Faithful(p: Policy, events: seq<Event>) {
    forall i | 0 <= i < |events| :: events[i].blocked == ReferenceAnswer(p, events[..i], events[i])
  }

  /** `all` continues the events at the instant of the last of them, for addresses that have an open window then. */
  predicate Probes(p: Policy, events: seq<Event>, all: seq<Event>)
    requires events != []
  {
    var now := events[|events| - 1].at;
    && events <= all
    && forall i | |events| <= i < |all| :: all[i].at == now && all[i].ip in OpenIps(p, events, now)
  }

  /** However a run goes on in this way, all answers are those of the history. */
  ghost predicate StandsProbing(p: Policy, events: seq<Event>, tables: seq<Table>)
    requires events != []
  {
    forall all: seq<Event>, longer: seq<Table> | Probes(p, events, all) && tables <= longer && Run(p, all, longer) ::
      Faithful(p, all)
  }

  lemma {:induction false} RunSnoc(p: Policy, events: seq<Event>, tables: seq<Table>, event: Event, after: Table)
    requires Run(p, events, tables) && After(events, event.at) && Does(p, tables[|events|], event, after)
    ensures Run(p, events + [event], tables + [after])
  {
    CallsSnoc(p, events, tables, event, after);
  }

  lemma {:induction false} CallsSnoc(p: Policy, events: seq<Event>, tables: seq<Table>, event: Event, after: Table)
    requires |tables| == |events| + 1 && Does(p, tables[|events|], event, after)
    requires forall i | 0 <= i < |events| :: Does(p, tables[i], events[i], tables[i + 1])
    ensures var all, longer := events + [event], tables + [after];
      forall i | 0 <= i < |all| :: Does(p, longer[i], all[i], longer[i + 1])
  {
    var all, longer := events + [event], tables + [after];
    forall i | 0 <= i < |all|
      ensures Does(p, longer[i], all[i], longer[i + 1])
    {
      if i < |events| {
        assert longer[i] == tables[i] && longer[i + 1] == tables[i + 1] && all[i] == events[i];
      } else {
        assert longer[i] == tables[|events|] && longer[i + 1] == after && all[i] == event;
      }
    }
  }

  // ---------------------------------------------------------------- without crowding nothing shows

  lemma {:induction false} OtherFailTimes(events: seq<Event>, all: seq<Event>, ip: string)
    requires events <= all && forall i | |events| <= i < |all| :: all[i].ip != ip
    ensures FailTimes(all, ip) == FailTimes(events, ip)
    decreases |all|
  {
    if |all| == |events| {
      assert all == events;
    } else {
      OtherFailTimes(events, all[..|all| - 1], ip);
    }
  }

  lemma {:induction false} ProbesOpenNothing(p: Policy, events: seq<Event>, all: seq<Event>)
    requires events != [] && Probes(p, events, all)
    ensures var now := events[|events| - 1].at; OpenIps(p, all, now) <= OpenIps(p, events, now)
  {
    var now := events[|events| - 1].at;
    forall e | e in all && Open(p, WindowOf(p, FailTimes(all, e.ip)), now)
      ensures e.ip in OpenIps(p, events, now)
    {
      if forall i | |events| <= i < |all| :: all[i].ip != e.ip {
        OtherFailTimes(events, all, e.ip);
      }
    }
  }

  lemma {:induction false} ProbesDoNotCrowd(p: Policy, events: seq<Event>, all: seq<Event>)
    requires events != [] && Uncrowded(p, events) && Probes(p, events, all)
    ensures Uncrowded(p, all)
  {
    var n := |events|;
    forall k {:trigger all[..k]} | 0 < k <= |all| && p.cap > 0
      ensures |OpenIps(p, all[..k], all[k - 1].at)| <= p.cap
    {
      if k <= n {
        UncrowdedUpTo(p, events, k);
        assert all[..k] == events[..k];
      } else {
        UncrowdedUpTo(p, events, n);
        assert events[..n] == events;
        ProbesOpenNothing(p, events, all[..k]);
        SubsetSize(OpenIps(p, all[..k], all[k - 1].at), OpenIps(p, events, all[k - 1].at));
      }
    }
  }

  lemma {:induction false} UncrowdedStands(p: Policy, events: seq<Event>, tables: seq<Table>)
    requires events != [] && Uncrowded(p, events) && p.window >= 0
    ensures StandsProbing(p, events, tables)
  {
    forall all: seq<Event>, longer: seq<Table> | Probes(p, events, all) && tables <= longer && Run(p, all, longer)
      ensures Faithful(p, all)
    {
      ProbesDoNotCrowd(p, events, all);
      forall i | 0 <= i < |all|
        ensures all[i].blocked == ReferenceAnswer(p, all[..i], all[i])
      {
        AnswersMatchHistory(p, all, longer, i);
      }
    }
  }

  // ---------------------------------------------------------------- a call can always be made

  lemma {:induction false} OldestExists(m: Table) returns (oldest: string)
    requires m != map[]
    ensures oldest in m && forall ip | ip in m :: m[oldest].start <= m[ip].start
    decreases |m|
  {
    assert m.Keys == {} ==> m == map[];
    var any: string :| any in m;
    var rest := m - {any};
    oldest := any;
    assert m.Keys == rest.Keys + {any};
    if rest != map[] {
      var other := OldestExists(rest);
      oldest := if m[other].start < m[any].start then other else any;
    }
  }

  /** From the unexpired entries down to the cap, the oldest first. */
  lemma {:induction false} KeepNewest(p: Policy, before: Table, m: Table, now: int) returns (after: Table)
    requires var live := Live(p, before, now);
      && m.Keys <= live.Keys && (forall ip | ip in m :: m[ip] == before[ip])
      && |m| >= (if |live| <= p.cap then |live| else p.cap)
      && (forall gone, kept | gone in live && gone !in m && kept in m :: before[gone].start <= before[kept].start)
    ensures Evicts(p, before, after, now)
    decreases |m|
  {
    var live := Live(p, before, now);
    SubsetSize(m.Keys, live.Keys);
    if |m| <= p.cap {
      after := m;
    } else {
      var oldest := OldestExists(m);
      var fewer := m - {oldest};
      assert m.Keys == fewer.Keys + {oldest};
      after := KeepNewest(p, before, fewer, now);
    }
  }

  lemma {:induction false} FailureCanBeRecorded(p: Policy, m: Table, ip: string, now: int)
    returns (blocked: bool, after: Table)
    ensures Records(p, m, ip, now, blocked, after)
  {
    var r := Recorded(p, m, ip, now);
    blocked := r[ip].failures > p.maxFailures;
    after := r;
    if p.cap > 0 && |r| > p.cap {
      after := KeepNewest(p, r, Live(p, r, now), now);
    }
  }

  // ---------------------------------------------------------------- with crowding the history is contradicted

  /** More open windows than places: some address with an open window is not in the table. */
  lemma SomeoneIsForgotten(p: Policy, events: seq<Event>, m: Table, now: int) returns (ip: string)
    requires |m| <= p.cap < |OpenIps(p, events, now)|
    ensures ip in OpenIps(p, events, now) && ip !in m
  {
    if OpenIps(p, events, now) <= m.Keys {
      SubsetSize(OpenIps(p, events, now), m.Keys);
    }
    ip :| ip in OpenIps(p, events, now) && ip !in m;
  }

  /** After k further failures of a forgotten address: the history has added them to its window, the table does
      not know of more than k. */
  predicate Forgets(p: Policy, all: seq<Event>, m: Table, ip: string, k: nat, now: int) {
    var window := WindowOf(p, FailTimes(all, ip));
    Open(p, window, now) && window.value.failures > k && (ip in m ==> m[ip].failures <= k)
  }

  lemma {:induction false} ForgetsOnceMore(p: Policy, all: seq<Event>, m: Table, ip: string, k: nat, now: int)
    returns (event: Event, after: Table)
    requires Forgets(p, all, m, ip, k, now)
    ensures event.ip == ip && event.at == now && Does(p, m, event, after)
    ensures Forgets(p, all + [event], after, ip, k + 1, now)
  {
    var blocked;
    blocked, after := FailureCanBeRecorded(p, m, ip, now);
    event := Failure(ip, now, blocked);
    FailTimesSnoc(all, event, ip);
    WindowSnoc(p, FailTimes(all, ip), now);
  }

  /** A continuation in which the forgotten address fails k times. */
  ghost predicate FailedAgain(p: Policy, events: seq<Event>, tables: seq<Table>, all: seq<Event>, longer: seq<Table>,
                              ip: string, k: nat)
    requires events != []
  {
    && Probes(p, events, all) && tables <= longer && Run(p, all, longer)
    && After(all, events[|events| - 1].at)
    && Forgets(p, all, longer[|all|], ip, k, events[|events| - 1].at)
  }

  lemma {:induction false} OneCallMore(p: Policy, events: seq<Event>, tables: seq<Table>,
                                       all: seq<Event>, longer: seq<Table>, event: Event, after: Table)
    requires events != [] && Probes(p, events, all) && tables <= longer && Run(p, all, longer)
    requires After(all, event.at) && Does(p, longer[|all|], event, after)
    requires event.at == events[|events| - 1].at && event.ip in OpenIps(p, events, event.at)
    ensures Probes(p, events, all + [event]) && tables <= longer + [after] && Run(p, all + [event], longer + [after])
    ensures After(all + [event], event.at) && (longer + [after])[|all| + 1] == after
  {
    RunSnoc(p, all, longer, event, after);
  }

  lemma {:induction false} FailAgain(p: Policy, events: seq<Event>, tables: seq<Table>, ip: string, k: nat)
    returns (all: seq<Event>, longer: seq<Table>)
    requires Run(p, events, tables) && events != [] && ip !in tables[|events|]
    requires ip in OpenIps(p, events, events[|events| - 1].at)
    ensures FailedAgain(p, events, tables, all, longer, ip, k)
  {
    if k == 0 {
      all, longer := events, tables;
    } else {
      var now := events[|events| - 1].at;
      var before, shorter := FailAgain(p, events, tables, ip, k - 1);
      var event, after := ForgetsOnceMore(p, before, shorter[|before|], ip, k - 1, now);
      OneCallMore(p, events, tables, before, shorter, event, after);
      all, longer := before + [event], shorter + [after];
    }
  }

  lemma {:induction false} ForgottenGoesFree(p: Policy, all: seq<Event>, m: Table, ip: string, now: int)
    requires Forgets(p, all, m, ip, p.maxFailures, now)
    ensures Does(p, m, Query(ip, now, false), Queried(p, m, ip, now))
    ensures ReferenceAnswer(p, all, Query(ip, now, false))
  {
  }

  lemma {:induction false} LastIsUnfaithful(p: Policy, all: seq<Event>, event: Event)
    requires event.blocked != ReferenceAnswer(p, all, event)
    ensures !Faithful(p, all + [event])
  {
    assert (all + [event])[..|all|] == all && (all + [event])[|all|] == event;
  }

  lemma {:induction false} OneIsEnough(p: Policy, events: seq<Event>, tables: seq<Table>,
                                       all: seq<Event>, longer: seq<Table>)
    requires events != [] && Probes(p, events, all) && tables <= longer && Run(p, all, longer) && !Faithful(p, all)
    ensures !StandsProbing(p, events, tables)
  {
  }

  /** A forgotten address fails max_failures times more and is then let go, while the history has it blocked. */
  lemma {:induction false} ForgettingShows(p: Policy, events: seq<Event>, tables: seq<Table>, ip: string)
    requires Run(p, events, tables) && events != [] && ip !in tables[|events|]
    requires ip in OpenIps(p, events, events[|events| - 1].at)
    ensures !StandsProbing(p, events, tables)
  {
    var now := events[|events| - 1].at;
    var all, longer := FailAgain(p, events, tables, ip, p.maxFailures);
    var query := Query(ip, now, false);
    ForgottenGoesFree(p, all, longer[|all|], ip, now);
    OneCallMore(p, events, tables, all, longer, query, Queried(p, longer[|all|], ip, now));
    LastIsUnfaithful(p, all, query);
    OneIsEnough(p, events, tables, all + [query], longer + [Queried(p, longer[|all|], ip, now)]);
  }

  /** Eviction is unobservable exactly as long as no failure leaves more windows open than the table has places:
      a run is uncrowded if and only if, wherever it is interrupted by further calls at the same instant for
      addresses with an open window, all answers remain those of the history. */
  lemma {:induction false} CrowdingIsObservable(p: Policy, events: seq<Event>, tables: seq<Table>)
    requires Run(p, events, tables) && p.window >= 0
    ensures Uncrowded(p, events)
       <==> forall n {:trigger events[..n]} | 0 < n <= |events| :: StandsProbing(p, events[..n], tables[..n + 1])
  {
    forall n {:trigger events[..n]} | 0 < n <= |events|
      ensures Uncrowded(p, events) ==> StandsProbing(p, events[..n], tables[..n + 1])
      ensures p.cap > 0 && |OpenIps(p, events[..n], events[n - 1].at)| > p.cap ==>
        !StandsProbing(p, events[..n], tables[..n + 1])
    {
      if Uncrowded(p, events) {
        UncrowdedUpTo(p, events, n);
        UncrowdedStands(p, events[..n], tables[..n + 1]);
      }
      if p.cap > 0 && |OpenIps(p, events[..n], events[n - 1].at)| > p.cap {
        CrowdedFalls(p, events, tables, n);
      }
    }
  }

  lemma {:induction false} CrowdedFalls(p: Policy, events: seq<Event>, tables: seq<Table>, n: nat)
    requires Run(p, events, tables) && 0 < n <= |events|
    requires p.cap > 0 && |OpenIps(p, events[..n], events[n - 1].at)| > p.cap
    ensures !StandsProbing(p, events[..n], tables[..n + 1])
  {
    RunUpTo(p, events, tables, n);
    TableIsCapped(p, events, tables, n);
    var ip := SomeoneIsForgotten(p, events[..n], tables[n], events[n - 1].at);
    ForgettingShows(p, events[..n], tables[..n + 1], ip);
  }

  /** Such a run with one place, one tolerated failure and a window of a minute: the failure of b evicts a, whose
      second failure is then answered as if it were the first, although the history has two. */
  lemma {:induction false} CrowdedRun(a: string, b: string)
    requires a != b
    ensures var p, second := Policy(1, 60 * TICKS_PER_SECOND, 1), TICKS_PER_SECOND;
      var events := [Failure(a, 0, false), Failure(b, second, false), Failure(a, 2 * second, false)];
      var tables: seq<Table> :=
        [map[], map[a := Entry(1, 0)], map[b := Entry(1, second)], map[a := Entry(1, 2 * second)]];
      Run(p, events, tables) && ReferenceAnswer(p, events[..2], events[2])
  {
    var p, second := Policy(1, 60 * TICKS_PER_SECOND, 1), TICKS_PER_SECOND;
    var one, two, three := Failure(a, 0, false), Failure(b, second, false), Failure(a, 2 * second, false);
    var t0: Table, t1: Table := map[], map[a := Entry(1, 0)];
    var t2: Table, t3: Table := map[b := Entry(1, second)], map[a := Entry(1, 2 * second)];
    assert Recorded(p, t0, a, 0) == t1;
    SecondEvictsFirst(p, a, Entry(1, 0), b, second);
    SecondEvictsFirst(p, b, Entry(1, second), a, 2 * second);
    ThreeCalls(p, one, two, three, t0, t1, t2, t3);
    CrowdedTimes(a, b, second);
    CrowdedAnswer(p, second);
    assert [one, two, three][..2] == [one, two];
  }

  lemma {:induction false} ThreeCalls(p: Policy, one: Event, two: Event, three: Event,
                                      t0: Table, t1: Table, t2: Table, t3: Table)
    requires t0 == map[] && one.at <= two.at <= three.at
    requires Does(p, t0, one, t1) && Does(p, t1, two, t2) && Does(p, t2, three, t3)
    ensures Run(p, [one, two, three], [t0, t1, t2, t3])
  {
    var events, tables := [one, two, three], [t0, t1, t2, t3];
    assert tables[0] == t0 && tables[1] == t1 && tables[2] == t2 && tables[3] == t3;
    assert events[0] == one && events[1] == two && events[2] == three;
  }

  lemma {:induction false} CrowdedTimes(a: string, b: string, second: int)
    requires a != b
    ensures FailTimes([Failure(a, 0, false), Failure(b, second, false)], a) == [0]
  {
    FailTimesSnoc([], Failure(a, 0, false), a);
    FailTimesSnoc([Failure(a, 0, false)], Failure(b, second, false), a);
    assert [] + [Failure(a, 0, false)] == [Failure(a, 0, false)];
    assert [Failure(a, 0, false)] + [Failure(b, second, false)] == [Failure(a, 0, false), Failure(b, second, false)];
  }

  lemma {:induction false} CrowdedAnswer(p: Policy, second: int)
    requires p.maxFailures == 1 && 0 <= 2 * second <= p.window
    ensures OverLimit(p, [0] + [2 * second], 2 * second)
  {
    WindowSnoc(p, [], 0);
    assert [] + [0] == [0];
    WindowSnoc(p, [0], 2 * second);
  }

  lemma {:induction false} SecondEvictsFirst(p: Policy, a: string, e: Entry, b: string, now: int)
    requires a != b && p.cap == 1 && p.maxFailures >= 1 && e.start <= now <= e.start + p.window
    ensures Does(p, map[a := e], Failure(b, now, false), map[b := Entry(1, now)])
  {
    var ta, tb: Table := map[a := e], map[b := Entry(1, now)];
    var both := Recorded(p, ta, b, now);
    assert both == map[a := e, b := Entry(1, now)] == Live(p, both, now);
    assert both.Keys == {a, b};
    assert Evicts(p, both, tb, now);
  }
}
