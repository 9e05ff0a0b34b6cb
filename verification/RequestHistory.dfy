/** The request limiter against the history of requests: answers, throughput and Retry-After.

    The reference folds the times of one address's requests and forgets nothing. Times never decrease.
 */
module RequestHistory {
  import opened Basics
  import opened RequestLimiters

  const MINUTE: int := 60 * TICKS_PER_SECOND

  /** The window that the reference is in after requests at these times. */
  function WindowOf(times: seq<int>): Option<Window> {
    if times == [] then None
    else Some(Next(WindowOf(times[..|times| - 1]), times[|times| - 1]))
  }

  lemma {:induction false} WindowSnoc(times: seq<int>, t: int)
    ensures WindowOf(times + [t]) == Some(Next(WindowOf(times), t))
  {
    assert (times + [t])[..|times|] == times;
  }

  /** Over in ticks: truncated seconds reach 60 exactly when a full minute has gone by. */
  lemma OverIsAMinute(w: Window, now: int)
    requires w.start <= now
    ensures Over(w, now) <==> now - w.start >= MINUTE
    ensures 0 <= (now - w.start) - Seconds(now - w.start) * TICKS_PER_SECOND < TICKS_PER_SECOND
  {
  }

  lemma {:induction false} WindowStarts(times: seq<int>)
    requires Sorted(times) && times != []
    ensures WindowOf(times).Some? && WindowOf(times).value.start <= times[|times| - 1]
    ensures WindowOf(times).value.requests >= 1
  {
    if |times| > 1 {
      WindowStarts(times[..|times| - 1]);
    }
  }

  // ---------------------------------------------------------------- throughput

  predicate Within(t: int, from: int, length: int) { from <= t < from + length }

  /** How many requests in [from, from + length) the reference allows. */
  function AllowedIn(q: Quota, times: seq<int>, from: int, length: int): nat {
    if times == [] then 0
    else
      var before, t := times[..|times| - 1], times[|times| - 1];
      AllowedIn(q, before, from, length)
      + (if Within(t, from, length) && Answer(q, WindowOf(before), t) == 0 then 1 else 0)
  }

  lemma {:induction false} AllowedSnoc(q: Quota, times: seq<int>, t: int, from: int, length: int)
    ensures AllowedIn(q, times + [t], from, length)
         == AllowedIn(q, times, from, length)
            + (if Within(t, from, length) && Answer(q, WindowOf(times), t) == 0 then 1 else 0)
  {
    assert (times + [t])[..|times|] == times;
  }

  lemma {:induction false} NothingYet(q: Quota, times: seq<int>, from: int, length: int)
    requires Sorted(times) && (times != [] ==> times[|times| - 1] < from)
    ensures AllowedIn(q, times, from, length) == 0
  {
    if times != [] {
      NothingYet(q, times[..|times| - 1], from, length);
    }
  }

  function Min(a: int, b: int): int { if a <= b then a else b }

  /** The most requests allowed in the first d ticks of an interval, before a window that starts at its tick d. One
      window may have begun before the interval, with its first request outside; others start a minute apart. */
  function Room(q: Quota, d: int): int
    decreases d
  {
    if d <= 0 then 0 else if d < MINUTE then q.maxRpm - 1 else Room(q, d - MINUTE) + q.maxRpm
  }

  /** The most requests that one address gets in an interval of so many ticks. */
  function Capacity(q: Quota, length: int): nat
    requires length >= 1
  {
    if q.maxRpm == 0 then 0
    else
      RoomGrows(q, 0, length - 1);
      Room(q, length - 1) + q.maxRpm
  }

  /** Before a window that starts in the interval at all, all but one request of an earlier one have room. */
  lemma {:induction false} RoomGrows(q: Quota, d: int, e: int)
    requires 0 <= d <= e && q.maxRpm >= 1
    ensures Room(q, d) <= Room(q, e) && (e > 0 ==> Room(q, e) >= q.maxRpm - 1)
    decreases e
  {
    if e >= MINUTE {
      RoomGrows(q, if d >= MINUTE then d - MINUTE else 0, e - MINUTE);
    }
  }

  /** The capacity in closed form. */
  lemma CapacityIs(q: Quota, length: int)
    requires length >= 1 && q.maxRpm >= 1
    ensures Capacity(q, length) == q.maxRpm * ((length - 1) / MINUTE + 1)
                                   + (if (length - 1) % MINUTE > 0 then q.maxRpm - 1 else 0)
  {
    RoomIs(q, length - 1);
  }

  lemma {:induction false} RoomIs(q: Quota, d: int)
    requires d >= 0 && q.maxRpm >= 1
    ensures Room(q, d) == q.maxRpm * (d / MINUTE) + (if d % MINUTE > 0 then q.maxRpm - 1 else 0)
    decreases d
  {
    if d >= MINUTE {
      RoomIs(q, d - MINUTE);
      assert d / MINUTE == (d - MINUTE) / MINUTE + 1 && d % MINUTE == (d - MINUTE) % MINUTE;
      OneMoreTimes(q.maxRpm, (d - MINUTE) / MINUTE);
    }
  }

  lemma OneMoreTimes(a: int, b: int)
    ensures a * (b + 1) == a * b + a
  {
  }

  lemma MinuteCapacity(q: Quota)
    ensures Capacity(q, MINUTE) == if q.maxRpm == 0 then 0 else 2 * q.maxRpm - 1
  {
  }

  /** The count in the interval, bounded by where the current window lies. */
  predicate CountFits(q: Quota, count: int, w: Option<Window>, from: int, length: int)
    requires length >= 1
  {
    if w.None? || q.maxRpm == 0 then count == 0
    else if w.value.start < from then
      count <= Min(w.value.requests, q.maxRpm) - 1 && (count > 0 ==> from < w.value.start + MINUTE)
    else if w.value.start < from + length then count <= Room(q, w.value.start - from) + Min(w.value.requests, q.maxRpm)
    else count <= Capacity(q, length)
  }

  /** A request in the window that is there. */
  lemma {:induction false} CountInWindow(q: Quota, count: int, w: Window, t: int, from: int, length: int)
    requires length >= 1 && w.requests >= 1 && w.start <= t < w.start + MINUTE
    requires CountFits(q, count, Some(w), from, length)
    ensures Next(Some(w), t) == Window(w.requests + 1, w.start)
    ensures CountFits(q, count + (if Within(t, from, length) && Answer(q, Some(w), t) == 0 then 1 else 0),
                      Some(Window(w.requests + 1, w.start)), from, length)
  {
    OverIsAMinute(w, t);
  }

  /** What was counted before a window that starts at t in the interval, or behind it. */
  lemma {:induction false} CountBeforeWindow(q: Quota, count: int, w: Option<Window>, t: int, from: int, length: int)
    requires length >= 1 && q.maxRpm >= 1 && CountFits(q, count, w, from, length) && from <= t
    requires w.Some? ==> w.value.start + MINUTE <= t && w.value.requests >= 1
    ensures t < from + length ==> count <= Room(q, t - from)
    ensures t >= from + length ==> count <= Capacity(q, length)
  {
    RoomGrows(q, 0, t - from);
    RoomGrows(q, 0, length - 1);
    if w.Some? && from <= w.value.start < from + length {
      RoomGrows(q, w.value.start - from + MINUTE, t - from);
      RoomGrows(q, w.value.start - from, length - 1);
      assert Room(q, w.value.start - from + MINUTE) == Room(q, w.value.start - from) + q.maxRpm;
    }
  }

  lemma {:induction false} CountAlwaysFits(q: Quota, times: seq<int>, from: int, length: int)
    requires Sorted(times) && length >= 1
    ensures CountFits(q, AllowedIn(q, times, from, length), WindowOf(times), from, length)
  {
    if times != [] {
      var before, t := times[..|times| - 1], times[|times| - 1];
      CountAlwaysFits(q, before, from, length);
      CountOneMore(q, before, t, from, length);
      assert times == before + [t];
    }
  }

  lemma {:induction false} CountOneMore(q: Quota, before: seq<int>, t: int, from: int, length: int)
    requires length >= 1 && Sorted(before + [t])
    requires CountFits(q, AllowedIn(q, before, from, length), WindowOf(before), from, length)
    ensures CountFits(q, AllowedIn(q, before + [t], from, length), WindowOf(before + [t]), from, length)
  {
    var all, w := before + [t], WindowOf(before);
    WindowSnoc(before, t);
    AllowedSnoc(q, before, t, from, length);
    if before != [] {
      assert Sorted(before) by {
        assert forall i | 0 <= i < |before| :: all[i] == before[i];
      }
      WindowStarts(before);
      assert all[|before| - 1] <= all[|before|];
      OverIsAMinute(w.value, t);
    }
    if w.Some? && !Over(w.value, t) {
      CountInWindow(q, AllowedIn(q, before, from, length), w.value, t, from, length);
    } else if t < from {
      NothingYet(q, all, from, length);
    } else if q.maxRpm >= 1 {
      CountBeforeWindow(q, AllowedIn(q, before, from, length), w, t, from, length);
    }
  }

  /** In any interval one address gets at most its capacity; in any half-open minute that is 2 * max_rpm - 1
      (MinuteCapacity). */
  lemma ThroughputBound(q: Quota, times: seq<int>, from: int, length: int)
    requires Sorted(times) && length >= 1
    ensures AllowedIn(q, times, from, length) <= Capacity(q, length)
  {
    CountAlwaysFits(q, times, from, length);
    if times != [] && q.maxRpm >= 1 {
      WindowStarts(times);
      var d := WindowOf(times).value.start - from;
      RoomGrows(q, 0, length - 1);
      if 0 <= d < length {
        RoomGrows(q, d, length - 1);
      }
    }
  }

  // ---------------------------------------------------------------- the bound is attained

  /** How many requests fit into new windows, the first of them at tick 0, up to tick d. */
  function NewWindows(q: Quota, d: int): nat
    decreases d + MINUTE
  {
    if d < 0 then 0 else q.maxRpm + NewWindows(q, d - MINUTE)
  }

  /** How many more requests are allowed from now to the tick `end`, if each comes as early as it can. */
  function Left(q: Quota, w: Window, now: int, end: int): nat {
    if now >= w.start + MINUTE then NewWindows(q, end - now)
    else (if w.requests < q.maxRpm then q.maxRpm - w.requests else 0) + NewWindows(q, end - w.start - MINUTE)
  }

  /** The earliest time from now on at which a request is allowed. */
  function NextSlot(q: Quota, w: Window, now: int): int {
    if now >= w.start + MINUTE || w.requests < q.maxRpm then now else w.start + MINUTE
  }

  /** A request in that slot is allowed, in time, and leaves one less. */
  lemma {:induction false} SlotIsAllowed(q: Quota, w: Window, now: int, end: int)
    requires w.start <= now <= end && Left(q, w, now, end) >= 1 && q.maxRpm >= 1
    ensures var slot := NextSlot(q, w, now);
      && now <= slot <= end && Answer(q, Some(w), slot) == 0
      && Next(Some(w), slot).start <= slot
      && Left(q, Next(Some(w), slot), slot, end) == Left(q, w, now, end) - 1
  {
    OverIsAMinute(w, NextSlot(q, w, now));
  }

  /** The most that fits either starts a window at once, or finds one that began with a single request before. */
  lemma {:induction false} RoomAndLeft(q: Quota, d: int)
    requires d >= 0 && q.maxRpm >= 1
    ensures d % MINUTE == 0 ==> Capacity(q, d + 1) == NewWindows(q, d)
    ensures d % MINUTE > 0 ==> Capacity(q, d + 1) == q.maxRpm - 1 + NewWindows(q, d - 1)
    decreases d
  {
    if d >= MINUTE {
      RoomAndLeft(q, d - MINUTE);
      assert d % MINUTE == (d - MINUTE) % MINUTE;
    }
  }

  /** Further requests, all allowed and none later than `end`, as many as are left. */
  lemma {:induction false} FillUp(q: Quota, times: seq<int>, now: int, from: int, length: int, k: nat)
    returns (all: seq<int>)
    requires Sorted(times) && times != [] && q.maxRpm >= 1 && from <= now < from + length
    requires times[|times| - 1] <= now && k <= Left(q, WindowOf(times).value, now, from + length - 1)
    ensures Sorted(all) && AllowedIn(q, all, from, length) == AllowedIn(q, times, from, length) + k
    decreases k
  {
    all := times;
    if k > 0 {
      var w := WindowOf(times).value;
      var slot := NextSlot(q, w, now);
      WindowStarts(times);
      SlotIsAllowed(q, w, now, from + length - 1);
      WindowSnoc(times, slot);
      AllowedSnoc(q, times, slot, from, length);
      all := FillUp(q, times + [slot], slot, from, length, k - 1);
    }
  }

  /** For every quota and every length some requests reach the capacity. */
  lemma {:induction false} CapacityIsReached(q: Quota, length: int) returns (times: seq<int>, from: int)
    requires q.maxRpm >= 1 && length >= 1
    ensures Sorted(times) && AllowedIn(q, times, from, length) == Capacity(q, length)
  {
    RoomAndLeft(q, length - 1);
    assert [] + [0] == [0];
    WindowSnoc([], 0);
    if (length - 1) % MINUTE == 0 {
      from := 0;
      AllowedSnoc(q, [], 0, from, length);
      times := FillUp(q, [0], 0, from, length, Capacity(q, length) - 1);
    } else {
      from := MINUTE - 1;
      AllowedSnoc(q, [], 0, from, length);
      times := FillUp(q, [0], from, from, length, Capacity(q, length));
    }
  }

  /** The documented sliding window, at most max_rpm requests in any minute, is what the limiter keeps exactly
      for a quota of at most one. */
  lemma {:induction false} SlidingWindowOnlyForOne(q: Quota)
    ensures (forall times, from | Sorted(times) :: AllowedIn(q, times, from, MINUTE) <= q.maxRpm) <==> q.maxRpm <= 1
  {
    MinuteCapacity(q);
    if q.maxRpm <= 1 {
      forall times, from | Sorted(times)
        ensures AllowedIn(q, times, from, MINUTE) <= q.maxRpm
      {
        ThroughputBound(q, times, from, MINUTE);
      }
    } else {
      var times, from := CapacityIsReached(q, MINUTE);
    }
  }

  /** A window never overlaps the one before: in the minute from its start exactly its own requests were
      allowed, up to the quota. */
  lemma {:induction false} QuotaPerWindow(q: Quota, times: seq<int>)
    requires Sorted(times) && times != []
    ensures var w := WindowOf(times).value; AllowedIn(q, times, w.start, MINUTE) == Min(w.requests, q.maxRpm)
  {
    var before, t := times[..|times| - 1], times[|times| - 1];
    var w := WindowOf(times).value;
    if before != [] {
      WindowStarts(before);
      OverIsAMinute(WindowOf(before).value, t);
      if w.start == t && w.requests == 1 {
        EarlierIsBefore(before, t);
        NothingYet(q, before, t, MINUTE);
      } else {
        QuotaPerWindow(q, before);
      }
    }
  }

  /** When a request opens a new window, all earlier requests came strictly before it. */
  lemma EarlierIsBefore(before: seq<int>, t: int)
    requires Sorted(before) && before != [] && before[|before| - 1] <= t
    requires Over(WindowOf(before).value, t)
    ensures before[|before| - 1] < t
  {
    WindowStarts(before);
    var last := before[|before| - 1];
    var earlier := before[..|before| - 1];
    if earlier != [] {
      WindowStarts(earlier);
    }
    assert !Over(WindowOf(before).value, last);
  }

  // ---------------------------------------------------------------- refusals

  lemma {:induction false} RequestsAreReal(times: seq<int>)
    requires Sorted(times) && times != []
    ensures WindowOf(times).value.requests <= CountSince(times, WindowOf(times).value.start)
  {
    var before, t := times[..|times| - 1], times[|times| - 1];
    if before != [] {
      RequestsAreReal(before);
      WindowStarts(before);
    }
  }

  /** A refusal is earned: more than max_rpm requests of the address, this one included, came in the last
      60 seconds (strictly less than a minute ago). */
  lemma RefusalsAreJustified(q: Quota, times: seq<int>, now: int)
    requires Sorted(times + [now]) && q.maxRpm >= 1
    requires Answer(q, WindowOf(times), now) != 0
    ensures CountSince(times + [now], now - MINUTE + 1) > q.maxRpm
  {
    var all := times + [now];
    WindowSnoc(times, now);
    RequestsAreReal(all);
    if times != [] {
      assert Sorted(times) by {
        assert forall i | 0 <= i < |times| :: times[i] == all[i];
      }
      WindowStarts(times);
      assert times[|times| - 1] == all[|times| - 1] <= all[|times|] == now;
      OverIsAMinute(WindowOf(times).value, now);
    }
    CountSinceEarlier(all, WindowOf(all).value.start, now - MINUTE + 1);
  }

  /** None of these requests, made one after the other after `times`, is allowed. */
  predicate AllRefused(q: Quota, times: seq<int>, more: seq<int>)
    decreases more
  {
    more == [] ||
    (Answer(q, WindowOf(times), more[0]) != 0 && AllRefused(q, times + [more[0]], more[1..]))
  }

  /** A window in which the quota is used up. */
  predicate Exhausted(q: Quota, w: Option<Window>) {
    w.Some? && w.value.requests >= q.maxRpm
  }

  /** From an exhausted window on, refused requests leave the start where it is. */
  lemma {:induction false} RefusalsKeepTheWindow(q: Quota, times: seq<int>, more: seq<int>)
    requires q.maxRpm >= 1 && Exhausted(q, WindowOf(times)) && AllRefused(q, times, more)
    ensures Exhausted(q, WindowOf(times + more)) && WindowOf(times + more).value.start == WindowOf(times).value.start
    decreases more
  {
    if more == [] {
      assert times + more == times;
    } else {
      WindowSnoc(times, more[0]);
      RefusalsKeepTheWindow(q, times + [more[0]], more[1..]);
      assert times + [more[0]] + more[1..] == times + more;
    }
  }

  /** After a refusal at `now`, whatever refused requests follow, the next request at time t is allowed exactly
      when the window that refused is a minute old. */
  lemma AllowedAgain(q: Quota, times: seq<int>, now: int, more: seq<int>, t: int)
    requires q.maxRpm >= 1 && Answer(q, WindowOf(times), now) != 0
    requires AllRefused(q, times + [now], more)
    requires WindowOf(times + [now]).Some? && WindowOf(times + [now]).value.start <= t
    ensures Answer(q, WindowOf(times + [now] + more), t) == 0 <==> t - WindowOf(times + [now]).value.start >= MINUTE
  {
    WindowSnoc(times, now);
    RefusalsKeepTheWindow(q, times + [now], more);
    OverIsAMinute(WindowOf(times + [now] + more).value, t);
  }

  /** Retry-After tells the truth to within a second: it is between 1 and 60, it never understates the time
      left, overstates it by less than one second, and whoever waits that long is let through. */
  lemma RetryAfterIsHonest(q: Quota, times: seq<int>, now: int, more: seq<int>, t: int)
    requires Sorted(times + [now]) && q.maxRpm >= 1
    requires Answer(q, WindowOf(times), now) != 0 && AllRefused(q, times + [now], more)
    ensures WindowOf(times + [now]).Some?
    ensures var retry := Answer(q, WindowOf(times), now);
      var left := WindowOf(times + [now]).value.start + MINUTE - now;
      && 1 <= retry <= 60
      && left <= retry * TICKS_PER_SECOND < left + TICKS_PER_SECOND
      && (t >= now + retry * TICKS_PER_SECOND ==> Answer(q, WindowOf(times + [now] + more), t) == 0)
  {
    var all := times + [now];
    WindowSnoc(times, now);
    assert times != [];
    assert Sorted(times) by {
      assert forall i | 0 <= i < |times| :: times[i] == all[i];
    }
    WindowStarts(times);
    assert times[|times| - 1] == all[|times| - 1] <= all[|times|] == now;
    OverIsAMinute(WindowOf(times).value, now);
    if t >= now + Answer(q, WindowOf(times), now) * TICKS_PER_SECOND {
      AllowedAgain(q, times, now, more, t);
    }
  }

  /** With a quota of zero every request is refused: for a minute at first, then for what is left of the minute that
      began with it, and for a second once that is over. */
  lemma ZeroQuotaRefusesAll(q: Quota, w: Option<Window>, now: int)
    requires q.maxRpm == 0 && (w.Some? ==> w.value.start <= now)
    ensures Answer(q, w, now) ==
      if w.None? then 60
      else if now - w.value.start >= MINUTE then 1
      else 60 - (now - w.value.start) / TICKS_PER_SECOND
  {
    if w.Some? {
      OverIsAMinute(w.value, now);
    }
  }

  // ---------------------------------------------------------------- the table against the reference

  datatype Event = Event(ip: string, at: int, retry: int)

  /** A run: the calls on a fresh limiter in order, with the table before and after each of them. */
  ghost predicate Run(q: Quota, events: seq<Event>, tables: seq<Table>) {
    && |tables| == |events| + 1 && tables[0] == map[]
    && (forall i | 0 <= i < |events| :: Does(q, tables[i], events[i], tables[i + 1]))
    && (forall i, j | 0 <= i < j < |events| :: events[i].at <= events[j].at)
  }

  ghost predicate Does(q: Quota, m: Table, event: Event, after: Table) {
    event.retry == Answer(q, Lookup(m, event.ip), event.at) && after == Afterwards(q, m, event.ip, event.at)
  }

  function TimesOf(events: seq<Event>, ip: string): seq<int> {
    if events == [] then []
    else
      var last, before := events[|events| - 1], TimesOf(events[..|events| - 1], ip);
      if last.ip == ip then before + [last.at] else before
  }

  lemma {:induction false} TimesSnoc(events: seq<Event>, event: Event, ip: string)
    ensures TimesOf(events + [event], ip)
         == (if event.ip == ip then TimesOf(events, ip) + [event.at] else TimesOf(events, ip))
  {
    assert (events + [event])[..|events|] == events;
  }

  /** The table has what the reference has, except windows that are over; and with a quota of zero, where
      nothing is ever swept, all of them. */
  predicate SameWindow(q: Quota, entry: Option<Window>, w: Option<Window>, now: int) {
    if entry.Some? then entry == w
    else w.Some? ==> q.maxRpm >= 1 && Over(w.value, now)
  }

  ghost predicate Tracks(q: Quota, m: Table, events: seq<Event>, now: int) {
    forall ip: string :: SameWindow(q, Lookup(m, ip), WindowOf(TimesOf(events, ip)), now)
  }

  /** Tracking entries give the reference's answer and its next window. */
  lemma SameAnswer(q: Quota, entry: Option<Window>, w: Option<Window>, now: int)
    requires SameWindow(q, entry, w, now)
    ensures Answer(q, entry, now) == Answer(q, w, now) && Next(entry, now) == Next(w, now)
  {
  }

  lemma {:induction false} TracksStep(q: Quota, m: Table, events: seq<Event>, event: Event, after: Table)
    requires Tracks(q, m, events, event.at) && Does(q, m, event, after)
    ensures Tracks(q, after, events + [event], event.at)
  {
    var counted := Counted(m, event.ip, event.at);
    forall ip: string
      ensures SameWindow(q, Lookup(after, ip), WindowOf(TimesOf(events + [event], ip)), event.at)
    {
      var times := TimesOf(events, ip);
      assert SameWindow(q, Lookup(m, ip), WindowOf(times), event.at);
      TimesSnoc(events, event, ip);
      if ip == event.ip {
        SameAnswer(q, Lookup(m, ip), WindowOf(times), event.at);
        WindowSnoc(times, event.at);
        assert Lookup(counted, ip) == Some(Next(WindowOf(times), event.at));
      } else {
        assert Lookup(counted, ip) == Lookup(m, ip);
      }
      assert Lookup(after, ip) == Lookup(counted, ip)
          || (Lookup(after, ip) == None && q.maxRpm >= 1 && Lookup(counted, ip).Some? && Over(counted[ip], event.at));
    }
  }

  lemma TracksLater(q: Quota, m: Table, events: seq<Event>, now: int, later: int)
    requires Tracks(q, m, events, now) && now <= later
    ensures Tracks(q, m, events, later)
  {
    forall ip: string
      ensures SameWindow(q, Lookup(m, ip), WindowOf(TimesOf(events, ip)), later)
    {
      SameWindowLater(q, Lookup(m, ip), WindowOf(TimesOf(events, ip)), now, later);
    }
  }

  lemma SameWindowLater(q: Quota, entry: Option<Window>, w: Option<Window>, now: int, later: int)
    requires SameWindow(q, entry, w, now) && now <= later
    ensures SameWindow(q, entry, w, later)
  {
  }

  lemma RunUpTo(q: Quota, events: seq<Event>, tables: seq<Table>, n: nat)
    requires Run(q, events, tables) && n <= |events|
    ensures Run(q, events[..n], tables[..n + 1])
  {
    var shorter, fewer := events[..n], tables[..n + 1];
    forall i | 0 <= i < n
      ensures Does(q, fewer[i], shorter[i], fewer[i + 1])
    {
      assert Does(q, tables[i], events[i], tables[i + 1]);
    }
  }

  lemma {:induction false} TracksCall(q: Quota, m: Table, before: seq<Event>, last: Event, after: Table,
                                      all: seq<Event>, now: int)
    requires Tracks(q, m, before, last.at) && Does(q, m, last, after) && last.at <= now
    requires |all| == |before| + 1 && all[..|before|] == before && all[|before|] == last
    ensures Tracks(q, after, all, now)
  {
    assert all == before + [last];
    TracksStep(q, m, before, last, after);
    TracksLater(q, after, all, last.at, now);
  }

  lemma {:induction false} RunTracks(q: Quota, events: seq<Event>, tables: seq<Table>, now: int)
    requires Run(q, events, tables) && (events != [] ==> events[|events| - 1].at <= now)
    ensures Tracks(q, tables[|events|], events, now)
    decreases |events|
  {
    var n := |events|;
    if n > 0 {
      var before, last := events[..n - 1], events[n - 1];
      RunUpTo(q, events, tables, n - 1);
      RunTracks(q, before, tables[..n], last.at);
      assert Does(q, tables[n - 1], last, tables[n]);
      TracksCall(q, tables[n - 1], before, last, tables[n], events, now);
    }
  }

  /** The sweep is unobservable: every answer is that of a limiter that keeps all entries, and depends on the
      caller's own requests alone. */
  lemma SweepIsUnobservable(q: Quota, events: seq<Event>, tables: seq<Table>, i: nat)
    requires Run(q, events, tables) && i < |events|
    ensures events[i].retry == Answer(q, WindowOf(TimesOf(events[..i], events[i].ip)), events[i].at)
  {
    RunUpTo(q, events, tables, i);
    RunTracks(q, events[..i], tables[..i + 1], events[i].at);
    assert Does(q, tables[i], events[i], tables[i + 1]);
    SameAnswer(q, Lookup(tables[i], events[i].ip), WindowOf(TimesOf(events[..i], events[i].ip)), events[i].at);
  }

  lemma {:induction false} TimesSorted(events: seq<Event>, ip: string)
    requires forall i, j | 0 <= i < j < |events| :: events[i].at <= events[j].at
    ensures Sorted(TimesOf(events, ip))
    ensures forall t | t in TimesOf(events, ip) :: events != [] && t <= events[|events| - 1].at
  {
    if events != [] {
      var before := TimesOf(events[..|events| - 1], ip);
      TimesSorted(events[..|events| - 1], ip);
      assert forall i | 0 <= i < |before| :: before[i] in before;
    }
  }

  /** The requests of one address that a run allowed in [from, from + length). */
  function AllowedEvents(events: seq<Event>, ip: string, from: int, length: int): nat {
    if events == [] then 0
    else
      var last := events[|events| - 1];
      AllowedEvents(events[..|events| - 1], ip, from, length)
      + (if last.ip == ip && last.retry == 0 && Within(last.at, from, length) then 1 else 0)
  }

  lemma {:induction false} AllowedEventsAreAllowed(q: Quota, events: seq<Event>, tables: seq<Table>,
                                                   ip: string, from: int, length: int)
    requires Run(q, events, tables)
    ensures AllowedEvents(events, ip, from, length) == AllowedIn(q, TimesOf(events, ip), from, length)
    decreases |events|
  {
    var n := |events|;
    if n > 0 {
      var before, last := events[..n - 1], events[n - 1];
      RunUpTo(q, events, tables, n - 1);
      AllowedEventsAreAllowed(q, before, tables[..n], ip, from, length);
      SweepIsUnobservable(q, events, tables, n - 1);
      AllowedSnoc(q, TimesOf(before, ip), last.at, from, length);
    }
  }
}
