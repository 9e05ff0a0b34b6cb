/** The limiter of requests per minute: its table, its one method, and what one call does. */
module RequestLimiters {
  import opened Basics

  datatype Window = Window(requests: nat, start: int)

  type Table = map<string, Window>

  /** max_rpm and max_tracked_ips (0 means no cap). */
  datatype Quota = Quota(maxRpm: nat, cap: nat)

  /** duration_cast<seconds>: truncation toward zero. */
  function Seconds(ticks: int): int {
    if ticks >= 0 then ticks / TICKS_PER_SECOND else -((-ticks) / TICKS_PER_SECOND)
  }

  predicate Over(w: Window, now: int) {
    Seconds(now - w.start) >= 60
  }

  /** The window of an address after one more request, from the window it had. */
  function Next(w: Option<Window>, now: int): Window {
    if w.Some? && !Over(w.value, now) then Window(w.value.requests + 1, w.value.start) else Window(1, now)
  }

  /** What the caller is told: 0 to go ahead, or the seconds to wait. */
  function Answer(q: Quota, w: Option<Window>, now: int): int {
    if Next(w, now).requests <= q.maxRpm then 0
    else
      var elapsed := if w.Some? then Seconds(now - w.value.start) else 0;
      if 60 - elapsed <= 0 then 1 else 60 - elapsed
  }

  function Lookup(m: Table, ip: string): Option<Window> {
    if ip in m then Some(m[ip]) else None
  }

  function Fresh(m: Table, now: int): Table {
    map ip | ip in m && !Over(m[ip], now) :: m[ip]
  }

  function Counted(m: Table, ip: string, now: int): Table {
    m[ip := Next(Lookup(m, ip), now)]
  }

  /** The table after the call: refused requests return before the sweep. */
  function Afterwards(q: Quota, m: Table, ip: string, now: int): Table {
    var counted := Counted(m, ip, now);
    if Answer(q, Lookup(m, ip), now) == 0 && q.cap > 0 && |counted| > q.cap then Fresh(counted, now) else counted
  }

  class RequestRateLimiter {
    const quota: Quota
    var ipStates: Table

    constructor (quota: Quota)
      ensures this.quota == quota && ipStates == map[]
    {
      this.quota, ipStates := quota, map[];
    }

    method CheckRequest(ip: string, now: int) returns (retry: int)
      modifies this
      ensures retry == Answer(quota, Lookup(old(ipStates), ip), now)
      ensures ipStates == Afterwards(quota, old(ipStates), ip, now)
    {
      var state := if ip in ipStates then ipStates[ip] else Window(0, now);
      var elapsed := Seconds(now - state.start);
      if elapsed >= 60 {
        state := Window(0, now);
      }
      state := state.(requests := state.requests + 1);
      ipStates := ipStates[ip := state];
      assert ipStates == Counted(old(ipStates), ip, now);
      if state.requests > quota.maxRpm {
        var remaining := 60 - elapsed;
        if remaining <= 0 {
          remaining := 1;
        }
        return remaining;
      }
      if quota.cap > 0 && |ipStates| > quota.cap {
        Sweep(now);
      }
      return 0;
    }

    /** The loop that erases every entry whose minute is over. */
    method Sweep(now: int)
      modifies this
      ensures ipStates == Fresh(old(ipStates), now)
    {
      ghost var before := ipStates;
      var todo := ipStates.Keys;
      while todo != {}
        invariant todo <= before.Keys && todo <= ipStates.Keys
        invariant ipStates == map ip | ip in before && (ip in todo || !Over(before[ip], now)) :: before[ip]
        decreases |todo|
      {
        var ip :| ip in todo;
        todo := todo - {ip};
        if Seconds(now - ipStates[ip].start) >= 60 {
          ipStates := ipStates - {ip};
        }
      }
    }
  }
}
