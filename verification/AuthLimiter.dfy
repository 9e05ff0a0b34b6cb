/** The limiter of authentication failures: its table, its methods, and what one call does to the table. */
module AuthLimiters {
  import opened Basics

  datatype Entry = Entry(failures: nat, start: int)

  type Table = map<string, Entry>

  /** max_failures, window_secs in clock ticks, and max_tracked_ips (0 means no cap). */
  datatype Policy = Policy(maxFailures: nat, window: int, cap: nat)

  predicate Expired(p: Policy, e: Entry, now: int) {
    now - e.start > p.window
  }

  function Live(p: Policy, m: Table, now: int): Table {
    map ip | ip in m && !Expired(p, m[ip], now) :: m[ip]
  }

  /** The entry of an address once one more failure is counted. */
  function Bumped(p: Policy, m: Table, ip: string, now: int): Entry {
    if ip in m && !Expired(p, m[ip], now) then Entry(m[ip].failures + 1, m[ip].start) else Entry(1, now)
  }

  function Recorded(p: Policy, m: Table, ip: string, now: int): Table {
    m[ip := Bumped(p, m, ip, now)]
  }

  /** What eviction may leave: unexpired entries, as many as the cap allows, and none older than one dropped.
      Which of several equally old entries goes depends on the order of the hash table. */
  ghost predicate Evicts(p: Policy, before: Table, after: Table, now: int) {
    var live := Live(p, before, now);
    && after.Keys <= live.Keys
    && (forall ip | ip in after :: after[ip] == before[ip])
    && |after| == (if |live| <= p.cap then |live| else p.cap)
    && (forall gone, kept | gone in live && gone !in after && kept in after :: before[gone].start <= before[kept].start)
  }

  ghost predicate Records(p: Policy, m: Table, ip: string, now: int, blocked: bool, after: Table) {
    var r := Recorded(p, m, ip, now);
    && blocked == (r[ip].failures > p.maxFailures)
    && (if p.cap > 0 && |r| > p.cap then Evicts(p, r, after, now) else after == r)
  }

  predicate Blocks(p: Policy, m: Table, ip: string, now: int) {
    ip in m && !Expired(p, m[ip], now) && m[ip].failures > p.maxFailures
  }

  function Queried(p: Policy, m: Table, ip: string, now: int): Table {
    if ip in m && Expired(p, m[ip], now) then m - {ip} else m
  }

  lemma SubsetSize<T>(a: set<T>, b: set<T>)
    requires a <= b
    ensures |a| <= |b|
    ensures |a| == |b| ==> a == b
  {
    assert b == a + (b - a);
    assert |b| == |a| + |b - a|;
  }

  /** The inner scan of evict_to_cap. */
  method OldestOf(m: Table) returns (oldest: string)
    requires m != map[]
    ensures oldest in m && forall ip | ip in m :: m[oldest].start <= m[ip].start
  {
    assert m.Keys == {} ==> m == map[];
    oldest :| oldest in m;
    var todo := m.Keys;
    while todo != {}
      invariant todo <= m.Keys && oldest in m
      invariant forall ip | ip in m && ip !in todo :: m[oldest].start <= m[ip].start
      decreases |todo|
    {
      var ip :| ip in todo;
      if m[ip].start < m[oldest].start {
        oldest := ip;
      }
      todo := todo - {ip};
    }
  }

  class AuthRateLimiter {
    const policy: Policy
    var ipStates: Table

    constructor (policy: Policy)
      ensures this.policy == policy && ipStates == map[]
    {
      this.policy, ipStates := policy, map[];
    }

    method CheckAndRecordFailure(ip: string, now: int) returns (blocked: bool)
      modifies this
      ensures Records(policy, old(ipStates), ip, now, blocked, ipStates)
    {
      var state := if ip in ipStates then ipStates[ip] else Entry(0, now);
      if now - state.start > policy.window {
        state := Entry(0, now);
      }
      state := state.(failures := state.failures + 1);
      ipStates := ipStates[ip := state];
      blocked := state.failures > policy.maxFailures;
      assert ipStates == Recorded(policy, old(ipStates), ip, now);
      if policy.cap > 0 && |ipStates| > policy.cap {
        EvictToCap(now);
      }
    }

    method IsBlocked(ip: string, now: int) returns (blocked: bool)
      modifies this
      ensures blocked == Blocks(policy, old(ipStates), ip, now)
      ensures ipStates == Queried(policy, old(ipStates), ip, now)
      ensures ip in ipStates ==> now - ipStates[ip].start <= policy.window
      ensures forall k | k != ip ::
        (k in ipStates <==> k in old(ipStates)) && (k in ipStates ==> ipStates[k] == old(ipStates)[k])
    {
      if ip !in ipStates {
        return false;
      }
      if now - ipStates[ip].start > policy.window {
        ipStates := ipStates - {ip};
        return false;
      }
      return ipStates[ip].failures > policy.maxFailures;
    }

    method EvictToCap(now: int)
      modifies this
      ensures Evicts(policy, old(ipStates), ipStates, now)
    {
      ghost var before := ipStates;
      ghost var live := Live(policy, before, now);
      RemoveExpired(now);
      while |ipStates| > policy.cap
        invariant ipStates.Keys <= live.Keys && forall ip | ip in ipStates :: ipStates[ip] == before[ip]
        invariant |ipStates| >= (if |live| <= policy.cap then |live| else policy.cap)
        invariant |ipStates| <= |live|
        invariant forall gone, kept | gone in live && gone !in ipStates && kept in ipStates ::
                    before[gone].start <= before[kept].start
        decreases |ipStates|
      {
        var oldest := OldestOf(ipStates);
        ghost var was := ipStates;
        ipStates := ipStates - {oldest};
        assert was.Keys == ipStates.Keys + {oldest};
      }
    }

    /** The first pass of evict_to_cap. */
    method RemoveExpired(now: int)
      modifies this
      ensures ipStates == Live(policy, old(ipStates), now)
    {
      ghost var before := ipStates;
      var todo := ipStates.Keys;
      while todo != {}
        invariant todo <= before.Keys && todo <= ipStates.Keys
        invariant ipStates == map ip | ip in before && (ip in todo || !Expired(policy, before[ip], now)) :: before[ip]
        decreases |todo|
      {
        var ip :| ip in todo;
        todo := todo - {ip};
        if now - ipStates[ip].start > policy.window {
          ipStates := ipStates - {ip};
        }
      }
    }
  }
}
