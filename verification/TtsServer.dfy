/** The lifecycle around the pool: initialize(), shutdown() and what becomes of accepted jobs. */
module TtsServers {
  import opened Basics
  import opened PoolMachine
  import opened PoolInvariants
  import opened PoolTheorems
  import opened PoolRounds
  import opened InferencePools

  /** One call from outside or one step of the worker thread, with the clock reading it sees and what the world
      contributes to it. */
  datatype Op =
    | Initialize(backendReady: bool, at: int, world: nat -> Turn)
    | Submit(job: Job, at: int)
    | Work(turn: Turn, at: int)
    | Shutdown(at: int, world: nat -> Turn)

  class TtsServer {
    const cfg: Config
    const hasBackend: bool
    var initialized: bool
    var pool: InferencePool?

    ghost var pools: set<InferencePool>  // every pool this server ever made

    ghost predicate Valid()
      reads this, pools
    {
      && (forall p | p in pools :: p.Valid() && p.cfg == cfg)
      && (forall p | p in pools :: !(initialized && p == pool) ==> p.Drained())
      && (pool != null ==> pool in pools)
      && (initialized ==> pool != null && pool.accepting && hasBackend)
    }

    /** No pool has read a clock later than this. */
    ghost predicate Before(now: int)
      reads this, pools
    {
      forall p | p in pools :: p.machine.now <= now
    }

    /** What a shutdown leaves: every job that any pool ever accepted has been answered. */
    ghost predicate AllAnswered()
      reads this, pools
    {
      forall p | p in pools :: p.Drained()
    }

    constructor (cfg: Config, hasBackend: bool)
      ensures Valid() && this.cfg == cfg && this.hasBackend == hasBackend
      ensures !initialized && pool == null && pools == {}
    {
      this.cfg, this.hasBackend := cfg, hasBackend;
      initialized, pool, pools := false, null, {};
    }

    /** A pool left by an earlier shutdown is destroyed, which shuts it down once more. */
    method Initialize(backendReady: bool, now: int, world: nat -> Turn) returns (ok: bool, later: int)
      requires Valid() && Before(now)
      modifies this, pools
      ensures Valid() && Before(later) && later >= now && old(pools) <= pools && fresh(pools - old(pools))
      ensures ok <==> old(initialized) || (hasBackend && backendReady && ValidConfig(cfg))
      ensures initialized <==> ok
      ensures old(initialized) || !ok ==> pool == old(pool) && pools == old(pools)
      ensures !old(initialized) && ok ==> fresh(pool) && pools == old(pools) + {pool} && pool.machine == Initial(now)
      ensures forall p | p in old(pools) ::
        p.machine.accepted == old(p.machine.accepted) && p.machine.attempts == old(p.machine.attempts)
    {
      later := now;
      if initialized {
        return true, later;
      }
      if !hasBackend {
        return false, later;
      }
      if !backendReady {
        return false, later;
      }
      if cfg.maxDepth < 1 || cfg.timeout < 1 {
        return false, later;
      }
      var next := new InferencePool(cfg, now);
      if pool != null {
        Destroy(now, world);
      }
      pool := next;
      pools := pools + {next};
      initialized := true;
      return true, later;
    }

    /** The destructor of a pool that is replaced. */
    method Destroy(now: int, world: nat -> Turn)
      requires Valid() && Before(now) && !initialized && pool != null
      modifies pool
      ensures Valid() && Before(now)
      ensures pool.machine.accepted == old(pool.machine.accepted) && pool.machine.attempts == old(pool.machine.attempts)
    {
      var later := pool.Shutdown(now, world);
    }

    method Shutdown(now: int, world: nat -> Turn) returns (later: int)
      requires Valid() && Before(now)
      modifies this, pools
      ensures Valid() && !initialized && AllAnswered() && Before(later) && later >= now
      ensures pools == old(pools) && pool == old(pool)
      ensures forall p | p in pools :: p.machine.accepted == old(p.machine.accepted)
    {
      later := now;
      if !initialized {
        return;
      }
      if pool != null {
        later := pool.Shutdown(now, world);
      }
      initialized := false;
    }

    /** A handler's submit, through the pool pointer it was given; no pool, no submission. */
    method Submit(job: Job, now: int) returns (ok: bool)
      requires Valid() && Before(now)
      modifies pools
      ensures Valid() && Before(now)
      ensures ok <==> initialized && |old(pool.queue)| < cfg.maxDepth
      ensures ok ==> |pool.machine.accepted| == old(|pool.machine.accepted|) + 1
      ensures forall p | p in pools :: old(p.machine.accepted) <= p.machine.accepted
      ensures forall p | p in pools && !(ok && p == pool) :: p.machine.accepted == old(p.machine.accepted)
    {
      if pool == null {
        return false;
      }
      ok := pool.Submit(job, now);
    }

    /** The worker thread of the current pool takes a step between two calls. */
    method Work(turn: Turn, now: int)
      requires Valid() && Before(now)
      modifies pools
      ensures Valid() && Before(now)
      ensures pool != null ==>
        RunStarted(old(pool.machine)) && pool.machine == AfterWork(pool.cfg, old(pool.machine), now, turn)
      ensures forall p | p in pools && p != pool :: p.machine == old(p.machine)
      ensures forall p | p in pools ::
        p.machine.accepted == old(p.machine.accepted) && old(p.machine.attempts) <= p.machine.attempts
    {
      if pool != null {
        ReachableRunStarted(pool.cfg, pool.machine);
        WorkKeeps(pool.cfg, pool.machine, now, turn);
        pool.Advance(now, turn);
      }
    }

    method IsReady(backendReady: bool) returns (ready: bool)
      requires Valid()
      ensures ready <==> initialized && backendReady
    {
      ready := initialized && hasBackend && backendReady && pool != null && pool.accepting;
    }

    /** Any history of calls, with the worker at work between them: whenever its last call is a shutdown, nothing
        accepted is left unanswered, and nothing accepted is ever forgotten. */
    method Serve(ops: seq<Op>, start: int) returns (later: int)
      requires Valid() && Before(start)
      modifies this, pools
      ensures Valid() && Before(later)
      ensures ops != [] && ops[|ops| - 1].Shutdown? ==> AllAnswered()
      ensures old(pools) <= pools
      ensures forall p | p in old(pools) :: old(p.machine.accepted) <= p.machine.accepted
    {
      later := start;
      for i := 0 to |ops|
        invariant Valid() && Before(later)
        invariant old(pools) <= pools && fresh(pools - old(pools))
        invariant i > 0 && ops[i - 1].Shutdown? ==> AllAnswered()
        invariant forall p | p in old(pools) :: old(p.machine.accepted) <= p.machine.accepted
      {
        var now := if ops[i].at > later then ops[i].at else later;
        match ops[i] {
          case Initialize(ready, _, world) =>
            var ok;
            ok, later := Initialize(ready, now, world);
          case Submit(job, _) =>
            var ok := Submit(job, now);
            later := now;
          case Work(turn, _) =>
            Work(turn, now);
            later := now;
          case Shutdown(_, world) =>
            later := Shutdown(now, world);
        }
      }
    }
  }
}
