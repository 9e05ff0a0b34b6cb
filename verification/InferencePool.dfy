/** The pool object: its fields, and its methods as sequential code between two interferences.

    Each method takes the step machine along with it, so `machine` stays a reachable state of
    PoolMachine, and what is proved of reachable states holds of the object. The clock and the backend
    are parameters. A call may find the worker anywhere in its loop.
 */
module InferencePools {
  import opened Basics
  import opened PoolMachine
  import opened PoolInvariants
  import opened PoolTheorems
  import opened PoolRounds

  lemma WorkReachable(cfg: Config, s: State, now: int, turn: Turn)
    requires Reachable(cfg, s) && s.now <= now && RunStarted(s)
    ensures Reachable(cfg, AfterWork(cfg, s, now, turn))
  {
    var steps := WorkRuns(cfg, s, now, turn);
    RunReachable(cfg, s, steps);
  }

  lemma RestEnds(s: State, turn: Turn)
    requires RunStarted(s)
    ensures !MidJob(s.worker) ==> AfterRest(s, turn) == s
  {
  }

  lemma FlagReachable(cfg: Config, s: State, now: int)
    requires Reachable(cfg, s) && s.now <= now
    ensures Reachable(cfg, AfterShutdownFlag(s, now)) && RunStarted(s) && RunStarted(AfterShutdownFlag(s, now))
    ensures s.worker.Exited? ==> !s.accepting && s.queue == []
  {
    var steps := ShutdownFlagRuns(cfg, s, now);
    RunReachable(cfg, s, steps);
    ReachableRunStarted(cfg, s);
    if s.worker.Exited? {
      ExitedMeansDrained(cfg, s);
    }
  }

  lemma JoinReachable(cfg: Config, s: State, c: nat)
    requires Reachable(cfg, s) && At(s, c, Joining) && s.worker.Exited?
    ensures var t := s.(callers := s.callers[c := Joined]);
      Reachable(cfg, t) && !t.accepting && t.queue == [] && t.active == 0 && t.accepted == JobsOf(t.attempts)
  {
    OneStep(cfg, s, ShutdownJoin(c));
    RunReachable(cfg, s, [ShutdownJoin(c)]);
    ExitedMeansDrained(cfg, s);
  }

  /** What a shutdown makes of the pool, from the flag to the worker's exit. */
  function AfterShutdown(s: State, now: int, world: nat -> Turn): State
    requires RunStarted(s)
  {
    AfterDrain(AfterRest(AfterShutdownFlag(s, now), world(0)), world, 1)
  }

  lemma ShutdownEnds(s: State, now: int, world: nat -> Turn)
    requires RunStarted(s)
    ensures var t := AfterShutdown(s, now, world);
      && t.worker.Exited? && t.accepted == s.accepted && t.callers == s.callers + [Joining] && t.now >= now
    ensures s.worker.Exited? && s.queue == [] && !s.accepting ==>
      AfterShutdown(s, now, world) == AfterShutdownFlag(s, now)
  {
    RestKeeps(AfterShutdownFlag(s, now), world(0));
    DrainEmpties(AfterRest(AfterShutdownFlag(s, now), world(0)), world, 1);
  }

  class InferencePool {
    const cfg: Config
    var queue: seq<Job>
    var accepting: bool
    var active: int
    var expired: int
    var joinable: bool  // worker_ still has a thread to join
    var worker: Worker  // where that thread is, with the locals of its loop
    var calls: nat      // labels each job, in place of what its callbacks capture

    ghost var machine: State

    /** The fields are those of a reachable state of the machine. */
    ghost predicate Simulates()
      reads this
    {
      && Reachable(cfg, machine)
      && machine.queue == queue && machine.accepting == accepting && machine.worker == worker
      && machine.active == active && machine.expired == expired && |machine.callers| == calls
    }

    ghost predicate Valid()
      reads this
    {
      Simulates() && (!joinable ==> worker.Exited?)
    }

    /** Every job ever accepted has been answered, in order, and the worker is gone. */
    ghost predicate Drained()
      reads this
    {
      !accepting && queue == [] && worker.Exited? && machine.accepted == JobsOf(machine.attempts)
    }

    constructor (cfg: Config, now: int)
      requires ValidConfig(cfg)
      ensures Valid() && this.cfg == cfg && machine == Initial(now)
    {
      this.cfg := cfg;
      queue, accepting, active, expired, joinable, worker, calls := [], true, 0, 0, true, Awake, 0;
      machine := Initial(now);
      StartReachable(cfg, now);
    }

    method Submit(job: Job, now: int) returns (ok: bool)
      requires Valid() && machine.now <= now
      modifies this
      ensures Valid() && machine == AfterSubmit(cfg, old(machine), job.(id := old(calls)), now)
      ensures ok <==> old(accepting) && |old(queue)| < cfg.maxDepth
      ensures queue == (if ok then old(queue) + [Stamp(cfg, job.(id := old(calls)), now)] else old(queue))
      ensures var due := if job.deadline == 0 then now + cfg.timeout * TICKS_PER_SECOND else job.deadline;
        ok ==> queue[|queue| - 1] == job.(id := old(calls), deadline := due)
      ensures accepting == old(accepting) && active == old(active) && expired == old(expired)
    {
      var stamped := job.(id := calls);
      ghost var steps := SubmitRuns(cfg, machine, stamped, now);
      RunReachable(cfg, machine, steps);
      machine := AfterSubmit(cfg, machine, stamped, now);
      calls := calls + 1;
      if stamped.deadline == 0 {
        stamped := stamped.(deadline := now + cfg.timeout * TICKS_PER_SECOND);
      }
      if !accepting {
        return false;
      }
      if |queue| >= cfg.maxDepth {
        return false;
      }
      queue := queue + [stamped];
      worker := Notified(worker);
      return true;
    }

    /** The critical section of worker_loop, once cv_.wait has found its predicate true; None means return. */
    method TakeJob() returns (job: Option<Job>)
      requires Simulates() && worker.Awake? && (!accepting || queue != [])
      modifies this
      ensures Simulates() && joinable == old(joinable) && calls == old(calls)
      ensures job.None? <==> old(queue) == []
      ensures job.None? ==> machine == old(machine).(worker := Exited)
      ensures job.Some? ==> old(queue)[0] == job.value && machine == AfterTake(old(machine))
    {
      OneStep(cfg, machine, WorkerCheck);
      RunReachable(cfg, machine, [WorkerCheck]);
      machine := Apply(cfg, machine, WorkerCheck);
      if !accepting && queue == [] {
        worker := Exited;
        return None;
      }
      job := Some(queue[0]);
      worker, queue := Holding(queue[0]), queue[1..];
    }

    /** The rest of one round of worker_loop: both deadline checks, the backend and the callback. */
    method RunJob(job: Job, now: int, turn: Turn) returns (later: int, cause: Cause)
      requires Simulates() && worker == Holding(job) && now == machine.now
      modifies this
      ensures Simulates() && joinable == old(joinable) && calls == old(calls)
      ensures machine == AfterRound(old(machine), job, turn)
      ensures later == machine.now && cause == CauseOf(job, now, turn)
      ensures active == old(active) && expired == old(expired) + (if cause.QueueTimeout? then 1 else 0)
    {
      ghost var steps := RoundRuns(cfg, machine, job, turn);
      RunReachable(cfg, machine, steps);
      machine := AfterRound(machine, job, turn);
      worker := Awake;
      later := now + turn.wait;
      if later >= job.deadline {
        expired := expired + 1;
        cause := QueueTimeout;
        return;
      }
      active := active + 1;
      later := later + turn.work;
      match turn.reply {
        case Failure(what) => cause := BackendError(what);
        case Result(result) =>
          if later >= job.deadline {
            cause := Overrun;
          } else {
            cause := Served(result);
          }
      }
      active := active - 1;
    }

    /** worker_loop() from its top, until it returns or blocks in cv_.wait. */
    method WorkerLoop(now: int, world: nat -> Turn, first: nat) returns (later: int)
      requires Simulates() && worker.Awake? && now == machine.now
      modifies this
      ensures Simulates() && joinable == old(joinable) && calls == old(calls)
      ensures machine == AfterDrain(old(machine), world, first) && later == machine.now
    {
      var round := first;
      later := now;
      ghost var end := AfterDrain(machine, world, first);
      while !accepting || queue != []
        invariant Simulates() && worker.Awake? && later == machine.now && joinable == old(joinable)
        invariant calls == old(calls)
        invariant AfterDrain(machine, world, round) == end
        decreases |queue|
      {
        DrainUnfolds(machine, world, round);
        var job := TakeJob();
        if job.None? {
          return;
        }
        var cause;
        later, cause := RunJob(job.value, later, world(round));
        round := round + 1;
      }
      DrainUnfolds(machine, world, round);
      FallAsleep();
    }

    /** cv_.wait, when there is nothing to do. */
    method FallAsleep()
      requires Simulates() && worker.Awake? && accepting && queue == []
      modifies this
      ensures Simulates() && joinable == old(joinable) && calls == old(calls)
      ensures machine == old(machine).(worker := Asleep)
    {
      OneStep(cfg, machine, WorkerCheck);
      RunReachable(cfg, machine, [WorkerCheck]);
      machine := Apply(cfg, machine, WorkerCheck);
      worker := Asleep;
    }

    /** One step of the worker thread, wherever it is, taken while no call is in the pool. */
    method Advance(now: int, turn: Turn)
      requires Valid() && machine.now <= now && RunStarted(machine)
      modifies this
      ensures Valid() && joinable == old(joinable) && calls == old(calls)
      ensures machine == AfterWork(cfg, old(machine), now, turn)
    {
      WorkKeeps(cfg, machine, now, turn);
      WorkReachable(cfg, machine, now, turn);
      ghost var t := AfterWork(cfg, machine, now, turn);
      if MidJob(worker) {
        AdvanceJob(now, turn);
      } else if worker.Asleep? {
        worker := Awake;
      } else if worker.Awake? {
        if accepting && queue == [] {
          worker := Asleep;
        } else if queue == [] {
          worker := Exited;
        } else {
          worker, queue := Holding(queue[0]), queue[1..];
        }
      }
      machine := t;
    }

    /** One step of a worker that holds a job. */
    method AdvanceJob(now: int, turn: Turn)
      requires RunStarted(machine) && MidJob(worker)
      requires machine.worker == worker && machine.active == active && machine.expired == expired
      modifies this`worker, this`active, this`expired
      ensures var t := AfterWork(cfg, machine, now, turn);
        t.worker == worker && t.active == active && t.expired == expired
    {
      match worker {
        case Holding(job) =>
          if now >= job.deadline {
            expired := expired + 1;
            worker := Answering(job, QueueTimeout, now);
          } else {
            active := active + 1;
            worker := Inferring(job);
          }
        case Inferring(job) =>
          match turn.reply {
            case Failure(what) => worker := Answering(job, BackendError(what), now);
            case Result(result) => worker := Obtained(job, result);
          }
        case Obtained(job, result) =>
          worker := Answering(job, if now >= job.deadline then Overrun else Served(result), now);
        case Answering(job, cause, _) => worker := if cause.QueueTimeout? then Awake else Leaving;
        case Leaving =>
          active := active - 1;
          worker := Awake;
      }
    }

    /** The same step, for a worker inside a round. */
    method AdvanceTo(now: int, turn: Turn)
      requires Valid() && machine.now <= now && RunStarted(machine)
      modifies this
      ensures Valid() && joinable == old(joinable) && calls == old(calls)
      ensures machine == AfterWork(cfg, old(machine), now, turn) && machine.now == now
    {
      WorkKeeps(cfg, machine, now, turn);
      Advance(now, turn);
    }

    /** The worker thread finishes the round it is in, step by step. */
    method FinishRound(now: int, turn: Turn) returns (later: int)
      requires Valid() && machine.now == now && RunStarted(machine)
      modifies this
      ensures Valid() && joinable == old(joinable) && calls == old(calls)
      ensures machine == AfterRest(old(machine), turn) && later == machine.now
      decreases Stage(worker)
    {
      later := now;
      RestEnds(machine, turn);
      if MidJob(worker) {
        WorkIsRest(cfg, machine, turn);
        later := now + Pause(worker, turn);
        AdvanceTo(later, turn);
        later := FinishRound(later, turn);
      }
    }

    /** shutdown(): clear the flag, notify, and join the worker, which finishes its round if it is in one and then
        runs its loop to the end. */
    method Shutdown(now: int, world: nat -> Turn) returns (later: int)
      requires Valid() && machine.now <= now
      modifies this
      ensures Valid() && Drained() && later == machine.now && later >= now
      ensures machine.accepted == old(machine.accepted) && active == 0
      ensures RunStarted(old(machine))
      ensures machine == AfterShutdown(old(machine), now, world).(callers := old(machine.callers) + [Joined])
      ensures old(worker).Exited? ==>
        machine == old(machine).(now := now, callers := old(machine.callers) + [Joined])
    {
      ghost var s, c := machine, calls;
      FlagReachable(cfg, s, now);
      ShutdownEnds(s, now, world);
      calls, accepting, later := calls + 1, false, now;
      machine := AfterShutdownFlag(s, now);
      worker := Notified(worker);
      if joinable {
        later := Join(now, world);
        joinable := false;
      }
      JoinReachable(cfg, machine, c);
      machine := machine.(callers := machine.callers[c := Joined]);
    }

    /** worker_.join(): the thread runs on to its end. */
    method Join(now: int, world: nat -> Turn) returns (later: int)
      requires Valid() && machine.now == now && !accepting && !worker.Asleep? && RunStarted(machine)
      modifies this
      ensures Simulates() && joinable == old(joinable) && calls == old(calls) && worker.Exited?
      ensures machine == AfterDrain(AfterRest(old(machine), world(0)), world, 1) && later == machine.now
    {
      RestKeeps(machine, world(0));
      if worker.Exited? {
        ExitedMeansDrained(cfg, machine);
      }
      DrainEmpties(AfterRest(machine, world(0)), world, 1);
      later := FinishRound(now, world(0));
      if !worker.Exited? {
        later := WorkerLoop(later, world, 1);
      }
    }
  }
}
