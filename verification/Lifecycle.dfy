/** The server around the pool, as a step machine: one thread calls initialize() and shutdown(), while handlers
    submit, workers work and callbacks run, interleaved with it in any order.

    Entry k of `pools` is the k-th pool that the server made; pool_ points to the last one. Each pool has its own
    clock here, so the runs are those of the program and more.
 */
module Lifecycle {
  import opened Basics
  import opened PoolMachine
  import opened PoolInvariants
  import opened PoolTheorems

  datatype Phase =
    | Outside            // the lifecycle thread is in neither call
    | Closing(c: nat)    // in shutdown(): it is call c of the current pool's shutdown()
    | Replacing(c: nat)  // in initialize(): it is call c of shutdown() in the destructor of the pool before

  datatype Server = Server(initialized: bool, pools: seq<State>, phase: Phase)

  datatype Setup = Setup(cfg: Config, hasBackend: bool)

  const START := Server(false, [], Outside)

  datatype Move =
    | Initialize(backendReady: bool, now: int)
    | Shutdown
    | Work(k: nat, step: Step)  // a step of pool k
    | Return                    // the pool's shutdown() has come back

  /** The pool that the lifecycle thread is in. */
  function Target(v: Server): int {
    if v.phase.Replacing? then |v.pools| - 2 else |v.pools| - 1
  }

  /** Call d of pool k is the lifecycle thread. */
  predicate IsLifecycle(v: Server, k: nat, d: nat) {
    !v.phase.Outside? && k == Target(v) && d == v.phase.c
  }

  /** Only the lifecycle thread shuts pools down, and it submits nothing. */
  predicate Permitted(v: Server, k: nat, step: Step) {
    match step
    case ShutdownStore(d) => IsLifecycle(v, k, d)
    case SubmitStamp(d, _) => !IsLifecycle(v, k, d)
    case _ => true
  }

  predicate CanMove(e: Setup, v: Server, move: Move) {
    match move
    case Initialize(_, _) => v.phase.Outside?
    case Shutdown => v.phase.Outside? && (v.initialized ==> v.pools != [])
    case Work(k, step) => k < |v.pools| && Permitted(v, k, step) && Enabled(e.cfg, v.pools[k], step)
    case Return => !v.phase.Outside? && 0 <= Target(v) && At(v.pools[Target(v)], v.phase.c, Joined)
  }

  /** A thread arrives at the last pool made so far. */
  function Arrived(e: Setup, pools: seq<State>): seq<State>
    requires pools != []
  {
    pools[|pools| - 1 := Apply(e.cfg, pools[|pools| - 1], Arrive)]
  }

  predicate Starts(e: Setup, v: Server, backendReady: bool) {
    !v.initialized && e.hasBackend && backendReady && ValidConfig(e.cfg)
  }

  function Perform(e: Setup, v: Server, move: Move): Server
    requires CanMove(e, v, move)
  {
    match move
    case Initialize(backendReady, now) =>
      if !Starts(e, v, backendReady) then v
      else if v.pools == [] then Server(true, [Initial(now)], Outside)
      else Server(false, Arrived(e, v.pools) + [Initial(now)], Replacing(|v.pools[|v.pools| - 1].callers|))
    case Shutdown =>
      if !v.initialized then v
      else Server(true, Arrived(e, v.pools), Closing(|v.pools[|v.pools| - 1].callers|))
    case Work(k, step) => v.(pools := v.pools[k := Apply(e.cfg, v.pools[k], step)])
    case Return => v.(initialized := v.phase.Replacing?, phase := Outside)
  }

  predicate ValidMoves(e: Setup, v: Server, moves: seq<Move>)
    decreases moves
  {
    moves == [] || (CanMove(e, v, moves[0]) && ValidMoves(e, Perform(e, v, moves[0]), moves[1..]))
  }

  function PerformAll(e: Setup, v: Server, moves: seq<Move>): Server
    requires ValidMoves(e, v, moves)
    decreases moves
  {
    if moves == [] then v else PerformAll(e, Perform(e, v, moves[0]), moves[1..])
  }

  // ---------------------------------------------------------------- what every move keeps

  /** Shut down and drained for good. */
  predicate Finished(s: State) {
    !s.accepting && s.worker.Exited?
  }

  /** Where the lifecycle thread can be inside a pool's shutdown(). */
  predicate InShutdown(caller: Caller) {
    caller.Fresh? || ShutdownCaller(caller)
  }

  /** The current pool accepts until it is shut down; every other pool is finished. */
  predicate InOrder(v: Server) {
    && (forall k {:trigger v.pools[k]} | 0 <= k < |v.pools| - 1 :: Finished(v.pools[k]))
    && (v.phase.Outside? && v.initialized ==> v.pools != [] && v.pools[|v.pools| - 1].accepting)
    && (v.phase.Outside? && !v.initialized && v.pools != [] ==> Finished(v.pools[|v.pools| - 1]))
    && (v.phase.Closing? ==> v.initialized && v.pools != [])
    && (v.phase.Replacing? ==> !v.initialized && |v.pools| >= 2 && v.pools[|v.pools| - 1].accepting)
    && (!v.phase.Outside? ==> CanBeAt(v.pools[Target(v)], v.phase.c))
  }

  predicate CanBeAt(s: State, c: nat) {
    c < |s.callers| && InShutdown(s.callers[c])
  }

  ghost predicate AllInv(e: Setup, pools: seq<State>) {
    forall k {:trigger pools[k]} | 0 <= k < |pools| :: Inv(e.cfg, pools[k])
  }

  ghost predicate LifecycleInv(e: Setup, v: Server) {
    AllInv(e, v.pools) && InOrder(v)
  }

  lemma FinishedStep(cfg: Config, s: State, step: Step)
    requires Enabled(cfg, s, step) && ShutdownOrder(s) && Finished(s)
    ensures Finished(Apply(cfg, s, step))
  {
  }

  lemma AcceptingStep(cfg: Config, s: State, step: Step)
    requires Enabled(cfg, s, step)
    ensures Apply(cfg, s, step).accepting == (s.accepting && !step.ShutdownStore?)
  {
  }

  lemma LifecycleCallStep(cfg: Config, s: State, step: Step, c: nat)
    requires Enabled(cfg, s, step) && CanBeAt(s, c) && !(step.SubmitStamp? && step.c == c)
    ensures CanBeAt(Apply(cfg, s, step), c)
  {
  }

  lemma WorkKeepsOrder(e: Setup, v: Server, k: nat, step: Step)
    requires InOrder(v) && CanMove(e, v, Work(k, step)) && ShutdownOrder(v.pools[k])
    ensures InOrder(Perform(e, v, Work(k, step)))
  {
    var s := v.pools[k];
    AcceptingStep(e.cfg, s, step);
    if Finished(s) {
      FinishedStep(e.cfg, s, step);
    }
    if !v.phase.Outside? && k == Target(v) {
      LifecycleCallStep(e.cfg, s, step, v.phase.c);
    }
  }

  lemma ArrivedIs(e: Setup, pools: seq<State>)
    requires pools != []
    ensures var s, all := pools[|pools| - 1], Arrived(e, pools);
      && |all| == |pools| && all == pools[|pools| - 1 := all[|pools| - 1]]
      && all[|pools| - 1] == s.(callers := s.callers + [Fresh])
  {
  }

  lemma InitializeKeepsOrder(e: Setup, v: Server, backendReady: bool, now: int)
    requires InOrder(v) && CanMove(e, v, Initialize(backendReady, now))
    ensures InOrder(Perform(e, v, Initialize(backendReady, now)))
  {
    if Starts(e, v, backendReady) && v.pools != [] {
      ArrivedIs(e, v.pools);
    }
  }

  /** The lifecycle thread has come back, so its pool is finished. */
  lemma JoinedMeansFinished(s: State, c: nat)
    requires ShutdownOrder(s) && At(s, c, Joined)
    ensures Finished(s)
  {
    assert ShutdownCaller(s.callers[c]);
  }

  lemma MoveKeepsOrder(e: Setup, v: Server, move: Move)
    requires LifecycleInv(e, v) && CanMove(e, v, move)
    ensures InOrder(Perform(e, v, move))
  {
    match move
    case Initialize(backendReady, now) => InitializeKeepsOrder(e, v, backendReady, now);
    case Shutdown =>
      if v.initialized {
        ArrivedIs(e, v.pools);
      }
    case Work(k, step) => WorkKeepsOrder(e, v, k, step);
    case Return => JoinedMeansFinished(v.pools[Target(v)], v.phase.c);
  }

  lemma ArrivedKeepsInv(e: Setup, pools: seq<State>)
    requires pools != [] && AllInv(e, pools)
    ensures AllInv(e, Arrived(e, pools))
  {
    InvStep(e.cfg, pools[|pools| - 1], Arrive);
  }

  lemma NewPoolKeepsInv(e: Setup, pools: seq<State>, now: int)
    requires ValidConfig(e.cfg) && AllInv(e, pools)
    ensures AllInv(e, pools + [Initial(now)])
  {
    InvInitial(e.cfg, now);
  }

  lemma WorkKeepsInv(e: Setup, v: Server, k: nat, step: Step)
    requires AllInv(e, v.pools) && CanMove(e, v, Work(k, step))
    ensures AllInv(e, Perform(e, v, Work(k, step)).pools)
  {
    InvStep(e.cfg, v.pools[k], step);
  }

  lemma MoveKeepsInv(e: Setup, v: Server, move: Move)
    requires AllInv(e, v.pools) && CanMove(e, v, move)
    ensures AllInv(e, Perform(e, v, move).pools)
  {
    match move
    case Initialize(backendReady, now) =>
      if Starts(e, v, backendReady) {
        if v.pools == [] {
          NewPoolKeepsInv(e, v.pools, now);
          assert v.pools + [Initial(now)] == [Initial(now)];
        } else {
          ArrivedKeepsInv(e, v.pools);
          NewPoolKeepsInv(e, Arrived(e, v.pools), now);
        }
      }
    case Shutdown =>
      if v.initialized {
        ArrivedKeepsInv(e, v.pools);
      }
    case Work(k, step) => WorkKeepsInv(e, v, k, step);
    case Return =>
  }

  lemma {:induction false} LifecycleInvRun(e: Setup, v: Server, moves: seq<Move>)
    requires LifecycleInv(e, v) && ValidMoves(e, v, moves)
    ensures LifecycleInv(e, PerformAll(e, v, moves))
    decreases moves
  {
    if moves != [] {
      MoveKeepsInv(e, v, moves[0]);
      MoveKeepsOrder(e, v, moves[0]);
      LifecycleInvRun(e, Perform(e, v, moves[0]), moves[1..]);
    }
  }

  // ---------------------------------------------------------------- results

  /** Every accepted job has been answered, in order, and there will be no more. */
  predicate Drained(s: State) {
    !s.accepting && s.queue == [] && s.worker.Exited? && s.active == 0 && s.accepted == JobsOf(s.attempts)
  }

  lemma FinishedIsDrained(cfg: Config, s: State)
    requires Inv(cfg, s) && Finished(s)
    ensures Drained(s)
  {
  }

  /** Over every run: whenever the server is shut down, that is, before the first initialize() and after every
      shutdown() that has returned, no job that any of its pools ever accepted is left unanswered. At any time all
      pools but the current one are drained, so that there is at most one worker. Outside of its calls the server
      is initialized exactly when its current pool accepts. */
  lemma ShutdownLeavesNothing(e: Setup, moves: seq<Move>)
    requires ValidMoves(e, START, moves)
    ensures var v := PerformAll(e, START, moves);
      && (v.phase.Outside? && !v.initialized ==> forall k | 0 <= k < |v.pools| :: Drained(v.pools[k]))
      && (forall k | 0 <= k < |v.pools| - 1 :: Drained(v.pools[k]))
      && (v.phase.Outside? ==> (v.initialized <==> v.pools != [] && v.pools[|v.pools| - 1].accepting))
  {
    LifecycleInvRun(e, START, moves);
    var v := PerformAll(e, START, moves);
    forall k | 0 <= k < |v.pools| && Finished(v.pools[k])
      ensures Drained(v.pools[k])
    {
      FinishedIsDrained(e.cfg, v.pools[k]);
    }
  }

  /** Nothing is forgotten: pools are never lost, and neither is what they accepted or answered. */
  predicate Remembers(v: Server, w: Server) {
    && |v.pools| <= |w.pools|
    && forall k {:trigger w.pools[k]} | 0 <= k < |v.pools| ::
         v.pools[k].accepted <= w.pools[k].accepted && v.pools[k].attempts <= w.pools[k].attempts
  }

  lemma StepRemembers(cfg: Config, s: State, step: Step)
    requires Enabled(cfg, s, step)
    ensures var t := Apply(cfg, s, step); s.accepted <= t.accepted && s.attempts <= t.attempts
  {
  }

  lemma {:induction false} NothingIsForgotten(e: Setup, v: Server, moves: seq<Move>)
    requires ValidMoves(e, v, moves)
    ensures Remembers(v, PerformAll(e, v, moves))
    decreases moves
  {
    if moves != [] {
      var w := Perform(e, v, moves[0]);
      if moves[0].Work? {
        StepRemembers(e.cfg, v.pools[moves[0].k], moves[0].step);
      }
      assert Remembers(v, w);
      NothingIsForgotten(e, w, moves[1..]);
    }
  }

  // ---------------------------------------------------------------- what the last call leads to

  /** Where the lifecycle thread is heading: it is initialized or not, or will be when its call has returned. */
  predicate Heads(v: Server, initialized: bool) {
    match v.phase
    case Outside => v.initialized == initialized
    case Closing(_) => !initialized
    case Replacing(_) => initialized
  }

  /** Only the two calls change the heading. */
  lemma {:induction false} KeepsHeading(e: Setup, v: Server, moves: seq<Move>, initialized: bool)
    requires ValidMoves(e, v, moves) && Heads(v, initialized)
    requires forall m | m in moves :: !LifecycleCall(m)
    ensures Heads(PerformAll(e, v, moves), initialized)
    decreases moves
  {
    if moves != [] {
      assert moves[0] in moves;
      KeepsHeading(e, Perform(e, v, moves[0]), moves[1..], initialized);
    }
  }

  /** A server whose last call was shutdown() and that has come to rest is down, with every pool it ever made
      drained. */
  lemma {:induction false} ShutdownShutsDown(e: Setup, before: seq<Move>, after: seq<Move>)
    requires ValidMoves(e, START, before) && CanMove(e, PerformAll(e, START, before), Shutdown)
    requires ValidMoves(e, Perform(e, PerformAll(e, START, before), Shutdown), after)
    requires forall m | m in after :: !LifecycleCall(m)
    requires AtRest(e, PerformAll(e, Perform(e, PerformAll(e, START, before), Shutdown), after))
    ensures var v := PerformAll(e, Perform(e, PerformAll(e, START, before), Shutdown), after);
      !v.initialized && v.phase.Outside? && forall k | 0 <= k < |v.pools| :: Drained(v.pools[k])
  {
    var u := PerformAll(e, START, before);
    LifecycleInvRun(e, START, before);
    MoveKeepsInv(e, u, Shutdown);
    MoveKeepsOrder(e, u, Shutdown);
    var v := PerformAll(e, Perform(e, u, Shutdown), after);
    ComesToRest(e, Perform(e, u, Shutdown), after, false, v);
    OutsideIsOrderly(e, v);
  }

  /** A server whose last call was initialize() and that has come to rest is up exactly when it was up before, or its
      backend exists and is ready and both limits are at least one; and if it came up, it accepts in a pool of its
      own. */
  lemma {:induction false} InitializeInitializes(e: Setup, before: seq<Move>, backendReady: bool, now: int,
                                                 after: seq<Move>)
    requires ValidMoves(e, START, before) && CanMove(e, PerformAll(e, START, before), Initialize(backendReady, now))
    requires ValidMoves(e, Perform(e, PerformAll(e, START, before), Initialize(backendReady, now)), after)
    requires forall m | m in after :: !LifecycleCall(m)
    requires AtRest(e, PerformAll(e, Perform(e, PerformAll(e, START, before), Initialize(backendReady, now)), after))
    ensures var u := PerformAll(e, START, before);
      var v := PerformAll(e, Perform(e, u, Initialize(backendReady, now)), after);
      && v.phase.Outside?
      && (v.initialized <==>
            u.initialized || (e.hasBackend && backendReady && e.cfg.maxDepth >= 1 && e.cfg.timeout >= 1))
      && |v.pools| == |u.pools| + (if v.initialized && !u.initialized then 1 else 0)
      && (v.initialized ==> v.pools != [] && v.pools[|v.pools| - 1].accepting)
  {
    var u := PerformAll(e, START, before);
    var move := Initialize(backendReady, now);
    LifecycleInvRun(e, START, before);
    MoveKeepsInv(e, u, move);
    MoveKeepsOrder(e, u, move);
    var v := PerformAll(e, Perform(e, u, move), after);
    ComesToRest(e, Perform(e, u, move), after, u.initialized || Starts(e, u, backendReady), v);
    OutsideIsOrderly(e, v);
    KeepsPools(e, Perform(e, u, move), after);
  }

  lemma {:induction false} KeepsPools(e: Setup, v: Server, moves: seq<Move>)
    requires ValidMoves(e, v, moves) && forall m | m in moves :: !LifecycleCall(m)
    ensures |PerformAll(e, v, moves).pools| == |v.pools|
    decreases moves
  {
    if moves != [] {
      assert moves[0] in moves;
      KeepsPools(e, Perform(e, v, moves[0]), moves[1..]);
    }
  }

  lemma {:induction false} OutsideIsOrderly(e: Setup, w: Server)
    requires LifecycleInv(e, w) && w.phase.Outside?
    ensures !w.initialized ==> forall k | 0 <= k < |w.pools| :: Drained(w.pools[k])
    ensures w.initialized ==> w.pools != [] && w.pools[|w.pools| - 1].accepting
  {
    forall k | 0 <= k < |w.pools| && Finished(w.pools[k])
      ensures Drained(w.pools[k])
    {
      FinishedIsDrained(e.cfg, w.pools[k]);
    }
  }

  lemma {:induction false} ComesToRest(e: Setup, v: Server, after: seq<Move>, initialized: bool, w: Server)
    requires LifecycleInv(e, v) && Heads(v, initialized) && ValidMoves(e, v, after)
    requires (forall m | m in after :: !LifecycleCall(m)) && w == PerformAll(e, v, after)
    ensures LifecycleInv(e, w) && (AtRest(e, w) ==> w.phase.Outside? && w.initialized == initialized)
  {
    LifecycleInvRun(e, v, after);
    KeepsHeading(e, v, after, initialized);
    if AtRest(e, w) {
      LifecycleAtRest(e, w);
    }
  }

  // ---------------------------------------------------------------- the calls come to an end

  /** What the server's own threads owe. */
  predicate Owed(move: Move) {
    move.Return? || (move.Work? && IsOwed(move.step))
  }

  predicate LifecycleCall(move: Move) { move.Initialize? || move.Shutdown? }

  predicate Arrival(move: Move) { move.Work? && move.step.Arrive? }

  predicate Disturbance(move: Move) { move.Work? && move.step.Spurious? }

  function PoolPotential(s: State): nat { Potential(s) }

  /** An upper bound on the moves still owed. */
  function Effort(v: Server): nat {
    Sum(v.pools, PoolPotential) + (if v.phase.Outside? then 0 else 1)
  }

  function Tally(yes: bool): nat { if yes then 1 else 0 }

  lemma ArrivedEffort(e: Setup, pools: seq<State>)
    requires pools != []
    ensures Sum(Arrived(e, pools), PoolPotential) <= Sum(pools, PoolPotential) + 20
  {
    var last := |pools| - 1;
    PotentialStep(e.cfg, pools[last], Arrive);
    SumUpdate(pools, last, Arrived(e, pools)[last], PoolPotential);
  }

  lemma StartEffort(now: int)
    ensures Potential(Initial(now)) == 2 && Sum([Initial(now)], PoolPotential) == 2
  {
    assert [Initial(now)][..0] == [];
  }

  lemma EffortMove(e: Setup, v: Server, move: Move)
    requires CanMove(e, v, move)
    ensures Effort(Perform(e, v, move)) + Tally(Owed(move))
         <= Effort(v) + 23 * Tally(LifecycleCall(move)) + 20 * Tally(Arrival(move)) + Tally(Disturbance(move))
  {
    match move
    case Initialize(backendReady, now) =>
      if Starts(e, v, backendReady) {
        StartEffort(now);
        if v.pools != [] {
          ArrivedEffort(e, v.pools);
          SumAppend(Arrived(e, v.pools), Initial(now), PoolPotential);
        }
      }
    case Shutdown =>
      if v.initialized {
        ArrivedEffort(e, v.pools);
      }
    case Work(k, step) =>
      PotentialStep(e.cfg, v.pools[k], step);
      SumUpdate(v.pools, k, Apply(e.cfg, v.pools[k], step), PoolPotential);
    case Return =>
  }

  /** The server's threads never run on their own for ever. */
  lemma {:induction false} OwedMovesBounded(e: Setup, v: Server, moves: seq<Move>)
    requires ValidMoves(e, v, moves)
    ensures Count(moves, Owed) + Effort(PerformAll(e, v, moves))
         <= Effort(v) + 23 * Count(moves, LifecycleCall) + 20 * Count(moves, Arrival) + Count(moves, Disturbance)
    decreases moves
  {
    if moves != [] {
      EffortMove(e, v, moves[0]);
      CountFirst(moves, Owed);
      CountFirst(moves, LifecycleCall);
      CountFirst(moves, Arrival);
      CountFirst(moves, Disturbance);
      OwedMovesBounded(e, Perform(e, v, moves[0]), moves[1..]);
    }
  }

  ghost predicate AtRest(e: Setup, v: Server) {
    forall move: Move | Owed(move) :: !CanMove(e, v, move)
  }

  /** A fresh call can always go on, one way or the other; so a pool at rest has nothing to do at all. */
  lemma AtRestIsQuiescent(e: Setup, v: Server, k: nat)
    requires AtRest(e, v) && k < |v.pools|
    ensures Quiescent(e.cfg, v.pools[k])
  {
    forall step: Step | IsOwed(step)
      ensures !Enabled(e.cfg, v.pools[k], step)
    {
      assert Owed(Work(k, step));
      if step.ShutdownStore? {
        assert Owed(Work(k, SubmitStamp(step.c, Job(step.c, Request("", "", "", "", 0.0), 0, true, true))));
      } else if step.SubmitStamp? {
        assert Owed(Work(k, ShutdownStore(step.c)));
      }
    }
  }

  /** At rest the calls of a pool are over, the lifecycle thread's among them. */
  lemma PoolAtRest(e: Setup, v: Server, k: nat)
    requires AllInv(e, v.pools) && AtRest(e, v) && k < |v.pools|
    ensures var s := v.pools[k];
      && s.accepted == JobsOf(s.attempts) && s.queue == [] && s.worker == (if s.accepting then Asleep else Exited)
      && forall c: nat {:trigger s.callers[c]} | CanBeAt(s, c) :: s.callers[c].Joined?
  {
    AtRestIsQuiescent(e, v, k);
    QuiescentMeansDone(e.cfg, v.pools[k]);
  }

  lemma LifecycleAtRest(e: Setup, v: Server)
    requires LifecycleInv(e, v) && AtRest(e, v)
    ensures v.phase.Outside?
  {
    assert Owed(Return);
    if !v.phase.Outside? {
      PoolAtRest(e, v, Target(v));
    }
  }

  /** When nothing is owed any more, initialize() and shutdown() have returned, and so have all calls in all pools;
      everything accepted has been answered; and a worker is left only in the pool of a server that is up. */
  lemma EveryCallReturns(e: Setup, moves: seq<Move>)
    requires ValidMoves(e, START, moves) && AtRest(e, PerformAll(e, START, moves))
    ensures var v := PerformAll(e, START, moves);
      && v.phase.Outside?
      && forall k {:trigger v.pools[k]} | 0 <= k < |v.pools| ::
           && v.pools[k].accepted == JobsOf(v.pools[k].attempts) && v.pools[k].queue == []
           && v.pools[k].worker == (if v.initialized && k == |v.pools| - 1 then Asleep else Exited)
  {
    LifecycleInvRun(e, START, moves);
    var v := PerformAll(e, START, moves);
    LifecycleAtRest(e, v);
    forall k {:trigger v.pools[k]} | 0 <= k < |v.pools|
      ensures v.pools[k].accepted == JobsOf(v.pools[k].attempts) && v.pools[k].queue == []
      ensures v.pools[k].worker == (if v.initialized && k == |v.pools| - 1 then Asleep else Exited)
    {
      PoolAtRest(e, v, k);
    }
  }
}
