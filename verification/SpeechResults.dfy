/** What the service promises its clients and its operators, over every run. */
module SpeechResults {
  import opened Basics
  import opened PoolMachine
  import opened PoolInvariants
  import opened Validation
  import opened SpeechService
  import opened SpeechTheorems
  import PoolTheorems

  ghost predicate ServiceReachable(e: Setup, v: Service) {
    && ValidConfig(e.pool)
    && exists now: int, moves: seq<Move> :: ServiceRunTo(e, now, moves, v)
  }

  predicate ServiceRunTo(e: Setup, now: int, moves: seq<Move>, v: Service) {
    ValidMoves(e, Start(now), moves) && PerformAll(e, Start(now), moves) == v
  }

  lemma ServiceReachableInv(e: Setup, v: Service)
    requires ServiceReachable(e, v)
    ensures ServiceInv(e, v)
  {
    var now: int, moves: seq<Move> :| ServiceRunTo(e, now, moves, v);
    InvInitial(e.pool, now);
    ServiceInvRun(e, Start(now), moves);
  }

  /** A handler whose submit() returned true answers with the outcome of its own job and no other: 200 with
      that job's audio when on_success was run for it, 500 when on_error was. */
  lemma OwnAnswer(e: Setup, v: Service, h: nat)
    requires ServiceReachable(e, v)
    requires h < |v.handlers| == |v.pool.callers| && v.handlers[h].Done?
    ensures v.pool.callers[h].Accepted? <==> v.handlers[h].status in {200, 500}
    ensures v.pool.callers[h].Accepted? ==> Answered(v.pool.attempts, h)
    ensures forall k {:trigger v.pool.attempts[k]} | 0 <= k < |v.pool.attempts| && v.pool.attempts[k].job.id == h ::
      v.handlers[h] == match v.pool.attempts[k].cause
                       case Served(result) => Done(200, Some(result))
                       case _ => Done(500, None)
  {
    ServiceReachableInv(e, v);
    assert Agrees(v.handlers[h], v.pool.callers[h], v.slots[h]);
    assert SlotAgrees(v.slots[h], v.pool.attempts, h);
    forall k | 0 <= k < |v.pool.attempts| && v.pool.attempts[k].job.id == h
      ensures v.slots[h].ready && v.pool.callers[h].Accepted?
      ensures Holds(v.slots[h], v.pool.attempts[k].cause)
    {
      assert JobsOf(v.pool.attempts)[k] == v.pool.accepted[k];
      assert Submitted(v.pool.callers[h]);
    }
  }

  /** A handler refused without being queued: the pool holds no job of its, now or ever. */
  lemma RefusedLeavesNoJob(e: Setup, v: Service, h: nat)
    requires ServiceReachable(e, v)
    requires h < |v.handlers| && v.handlers[h].Done? && Refusal(v.handlers[h].status)
    ensures !HasId(v.pool.accepted, h)
  {
    ServiceReachableInv(e, v);
    assert Agrees(v.handlers[h], v.pool.callers[h], v.slots[h]);
  }

  /** Each finished call was counted once, under the status it returned; the gauge is the number of handlers
      between its increment and its decrement; errors are the calls that failed with 500. */
  lemma MetricsAddUp(e: Setup, v: Service)
    requires ServiceReachable(e, v)
    ensures v.requests == Statuses(v.handlers) && |v.requests| == Count(v.handlers, Finished)
    ensures v.gauge == Count(v.handlers, InFlight)
    ensures v.errors == Count(v.handlers, Failed) && v.requests[500] == Count(v.handlers, FinishedWith500)
  {
    ServiceReachableInv(e, v);
    StatusesSize(v.handlers);
    StatusesCount500(v.handlers);
  }

  /** Whatever sits in the pool passed every validator. */
  lemma OnlyWellFormedJobs(e: Setup, v: Service)
    requires ServiceReachable(e, v)
    ensures forall i {:trigger v.pool.accepted[i]} | 0 <= i < |v.pool.accepted| ::
      WellFormed(e.limits, v.pool.accepted[i].request)
    ensures forall k {:trigger v.pool.attempts[k]} | 0 <= k < |v.pool.attempts| ::
      v.pool.attempts[k].reaction != Absent
  {
    ServiceReachableInv(e, v);
    forall k | 0 <= k < |v.pool.attempts|
      ensures v.pool.attempts[k].reaction != Absent
    {
      assert JobsOf(v.pool.attempts)[k] == v.pool.accepted[k];
      assert Proper(e, v.pool.accepted[k]);
    }
  }

  // ---------------------------------------------------------------- every handler returns

  /** Moves that the service's own threads owe. */
  predicate Owed(move: Move) {
    match move
    case Call(_) => false
    case Stop => false
    case Wander(_) => false
    case Pool(step) => PoolTheorems.IsOwed(step)
    case _ => true
  }

  predicate Arrival(move: Move) { move.Call? || move.Stop? }

  predicate Disturbance(move: Move) { move.Wander? || (move.Pool? && move.step.Spurious?) }

  function HandlerWeight(handler: Handler): nat {
    match handler
    case Entered(_) => 12
    case Probing(_) => 11
    case Ready(_) => 10
    case Submitting(_) => 9
    case Waiting => 7
    case Woken => 6
    case Sleeping => 6
    case Settling => 5
    case Rejecting(_) => 1
    case Done(_, _) => 0
    case Stopping => 0
  }

  /** An upper bound on the moves still owed. */
  function Effort(v: Service): nat {
    PoolTheorems.Potential(v.pool) + Sum(v.handlers, HandlerWeight)
  }

  lemma EffortPool(e: Setup, v: Service, step: Step)
    requires Aligned(v) && CanMove(e, v, Pool(step))
    ensures PoolTheorems.IsOwed(step) ==> Effort(Perform(e, v, Pool(step))) < Effort(v)
    ensures !PoolTheorems.IsOwed(step) ==> Effort(Perform(e, v, Pool(step))) <= Effort(v) + Tally(step.Spurious?)
  {
    PoolTheorems.PotentialStep(e.pool, v.pool, step);
    if step.WorkerAnswer? {
      var id := v.pool.worker.job.id;
      if id < |v.handlers| {
        SumUpdate(v.handlers, id, Notify(v.handlers[id]), HandlerWeight);
      }
      var s := Apply(e.pool, v.pool, step);
      assert PoolTheorems.Potential(s) + 2 <= PoolTheorems.Potential(v.pool);
    }
  }

  lemma OwnMoveWeight(e: Setup, v: Service, move: Move)
    requires OwnMove(move) && Aligned(v) && CanMove(e, v, move)
    ensures var w := Perform(e, v, move);
      && w.pool == v.pool && w.handlers == v.handlers[move.h := w.handlers[move.h]]
      && HandlerWeight(w.handlers[move.h]) + 1 <= HandlerWeight(v.handlers[move.h]) + 2 * Tally(move.Wander?)
  {
  }

  lemma EffortMove(e: Setup, v: Service, move: Move)
    requires Aligned(v) && CanMove(e, v, move)
    ensures Owed(move) ==> Effort(Perform(e, v, move)) < Effort(v)
    ensures Effort(Perform(e, v, move)) <= Effort(v) + 32 * Tally(Arrival(move)) + Tally(Disturbance(move))
  {
    var w := Perform(e, v, move);
    if move.Call? || move.Stop? {
      PoolTheorems.PotentialStep(e.pool, v.pool, Arrive);
      SumAppend(v.handlers, w.handlers[|v.handlers|], HandlerWeight);
    } else if move.Pool? {
      EffortPool(e, v, move.step);
    } else {
      OwnMoveWeight(e, v, move);
      SumUpdate(v.handlers, move.h, w.handlers[move.h], HandlerWeight);
    }
  }

  /** The service never runs on its own for ever. */
  lemma {:induction false} OwedMovesBounded(e: Setup, v: Service, moves: seq<Move>)
    requires Aligned(v) && ValidMoves(e, v, moves)
    ensures Count(moves, Owed) + Effort(PerformAll(e, v, moves))
         <= Effort(v) + 32 * Count(moves, Arrival) + Count(moves, Disturbance)
    decreases moves
  {
    if moves != [] {
      EffortMove(e, v, moves[0]);
      CountFirst(moves, Owed);
      CountFirst(moves, Arrival);
      CountFirst(moves, Disturbance);
      OwedMovesBounded(e, Perform(e, v, moves[0]), moves[1..]);
    }
  }

  ghost predicate AtRest(e: Setup, v: Service)
    requires Aligned(v)
  {
    forall move: Move | Owed(move) :: !CanMove(e, v, move)
  }

  /** The step that a worker neither waiting nor gone owes. */
  function WorkerOwes(worker: Worker): Step {
    match worker
    case Holding(_) => WorkerPickup
    case Inferring(_) => BackendReturns(Synthesis([], 0))
    case Obtained(_, _) => WorkerRecheck
    case Answering(_, _, _) => WorkerAnswer(false)
    case Leaving => WorkerLeave
    case _ => WorkerCheck
  }

  lemma WorkerCanStep(e: Setup, v: Service)
    requires Aligned(v)
    requires v.pool.worker.Inferring? ==> v.pool.runs != []
    ensures v.pool.worker.Asleep? || v.pool.worker.Exited? || CanMove(e, v, Pool(WorkerOwes(v.pool.worker)))
    ensures Owed(Pool(WorkerOwes(v.pool.worker)))
  {
  }

  /** The step owed by a call that is between entering submit() or shutdown() and notifying. */
  function CallerOwes(caller: Caller, c: nat): Step {
    match caller
    case Stamped(_) => SubmitEnter(c)
    case Flagged => ShutdownNotify(c)
    case _ => SubmitNotify(c)
  }

  predicate Midway(caller: Caller) {
    caller.Stamped? || caller.Pushed? || caller.Flagged?
  }

  lemma CallerAtRest(e: Setup, v: Service, h: nat)
    requires Aligned(v) && AtRest(e, v) && h < |v.pool.callers|
    ensures !Midway(v.pool.callers[h])
  {
    assert Owed(Pool(CallerOwes(v.pool.callers[h], h)));
  }

  /** When nothing is owed any more, every handler has returned its response, every accepted job has been
      answered, and every shutdown has returned. */
  lemma EveryHandlerReturns(e: Setup, v: Service, h: nat)
    requires ServiceReachable(e, v) && AtRest(e, v)
    requires h < |v.handlers|
    ensures v.handlers[h].Done? || (v.handlers[h].Stopping? && v.pool.callers[h].Joined?)
    ensures v.pool.accepted == JobsOf(v.pool.attempts) && v.gauge == 0
    ensures v.errors == v.requests[500]
  {
    ServiceReachableInv(e, v);
    WorkerCanStep(e, v);
    forall g: nat | g < |v.handlers|
      ensures !Midway(v.pool.callers[g])
    {
      CallerAtRest(e, v, g);
    }
    PoolTheorems.IdleMeansAnswered(e.pool, v.pool);
    MetricsAddUp(e, v);
    forall g: nat | g < |v.handlers|
      ensures v.handlers[g].Done? || (v.handlers[g].Stopping? && v.pool.callers[g].Joined?)
    {
      HandlerAtRest(e, v, g);
    }
    NoneInFlight(v.handlers);
  }

  lemma {:induction false} NoneInFlight(handlers: seq<Handler>)
    requires forall g: nat {:trigger handlers[g]} | g < |handlers| :: handlers[g].Done? || handlers[g].Stopping?
    ensures Count(handlers, InFlight) == 0
    ensures Count(handlers, Failed) == Count(handlers, FinishedWith500)
  {
    if handlers != [] {
      NoneInFlight(handlers[..|handlers| - 1]);
    }
  }

  lemma HandlerAtRest(e: Setup, v: Service, h: nat)
    requires ServiceInv(e, v) && AtRest(e, v) && h < |v.handlers|
    requires v.pool.accepted == JobsOf(v.pool.attempts) && (!v.pool.accepting ==> v.pool.worker.Exited?)
    ensures v.handlers[h].Done? || (v.handlers[h].Stopping? && v.pool.callers[h].Joined?)
  {
    assert Agrees(v.handlers[h], v.pool.callers[h], v.slots[h]);
    CallerAtRest(e, v, h);
    SleeperWaitsForAnswer(e, v, h);
    assert ShutdownCaller(v.pool.callers[h]) ==> !v.pool.accepting;
    HandlerCanMove(e, v, h);
  }

  /** The move that a handler owes next. */
  function HandlerOwes(handler: Handler, caller: Caller, h: nat): Move {
    match handler
    case Entered(_) => Validate(h)
    case Probing(_) => Probe(h)
    case Ready(_) => Raise(h)
    case Submitting(r) => if caller.Fresh? then Pool(SubmitStamp(h, Job(h, r, 0, true, true))) else Return(h)
    case Waiting => Test(h)
    case Woken => Lower(h)
    case Settling => Settle(h)
    case Stopping => if caller.Fresh? then Pool(ShutdownStore(h)) else Pool(ShutdownJoin(h))
    case _ => Decline(h)
  }

  lemma HandlerCanMove(e: Setup, v: Service, h: nat)
    requires Aligned(v) && h < |v.handlers|
    requires Agrees(v.handlers[h], v.pool.callers[h], v.slots[h]) && !Midway(v.pool.callers[h])
    requires ShutdownCaller(v.pool.callers[h]) ==> v.pool.worker.Exited?
    ensures || v.handlers[h].Done? || v.handlers[h].Sleeping?
            || (v.handlers[h].Stopping? && v.pool.callers[h].Joined?)
            || CanMove(e, v, HandlerOwes(v.handlers[h], v.pool.callers[h], h))
    ensures Owed(HandlerOwes(v.handlers[h], v.pool.callers[h], h))
  {
  }

  /** A sleeping handler sleeps because its job has not been answered. */
  lemma SleeperWaitsForAnswer(e: Setup, v: Service, h: nat)
    requires ServiceInv(e, v) && h < |v.handlers|
    ensures v.handlers[h].Sleeping? ==> v.pool.accepted != JobsOf(v.pool.attempts)
  {
    assert Agrees(v.handlers[h], v.pool.callers[h], v.slots[h]);
    assert SlotAgrees(v.slots[h], v.pool.attempts, h);
    assert Submitted(v.pool.callers[h]) ==> HasId(v.pool.accepted, h);
    assert HasId(JobsOf(v.pool.attempts), h) ==> Answered(v.pool.attempts, h) by {
      if HasId(JobsOf(v.pool.attempts), h) {
        var i :| 0 <= i < |JobsOf(v.pool.attempts)| && JobsOf(v.pool.attempts)[i].id == h;
        assert v.pool.attempts[i].job.id == h;
      }
    }
  }
}
