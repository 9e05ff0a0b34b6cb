/** Every handler gets its own answer, the metrics add up, and the pool only sees well-formed requests. */
module SpeechTheorems {
  import opened Basics
  import opened PoolMachine
  import opened PoolInvariants
  import opened Validation
  import opened SpeechService

  predicate Refusal(status: int) { status in {400, 413, 503} }

  /** The pool never took a job of this call. */
  predicate Untouched(caller: Caller) { caller.Fresh? || caller.Refused? }

  /** What handler h has got to, seen from its call of submit() and its slot. */
  predicate Agrees(handler: Handler, caller: Caller, slot: Slot) {
    match handler
    case Entered(_) => caller.Fresh?
    case Probing(_) => caller.Fresh?
    case Ready(_) => caller.Fresh?
    case Submitting(_) => !ShutdownCaller(caller)
    case Waiting => caller.Accepted?
    case Sleeping => caller.Accepted? && !slot.ready
    case Woken => caller.Accepted? && slot.ready
    case Settling => caller.Accepted? && slot.ready
    case Rejecting(status) =>
      if status == 500 then caller.Accepted? && slot.ready && slot.error != "" else Refusal(status) && Untouched(caller)
    case Done(status, audio) =>
      if status == 200 then caller.Accepted? && slot.ready && slot.error == "" && audio == Some(slot.result)
      else if status == 500 then caller.Accepted? && slot.ready && slot.error != "" && audio == None
      else Refusal(status) && Untouched(caller) && audio == None
    case Stopping => caller.Fresh? || ShutdownCaller(caller)
  }

  ghost predicate Answered(attempts: seq<Attempt>, c: nat) {
    exists k {:trigger attempts[k]} :: 0 <= k < |attempts| && attempts[k].job.id == c
  }

  /** The slot holds what the answer with this cause wrote. */
  predicate Holds(slot: Slot, cause: Cause) {
    match AnswerOf(cause)
    case OnSuccess(result) => slot.result == result && slot.error == ""
    case OnError(message) => slot.error == message
  }

  ghost predicate SlotAgrees(slot: Slot, attempts: seq<Attempt>, c: nat) {
    && (slot.ready <==> Answered(attempts, c))
    && (!slot.ready ==> slot.error == "")
    && (forall k {:trigger attempts[k]} | 0 <= k < |attempts| && attempts[k].job.id == c ::
          Holds(slot, attempts[k].cause))
  }

  /** A job that a handler may submit: validated, and with both callbacks. */
  predicate Proper(e: Setup, job: Job) {
    WellFormed(e.limits, job.request) && job.hasSuccess && job.hasError
  }

  predicate RequestOk(e: Setup, handler: Handler) {
    match handler
    case Probing(r) => WellFormed(e.limits, r)
    case Ready(r) => WellFormed(e.limits, r)
    case Submitting(r) => WellFormed(e.limits, r)
    case _ => true
  }

  ghost predicate AllProper(e: Setup, v: Service) {
    && (forall h: nat {:trigger v.handlers[h]} | h < |v.handlers| :: RequestOk(e, v.handlers[h]))
    && (forall c: nat {:trigger v.pool.callers[c]} | c < |v.pool.callers| && v.pool.callers[c].Stamped? ::
          Proper(e, v.pool.callers[c].job))
    && (forall i {:trigger v.pool.accepted[i]} | 0 <= i < |v.pool.accepted| :: Proper(e, v.pool.accepted[i]))
  }

  ghost predicate Coupled(v: Service)
    requires Aligned(v)
  {
    && (forall h: nat {:trigger v.handlers[h]} | h < |v.handlers| ::
          Agrees(v.handlers[h], v.pool.callers[h], v.slots[h]))
    && (forall h: nat {:trigger v.slots[h]} | h < |v.slots| :: SlotAgrees(v.slots[h], v.pool.attempts, h))
  }

  // ---------------------------------------------------------------- the metrics as counts over handlers

  /** The gauge is raised and not yet lowered. */
  predicate InFlight(handler: Handler) {
    handler.Submitting? || handler.Waiting? || handler.Sleeping? || handler.Woken?
  }

  predicate Failed(handler: Handler) {
    (handler.Rejecting? || handler.Done?) && handler.status == 500
  }

  predicate Finished(handler: Handler) { handler.Done? }

  /** The statuses of the finished handlers. */
  function Statuses(handlers: seq<Handler>): multiset<int> {
    if handlers == [] then multiset{}
    else
      var last := handlers[|handlers| - 1];
      Statuses(handlers[..|handlers| - 1]) + (if last.Done? then multiset{last.status} else multiset{})
  }

  predicate Metered(v: Service) {
    && v.requests == Statuses(v.handlers)
    && v.errors == Count(v.handlers, Failed)
    && v.gauge == Count(v.handlers, InFlight)
  }

  ghost predicate ServiceInv(e: Setup, v: Service) {
    && Aligned(v)
    && Inv(e.pool, v.pool)
    && Coupled(v)
    && AllProper(e, v)
    && Metered(v)
  }

  lemma StatusesAppend(handlers: seq<Handler>, x: Handler)
    ensures Statuses(handlers + [x]) == Statuses(handlers) + (if x.Done? then multiset{x.status} else multiset{})
  {
    assert (handlers + [x])[..|handlers|] == handlers;
  }

  /** Replacing an unfinished handler. */
  lemma {:induction false} StatusesUpdate(handlers: seq<Handler>, h: nat, x: Handler)
    requires h < |handlers| && !handlers[h].Done?
    ensures Statuses(handlers[h := x]) == Statuses(handlers) + (if x.Done? then multiset{x.status} else multiset{})
  {
    var last := |handlers| - 1;
    if h == last {
      assert handlers[h := x][..last] == handlers[..last];
    } else {
      StatusesUpdate(handlers[..last], h, x);
      assert handlers[h := x][..last] == handlers[..last][h := x];
    }
  }

  lemma {:induction false} StatusesSize(handlers: seq<Handler>)
    ensures |Statuses(handlers)| == Count(handlers, Finished)
  {
    if handlers != [] {
      StatusesSize(handlers[..|handlers| - 1]);
    }
  }

  /** The bag holds as many 500s as there are handlers finished with 500. */
  predicate FinishedWith500(handler: Handler) { handler.Done? && handler.status == 500 }

  lemma {:induction false} StatusesCount500(handlers: seq<Handler>)
    ensures Statuses(handlers)[500] == Count(handlers, FinishedWith500)
  {
    if handlers != [] {
      StatusesCount500(handlers[..|handlers| - 1]);
    }
  }

  /** Moving handler h, which is not finished, to x. */
  lemma MeterUpdate(v: Service, h: nat, x: Handler)
    requires h < |v.handlers| && !v.handlers[h].Done?
    ensures Statuses(v.handlers[h := x]) == Statuses(v.handlers) + (if x.Done? then multiset{x.status} else multiset{})
    ensures Count(v.handlers[h := x], Failed)
         == Count(v.handlers, Failed) - (if Failed(v.handlers[h]) then 1 else 0) + (if Failed(x) then 1 else 0)
    ensures Count(v.handlers[h := x], InFlight)
         == Count(v.handlers, InFlight) - (if InFlight(v.handlers[h]) then 1 else 0) + (if InFlight(x) then 1 else 0)
  {
    StatusesUpdate(v.handlers, h, x);
    CountUpdate(v.handlers, h, x, Failed);
    CountUpdate(v.handlers, h, x, InFlight);
  }

  lemma MeteredJoin(v: Service, x: Handler)
    requires !x.Done? && !Failed(x) && !InFlight(x)
    ensures Statuses(v.handlers + [x]) == Statuses(v.handlers)
    ensures Count(v.handlers + [x], Failed) == Count(v.handlers, Failed)
    ensures Count(v.handlers + [x], InFlight) == Count(v.handlers, InFlight)
  {
    StatusesAppend(v.handlers, x);
    CountAppend(v.handlers, x, Failed);
    CountAppend(v.handlers, x, InFlight);
  }

  lemma MeteredPool(e: Setup, v: Service, step: Step)
    requires Aligned(v) && CanMove(e, v, Pool(step)) && Metered(v)
    ensures Metered(Perform(e, v, Pool(step)))
  {
    if step.WorkerAnswer? {
      var id := v.pool.worker.job.id;
      if id < |v.handlers| {
        if v.handlers[id].Sleeping? {
          MeterUpdate(v, id, Waiting);
        } else {
          assert v.handlers[id := v.handlers[id]] == v.handlers;
        }
      }
    }
  }

  predicate OwnMove(move: Move) {
    !(move.Call? || move.Stop? || move.Pool?)
  }

  function Tally(yes: bool): int { if yes then 1 else 0 }

  /** A handler's own move changes only its own state, and the counters by what that state contributes. */
  lemma OwnMoveCounts(e: Setup, v: Service, move: Move)
    requires OwnMove(move) && Aligned(v) && CanMove(e, v, move)
    ensures var w, old', new' := Perform(e, v, move), v.handlers[move.h], Perform(e, v, move).handlers[move.h];
      && !old'.Done? && w.handlers == v.handlers[move.h := new']
      && w.errors == v.errors + Tally(Failed(new')) - Tally(Failed(old'))
      && w.gauge == v.gauge + Tally(InFlight(new')) - Tally(InFlight(old'))
  {
  }

  lemma OwnMoveRequests(e: Setup, v: Service, move: Move)
    requires OwnMove(move) && Aligned(v) && CanMove(e, v, move)
    ensures var w := Perform(e, v, move);
      w.requests == v.requests + (if w.handlers[move.h].Done? then multiset{w.handlers[move.h].status} else multiset{})
  {
  }

  lemma MeteredOwn(e: Setup, v: Service, move: Move)
    requires OwnMove(move) && Aligned(v) && CanMove(e, v, move) && Metered(v)
    ensures Metered(Perform(e, v, move))
  {
    OwnMoveCounts(e, v, move);
    OwnMoveRequests(e, v, move);
    MeterUpdate(v, move.h, Perform(e, v, move).handlers[move.h]);
  }

  lemma MeteredMove(e: Setup, v: Service, move: Move)
    requires Aligned(v) && CanMove(e, v, move) && Metered(v)
    ensures Metered(Perform(e, v, move))
  {
    match move
    case Call(input) => MeteredJoin(v, Entered(input));
    case Stop => MeteredJoin(v, Stopping);
    case Pool(step) => MeteredPool(e, v, step);
    case _ => MeteredOwn(e, v, move);
  }

  // ---------------------------------------------------------------- handlers and slots

  /** The job about to be answered has not been answered before, and its handler exists. */
  lemma AnswerIsFirst(cfg: Config, s: State)
    requires Inv(cfg, s) && s.worker.Answering?
    ensures s.worker.job.id < |s.callers| && Submitted(s.callers[s.worker.job.id])
    ensures !Answered(s.attempts, s.worker.job.id)
  {
    var n := |s.attempts|;
    assert s.accepted[n] == s.worker.job;
    forall k | 0 <= k < n
      ensures s.attempts[k].job.id != s.worker.job.id
    {
      assert JobsOf(s.attempts)[k] == s.accepted[k];
    }
  }

  lemma SlotAnswered(slot: Slot, attempts: seq<Attempt>, a: Attempt, c: nat)
    requires SlotAgrees(slot, attempts, c)
    requires a.job.id == c ==> !Answered(attempts, c)
    ensures SlotAgrees(if a.job.id == c then Fill(slot, AnswerOf(a.cause)) else slot, attempts + [a], c)
  {
    var all := attempts + [a];
    assert all[|attempts|] == a;
    assert forall k | 0 <= k < |attempts| :: all[k] == attempts[k];
    if Answered(attempts, c) {
      var k :| 0 <= k < |attempts| && attempts[k].job.id == c;
      assert all[k].job.id == c;
    }
  }

  /** A pool step other than the answer, seen by one handler. */
  lemma CallerMoves(e: Setup, v: Service, step: Step, h: nat)
    requires Aligned(v) && h < |v.handlers|
    requires Permitted(v, step) && Enabled(e.pool, v.pool, step)
    requires Agrees(v.handlers[h], v.pool.callers[h], v.slots[h])
    ensures Agrees(v.handlers[h], Apply(e.pool, v.pool, step).callers[h], v.slots[h])
  {
  }

  lemma CoupledAnswer(e: Setup, v: Service, step: Step)
    requires Aligned(v) && CanMove(e, v, Pool(step)) && step.WorkerAnswer?
    requires Inv(e.pool, v.pool) && Coupled(v)
    ensures Coupled(Perform(e, v, Pool(step)))
  {
    var w := Perform(e, v, Pool(step));
    AnswerIsFirst(e.pool, v.pool);
    var id, n := v.pool.worker.job.id, |v.pool.attempts|;
    var a := w.pool.attempts[n];
    assert w.pool.attempts == v.pool.attempts + [a];
    forall h: nat | h < |w.slots|
      ensures SlotAgrees(w.slots[h], w.pool.attempts, h)
    {
      SlotAnswered(v.slots[h], v.pool.attempts, a, h);
    }
    forall h: nat | h < |w.handlers|
      ensures Agrees(w.handlers[h], w.pool.callers[h], w.slots[h])
    {
      assert Agrees(v.handlers[h], v.pool.callers[h], v.slots[h]);
      assert SlotAgrees(v.slots[h], v.pool.attempts, h);
    }
  }

  lemma CoupledJoin(e: Setup, v: Service, x: Handler, input: Option<HttpInput>)
    requires Aligned(v) && Inv(e.pool, v.pool) && Coupled(v)
    requires x.Entered? || x.Stopping?
    ensures Coupled(Join(e, v, x, input))
  {
    var w := Join(e, v, x, input);
    NotYetAnswered(e.pool, v.pool, |v.slots|);
    forall h: nat | h < |w.slots|
      ensures SlotAgrees(w.slots[h], w.pool.attempts, h)
      ensures Agrees(w.handlers[h], w.pool.callers[h], w.slots[h])
    {
      assert h < |v.slots| ==> w.slots[h] == v.slots[h] && w.handlers[h] == v.handlers[h];
    }
  }

  lemma CoupledPool(e: Setup, v: Service, step: Step)
    requires Aligned(v) && CanMove(e, v, Pool(step)) && !step.WorkerAnswer?
    requires Coupled(v)
    ensures Coupled(Perform(e, v, Pool(step)))
  {
    forall h: nat | h < |v.handlers|
      ensures Agrees(v.handlers[h], Apply(e.pool, v.pool, step).callers[h], v.slots[h])
    {
      CallerMoves(e, v, step, h);
    }
    assert Perform(e, v, Pool(step)).pool.attempts == v.pool.attempts;
  }

  lemma OwnMoveAgrees(e: Setup, v: Service, move: Move)
    requires OwnMove(move) && Aligned(v) && CanMove(e, v, move)
    requires Agrees(v.handlers[move.h], v.pool.callers[move.h], v.slots[move.h])
    ensures var w := Perform(e, v, move);
      && w.pool == v.pool && w.slots == v.slots
      && w.handlers == v.handlers[move.h := w.handlers[move.h]]
      && Agrees(w.handlers[move.h], v.pool.callers[move.h], v.slots[move.h])
  {
  }

  lemma CoupledOwn(e: Setup, v: Service, move: Move)
    requires OwnMove(move) && Aligned(v) && CanMove(e, v, move)
    requires Coupled(v)
    ensures Coupled(Perform(e, v, move))
  {
    OwnMoveAgrees(e, v, move);
  }

  lemma {:induction false} CoupledMove(e: Setup, v: Service, move: Move)
    requires Aligned(v) && CanMove(e, v, move)
    requires Inv(e.pool, v.pool) && Coupled(v)
    ensures Coupled(Perform(e, v, move))
  {
    match move
    case Call(input) => CoupledJoin(e, v, Entered(input), Some(input));
    case Stop => CoupledJoin(e, v, Stopping, None);
    case Pool(step) =>
      if step.WorkerAnswer? {
        CoupledAnswer(e, v, step);
      } else {
        CoupledPool(e, v, step);
      }
    case _ => CoupledOwn(e, v, move);
  }

  lemma NotYetAnswered(cfg: Config, s: State, c: nat)
    requires Inv(cfg, s) && |s.callers| <= c
    ensures !Answered(s.attempts, c)
  {
    forall k | 0 <= k < |s.attempts|
      ensures s.attempts[k].job.id != c
    {
      assert JobsOf(s.attempts)[k] == s.accepted[k];
    }
  }

  lemma AllProperPool(e: Setup, v: Service, step: Step)
    requires Aligned(v) && CanMove(e, v, Pool(step)) && AllProper(e, v)
    ensures AllProper(e, v.(pool := Apply(e.pool, v.pool, step)))
  {
    var s, t := v.pool, Apply(e.pool, v.pool, step);
    forall c: nat | c < |t.callers| && t.callers[c].Stamped?
      ensures Proper(e, t.callers[c].job)
    {
      if step.SubmitStamp? && step.c == c {
        assert RequestOk(e, v.handlers[c]);
      } else {
        assert s.callers[c] == t.callers[c];
      }
    }
    if t.accepted != s.accepted {
      assert t.accepted == s.accepted + [s.callers[step.c].job];
    }
  }

  lemma AllProperMove(e: Setup, v: Service, move: Move)
    requires Aligned(v) && CanMove(e, v, move) && AllProper(e, v)
    ensures AllProper(e, Perform(e, v, move))
  {
    var w := Perform(e, v, move);
    if move.Pool? {
      AllProperPool(e, v, move.step);
      assert w.pool == Apply(e.pool, v.pool, move.step);
    } else {
      assert w.pool.accepted == v.pool.accepted;
      assert forall c: nat | c < |v.pool.callers| :: w.pool.callers[c] == v.pool.callers[c];
    }
    forall h: nat | h < |w.handlers|
      ensures RequestOk(e, w.handlers[h])
    {
      assert h < |v.handlers| ==> RequestOk(e, v.handlers[h]);
    }
  }

  lemma ServiceInvMove(e: Setup, v: Service, move: Move)
    requires ServiceInv(e, v) && CanMove(e, v, move)
    ensures ServiceInv(e, Perform(e, v, move))
  {
    if move.Pool? {
      InvStep(e.pool, v.pool, move.step);
    } else if move.Call? || move.Stop? {
      InvStep(e.pool, v.pool, Arrive);
    }
    CoupledMove(e, v, move);
    AllProperMove(e, v, move);
    MeteredMove(e, v, move);
  }

  lemma {:induction false} ServiceInvRun(e: Setup, v: Service, moves: seq<Move>)
    requires ServiceInv(e, v) && ValidMoves(e, v, moves)
    ensures ServiceInv(e, PerformAll(e, v, moves))
    decreases moves
  {
    if moves != [] {
      ServiceInvMove(e, v, moves[0]);
      ServiceInvRun(e, Perform(e, v, moves[0]), moves[1..]);
    }
  }
}
