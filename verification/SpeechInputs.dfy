/** What a handler answers, and what it hands to the pool, from what it was sent. */
module SpeechInputs {
  import opened Basics
  import opened PoolMachine
  import opened PoolInvariants
  import opened Validation
  import opened SpeechService
  import opened SpeechTheorems
  import opened SpeechResults

  /** The input passes the screening, and this is what it asks for. */
  predicate Asks(e: Setup, input: Option<HttpInput>, r: Request) {
    input.Some? && Screen(e.limits, input.value) == Accept(r)
  }

  /** The status fits the screening. */
  predicate Told(e: Setup, input: Option<HttpInput>, status: int) {
    input.Some? &&
    if status in {400, 413} then Screen(e.limits, input.value) == Reject(status)
    else Screen(e.limits, input.value).Accept?
  }

  predicate FromInput(e: Setup, handler: Handler, input: Option<HttpInput>) {
    match handler
    case Entered(i) => input == Some(i)
    case Probing(r) => Asks(e, input, r)
    case Ready(r) => Asks(e, input, r)
    case Submitting(r) => Asks(e, input, r)
    case Rejecting(status) => Told(e, input, status)
    case Done(status, _) => Told(e, input, status)
    case Stopping => input == None
    case _ => input.Some? && Screen(e.limits, input.value).Accept?
  }

  ghost predicate Traced(e: Setup, v: Service)
    requires Aligned(v)
  {
    && (forall h: nat {:trigger v.handlers[h]} | h < |v.handlers| :: FromInput(e, v.handlers[h], v.inputs[h]))
    && (forall c: nat {:trigger v.pool.callers[c]} | c < |v.pool.callers| && v.pool.callers[c].Stamped? ::
          Asks(e, v.inputs[c], v.pool.callers[c].job.request))
    && (forall i {:trigger v.pool.accepted[i]} | 0 <= i < |v.pool.accepted| ::
          v.pool.accepted[i].id < |v.inputs| && Asks(e, v.inputs[v.pool.accepted[i].id], v.pool.accepted[i].request))
  }

  /** A handler's own move stays true to its input. */
  lemma OwnMoveTraced(e: Setup, v: Service, move: Move)
    requires OwnMove(move) && Aligned(v) && CanMove(e, v, move)
    requires FromInput(e, v.handlers[move.h], v.inputs[move.h])
    ensures var w := Perform(e, v, move);
      && w.pool == v.pool && w.inputs == v.inputs
      && w.handlers == v.handlers[move.h := w.handlers[move.h]]
      && FromInput(e, w.handlers[move.h], v.inputs[move.h])
  {
  }

  lemma {:induction false} PoolMoveTraced(e: Setup, v: Service, step: Step)
    requires Aligned(v) && CanMove(e, v, Pool(step)) && Traced(e, v) && Identified(v.pool)
    ensures Traced(e, v.(pool := Apply(e.pool, v.pool, step)))
  {
    var s, t := v.pool, Apply(e.pool, v.pool, step);
    forall c: nat | c < |t.callers| && t.callers[c].Stamped?
      ensures Asks(e, v.inputs[c], t.callers[c].job.request)
    {
      if step.SubmitStamp? && step.c == c {
        assert FromInput(e, v.handlers[c], v.inputs[c]);
      } else {
        assert s.callers[c] == t.callers[c];
      }
    }
    if t.accepted != s.accepted {
      var pushed := s.callers[step.c].job;
      assert t.accepted == s.accepted + [pushed] && pushed.id == step.c;
    }
  }

  /** A delivery wakes a handler up and leaves it true to its input. */
  lemma {:induction false} DeliveryTraced(e: Setup, v: Service, id: nat, answer: Answer)
    requires Aligned(v) && Traced(e, v)
    ensures Aligned(Deliver(v, id, answer)) && Traced(e, Deliver(v, id, answer))
  {
    var w := Deliver(v, id, answer);
    forall h: nat | h < |w.handlers|
      ensures FromInput(e, w.handlers[h], w.inputs[h])
    {
      assert FromInput(e, v.handlers[h], v.inputs[h]);
    }
    assert w.pool == v.pool && w.inputs == v.inputs;
  }

  lemma {:induction false} JoinTraced(e: Setup, v: Service, x: Handler, input: Option<HttpInput>)
    requires Aligned(v) && Traced(e, v) && Identified(v.pool) && FromInput(e, x, input)
    ensures Traced(e, Join(e, v, x, input))
  {
    var w := Join(e, v, x, input);
    forall h: nat | h < |w.handlers|
      ensures FromInput(e, w.handlers[h], w.inputs[h])
    {
      assert h < |v.handlers| ==> w.handlers[h] == v.handlers[h] && w.inputs[h] == v.inputs[h];
    }
    forall c: nat | c < |w.pool.callers| && w.pool.callers[c].Stamped?
      ensures Asks(e, w.inputs[c], w.pool.callers[c].job.request)
    {
      assert w.pool.callers[c] == v.pool.callers[c] && w.inputs[c] == v.inputs[c];
    }
  }

  lemma {:induction false} OwnTraced(e: Setup, v: Service, move: Move)
    requires OwnMove(move) && Aligned(v) && CanMove(e, v, move) && Traced(e, v)
    ensures Traced(e, Perform(e, v, move))
  {
    OwnMoveTraced(e, v, move);
  }

  lemma {:induction false} MoveTraced(e: Setup, v: Service, move: Move)
    requires Aligned(v) && CanMove(e, v, move) && Traced(e, v) && Identified(v.pool)
    ensures Traced(e, Perform(e, v, move))
  {
    match move
    case Call(input) => JoinTraced(e, v, Entered(input), Some(input));
    case Stop => JoinTraced(e, v, Stopping, None);
    case Pool(step) =>
      PoolMoveTraced(e, v, step);
      if step.WorkerAnswer? {
        DeliveryTraced(e, v.(pool := Apply(e.pool, v.pool, step)), v.pool.worker.job.id, AnswerOf(v.pool.worker.cause));
      }
    case _ => OwnTraced(e, v, move);
  }

  lemma {:induction false} RunTraced(e: Setup, v: Service, moves: seq<Move>)
    requires ServiceInv(e, v) && ValidMoves(e, v, moves) && Traced(e, v)
    ensures Traced(e, PerformAll(e, v, moves))
    decreases moves
  {
    if moves != [] {
      ServiceInvMove(e, v, moves[0]);
      MoveTraced(e, v, moves[0]);
      RunTraced(e, Perform(e, v, moves[0]), moves[1..]);
    }
  }

  lemma {:induction false} ReachableTraced(e: Setup, v: Service)
    requires ServiceReachable(e, v)
    ensures ServiceInv(e, v) && Traced(e, v)
  {
    ServiceReachableInv(e, v);
    var now: int, moves: seq<Move> :| ServiceRunTo(e, now, moves, v);
    InvInitial(e.pool, now);
    RunTraced(e, Start(now), moves);
  }

  // ---------------------------------------------------------------- statuses and jobs

  /** A finished handler answers 400 or 413 exactly when its input is refused with that status; any other answers 503
      exactly when the pool took no job of it, and 200 or 500 when it did. */
  lemma {:induction false} StatusFollowsInput(e: Setup, v: Service, h: nat)
    requires ServiceReachable(e, v)
    requires h < |v.handlers| == |v.inputs| == |v.pool.callers| && v.handlers[h].Done?
    ensures v.inputs[h].Some?
    ensures var status, screening := v.handlers[h].status, Screen(e.limits, v.inputs[h].value);
      && (status == 400 <==> screening == Reject(400))
      && (status == 413 <==> screening == Reject(413))
      && (status == 503 <==> screening.Accept? && !v.pool.callers[h].Accepted?)
      && (status in {200, 500} <==> screening.Accept? && v.pool.callers[h].Accepted?)
  {
    ReachableTraced(e, v);
    assert FromInput(e, v.handlers[h], v.inputs[h]);
    assert Agrees(v.handlers[h], v.pool.callers[h], v.slots[h]);
  }

  /** A job in the pool carries exactly the fields that its handler was sent. */
  lemma {:induction false} JobsFollowInputs(e: Setup, v: Service, i: nat)
    requires ServiceReachable(e, v) && i < |v.pool.accepted|
    ensures var job := v.pool.accepted[i];
      && job.id < |v.inputs| && v.inputs[job.id].Some? && v.inputs[job.id].value.body.Parsed?
      && job.request == v.inputs[job.id].value.body.fields
  {
    ReachableTraced(e, v);
    assert Asks(e, v.inputs[v.pool.accepted[i].id], v.pool.accepted[i].request);
  }

  // ---------------------------------------------------------------- why a handler answers 503

  /** The handler answers 503, or will. */
  predicate TurnedAway(v: Service, h: nat)
    requires Aligned(v)
  {
    h < |v.handlers| &&
    match v.handlers[h]
    case Rejecting(status) => status == 503
    case Done(status, _) => status == 503
    case Submitting(_) => v.pool.callers[h].Refused?
    case _ => false
  }

  /** What turns a handler away: its probe finds no pool or one that does not accept, or its submit finds the pool not
      accepting or full. */
  predicate TurnsAway(e: Setup, u: Service, move: Move, h: nat) {
    || (move == Probe(h) && (!e.hasPool || !u.pool.accepting))
    || (move == Pool(SubmitEnter(h)) && (!u.pool.accepting || |u.pool.queue| >= e.pool.maxDepth))
  }

  lemma {:induction false} CauseOfMove(e: Setup, u: Service, move: Move, h: nat)
    requires Aligned(u) && Coupled(u) && CanMove(e, u, move)
    requires !TurnedAway(u, h) && TurnedAway(Perform(e, u, move), h)
    ensures TurnsAway(e, u, move, h)
  {
    match move
    case Pool(step) => CauseInPool(e, u, step, h);
    case Call(_) =>
    case Stop =>
    case _ => CauseOfOwn(e, u, move, h);
  }

  lemma {:induction false} CauseInPool(e: Setup, u: Service, step: Step, h: nat)
    requires Aligned(u) && CanMove(e, u, Pool(step))
    requires !TurnedAway(u, h) && TurnedAway(Perform(e, u, Pool(step)), h)
    ensures TurnsAway(e, u, Pool(step), h)
  {
  }

  lemma {:induction false} CauseOfOwn(e: Setup, u: Service, move: Move, h: nat)
    requires OwnMove(move) && Aligned(u) && Coupled(u) && CanMove(e, u, move)
    requires !TurnedAway(u, h) && TurnedAway(Perform(e, u, move), h)
    ensures TurnsAway(e, u, move, h)
  {
    assert Agrees(u.handlers[h], u.pool.callers[h], u.slots[h]);
  }

  lemma {:induction false} MovesInit(e: Setup, v: Service, moves: seq<Move>)
    requires Aligned(v) && ValidMoves(e, v, moves) && moves != []
    ensures var front, last := moves[..|moves| - 1], moves[|moves| - 1];
      && ValidMoves(e, v, front) && CanMove(e, PerformAll(e, v, front), last)
      && PerformAll(e, v, moves) == Perform(e, PerformAll(e, v, front), last)
    decreases moves
  {
    var front := moves[..|moves| - 1];
    if |moves| > 1 {
      MovesInit(e, Perform(e, v, moves[0]), moves[1..]);
      assert moves[1..][..|moves| - 2] == front[1..];
    }
  }

  /** Whoever answers 503 was turned away by the pool: at some point of the run its probe found no accepting pool, or
      its submit a pool that was shut down or full. */
  lemma {:induction false} UnavailableHasCause(e: Setup, now: int, moves: seq<Move>, h: nat)
    returns (i: nat, u: Service)
    requires ValidConfig(e.pool) && ValidMoves(e, Start(now), moves) && TurnedAway(PerformAll(e, Start(now), moves), h)
    ensures i < |moves| && ValidMoves(e, Start(now), moves[..i]) && u == PerformAll(e, Start(now), moves[..i])
    ensures TurnsAway(e, u, moves[i], h)
    decreases |moves|
  {
    assert moves != [];
    var front, last := moves[..|moves| - 1], moves[|moves| - 1];
    MovesInit(e, Start(now), moves);
    var before := PerformAll(e, Start(now), front);
    if TurnedAway(before, h) {
      i, u := UnavailableHasCause(e, now, front, h);
      assert front[..i] == moves[..i];
    } else {
      i, u := |moves| - 1, before;
      InvInitial(e.pool, now);
      ServiceInvRun(e, Start(now), front);
      CauseOfMove(e, before, last, h);
    }
  }

  /** The handler has not been let near submit(). */
  predicate Outside(v: Service, h: nat)
    requires Aligned(v)
  {
    && h < |v.handlers| && v.pool.callers[h].Fresh?
    && (v.handlers[h].Entered? || v.handlers[h].Probing? || v.handlers[h].Rejecting? || v.handlers[h].Done?)
  }

  lemma {:induction false} OutsideStep(e: Setup, v: Service, move: Move, h: nat)
    requires Aligned(v) && CanMove(e, v, move) && Outside(v, h) && (!e.hasPool || !v.pool.accepting)
    ensures var w := Perform(e, v, move); Outside(w, h) && (!e.hasPool || !w.pool.accepting)
  {
  }

  /** A handler that comes when there is no pool, or one that does not accept, never submits anything. */
  lemma {:induction false} NotReadyNeverSubmits(e: Setup, v: Service, moves: seq<Move>, h: nat)
    requires Aligned(v) && h < |v.handlers| && v.handlers[h].Entered? && v.pool.callers[h].Fresh?
    requires (!e.hasPool || !v.pool.accepting) && ValidMoves(e, v, moves)
    ensures var w := PerformAll(e, v, moves); h < |w.handlers| && w.pool.callers[h].Fresh?
  {
    OutsideRun(e, v, moves, h);
  }

  lemma {:induction false} OutsideRun(e: Setup, v: Service, moves: seq<Move>, h: nat)
    requires Aligned(v) && ValidMoves(e, v, moves) && Outside(v, h) && (!e.hasPool || !v.pool.accepting)
    ensures Outside(PerformAll(e, v, moves), h)
    decreases moves
  {
    if moves != [] {
      OutsideStep(e, v, moves[0], h);
      OutsideRun(e, Perform(e, v, moves[0]), moves[1..], h);
    }
  }
}
