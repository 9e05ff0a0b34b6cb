/** A valid request that finds room is served in some run, with whatever the backend gives for it. */
module SpeechServing {
  import opened Basics
  import opened PoolMachine
  import opened PoolInvariants
  import opened PoolRounds
  import opened Validation
  import opened SpeechService
  import opened SpeechTheorems
  import opened SpeechResults

  ghost predicate Goes(e: Setup, v: Service, w: Service) {
    Aligned(v) && exists moves: seq<Move> :: GoesBy(e, v, moves, w)
  }

  predicate GoesBy(e: Setup, v: Service, moves: seq<Move>, w: Service)
    requires Aligned(v)
  {
    ValidMoves(e, v, moves) && PerformAll(e, v, moves) == w
  }

  lemma GoesNowhere(e: Setup, v: Service)
    requires Aligned(v)
    ensures Goes(e, v, v)
  {
    assert GoesBy(e, v, [], v);
  }

  lemma GoesFirst(e: Setup, v: Service, move: Move, w: Service)
    requires Aligned(v) && CanMove(e, v, move) && Goes(e, Perform(e, v, move), w)
    ensures Goes(e, v, w)
  {
    var rest: seq<Move> :| GoesBy(e, Perform(e, v, move), rest, w);
    assert ([move] + rest)[1..] == rest;
    assert GoesBy(e, v, [move] + rest, w);
  }

  lemma GoesKeepsInv(e: Setup, v: Service, w: Service)
    requires ServiceInv(e, v) && Goes(e, v, w)
    ensures ServiceInv(e, w)
  {
    var moves: seq<Move> :| GoesBy(e, v, moves, w);
    ServiceInvRun(e, v, moves);
  }

  // ---------------------------------------------------------------- while the job waits for its turn

  /** Gives every job this result, at once, and lets no callback throw. */
  function Prompt(result: Synthesis): Turn {
    Turn(0, Result(result), 0, false)
  }

  /** The job of call c is in the pool, its deadline is ahead, and if the backend is done with it, it gave that
      result. */
  ghost predicate OnItsWay(s: State, c: nat, result: Synthesis) {
    && !Answered(s.attempts, c) && HasId(s.accepted, c)
    && (forall job | job in s.accepted && job.id == c :: s.now < job.deadline)
    && (s.worker.Obtained? && s.worker.job.id == c ==> s.worker.result == result)
    && (s.worker.Answering? && s.worker.job.id == c ==> s.worker.cause == Served(result))
  }

  /** It has been answered with that result. */
  ghost predicate ServedWith(s: State, c: nat, result: Synthesis) {
    exists k {:trigger s.attempts[k]} ::
      0 <= k < |s.attempts| && s.attempts[k].job.id == c && s.attempts[k].cause == Served(result)
  }

  /** What is left to do for the worker. */
  function Ahead(s: State): nat {
    10 * |s.queue| + match s.worker
                     case Holding(_) => 9
                     case Inferring(_) => 8
                     case Obtained(_, _) => 7
                     case Answering(_, _, _) => 6
                     case Leaving => 4
                     case Asleep => 3
                     case Awake => 2
                     case Exited => 0
  }

  /** A job on its way is in hand or queued, so the worker has not gone and has something to do. */
  lemma {:induction false} WorkerHasWork(cfg: Config, s: State, c: nat, result: Synthesis)
    requires Inv(cfg, s) && OnItsWay(s, c, result)
    ensures !s.worker.Exited? && (Hand(s.worker) != [] || s.queue != []) && RunStarted(s)
  {
    var i :| 0 <= i < |s.accepted| && s.accepted[i].id == c;
    assert forall k | 0 <= k < |s.attempts| :: JobsOf(s.attempts)[k] == s.accepted[k];
    assert i >= |s.attempts|;
  }

  lemma {:induction false} AheadShrinks(cfg: Config, s: State, result: Synthesis)
    requires RunStarted(s) && !s.worker.Exited? && (Hand(s.worker) != [] || s.queue != [])
    ensures var step := NextOf(s.worker, Prompt(result));
      Enabled(cfg, s, step) && Ahead(Apply(cfg, s, step)) < Ahead(s)
  {
  }

  /** The job in hand is an accepted one. */
  lemma {:induction false} HandIsAccepted(cfg: Config, s: State, job: Job)
    requires Inv(cfg, s) && job in Hand(s.worker)
    ensures job in s.accepted
  {
    assert s.accepted[|s.attempts|] == job;
  }

  lemma {:induction false} NextKeepsWay(cfg: Config, s: State, c: nat, result: Synthesis)
    requires Inv(cfg, s) && OnItsWay(s, c, result) && RunStarted(s) && !s.worker.Exited? && !s.worker.Answering?
    ensures var step := NextOf(s.worker, Prompt(result));
      Enabled(cfg, s, step) && OnItsWay(Apply(cfg, s, step), c, result)
  {
    var t := Apply(cfg, s, NextOf(s.worker, Prompt(result)));
    assert t.accepted == s.accepted && t.attempts == s.attempts && t.now == s.now;
    if Hand(s.worker) != [] {
      HandIsAccepted(cfg, s, Hand(s.worker)[0]);
    }
  }

  lemma {:induction false} AnswerKeepsWay(cfg: Config, s: State, c: nat, result: Synthesis)
    requires OnItsWay(s, c, result) && s.worker.Answering?
    ensures var t := Apply(cfg, s, WorkerAnswer(false));
      if s.worker.job.id == c then ServedWith(t, c, result) else OnItsWay(t, c, result)
  {
    var t := Apply(cfg, s, WorkerAnswer(false));
    var n := |s.attempts|;
    assert t.attempts[n].job == s.worker.job && t.attempts[n].cause == s.worker.cause;
    assert forall k | 0 <= k < n :: t.attempts[k] == s.attempts[k];
  }

  /** The handler waits for a job of its that is on its way. */
  ghost predicate Expects(e: Setup, v: Service, h: nat, result: Synthesis) {
    ServiceInv(e, v) && h < |v.handlers| && v.handlers[h] == Waiting && OnItsWay(v.pool, h, result)
  }

  lemma {:induction false} WaitsOn(e: Setup, v: Service, h: nat, step: Step)
    requires Aligned(v) && CanMove(e, v, Pool(step)) && h < |v.handlers| && v.handlers[h] == Waiting
    ensures var w := Perform(e, v, Pool(step));
      w.pool == Apply(e.pool, v.pool, step) && h < |w.handlers| && w.handlers[h] == Waiting
  {
  }

  /** The worker comes to the job, whatever is ahead of it, and answers it. */
  lemma {:induction false} WorkerArrives(e: Setup, v: Service, h: nat, result: Synthesis) returns (w: Service)
    requires Expects(e, v, h, result)
    ensures Goes(e, v, w) && ServiceInv(e, w) && h < |w.handlers| && w.handlers[h] == Waiting
    ensures ServedWith(w.pool, h, result)
    decreases Ahead(v.pool)
  {
    var s := v.pool;
    WorkerHasWork(e.pool, s, h, result);
    AheadShrinks(e.pool, s, result);
    var step := NextOf(s.worker, Prompt(result));
    var next := Perform(e, v, Pool(step));
    ServiceInvMove(e, v, Pool(step));
    WaitsOn(e, v, h, step);
    if s.worker.Answering? {
      AnswerKeepsWay(e.pool, s, h, result);
    } else {
      NextKeepsWay(e.pool, s, h, result);
    }
    if s.worker.Answering? && s.worker.job.id == h {
      w := next;
      GoesNowhere(e, w);
    } else {
      w := WorkerArrives(e, next, h, result);
    }
    GoesFirst(e, v, Pool(step), w);
  }

  // ---------------------------------------------------------------- before and after

  /** The slot of a handler whose job was served. */
  lemma {:induction false} SlotOfServed(e: Setup, v: Service, h: nat, result: Synthesis)
    requires ServiceInv(e, v) && h < |v.slots| && ServedWith(v.pool, h, result)
    ensures v.slots[h] == Slot(true, result, "")
  {
    assert SlotAgrees(v.slots[h], v.pool.attempts, h);
  }

  /** With its result there, the handler goes on to its response. */
  lemma {:induction false} HandlerFinishes(e: Setup, v: Service, h: nat, result: Synthesis) returns (w: Service)
    requires Aligned(v) && h < |v.handlers| && v.handlers[h] == Waiting && v.slots[h] == Slot(true, result, "")
    ensures Goes(e, v, w) && h < |w.handlers| && w.handlers[h] == Done(200, Some(result))
  {
    var v1 := Perform(e, v, Test(h));
    assert v1.handlers[h] == Woken && v1.slots == v.slots && |v1.handlers| == |v.handlers|;
    w := WokenFinishes(e, v1, h, result);
    GoesFirst(e, v, Test(h), w);
  }

  lemma {:induction false} WokenFinishes(e: Setup, v: Service, h: nat, result: Synthesis) returns (w: Service)
    requires Aligned(v) && h < |v.handlers| && v.handlers[h] == Woken && v.slots[h] == Slot(true, result, "")
    ensures Goes(e, v, w) && h < |w.handlers| && w.handlers[h] == Done(200, Some(result))
  {
    var v1 := Perform(e, v, Lower(h));
    assert v1.handlers[h] == Settling && v1.slots == v.slots && |v1.handlers| == |v.handlers|;
    w := Perform(e, v1, Settle(h));
    GoesNowhere(e, w);
    GoesFirst(e, v1, Settle(h), w);
    GoesFirst(e, v, Lower(h), w);
  }

  lemma {:induction false} GoesOn(e: Setup, v: Service, m: Service, w: Service)
    requires Goes(e, v, m) && Goes(e, m, w)
    ensures Goes(e, v, w)
  {
    var moves: seq<Move> :| GoesBy(e, v, moves, m);
    GoesAfter(e, v, moves, m, w);
  }

  lemma {:induction false} GoesAfter(e: Setup, v: Service, moves: seq<Move>, m: Service, w: Service)
    requires Aligned(v) && GoesBy(e, v, moves, m) && Goes(e, m, w)
    ensures Goes(e, v, w)
    decreases moves
  {
    if moves != [] {
      GoesAfter(e, Perform(e, v, moves[0]), moves[1..], m, w);
      GoesFirst(e, v, moves[0], w);
    }
  }

  /** The pool has room for one more job. */
  predicate HasRoom(e: Setup, v: Service) {
    e.hasPool && v.pool.accepting && |v.pool.queue| < e.pool.maxDepth
  }

  /** From the call to submit(). */
  lemma {:induction false} HandlerComes(e: Setup, v: Service, input: HttpInput) returns (w: Service)
    requires ServiceInv(e, v) && HasRoom(e, v) && Screen(e.limits, input).Accept?
    ensures Goes(e, v, w) && ServiceInv(e, w) && HasRoom(e, w) && w.pool == Apply(e.pool, v.pool, Arrive)
    ensures |w.handlers| == |v.handlers| + 1
    ensures w.handlers[|v.handlers|] == Submitting(Screen(e.limits, input).request)
  {
    var h := |v.handlers|;
    var v1 := Perform(e, v, Call(input));
    var v2 := Perform(e, v1, Validate(h));
    var v3 := Perform(e, v2, Probe(h));
    w := Perform(e, v3, Raise(h));
    GoesNowhere(e, w);
    GoesFirst(e, v3, Raise(h), w);
    GoesFirst(e, v2, Probe(h), w);
    GoesFirst(e, v1, Validate(h), w);
    GoesFirst(e, v, Call(input), w);
    GoesKeepsInv(e, v, w);
  }

  /** The submission, as three steps of the pool. */
  lemma {:induction false} JobEnters(e: Setup, s: State, h: nat, r: Request, result: Synthesis) returns (t: State)
    requires Inv(e.pool, s) && ValidConfig(e.pool) && At(s, h, Fresh) && s.accepting && |s.queue| < e.pool.maxDepth
    ensures var job := Job(h, r, 0, true, true);
      && Enabled(e.pool, s, SubmitStamp(h, job))
      && var s1 := Apply(e.pool, s, SubmitStamp(h, job));
      && Enabled(e.pool, s1, SubmitEnter(h))
      && var s2 := Apply(e.pool, s1, SubmitEnter(h));
      && Enabled(e.pool, s2, SubmitNotify(h))
      && t == Apply(e.pool, s2, SubmitNotify(h))
      && t.callers[h] == Accepted && OnItsWay(t, h, result)
  {
    var job := Job(h, r, 0, true, true);
    var s1 := Apply(e.pool, s, SubmitStamp(h, job));
    var s2 := Apply(e.pool, s1, SubmitEnter(h));
    t := Apply(e.pool, s2, SubmitNotify(h));
    NoSuchJob(e.pool, s, h);
    assert t.accepted == s.accepted + [s1.callers[h].job] && t.attempts == s.attempts;
    assert t.accepted[|s.accepted|].id == h;
  }

  /** A call that has not submitted yet has no job anywhere. */
  lemma {:induction false} NoSuchJob(cfg: Config, s: State, h: nat)
    requires Inv(cfg, s) && At(s, h, Fresh)
    ensures forall job | job in s.accepted :: job.id != h
    ensures !Answered(s.attempts, h)
    ensures forall job | job in Hand(s.worker) :: job.id != h
  {
    forall k | 0 <= k < |s.attempts|
      ensures s.attempts[k].job.id != h
    {
      assert JobsOf(s.attempts)[k] == s.accepted[k];
    }
    forall job | job in Hand(s.worker)
      ensures job.id != h
    {
      HandIsAccepted(cfg, s, job);
    }
  }

  lemma {:induction false} HandlerSubmits(e: Setup, v: Service, h: nat, r: Request, result: Synthesis)
    returns (w: Service)
    requires ServiceInv(e, v) && ValidConfig(e.pool) && HasRoom(e, v)
    requires h < |v.handlers| && v.handlers[h] == Submitting(r) && v.pool.callers[h] == Fresh
    ensures Goes(e, v, w) && Expects(e, w, h, result)
  {
    var job := Job(h, r, 0, true, true);
    var t := JobEnters(e, v.pool, h, r, result);
    w := SubmissionGoes(e, v, h, r, t);
    GoesKeepsInv(e, v, w);
  }

  /** The same steps as moves of the service, and the return from submit(). */
  lemma {:induction false} SubmissionGoes(e: Setup, v: Service, h: nat, r: Request, t: State) returns (w: Service)
    requires Aligned(v) && h < |v.handlers| && v.handlers[h] == Submitting(r)
    requires var job := Job(h, r, 0, true, true);
      && Enabled(e.pool, v.pool, SubmitStamp(h, job))
      && var s1 := Apply(e.pool, v.pool, SubmitStamp(h, job));
      && Enabled(e.pool, s1, SubmitEnter(h))
      && var s2 := Apply(e.pool, s1, SubmitEnter(h));
      && Enabled(e.pool, s2, SubmitNotify(h)) && t == Apply(e.pool, s2, SubmitNotify(h)) && t.callers[h] == Accepted
    ensures Goes(e, v, w) && w.pool == t && h < |w.handlers| && w.handlers[h] == Waiting
  {
    var job := Job(h, r, 0, true, true);
    var v1 := Perform(e, v, Pool(SubmitStamp(h, job)));
    var v2 := Perform(e, v1, Pool(SubmitEnter(h)));
    var v3 := Perform(e, v2, Pool(SubmitNotify(h)));
    w := Perform(e, v3, Return(h));
    GoesNowhere(e, w);
    GoesFirst(e, v3, Return(h), w);
    GoesFirst(e, v2, Pool(SubmitNotify(h)), w);
    GoesFirst(e, v1, Pool(SubmitEnter(h)), w);
    GoesFirst(e, v, Pool(SubmitStamp(h, job)), w);
  }

  /** From every reachable state in which the pool accepts and has room, and for every valid input and every result,
      some run answers a call with that input by 200 and that result. */
  lemma {:induction false} ValidCallsAreServed(e: Setup, v: Service, input: HttpInput, result: Synthesis)
    returns (w: Service)
    requires ServiceReachable(e, v) && Screen(e.limits, input).Accept?
    requires e.hasPool && v.pool.accepting && |v.pool.queue| < e.pool.maxDepth
    ensures Goes(e, v, w) && |v.handlers| < |w.handlers| && w.handlers[|v.handlers|] == Done(200, Some(result))
  {
    var h := |v.handlers|;
    ServiceReachableInv(e, v);
    var v1 := HandlerComes(e, v, input);
    var v2 := HandlerSubmits(e, v1, h, Screen(e.limits, input).request, result);
    var v3 := WorkerArrives(e, v2, h, result);
    SlotOfServed(e, v3, h, result);
    w := HandlerFinishes(e, v3, h, result);
    GoesOn(e, v2, v3, w);
    GoesOn(e, v1, v2, w);
    GoesOn(e, v, v1, w);
  }
}
