/** The pool's promises, over every run from the initial state. */
module PoolTheorems {
  import opened Basics
  import opened PoolMachine
  import opened PoolInvariants

  /** s can be reached by some run of a freshly constructed pool. */
  ghost predicate Reachable(cfg: Config, s: State) {
    ValidConfig(cfg) && exists now: int, steps: seq<Step> :: RunTo(cfg, now, steps, s)
  }

  predicate RunTo(cfg: Config, now: int, steps: seq<Step>, s: State) {
    ValidRun(cfg, Initial(now), steps) && Exec(cfg, Initial(now), steps) == s
  }

  lemma ReachableInv(cfg: Config, s: State)
    requires Reachable(cfg, s)
    ensures Inv(cfg, s)
  {
    var now: int, steps: seq<Step> :| RunTo(cfg, now, steps, s);
    InvInitial(cfg, now);
    InvRun(cfg, Initial(now), steps);
  }

  /** A worker inside the backend has started a run. */
  lemma ReachableRunStarted(cfg: Config, s: State)
    requires Reachable(cfg, s)
    ensures s.worker.Inferring? ==> s.runs != []
  {
    ReachableInv(cfg, s);
  }

  lemma StartReachable(cfg: Config, now: int)
    requires ValidConfig(cfg)
    ensures Reachable(cfg, Initial(now))
  {
    assert RunTo(cfg, now, [], Initial(now));
  }

  lemma RunReachable(cfg: Config, s: State, steps: seq<Step>)
    requires Reachable(cfg, s) && ValidRun(cfg, s, steps)
    ensures Reachable(cfg, Exec(cfg, s, steps))
  {
    var now: int, before: seq<Step> :| RunTo(cfg, now, before, s);
    RunAppend(cfg, Initial(now), before, steps);
    assert RunTo(cfg, now, before + steps, Exec(cfg, s, steps));
  }

  // ---------------------------------------------------------------- wake-up

  /** The worker is never left asleep with work to do: a notification is still to come. */
  lemma NoLostWakeUp(cfg: Config, s: State)
    requires Reachable(cfg, s)
    ensures s.worker.Asleep? && (s.queue != [] || !s.accepting) ==> NotifyPending(s)
  {
    ReachableInv(cfg, s);
  }

  // ---------------------------------------------------------------- conservation and order

  /** No accepted job is lost, duplicated or overtaken, and the queue keeps its bound. */
  lemma NoJobLost(cfg: Config, s: State)
    requires Reachable(cfg, s)
    ensures s.accepted == JobsOf(s.attempts) + Hand(s.worker) + s.queue
    ensures |s.queue| <= cfg.maxDepth && |Hand(s.worker)| <= 1
    ensures forall c: nat {:trigger s.callers[c]} | c < |s.callers| ::
      Submitted(s.callers[c]) <==> HasId(s.accepted, c)
  {
    ReachableInv(cfg, s);
  }

  /** Jobs are answered in the order of acceptance, and no two of them share an identity. */
  lemma AnswersFollowAcceptance(cfg: Config, s: State)
    requires Reachable(cfg, s)
    ensures |s.attempts| <= |s.accepted|
    ensures forall k {:trigger s.attempts[k]} | 0 <= k < |s.attempts| :: s.attempts[k].job == s.accepted[k]
    ensures forall i, j | 0 <= i < j < |s.accepted| :: s.accepted[i].id != s.accepted[j].id
  {
    ReachableInv(cfg, s);
    forall k | 0 <= k < |s.attempts|
      ensures s.attempts[k].job == s.accepted[k]
    {
      assert JobsOf(s.attempts)[k] == s.accepted[k];
    }
  }

  /** Each answered job had one callback attempt, whatever the callbacks did: two attempts never
      belong to the same submission, and the callback was run unless it was null. */
  lemma OneAttemptPerJob(cfg: Config, s: State, i: nat, j: nat)
    requires Reachable(cfg, s) && i < j < |s.attempts|
    ensures s.attempts[i].job.id != s.attempts[j].job.id
    ensures s.attempts[i].reaction == Absent <==>
      !(if s.attempts[i].cause.Served? then s.attempts[i].job.hasSuccess else s.attempts[i].job.hasError)
  {
    ReachableInv(cfg, s);
    AnswersFollowAcceptance(cfg, s);
  }

  /** A callback that throws leaves the pool as one that returns, but for the note of it in the history. */
  lemma ThrowingChangesNothing(cfg: Config, s: State)
    requires Enabled(cfg, s, WorkerAnswer(true))
    ensures Enabled(cfg, s, WorkerAnswer(false))
    ensures var t, u, n := Apply(cfg, s, WorkerAnswer(true)), Apply(cfg, s, WorkerAnswer(false)), |s.attempts|;
      && |t.attempts| == |u.attempts| == n + 1 && t.attempts[..n] == u.attempts[..n] == s.attempts
      && t.attempts[n].reaction == Threw && u.attempts[n] == t.attempts[n].(reaction := Returned)
      && t.(attempts := u.attempts) == u && t.(attempts := s.attempts, worker := s.worker) == s
  {
  }

  lemma {:induction false} HistoryGrows(cfg: Config, s: State, steps: seq<Step>)
    requires ValidRun(cfg, s, steps)
    ensures var t := Exec(cfg, s, steps);
      && s.accepted <= t.accepted && s.attempts <= t.attempts && s.now <= t.now && |s.callers| <= |t.callers|
      && (!s.accepting ==> !t.accepting && t.accepted == s.accepted)
    decreases steps
  {
    if steps != [] {
      HistoryGrows(cfg, Apply(cfg, s, steps[0]), steps[1..]);
    }
  }

  /** The place in the order of acceptance that a job pushed now would take. */
  lemma PlaceInLine(cfg: Config, s: State)
    requires Reachable(cfg, s)
    ensures |s.accepted| == |s.attempts| + |Hand(s.worker)| + |s.queue|
    ensures forall c: nat {:trigger s.callers[c]} | c < |s.callers| && s.callers[c].Stamped? :: s.callers[c].job.id == c
  {
    ReachableInv(cfg, s);
  }

  /** A job accepted with k jobs ahead of it is answered by the (k+1)-th attempt from then on, and by no other. */
  lemma ResolutionOrder(cfg: Config, s: State, c: nat, steps: seq<Step>)
    requires Reachable(cfg, s)
    requires Enabled(cfg, s, SubmitEnter(c)) && CanEnqueue(cfg, s)
    requires ValidRun(cfg, Apply(cfg, s, SubmitEnter(c)), steps)
    ensures var t := Exec(cfg, Apply(cfg, s, SubmitEnter(c)), steps);
      var turn := |s.attempts| + |Hand(s.worker)| + |s.queue|;
      && (turn < |t.attempts| ==> t.attempts[turn].job == s.callers[c].job)
      && (forall i {:trigger t.attempts[i]} | 0 <= i < |t.attempts| && i != turn :: t.attempts[i].job.id != c)
  {
    var s' := Apply(cfg, s, SubmitEnter(c));
    PlaceInLine(cfg, s);
    OneStep(cfg, s, SubmitEnter(c));
    RunReachable(cfg, s, [SubmitEnter(c)]);
    RunReachable(cfg, s', steps);
    HistoryGrows(cfg, s', steps);
    var t := Exec(cfg, s', steps);
    AnswersFollowAcceptance(cfg, t);
    assert t.accepted[|s.accepted|] == s.callers[c].job;
  }

  // ---------------------------------------------------------------- deadlines

  /** The backend ran only for jobs whose deadline was ahead at pick-up, a success was delivered only if the
      deadline was still ahead after synthesis and with the audio the backend gave for that very job, and
      the counters agree with the history. */
  lemma DeadlineSafety(cfg: Config, s: State)
    requires Reachable(cfg, s)
    ensures forall k {:trigger s.runs[k]} | 0 <= k < |s.runs| :: s.runs[k].startedAt < s.runs[k].job.deadline
    ensures |Tried(s.attempts)| <= |s.runs|
    ensures forall k {:trigger Tried(s.attempts)[k]} | 0 <= k < |Tried(s.attempts)| ::
      var a := Tried(s.attempts)[k];
      && a.job == s.runs[k].job
      && Explains(s.runs[k].outcome, a.cause, a.decidedAt, a.job.deadline)
    ensures forall k {:trigger s.attempts[k]} | 0 <= k < |s.attempts| && s.attempts[k].cause.QueueTimeout? ::
      s.attempts[k].decidedAt >= s.attempts[k].job.deadline
    ensures s.active == (if InSection(s.worker) then 1 else 0)
    ensures !s.worker.Answering? ==> s.expired == Count(s.attempts, IsQueueTimeout)
    ensures !s.worker.Holding? ==> |s.runs| == |s.attempts| + |Hand(s.worker)| - s.expired
  {
    ReachableInv(cfg, s);
    TriedLength(s.attempts);
    var tried := Tried(s.attempts);
    assert |s.runs| == |RunJobs(s.runs)| == |tried| + |Started(s.worker)|;
    forall k | 0 <= k < |tried|
      ensures tried[k].job == s.runs[k].job
    {
      assert RunJobs(s.runs)[k] == JobsOf(tried)[k];
    }
  }

  // ---------------------------------------------------------------- progress and shutdown

  /** Steps that the pool's own threads owe; the clock, new calls and spurious wake-ups come from outside. */
  predicate IsOwed(step: Step) {
    !(step.Tick? || step.Arrive? || step.Spurious?)
  }

  predicate IsArrival(step: Step) { step.Arrive? }

  predicate IsSpurious(step: Step) { step.Spurious? }

  function CallerWeight(caller: Caller): nat {
    match caller
    case Fresh => 20
    case Stamped(_) => 19
    case Pushed => 3
    case Flagged => 3
    case Joining => 1
    case _ => 0
  }

  function WorkerWeight(worker: Worker): nat {
    match worker
    case Holding(_) => 9
    case Inferring(_) => 8
    case Obtained(_, _) => 7
    case Answering(_, _, _) => 6
    case Leaving => 4
    case Awake => 2
    case Asleep => 1
    case Exited => 0
  }

  /** An upper bound on the steps still owed. */
  function Potential(s: State): nat {
    10 * |s.queue| + WorkerWeight(s.worker) + Sum(s.callers, CallerWeight)
  }

  /** A step of one call replaces its entry and lowers its weight, by the weight of a job if it queues one. */
  lemma CallerStepWeight(cfg: Config, s: State, step: Step, c: nat)
    requires Enabled(cfg, s, step) && c < |s.callers|
    requires || step == SubmitEnter(c) || step == SubmitNotify(c)
             || (step.SubmitStamp? && step.c == c)
             || step == ShutdownStore(c) || step == ShutdownNotify(c) || step == ShutdownJoin(c)
    ensures var t := Apply(cfg, s, step);
      && t.callers == s.callers[c := t.callers[c]]
      && 10 * |t.queue| + WorkerWeight(t.worker) + CallerWeight(t.callers[c])
       < 10 * |s.queue| + WorkerWeight(s.worker) + CallerWeight(s.callers[c])
  {
  }

  lemma PotentialStep(cfg: Config, s: State, step: Step)
    requires Enabled(cfg, s, step)
    ensures IsOwed(step) ==> Potential(Apply(cfg, s, step)) < Potential(s)
    ensures !IsOwed(step) ==> Potential(Apply(cfg, s, step)) <= Potential(s)
                              + (if step.Arrive? then 20 else 0) + (if step.Spurious? then 1 else 0)
  {
    var t := Apply(cfg, s, step);
    if step.Arrive? {
      SumAppend(s.callers, Fresh, CallerWeight);
    } else if t.callers != s.callers {
      CallerStepWeight(cfg, s, step, step.c);
      SumUpdate(s.callers, step.c, t.callers[step.c], CallerWeight);
    } else {
      WorkerStepWeight(cfg, s, step);
    }
  }

  lemma WorkerStepWeight(cfg: Config, s: State, step: Step)
    requires Enabled(cfg, s, step)
    requires Apply(cfg, s, step).callers == s.callers
    ensures var t := Apply(cfg, s, step);
      && (IsOwed(step) ==>
            10 * |t.queue| + WorkerWeight(t.worker) < 10 * |s.queue| + WorkerWeight(s.worker))
      && (!IsOwed(step) ==> t.queue == s.queue)
      && (!IsOwed(step) ==> WorkerWeight(t.worker) <= WorkerWeight(s.worker) + (if step.Spurious? then 1 else 0))
  {
  }

  /** The pool never runs on its own for ever: calls and spurious wake-ups pay for every owed step. */
  lemma {:induction false} OwedStepsBounded(cfg: Config, s: State, steps: seq<Step>)
    requires ValidRun(cfg, s, steps)
    ensures Count(steps, IsOwed) + Potential(Exec(cfg, s, steps))
         <= Potential(s) + 20 * Count(steps, IsArrival) + Count(steps, IsSpurious)
    decreases steps
  {
    if steps != [] {
      PotentialStep(cfg, s, steps[0]);
      CountFirst(steps, IsOwed);
      CountFirst(steps, IsArrival);
      CountFirst(steps, IsSpurious);
      OwedStepsBounded(cfg, Apply(cfg, s, steps[0]), steps[1..]);
    }
  }

  /** Nothing that the pool's threads owe can happen any more. */
  ghost predicate Quiescent(cfg: Config, s: State) {
    forall step: Step | IsOwed(step) :: !Enabled(cfg, s, step)
  }

  lemma {:induction false} QuiescentCallers(cfg: Config, s: State)
    requires Quiescent(cfg, s)
    ensures forall c: nat {:trigger s.callers[c]} | c < |s.callers| ::
      !s.callers[c].Fresh? && !s.callers[c].Stamped? && !s.callers[c].Pushed? && !s.callers[c].Flagged?
    ensures s.worker.Exited? ==> forall c: nat {:trigger s.callers[c]} | c < |s.callers| :: !s.callers[c].Joining?
  {
    forall c: nat {:trigger s.callers[c]} | c < |s.callers|
      ensures !s.callers[c].Fresh? && !s.callers[c].Stamped? && !s.callers[c].Pushed? && !s.callers[c].Flagged?
    {
      assert !Enabled(cfg, s, ShutdownStore(c));
      assert !Enabled(cfg, s, SubmitEnter(c));
      assert !Enabled(cfg, s, SubmitNotify(c));
      assert !Enabled(cfg, s, ShutdownNotify(c));
    }
    forall c: nat {:trigger s.callers[c]} | c < |s.callers|
      ensures s.worker.Exited? ==> !s.callers[c].Joining?
    {
      assert !Enabled(cfg, s, ShutdownJoin(c));
    }
  }

  lemma {:induction false} QuiescentWorker(cfg: Config, s: State)
    requires Accounted(s) && Quiescent(cfg, s)
    ensures s.worker.Asleep? || s.worker.Exited?
  {
    var any := Synthesis([], 0);
    assert !Enabled(cfg, s, WorkerCheck);
    assert !Enabled(cfg, s, WorkerPickup);
    assert !Enabled(cfg, s, BackendReturns(any));
    assert !Enabled(cfg, s, WorkerRecheck);
    assert !Enabled(cfg, s, WorkerAnswer(false));
    assert !Enabled(cfg, s, WorkerLeave);
  }

  /** The threads stop only when all is done: every call has returned, every accepted job has been
      answered, and after a shutdown the worker has exited. */
  lemma {:induction false} QuiescentMeansDone(cfg: Config, s: State)
    requires Inv(cfg, s) && Quiescent(cfg, s)
    ensures s.queue == [] && s.accepted == JobsOf(s.attempts) && s.active == 0
    ensures forall c: nat {:trigger s.callers[c]} | c < |s.callers| ::
      s.callers[c].Accepted? || s.callers[c].Refused? || s.callers[c].Joined?
    ensures s.worker == (if s.accepting then Asleep else Exited)
  {
    QuiescentCallers(cfg, s);
    QuiescentWorker(cfg, s);
  }

  /** A worker that waits or has left, with no notification to come, leaves nothing behind. */
  lemma IdleMeansAnswered(cfg: Config, s: State)
    requires Inv(cfg, s) && !NotifyPending(s)
    requires s.worker.Asleep? || s.worker.Exited?
    ensures s.queue == [] && s.accepted == JobsOf(s.attempts) && s.active == 0
    ensures s.worker == (if s.accepting then Asleep else Exited)
  {
  }

  /** A draining shutdown: once accepting_ is cleared nothing more is accepted, the steps left are bounded
      by the potential, and when they have all been taken the worker has exited and everything accepted
      before the shutdown has been answered. */
  lemma ShutdownDrains(cfg: Config, s: State, steps: seq<Step>)
    requires Reachable(cfg, s) && !s.accepting && ValidRun(cfg, s, steps)
    ensures var t := Exec(cfg, s, steps);
      && !t.accepting && t.accepted == s.accepted
      && (s.worker.Exited? ==> t.worker.Exited? && t.queue == [])
      && (Quiescent(cfg, t) ==> t.worker.Exited? && JobsOf(t.attempts) == s.accepted)
      && Count(steps, IsOwed) <= Potential(s) + 20 * Count(steps, IsArrival) + Count(steps, IsSpurious)
  {
    ReachableInv(cfg, s);
    InvRun(cfg, s, steps);
    HistoryGrows(cfg, s, steps);
    OwedStepsBounded(cfg, s, steps);
    ExitIsFinal(cfg, s, steps);
    var t := Exec(cfg, s, steps);
    if Quiescent(cfg, t) {
      QuiescentMeansDone(cfg, t);
    }
  }

  lemma ExitedMeansDrained(cfg: Config, s: State)
    requires Reachable(cfg, s) && s.worker.Exited?
    ensures !s.accepting && s.queue == [] && s.active == 0 && s.accepted == JobsOf(s.attempts)
  {
    ReachableInv(cfg, s);
  }

  lemma {:induction false} ExitIsFinal(cfg: Config, s: State, steps: seq<Step>)
    requires Inv(cfg, s) && ValidRun(cfg, s, steps)
    ensures s.worker.Exited? ==> Exec(cfg, s, steps).worker.Exited? && Exec(cfg, s, steps).queue == []
    decreases steps
  {
    if steps != [] {
      InvStep(cfg, s, steps[0]);
      ExitIsFinal(cfg, Apply(cfg, s, steps[0]), steps[1..]);
    }
  }

  /** A second shutdown, called once the first has returned, runs through and leaves the pool as it was. */
  lemma SecondShutdownChangesNothing(cfg: Config, s: State, first: nat, c: nat)
    requires Reachable(cfg, s) && At(s, first, Joined) && At(s, c, Fresh)
    ensures var steps := [ShutdownStore(c), ShutdownNotify(c), ShutdownJoin(c)];
      ValidRun(cfg, s, steps) && Exec(cfg, s, steps) == s.(callers := s.callers[c := Joined])
  {
    ReachableInv(cfg, s);
    var s1 := Apply(cfg, s, ShutdownStore(c));
    var s2 := Apply(cfg, s1, ShutdownNotify(c));
    var s3 := Apply(cfg, s2, ShutdownJoin(c));
    assert s3 == s.(callers := s.callers[c := Joined]);
    OneStep(cfg, s2, ShutdownJoin(c));
    OneStep(cfg, s1, ShutdownNotify(c));
    RunAppend(cfg, s1, [ShutdownNotify(c)], [ShutdownJoin(c)]);
    OneStep(cfg, s, ShutdownStore(c));
    RunAppend(cfg, s, [ShutdownStore(c)], [ShutdownNotify(c)] + [ShutdownJoin(c)]);
    assert [ShutdownStore(c)] + ([ShutdownNotify(c)] + [ShutdownJoin(c)])
        == [ShutdownStore(c), ShutdownNotify(c), ShutdownJoin(c)];
  }
}
