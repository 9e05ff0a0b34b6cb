/** What every step of the pool keeps. Each invariant has its own preservation lemma. */
module PoolInvariants {
  import opened Basics
  import opened PoolMachine

  /** The job popped but not yet answered. */
  function Hand(worker: Worker): seq<Job> {
    match worker
    case Holding(job) => [job]
    case Inferring(job) => [job]
    case Obtained(job, _) => [job]
    case Answering(job, _, _) => [job]
    case _ => []
  }

  function JobsOf(attempts: seq<Attempt>): seq<Job> {
    seq(|attempts|, i requires 0 <= i < |attempts| => attempts[i].job)
  }

  function RunJobs(runs: seq<BackendRun>): seq<Job> {
    seq(|runs|, i requires 0 <= i < |runs| => runs[i].job)
  }

  /** The attempts whose job went through the backend. */
  function Tried(attempts: seq<Attempt>): seq<Attempt> {
    if attempts == [] then []
    else
      var last := attempts[|attempts| - 1];
      Tried(attempts[..|attempts| - 1]) + (if last.cause.QueueTimeout? then [] else [last])
  }

  predicate InSection(worker: Worker) {
    || worker.Inferring? || worker.Obtained? || worker.Leaving?
    || (worker.Answering? && !worker.cause.QueueTimeout?)
  }

  /** The job in hand, once it has been given to the backend. */
  function Started(worker: Worker): seq<Job> {
    if InSection(worker) then Hand(worker) else []
  }

  predicate IsQueueTimeout(a: Attempt) { a.cause.QueueTimeout? }

  /** Every accepted job is answered, in hand or queued, in the order of acceptance. */
  predicate Conserved(cfg: Config, s: State) {
    && s.accepted == JobsOf(s.attempts) + Hand(s.worker) + s.queue
    && |s.queue| <= cfg.maxDepth
  }

  predicate Submitted(caller: Caller) { caller.Pushed? || caller.Accepted? }

  /** Jobs carry the identity of the call that submitted them, so no two accepted jobs share one. */
  ghost predicate Identified(s: State) {
    && (forall c: nat {:trigger s.callers[c]} | c < |s.callers| && s.callers[c].Stamped? :: s.callers[c].job.id == c)
    && (forall i {:trigger s.accepted[i]} | 0 <= i < |s.accepted| ::
          s.accepted[i].id < |s.callers| && Submitted(s.callers[s.accepted[i].id]))
    && (forall i, j | 0 <= i < j < |s.accepted| :: s.accepted[i].id != s.accepted[j].id)
    && (forall c: nat {:trigger s.callers[c]} | c < |s.callers| && Submitted(s.callers[c]) :: HasId(s.accepted, c))
  }

  ghost predicate HasId(jobs: seq<Job>, c: nat) {
    exists i {:trigger jobs[i]} :: 0 <= i < |jobs| && jobs[i].id == c
  }

  predicate HasWork(s: State) { s.queue != [] || !s.accepting }

  /** Some caller has left the critical section and has not yet notified. */
  ghost predicate NotifyPending(s: State) {
    exists c: nat {:trigger s.callers[c]} :: c < |s.callers| && (s.callers[c].Pushed? || s.callers[c].Flagged?)
  }

  ghost predicate WakeUp(s: State) {
    s.worker.Asleep? && HasWork(s) ==> NotifyPending(s)
  }

  predicate ShutdownCaller(caller: Caller) { caller.Flagged? || caller.Joining? || caller.Joined? }

  ghost predicate ShutdownOrder(s: State) {
    && (s.worker.Exited? ==> !s.accepting && s.queue == [])
    && (forall c: nat {:trigger s.callers[c]} | c < |s.callers| && ShutdownCaller(s.callers[c]) :: !s.accepting)
    && (forall c: nat {:trigger s.callers[c]} | c < |s.callers| && s.callers[c].Joined? :: s.worker.Exited?)
    && (!s.accepting ==> exists c: nat {:trigger s.callers[c]} :: c < |s.callers| && ShutdownCaller(s.callers[c]))
  }

  predicate Counters(s: State) {
    && s.active == (if InSection(s.worker) then 1 else 0)
    && s.expired == Count(s.attempts, IsQueueTimeout)
                    + (if s.worker.Answering? && s.worker.cause.QueueTimeout? then 1 else 0)
  }

  /** What the backend did in a run accounts for the answer given to its job. */
  predicate Explains(outcome: Outcome, cause: Cause, decidedAt: int, deadline: int) {
    match cause
    case QueueTimeout => false
    case BackendError(what) => outcome == Raised(what)
    case Overrun => outcome.Gave? && decidedAt >= deadline
    case Served(result) => outcome == Gave(result) && decidedAt < deadline
  }

  /** The backend runs are the tried attempts and the job in the section, each with its own outcome. */
  ghost predicate Accounted(s: State) {
    var tried := Tried(s.attempts);
    && RunJobs(s.runs) == JobsOf(tried) + Started(s.worker)
    && |s.runs| >= |tried|
    && (forall k {:trigger s.runs[k]} {:trigger tried[k]} | 0 <= k < |tried| ::
          Explains(s.runs[k].outcome, tried[k].cause, tried[k].decidedAt, tried[k].job.deadline))
    && (s.worker.Inferring? ==> s.runs != [] && s.runs[|s.runs| - 1].outcome == Pending)
    && (s.worker.Obtained? ==> s.runs != [] && s.runs[|s.runs| - 1].outcome == Gave(s.worker.result))
    && (s.worker.Answering? && !s.worker.cause.QueueTimeout? ==>
          && s.runs != []
          && Explains(s.runs[|s.runs| - 1].outcome, s.worker.cause, s.worker.decidedAt, s.worker.job.deadline))
  }

  /** Deadlines were honoured at each clock reading that mattered. */
  ghost predicate DeadlinesKept(s: State) {
    && (forall k {:trigger s.runs[k]} | 0 <= k < |s.runs| :: s.runs[k].startedAt < s.runs[k].job.deadline)
    && (forall k {:trigger s.attempts[k]} | 0 <= k < |s.attempts| ::
          && s.attempts[k].decidedAt <= s.now
          && (s.attempts[k].cause.QueueTimeout? ==> s.attempts[k].decidedAt >= s.attempts[k].job.deadline)
          && (s.attempts[k].reaction != Absent <==> HasCallback(s.attempts[k].job, s.attempts[k].cause)))
    && (s.worker.Answering? ==>
          && s.worker.decidedAt <= s.now
          && (s.worker.cause.QueueTimeout? ==> s.worker.decidedAt >= s.worker.job.deadline))
  }

  ghost predicate Inv(cfg: Config, s: State) {
    && Conserved(cfg, s)
    && Identified(s)
    && WakeUp(s)
    && ShutdownOrder(s)
    && Counters(s)
    && Accounted(s)
    && DeadlinesKept(s)
  }

  lemma JobsOfAppend(attempts: seq<Attempt>, a: Attempt)
    ensures JobsOf(attempts + [a]) == JobsOf(attempts) + [a.job]
  {
  }

  lemma TriedAppend(attempts: seq<Attempt>, a: Attempt)
    ensures Tried(attempts + [a]) == Tried(attempts) + (if a.cause.QueueTimeout? then [] else [a])
  {
    assert (attempts + [a])[..|attempts|] == attempts;
  }

  /** Every attempt is either a queue timeout or tried. */
  lemma {:induction false} TriedLength(attempts: seq<Attempt>)
    ensures |Tried(attempts)| + Count(attempts, IsQueueTimeout) == |attempts|
  {
    if attempts != [] {
      TriedLength(attempts[..|attempts| - 1]);
    }
  }

  lemma ConservedStep(cfg: Config, s: State, step: Step)
    requires Enabled(cfg, s, step) && Conserved(cfg, s)
    ensures Conserved(cfg, Apply(cfg, s, step))
  {
    if step.WorkerAnswer? {
      var t := Apply(cfg, s, step);
      JobsOfAppend(s.attempts, t.attempts[|s.attempts|]);
    }
  }

  lemma IdentifiedPush(cfg: Config, s: State, c: nat)
    requires Enabled(cfg, s, SubmitEnter(c)) && CanEnqueue(cfg, s) && Identified(s)
    ensures Identified(Apply(cfg, s, SubmitEnter(c)))
  {
    var t := Apply(cfg, s, SubmitEnter(c));
    var n := |s.accepted|;
    assert t.accepted[n].id == c && t.callers == s.callers[c := Pushed];
    forall i | 0 <= i < |t.accepted|
      ensures t.accepted[i].id < |t.callers| && Submitted(t.callers[t.accepted[i].id])
      ensures i < n ==> t.accepted[i].id != c
    {
      assert i < n ==> t.accepted[i] == s.accepted[i];
    }
    forall d: nat | d < |t.callers| && Submitted(t.callers[d])
      ensures HasId(t.accepted, d)
    {
      if d != c {
        assert Submitted(s.callers[d]);
        var i :| 0 <= i < n && s.accepted[i].id == d;
        assert t.accepted[i].id == d;
      }
    }
  }

  lemma IdentifiedStep(cfg: Config, s: State, step: Step)
    requires Enabled(cfg, s, step) && Identified(s)
    ensures Identified(Apply(cfg, s, step))
  {
    var t := Apply(cfg, s, step);
    if step.SubmitEnter? && CanEnqueue(cfg, s) {
      IdentifiedPush(cfg, s, step.c);
    } else {
      assert t.accepted == s.accepted;
      assert |t.callers| >= |s.callers|;
      assert forall c: nat | c < |s.callers| :: Submitted(t.callers[c]) <==> Submitted(s.callers[c]);
      assert forall c: nat | |s.callers| <= c < |t.callers| :: t.callers[c] == Fresh;
      assert forall c: nat | c < |t.callers| && t.callers[c].Stamped? :: t.callers[c].job.id == c;
    }
  }

  lemma WakeUpStep(cfg: Config, s: State, step: Step)
    requires Enabled(cfg, s, step) && WakeUp(s)
    ensures WakeUp(Apply(cfg, s, step))
  {
    var t := Apply(cfg, s, step);
    if t.worker.Asleep? && HasWork(t) {
      if step.SubmitEnter? && CanEnqueue(cfg, s) {
        assert t.callers[step.c].Pushed?;
      } else if step.ShutdownStore? {
        assert t.callers[step.c].Flagged?;
      } else {
        var c: nat :| c < |s.callers| && (s.callers[c].Pushed? || s.callers[c].Flagged?);
        assert t.callers[c] == s.callers[c];
      }
    }
  }

  lemma ShutdownOrderStep(cfg: Config, s: State, step: Step)
    requires Enabled(cfg, s, step) && ShutdownOrder(s)
    ensures ShutdownOrder(Apply(cfg, s, step))
  {
    var t := Apply(cfg, s, step);
    if step.ShutdownStore? {
      assert ShutdownCaller(t.callers[step.c]);
    } else if !t.accepting {
      var c: nat :| c < |s.callers| && ShutdownCaller(s.callers[c]);
      assert ShutdownCaller(t.callers[c]);
    }
  }

  lemma CountersStep(cfg: Config, s: State, step: Step)
    requires Enabled(cfg, s, step) && Counters(s)
    ensures Counters(Apply(cfg, s, step))
  {
    if step.WorkerAnswer? {
      CountAppend(s.attempts, Apply(cfg, s, step).attempts[|s.attempts|], IsQueueTimeout);
    }
  }

  lemma RunJobsAre(s: State)
    requires Accounted(s)
    ensures |s.runs| == |Tried(s.attempts)| + |Started(s.worker)|
    ensures forall k {:trigger s.runs[k]} | 0 <= k < |s.runs| ::
      s.runs[k].job == (JobsOf(Tried(s.attempts)) + Started(s.worker))[k]
  {
    assert |RunJobs(s.runs)| == |s.runs|;
    assert forall k | 0 <= k < |s.runs| :: RunJobs(s.runs)[k] == s.runs[k].job;
  }

  /** The answer given by a worker. */
  predicate Answers(worker: Worker, a: Attempt) {
    worker.Answering? && a.job == worker.job && a.cause == worker.cause && a.decidedAt == worker.decidedAt
  }

  lemma {:induction false} AccountedTimeout(s: State, a: Attempt)
    requires Accounted(s) && Answers(s.worker, a) && a.cause.QueueTimeout?
    ensures Accounted(s.(attempts := s.attempts + [a], worker := Awake))
  {
    TriedAppend(s.attempts, a);
  }

  lemma {:induction false} AccountedTried(s: State, a: Attempt)
    requires Accounted(s) && Answers(s.worker, a) && !a.cause.QueueTimeout?
    ensures Accounted(s.(attempts := s.attempts + [a], worker := Leaving))
  {
    RunJobsAre(s);
    TriedAppend(s.attempts, a);
    JobsOfAppend(Tried(s.attempts), a);
  }

  lemma {:induction false} AccountedAnswer(cfg: Config, s: State, step: Step)
    requires step.WorkerAnswer? && Enabled(cfg, s, step) && Accounted(s)
    ensures Accounted(Apply(cfg, s, step))
  {
    var t := Apply(cfg, s, step);
    var a := t.attempts[|s.attempts|];
    if a.cause.QueueTimeout? {
      AccountedTimeout(s, a);
      assert t == s.(attempts := s.attempts + [a], worker := Awake);
    } else {
      AccountedTried(s, a);
      assert t == s.(attempts := s.attempts + [a], worker := Leaving);
    }
  }

  lemma AccountedReply(cfg: Config, s: State, step: Step)
    requires step.BackendReturns? || step.BackendThrows?
    requires Enabled(cfg, s, step) && Accounted(s)
    ensures Accounted(Apply(cfg, s, step))
  {
    var t := Apply(cfg, s, step);
    RunJobsAre(s);
    assert t.attempts == s.attempts && |t.runs| == |s.runs|;
    assert RunJobs(t.runs) == RunJobs(s.runs);
  }

  lemma {:induction false} AccountedNewRun(s: State, run: BackendRun)
    requires Accounted(s) && s.worker.Holding? && run.job == s.worker.job && run.outcome == Pending
    ensures Accounted(s.(runs := s.runs + [run], worker := Inferring(s.worker.job)))
  {
    var t := s.(runs := s.runs + [run], worker := Inferring(s.worker.job));
    RunJobsAre(s);
    assert RunJobs(t.runs) == RunJobs(s.runs) + [s.worker.job];
  }

  lemma {:induction false} AccountedPickup(cfg: Config, s: State)
    requires Enabled(cfg, s, WorkerPickup) && Accounted(s)
    ensures Accounted(Apply(cfg, s, WorkerPickup))
  {
    var t := Apply(cfg, s, WorkerPickup);
    if t.worker.Inferring? {
      AccountedNewRun(s, t.runs[|s.runs|]);
      assert t.worker == Inferring(s.worker.job) && t.attempts == s.attempts;
    }
  }

  lemma {:induction false} AccountedOther(cfg: Config, s: State, step: Step)
    requires !(step.WorkerAnswer? || step.BackendReturns? || step.BackendThrows? || step.WorkerPickup?)
    requires Enabled(cfg, s, step) && Accounted(s)
    ensures Accounted(Apply(cfg, s, step))
  {
    var t := Apply(cfg, s, step);
    OtherKeepsHistory(cfg, s, step);
    AccountedSame(s, t);
  }

  /** Steps of callers and of the clock, and worker steps outside the section. */
  lemma OtherKeepsHistory(cfg: Config, s: State, step: Step)
    requires !(step.WorkerAnswer? || step.BackendReturns? || step.BackendThrows? || step.WorkerPickup?)
    requires Enabled(cfg, s, step)
    ensures var t := Apply(cfg, s, step);
      && t.runs == s.runs && t.attempts == s.attempts
      && (t.worker == s.worker
          || (s.worker.Obtained? && t.worker.Answering? && t.worker.job == s.worker.job
              && Explains(Gave(s.worker.result), t.worker.cause, t.worker.decidedAt, t.worker.job.deadline))
          || (Started(s.worker) == Started(t.worker) == [] && !t.worker.Answering?))
  {
  }

  lemma {:induction false} AccountedSame(s: State, t: State)
    requires Accounted(s) && t.runs == s.runs && t.attempts == s.attempts
    requires || t.worker == s.worker
             || (s.worker.Obtained? && t.worker.Answering? && t.worker.job == s.worker.job
                 && Explains(Gave(s.worker.result), t.worker.cause, t.worker.decidedAt, t.worker.job.deadline))
             || (Started(s.worker) == Started(t.worker) == [] && !t.worker.Answering?)
    ensures Accounted(t)
  {
  }

  lemma AccountedStep(cfg: Config, s: State, step: Step)
    requires Enabled(cfg, s, step) && Accounted(s)
    ensures Accounted(Apply(cfg, s, step))
  {
    match step
    case WorkerAnswer(_) => AccountedAnswer(cfg, s, step);
    case BackendReturns(_) => AccountedReply(cfg, s, step);
    case BackendThrows(_) => AccountedReply(cfg, s, step);
    case WorkerPickup => AccountedPickup(cfg, s);
    case _ => AccountedOther(cfg, s, step);
  }

  lemma DeadlinesKeptStep(cfg: Config, s: State, step: Step)
    requires Enabled(cfg, s, step) && DeadlinesKept(s)
    ensures DeadlinesKept(Apply(cfg, s, step))
  {
  }

  lemma InvStep(cfg: Config, s: State, step: Step)
    requires Enabled(cfg, s, step) && Inv(cfg, s)
    ensures Inv(cfg, Apply(cfg, s, step))
  {
    ConservedStep(cfg, s, step);
    IdentifiedStep(cfg, s, step);
    WakeUpStep(cfg, s, step);
    ShutdownOrderStep(cfg, s, step);
    CountersStep(cfg, s, step);
    AccountedStep(cfg, s, step);
    DeadlinesKeptStep(cfg, s, step);
  }

  lemma NothingAccounted(now: int)
    ensures Accounted(Initial(now)) && Counters(Initial(now))
  {
  }

  lemma InvInitial(cfg: Config, now: int)
    requires ValidConfig(cfg)
    ensures Inv(cfg, Initial(now))
  {
    NothingAccounted(now);
    var s := Initial(now);
    assert s.accepted == JobsOf(s.attempts) + Hand(s.worker) + s.queue;
  }

  lemma {:induction false} InvRun(cfg: Config, s: State, steps: seq<Step>)
    requires Inv(cfg, s) && ValidRun(cfg, s, steps)
    ensures Inv(cfg, Exec(cfg, s, steps))
    decreases steps
  {
    if steps != [] {
      InvStep(cfg, s, steps[0]);
      InvRun(cfg, Apply(cfg, s, steps[0]), steps[1..]);
    }
  }
}
