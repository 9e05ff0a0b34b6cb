/** What becomes of the deadline that a caller gives, or leaves to the pool. */
module PoolDeadlines {
  import opened Basics
  import opened PoolMachine
  import opened PoolInvariants
  import opened PoolTheorems

  /** Wherever the job of call c is, it is this job. */
  ghost predicate Carries(s: State, c: nat, job: Job) {
    && c < |s.callers| && !s.callers[c].Fresh? && job.id == c
    && (s.callers[c].Stamped? ==> s.callers[c].job == job)
    && (forall i {:trigger s.accepted[i]} | 0 <= i < |s.accepted| && s.accepted[i].id == c :: s.accepted[i] == job)
  }

  lemma {:induction false} CarriesPush(cfg: Config, s: State, d: nat, c: nat, job: Job)
    requires Enabled(cfg, s, SubmitEnter(d)) && CanEnqueue(cfg, s) && Identified(s) && Carries(s, c, job)
    ensures Carries(Apply(cfg, s, SubmitEnter(d)), c, job)
  {
    var t, pushed := Apply(cfg, s, SubmitEnter(d)), s.callers[d].job;
    assert pushed.id == d && t.accepted == s.accepted + [pushed];
    forall i | 0 <= i < |t.accepted| && t.accepted[i].id == c
      ensures t.accepted[i] == job
    {
      assert i < |s.accepted| ==> t.accepted[i] == s.accepted[i];
    }
  }

  lemma {:induction false} CarriesStep(cfg: Config, s: State, step: Step, c: nat, job: Job)
    requires Enabled(cfg, s, step) && Identified(s) && Carries(s, c, job)
    ensures Carries(Apply(cfg, s, step), c, job)
  {
    if step.SubmitEnter? && CanEnqueue(cfg, s) {
      CarriesPush(cfg, s, step.c, c, job);
    } else {
      assert Apply(cfg, s, step).accepted == s.accepted;
    }
  }

  lemma {:induction false} CarriesRun(cfg: Config, s: State, steps: seq<Step>, c: nat, job: Job)
    requires Inv(cfg, s) && ValidRun(cfg, s, steps) && Carries(s, c, job)
    ensures Inv(cfg, Exec(cfg, s, steps)) && Carries(Exec(cfg, s, steps), c, job)
    decreases steps
  {
    if steps != [] {
      InvStep(cfg, s, steps[0]);
      CarriesStep(cfg, s, steps[0], c, job);
      CarriesRun(cfg, Apply(cfg, s, steps[0]), steps[1..], c, job);
    }
  }

  /** The job that enters the pool: the caller's, except that the epoch gives way to the time of the call plus the
      timeout. */
  lemma {:induction false} StampedCarries(cfg: Config, s: State, c: nat, job: Job)
    requires Inv(cfg, s) && Enabled(cfg, s, SubmitStamp(c, job))
    ensures var due := if job.deadline == 0 then s.now + cfg.timeout * TICKS_PER_SECOND else job.deadline;
      Carries(Apply(cfg, s, SubmitStamp(c, job)), c, job.(deadline := due))
  {
    assert forall i | 0 <= i < |s.accepted| :: Submitted(s.callers[s.accepted[i].id]);
  }

  /** Jobs in hand, given to the backend and answered are accepted jobs. */
  lemma {:induction false} AllAreAccepted(cfg: Config, s: State)
    requires Inv(cfg, s)
    ensures forall k {:trigger s.attempts[k]} | 0 <= k < |s.attempts| :: s.attempts[k].job in s.accepted
    ensures forall job | job in Hand(s.worker) :: job in s.accepted
  {
    forall k {:trigger s.attempts[k]} | 0 <= k < |s.attempts|
      ensures s.attempts[k].job in s.accepted
    {
      assert JobsOf(s.attempts)[k] == s.accepted[k];
    }
    forall job | job in Hand(s.worker)
      ensures job in s.accepted
    {
      assert s.accepted[|s.attempts|] == job;
    }
  }

  /** The attempt that answers a job, seen from its deadline and from the runs of the backend. */
  ghost predicate AnsweredInTime(s: State, a: Attempt, due: int) {
    match a.cause
    case QueueTimeout => a.decidedAt >= due
    case Overrun => a.decidedAt >= due && RanBefore(s, a.job, due)
    case Served(_) => a.decidedAt < due && RanBefore(s, a.job, due)
    case BackendError(_) => RanBefore(s, a.job, due)
  }

  ghost predicate RanBefore(s: State, job: Job, due: int) {
    exists k {:trigger s.runs[k]} :: 0 <= k < |s.runs| && s.runs[k].job == job && s.runs[k].startedAt < due
  }

  lemma {:induction false} TriedHolds(attempts: seq<Attempt>, k: nat) returns (j: nat)
    requires k < |attempts| && !attempts[k].cause.QueueTimeout?
    ensures j < |Tried(attempts)| && Tried(attempts)[j] == attempts[k]
    decreases |attempts|
  {
    var last := |attempts| - 1;
    if k == last {
      j := |Tried(attempts)| - 1;
    } else {
      j := TriedHolds(attempts[..last], k);
    }
  }

  lemma {:induction false} AttemptInTime(cfg: Config, s: State, k: nat)
    requires Inv(cfg, s) && k < |s.attempts|
    ensures AnsweredInTime(s, s.attempts[k], s.attempts[k].job.deadline)
  {
    var a := s.attempts[k];
    if !a.cause.QueueTimeout? {
      var j := TriedHolds(s.attempts, k);
      RunJobsAre(s);
      assert s.runs[j].job == a.job;
      assert Explains(s.runs[j].outcome, a.cause, a.decidedAt, a.job.deadline);
    }
  }

  lemma {:induction false} CarriedIs(s: State, c: nat, mine: Job, job: Job)
    requires Carries(s, c, mine) && job in s.accepted && job.id == c
    ensures job == mine
  {
  }

  lemma {:induction false} CarriedCounts(cfg: Config, t: State, c: nat, mine: Job)
    requires Inv(cfg, t) && Carries(t, c, mine)
    ensures t.worker.Holding? && t.worker.job.id == c ==>
      t.worker.job == mine &&
      Apply(cfg, t, WorkerPickup).worker
        == if t.now >= mine.deadline then Answering(mine, QueueTimeout, t.now) else Inferring(mine)
    ensures t.worker.Obtained? && t.worker.job.id == c ==>
      t.worker.job == mine &&
      Apply(cfg, t, WorkerRecheck).worker
        == Answering(mine, if t.now >= mine.deadline then Overrun else Served(t.worker.result), t.now)
    ensures forall k {:trigger t.attempts[k]} | 0 <= k < |t.attempts| && t.attempts[k].job.id == c ::
      t.attempts[k].job == mine && AnsweredInTime(t, t.attempts[k], mine.deadline)
  {
    if (t.worker.Holding? || t.worker.Obtained?) && t.worker.job.id == c {
      CarriedInHand(cfg, t, c, mine);
    }
    CarriedAnswers(cfg, t, c, mine);
  }

  lemma {:induction false} CarriedInHand(cfg: Config, t: State, c: nat, mine: Job)
    requires Inv(cfg, t) && Carries(t, c, mine) && (t.worker.Holding? || t.worker.Obtained?) && t.worker.job.id == c
    ensures t.worker.job == mine
  {
    AllAreAccepted(cfg, t);
    assert t.worker.job in Hand(t.worker);
    CarriedIs(t, c, mine, t.worker.job);
  }

  lemma {:induction false} CarriedAnswers(cfg: Config, t: State, c: nat, mine: Job)
    requires Inv(cfg, t) && Carries(t, c, mine)
    ensures forall k {:trigger t.attempts[k]} | 0 <= k < |t.attempts| && t.attempts[k].job.id == c ::
      t.attempts[k].job == mine && AnsweredInTime(t, t.attempts[k], mine.deadline)
  {
    AllAreAccepted(cfg, t);
    forall k {:trigger t.attempts[k]} | 0 <= k < |t.attempts| && t.attempts[k].job.id == c
      ensures t.attempts[k].job == mine && AnsweredInTime(t, t.attempts[k], mine.deadline)
    {
      CarriedIs(t, c, mine, t.attempts[k].job);
      AttemptInTime(cfg, t, k);
    }
  }

  /** The due time of a submission counts, from its call of submit() to its answer. A call at time t leaves its
      deadline at the epoch and is due timeout seconds later, or brings its own. Then in every run: the pick-up check
      sends the job to the backend exactly while that time is ahead, and the check after synthesis lets its audio
      through exactly while it is still ahead; so it was answered as timed out in the queue only at or after that
      time, as too long in inference only if it had started before and ended at or after it, and served only before.
      Nothing else about the job is changed on the way. */
  lemma {:induction false} DueTimeCounts(cfg: Config, s: State, c: nat, job: Job, steps: seq<Step>)
    requires Reachable(cfg, s) && Enabled(cfg, s, SubmitStamp(c, job))
    requires ValidRun(cfg, Apply(cfg, s, SubmitStamp(c, job)), steps)
    ensures var t := Exec(cfg, Apply(cfg, s, SubmitStamp(c, job)), steps);
      var due := if job.deadline == 0 then s.now + cfg.timeout * TICKS_PER_SECOND else job.deadline;
      var mine := job.(deadline := due);
      && (t.worker.Holding? && t.worker.job.id == c ==>
            t.worker.job == mine &&
            Apply(cfg, t, WorkerPickup).worker
              == if t.now >= due then Answering(mine, QueueTimeout, t.now) else Inferring(mine))
      && (t.worker.Obtained? && t.worker.job.id == c ==>
            t.worker.job == mine &&
            Apply(cfg, t, WorkerRecheck).worker
              == Answering(mine, if t.now >= due then Overrun else Served(t.worker.result), t.now))
      && (forall k {:trigger t.attempts[k]} | 0 <= k < |t.attempts| && t.attempts[k].job.id == c ::
            t.attempts[k].job == mine && AnsweredInTime(t, t.attempts[k], due))
  {
    ReachableInv(cfg, s);
    var s1 := Apply(cfg, s, SubmitStamp(c, job));
    var due := if job.deadline == 0 then s.now + cfg.timeout * TICKS_PER_SECOND else job.deadline;
    StampedCarries(cfg, s, c, job);
    InvStep(cfg, s, SubmitStamp(c, job));
    CarriesRun(cfg, s1, steps, c, job.(deadline := due));
    CarriedCounts(cfg, Exec(cfg, s1, steps), c, job.(deadline := due));
  }

  // ---------------------------------------------------------------- what the callbacks are told

  lemma {:induction false} TriedFrom(attempts: seq<Attempt>, j: nat) returns (k: nat)
    requires j < |Tried(attempts)|
    ensures k < |attempts| && attempts[k] == Tried(attempts)[j] && !attempts[k].cause.QueueTimeout?
    decreases |attempts|
  {
    var last := |attempts| - 1;
    if j < |Tried(attempts[..last])| {
      k := TriedFrom(attempts[..last], j);
    } else {
      k := last;
    }
  }

  /** The backend never saw a job that timed out in the queue. */
  lemma {:induction false} TimedOutNeverRan(cfg: Config, s: State, k: nat, j: nat)
    requires Inv(cfg, s) && k < |s.attempts| && s.attempts[k].cause.QueueTimeout? && j < |s.runs|
    ensures s.runs[j].job.id != s.attempts[k].job.id
  {
    RunJobsAre(s);
    assert JobsOf(s.attempts)[k] == s.accepted[k];
    if j < |Tried(s.attempts)| {
      var i := TriedFrom(s.attempts, j);
      assert JobsOf(s.attempts)[i] == s.accepted[i];
    } else {
      assert s.runs[j].job == s.accepted[|s.attempts|];
    }
  }

  /** What a callback is told: that the job timed out in the queue, and then the backend never saw it; or what the
      backend did with it, namely what it threw, or the audio it gave, if the deadline was still ahead. */
  lemma {:induction false} CallbacksTellTheTruth(cfg: Config, s: State, k: nat) returns (j: nat)
    requires Reachable(cfg, s) && k < |s.attempts|
    ensures var a := s.attempts[k];
      if a.cause.QueueTimeout? then
        && AnswerOf(a.cause) == OnError("Request timed out in queue")
        && forall i | 0 <= i < |s.runs| :: s.runs[i].job.id != a.job.id
      else
        && j < |s.runs| && s.runs[j].job == a.job
        && match s.runs[j].outcome
           case Pending => false
           case Raised(what) => AnswerOf(a.cause) == OnError("Inference failed: " + what)
           case Gave(result) =>
             if a.decidedAt < a.job.deadline then AnswerOf(a.cause) == OnSuccess(result)
             else AnswerOf(a.cause) == OnError("Request exceeded deadline during inference")
  {
    ReachableInv(cfg, s);
    var a := s.attempts[k];
    j := 0;
    if a.cause.QueueTimeout? {
      forall i | 0 <= i < |s.runs|
        ensures s.runs[i].job.id != a.job.id
      {
        TimedOutNeverRan(cfg, s, k, i);
      }
    } else {
      j := TriedHolds(s.attempts, k);
      RunJobsAre(s);
      assert Explains(s.runs[j].outcome, a.cause, a.decidedAt, a.job.deadline);
    }
  }

  /** A call of submit() is refused at its critical section exactly when shutdown has begun or the queue is full. */
  lemma RefusedExactly(cfg: Config, s: State, c: nat)
    requires Enabled(cfg, s, SubmitEnter(c))
    ensures var t := Apply(cfg, s, SubmitEnter(c));
      && (t.callers[c].Refused? <==> !s.accepting || |s.queue| >= cfg.maxDepth)
      && (t.callers[c].Refused? ==> t == s.(callers := s.callers[c := Refused]))
  {
  }
}
