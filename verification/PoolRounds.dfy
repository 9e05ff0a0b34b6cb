/** Big steps of the pool machine: what one call, and one round of the worker, does when nothing
    interferes. Each is shown to be a run of small steps. */
module PoolRounds {
  import opened Basics
  import opened PoolMachine

  datatype Reply = Result(result: Synthesis) | Failure(what: string)

  /** The world's part in one job: time until pick-up, the backend's reply, the time that takes, and
      whether the callback throws. */
  datatype Turn = Turn(wait: nat, reply: Reply, work: nat, throws: bool)

  /** Why a job picked up after `now` gets the answer it gets. */
  function CauseOf(job: Job, now: int, turn: Turn): Cause {
    if now + turn.wait >= job.deadline then QueueTimeout
    else match turn.reply
      case Failure(what) => BackendError(what)
      case Result(result) => if now + turn.wait + turn.work >= job.deadline then Overrun else Served(result)
  }

  function ReactionOf(job: Job, cause: Cause, throws: bool): Reaction {
    if !HasCallback(job, cause) then Absent else if throws then Threw else Returned
  }

  function OutcomeOf(reply: Reply): Outcome {
    match reply
    case Failure(what) => Raised(what)
    case Result(result) => Gave(result)
  }

  /** The clock when the round is over: a job that timed out in the queue costs no work. */
  function Later(job: Job, now: int, turn: Turn): int {
    now + turn.wait + (if CauseOf(job, now, turn).QueueTimeout? then 0 else turn.work)
  }

  function AfterSubmit(cfg: Config, s: State, job: Job, now: int): State {
    var stamped := Stamp(cfg, job, now);
    if CanEnqueue(cfg, s) then
      s.(now := now, queue := s.queue + [stamped], accepted := s.accepted + [stamped],
      worker := Notified(s.worker), callers := s.callers + [Accepted])
    else
      s.(now := now, callers := s.callers + [Refused])
  }

  /** A round of the worker holding `job`, from the pick-up check to the end of the loop body. */
  function AfterRound(s: State, job: Job, turn: Turn): State {
    var cause := CauseOf(job, s.now, turn);
    var later := Later(job, s.now, turn);
    s.(now := later,
    worker := Awake,
    expired := s.expired + (if cause.QueueTimeout? then 1 else 0),
    runs := if cause.QueueTimeout? then s.runs
            else s.runs + [BackendRun(job, s.now + turn.wait, OutcomeOf(turn.reply))],
    attempts := s.attempts + [Attempt(job, cause, ReactionOf(job, cause, turn.throws), later)])
  }

  function AfterShutdownFlag(s: State, now: int): State {
    s.(now := now, accepting := false, worker := Notified(s.worker), callers := s.callers + [Joining])
  }

  /** `steps` leads from s to t. */
  predicate Leads(cfg: Config, s: State, steps: seq<Step>, t: State) {
    ValidRun(cfg, s, steps) && Exec(cfg, s, steps) == t
  }

  lemma Lead(cfg: Config, s: State, step: Step, rest: seq<Step>, t: State)
    requires Enabled(cfg, s, step) && Leads(cfg, Apply(cfg, s, step), rest, t)
    ensures Leads(cfg, s, [step] + rest, t)
  {
    FirstStep(cfg, s, step, rest);
  }

  lemma LeadOn(cfg: Config, s: State, first: seq<Step>, m: State, second: seq<Step>, t: State)
    requires Leads(cfg, s, first, m) && Leads(cfg, m, second, t)
    ensures Leads(cfg, s, first + second, t)
  {
    RunAppend(cfg, s, first, second);
  }

  lemma SubmitRuns(cfg: Config, s: State, job: Job, now: int) returns (steps: seq<Step>)
    requires s.now <= now && job.id == |s.callers|
    ensures Leads(cfg, s, steps, AfterSubmit(cfg, s, job, now))
  {
    var c, t := |s.callers|, AfterSubmit(cfg, s, job, now);
    var s1 := Apply(cfg, s, Tick(now - s.now));
    var s2 := Apply(cfg, s1, Arrive);
    var s3 := Apply(cfg, s2, SubmitStamp(c, job));
    var s4 := Apply(cfg, s3, SubmitEnter(c));
    steps := [];
    if CanEnqueue(cfg, s) {
      assert Apply(cfg, s4, SubmitNotify(c)) == t;
      Lead(cfg, s4, SubmitNotify(c), steps, t);
      steps := [SubmitNotify(c)] + steps;
    } else {
      assert s4 == t;
    }
    Lead(cfg, s3, SubmitEnter(c), steps, t);
    steps := [SubmitEnter(c)] + steps;
    Lead(cfg, s2, SubmitStamp(c, job), steps, t);
    steps := [SubmitStamp(c, job)] + steps;
    Lead(cfg, s1, Arrive, steps, t);
    steps := [Arrive] + steps;
    Lead(cfg, s, Tick(now - s.now), steps, t);
    steps := [Tick(now - s.now)] + steps;
  }

  // ---------------------------------------------------------------- the worker, step by step

  predicate MidJob(worker: Worker) {
    worker.Holding? || worker.Inferring? || worker.Obtained? || worker.Answering? || worker.Leaving?
  }

  /** The step that the worker takes next, with the choices of the turn; a waiting worker wakes up for nothing. */
  function NextOf(worker: Worker, turn: Turn): Step {
    match worker
    case Holding(_) => WorkerPickup
    case Inferring(_) =>
      (match turn.reply
       case Failure(what) => BackendThrows(what)
       case Result(result) => BackendReturns(result))
    case Obtained(_, _) => WorkerRecheck
    case Answering(job, cause, _) => WorkerAnswer(turn.throws && HasCallback(job, cause))
    case Leaving => WorkerLeave
    case Asleep => Spurious
    case _ => WorkerCheck
  }

  /** How long the turn lets the worker take before that step. */
  function Pause(worker: Worker, turn: Turn): nat {
    match worker
    case Holding(_) => turn.wait
    case Inferring(_) => turn.work
    case _ => 0
  }

  /** A worker inside the backend has started a run. */
  predicate RunStarted(s: State) {
    s.worker.Inferring? ==> s.runs != []
  }

  /** After one step of the worker at time `now`, if it has not exited. */
  function AfterWork(cfg: Config, s: State, now: int, turn: Turn): State
    requires RunStarted(s)
  {
    if s.worker.Exited? then s.(now := now) else Apply(cfg, s.(now := now), NextOf(s.worker, turn))
  }

  lemma WorkRuns(cfg: Config, s: State, now: int, turn: Turn) returns (steps: seq<Step>)
    requires RunStarted(s) && s.now <= now
    ensures Leads(cfg, s, steps, AfterWork(cfg, s, now, turn))
  {
    var t := AfterWork(cfg, s, now, turn);
    steps := [];
    if !s.worker.Exited? {
      Lead(cfg, s.(now := now), NextOf(s.worker, turn), [], t);
      steps := [NextOf(s.worker, turn)] + [];
    }
    Lead(cfg, s, Tick(now - s.now), steps, t);
    steps := [Tick(now - s.now)] + steps;
  }

  lemma WorkKeeps(cfg: Config, s: State, now: int, turn: Turn)
    requires RunStarted(s)
    ensures var t := AfterWork(cfg, s, now, turn);
      && RunStarted(t) && t.accepting == s.accepting && t.accepted == s.accepted && t.callers == s.callers
      && t.now == now && s.attempts <= t.attempts && (MidJob(s.worker) ==> t.queue == s.queue)
      && (s.worker.Exited? ==> t.worker.Exited? && t.queue == s.queue && t.attempts == s.attempts)
      && (t.worker.Exited? ==> s.worker.Exited? || !s.accepting)
  {
  }

  function AfterAnswer(s: State, job: Job, cause: Cause, at: int, throws: bool): State {
    s.(worker := Awake, active := s.active - (if cause.QueueTimeout? then 0 else 1),
    attempts := s.attempts + [Attempt(job, cause, ReactionOf(job, cause, throws), at)])
  }

  /** The cause of the answer to a job that went through the backend. */
  function ReplyCause(job: Job, later: int, reply: Reply): Cause {
    match reply
    case Failure(what) => BackendError(what)
    case Result(result) => if later >= job.deadline then Overrun else Served(result)
  }

  function AfterReply(s: State, job: Job, turn: Turn): State
    requires s.runs != []
  {
    var later := s.now + turn.work;
    AfterAnswer(s.(now := later, runs := Finish(s.runs, OutcomeOf(turn.reply))),
                job, ReplyCause(job, later, turn.reply), later, turn.throws)
  }

  /** The rest of the round, from wherever the worker is in it. */
  function AfterRest(s: State, turn: Turn): State
    requires RunStarted(s)
  {
    match s.worker
    case Holding(job) => AfterRound(s, job, turn)
    case Inferring(job) => AfterReply(s, job, turn)
    case Obtained(job, result) => AfterAnswer(s, job, ReplyCause(job, s.now, Result(result)), s.now, turn.throws)
    case Answering(job, cause, at) => AfterAnswer(s, job, cause, at, turn.throws)
    case Leaving => s.(worker := Awake, active := s.active - 1)
    case _ => s
  }

  lemma RestKeeps(s: State, turn: Turn)
    requires RunStarted(s)
    ensures var t := AfterRest(s, turn);
      && !MidJob(t.worker) && (MidJob(s.worker) ==> t.worker.Awake?) && (!MidJob(s.worker) ==> t == s)
      && t.accepting == s.accepting && t.accepted == s.accepted && t.callers == s.callers && t.now >= s.now
      && t.queue == s.queue && s.attempts <= t.attempts
  {
  }

  function Stage(worker: Worker): nat {
    match worker
    case Holding(_) => 5
    case Inferring(_) => 4
    case Obtained(_, _) => 3
    case Answering(_, _, _) => 2
    case Leaving => 1
    case _ => 0
  }

  lemma FinishLast(runs: seq<BackendRun>, run: BackendRun, outcome: Outcome)
    ensures Finish(runs + [run], outcome) == runs + [run.(outcome := outcome)]
  {
  }

  lemma PickupIsRest(cfg: Config, s: State, job: Job, turn: Turn)
    requires s.worker == Holding(job)
    ensures AfterRest(AfterWork(cfg, s, s.now + turn.wait, turn), turn) == AfterRound(s, job, turn)
  {
    FinishLast(s.runs, BackendRun(job, s.now + turn.wait, Pending), OutcomeOf(turn.reply));
  }

  lemma ReplyIsRest(cfg: Config, s: State, job: Job, turn: Turn)
    requires s.worker == Inferring(job) && s.runs != []
    ensures AfterRest(AfterWork(cfg, s, s.now + turn.work, turn), turn) == AfterReply(s, job, turn)
  {
  }

  lemma AnswerIsRest(cfg: Config, s: State, turn: Turn)
    requires s.worker.Obtained? || s.worker.Answering? || s.worker.Leaving?
    ensures AfterRest(AfterWork(cfg, s, s.now, turn), turn) == AfterRest(s, turn)
  {
  }

  lemma WorkAdvances(cfg: Config, s: State, now: int, turn: Turn)
    requires RunStarted(s) && MidJob(s.worker)
    ensures RunStarted(AfterWork(cfg, s, now, turn)) && Stage(AfterWork(cfg, s, now, turn).worker) < Stage(s.worker)
  {
  }

  /** One step of the worker is the first of the rest of its round. */
  lemma WorkIsRest(cfg: Config, s: State, turn: Turn)
    requires RunStarted(s) && MidJob(s.worker)
    ensures var t := AfterWork(cfg, s, s.now + Pause(s.worker, turn), turn);
      RunStarted(t) && Stage(t.worker) < Stage(s.worker) && AfterRest(t, turn) == AfterRest(s, turn)
  {
    WorkAdvances(cfg, s, s.now + Pause(s.worker, turn), turn);
    match s.worker
    case Holding(job) => PickupIsRest(cfg, s, job, turn);
    case Inferring(job) => ReplyIsRest(cfg, s, job, turn);
    case _ => AnswerIsRest(cfg, s, turn);
  }

  lemma {:induction false} RestRuns(cfg: Config, s: State, turn: Turn) returns (steps: seq<Step>)
    requires RunStarted(s)
    ensures Leads(cfg, s, steps, AfterRest(s, turn))
    decreases Stage(s.worker)
  {
    steps := [];
    if MidJob(s.worker) {
      var now := s.now + Pause(s.worker, turn);
      WorkIsRest(cfg, s, turn);
      var first := WorkRuns(cfg, s, now, turn);
      var rest := RestRuns(cfg, AfterWork(cfg, s, now, turn), turn);
      LeadOn(cfg, s, first, AfterWork(cfg, s, now, turn), rest, AfterRest(s, turn));
      steps := first + rest;
    }
  }

  lemma {:induction false} RoundRuns(cfg: Config, s: State, job: Job, turn: Turn) returns (steps: seq<Step>)
    requires s.worker == Holding(job)
    ensures Leads(cfg, s, steps, AfterRound(s, job, turn))
  {
    steps := RestRuns(cfg, s, turn);
  }

  lemma ShutdownFlagRuns(cfg: Config, s: State, now: int) returns (steps: seq<Step>)
    requires s.now <= now
    ensures Leads(cfg, s, steps, AfterShutdownFlag(s, now))
  {
    var c, t := |s.callers|, AfterShutdownFlag(s, now);
    var s1 := Apply(cfg, s, Tick(now - s.now));
    var s2 := Apply(cfg, s1, Arrive);
    var s3 := Apply(cfg, s2, ShutdownStore(c));
    assert Apply(cfg, s3, ShutdownNotify(c)) == t;
    Lead(cfg, s3, ShutdownNotify(c), [], t);
    steps := [ShutdownNotify(c)] + [];
    Lead(cfg, s2, ShutdownStore(c), steps, t);
    steps := [ShutdownStore(c)] + steps;
    Lead(cfg, s1, Arrive, steps, t);
    steps := [Arrive] + steps;
    Lead(cfg, s, Tick(now - s.now), steps, t);
    steps := [Tick(now - s.now)] + steps;
  }

  function AfterTake(s: State): State
    requires s.queue != []
  {
    s.(worker := Holding(s.queue[0]), queue := s.queue[1..])
  }

  /** worker_loop with nothing else running: round after round, then return, or wait if more may come. */
  function AfterDrain(s: State, world: nat -> Turn, round: nat): State
    decreases |s.queue|
  {
    if s.queue == [] then s.(worker := if s.accepting then Asleep else Exited)
    else AfterDrain(AfterRound(AfterTake(s), s.queue[0], world(round)), world, round + 1)
  }

  lemma {:induction false} DrainUnfolds(s: State, world: nat -> Turn, round: nat)
    ensures s.queue == [] ==> AfterDrain(s, world, round) == s.(worker := if s.accepting then Asleep else Exited)
    ensures s.queue != [] ==>
      AfterDrain(s, world, round) == AfterDrain(AfterRound(AfterTake(s), s.queue[0], world(round)), world, round + 1)
  {
  }

  lemma {:induction false} DrainRuns(cfg: Config, s: State, world: nat -> Turn, round: nat) returns (steps: seq<Step>)
    requires s.worker.Awake?
    ensures Leads(cfg, s, steps, AfterDrain(s, world, round))
    decreases |s.queue|
  {
    var t := AfterDrain(s, world, round);
    if s.queue == [] {
      assert Apply(cfg, s, WorkerCheck) == t;
      Lead(cfg, s, WorkerCheck, [], t);
      steps := [WorkerCheck] + [];
    } else {
      var s1 := AfterTake(s);
      assert Apply(cfg, s, WorkerCheck) == s1;
      var first := RoundRuns(cfg, s1, s.queue[0], world(round));
      var rest := DrainRuns(cfg, AfterRound(s1, s.queue[0], world(round)), world, round + 1);
      LeadOn(cfg, s1, first, AfterRound(s1, s.queue[0], world(round)), rest, t);
      Lead(cfg, s, WorkerCheck, first + rest, t);
      steps := [WorkerCheck] + (first + rest);
    }
  }

  /** The attempt a answers the job with what its turn brought. */
  predicate Fits(a: Attempt, job: Job, turn: Turn) {
    && a.job == job
    && a.reaction == ReactionOf(job, a.cause, turn.throws)
    && (turn.reply.Failure? ==> a.cause.QueueTimeout? || a.cause == BackendError(turn.reply.what))
    && (a.cause.Served? ==> turn.reply == Result(a.cause.result) && a.decidedAt < job.deadline)
  }

  lemma {:induction false} DrainEmpties(s: State, world: nat -> Turn, round: nat)
    ensures var t := AfterDrain(s, world, round);
      && |t.attempts| == |s.attempts| + |s.queue| && s.attempts <= t.attempts
      && t.queue == [] && t.worker == (if s.accepting then Asleep else Exited)
      && t.accepted == s.accepted && t.callers == s.callers
      && t.active == s.active && t.now >= s.now && t.accepting == s.accepting
    decreases |s.queue|
  {
    if s.queue != [] {
      DrainEmpties(AfterRound(AfterTake(s), s.queue[0], world(round)), world, round + 1);
    }
  }

  /** Draining answers exactly the queued jobs, in order, each with what its own turn brought. */
  lemma {:induction false} DrainAnswers(s: State, world: nat -> Turn, round: nat, k: nat)
    requires k < |s.queue|
    ensures var t := AfterDrain(s, world, round);
      |s.attempts| + k < |t.attempts| && Fits(t.attempts[|s.attempts| + k], s.queue[k], world(round + k))
    decreases |s.queue|
  {
    var s1 := AfterRound(AfterTake(s), s.queue[0], world(round));
    if k == 0 {
      DrainEmpties(s1, world, round + 1);
      assert s1.attempts[|s.attempts|] == AfterDrain(s, world, round).attempts[|s.attempts|];
    } else {
      DrainAnswers(s1, world, round + 1, k - 1);
      assert s1.queue[k - 1] == s.queue[k] && round + 1 + (k - 1) == round + k;
    }
  }
}
