/** The inference pool as a step machine.

    Every critical section of the pool's mutex, every atomic operation and every call that leaves the
    pool is one step. A step carries the choices made outside the pool: how far the clock moves, what
    the backend does, whether a callback throws. One run is a sequence of enabled steps.

    `callers` has one entry for each invocation of submit() or shutdown(); the entry's position is the
    identity of the job it submits, and stands for whatever the job's callbacks captured.
    `accepted`, `runs` and `attempts` are history: the jobs pushed, the calls of the backend and the
    callback attempts, in the order in which they happened.
 */
module PoolMachine {
  import opened Basics

  datatype Request = Request(text: string, voice: string, model: string, format: string, speed: real)

  datatype Synthesis = Synthesis(audio: seq<bv8>, sampleRate: int)

  datatype Job = Job(id: nat, request: Request, deadline: int, hasSuccess: bool, hasError: bool)

  /** Why a job was answered; the answer that its callback receives follows from it. */
  datatype Cause = QueueTimeout | BackendError(what: string) | Overrun | Served(result: Synthesis)

  datatype Answer = OnSuccess(result: Synthesis) | OnError(message: string)

  function AnswerOf(cause: Cause): (answer: Answer)
    ensures answer.OnSuccess? <==> cause.Served?
    ensures answer.OnError? ==> answer.message != ""
  {
    match cause
    case QueueTimeout => OnError("Request timed out in queue")
    case BackendError(what) => OnError("Inference failed: " + what)
    case Overrun => OnError("Request exceeded deadline during inference")
    case Served(result) => OnSuccess(result)
  }

  /** What became of the attempt to call back: the callback was null, it returned, or it threw. */
  datatype Reaction = Absent | Returned | Threw

  datatype Attempt = Attempt(job: Job, cause: Cause, reaction: Reaction, decidedAt: int)

  datatype Outcome = Pending | Gave(result: Synthesis) | Raised(what: string)

  datatype BackendRun = BackendRun(job: Job, startedAt: int, outcome: Outcome)

  datatype Worker =
    | Asleep                                             // blocked in cv_.wait
    | Awake                                              // about to lock the mutex and test the predicate
    | Holding(job: Job)                                  // popped a job, deadline not yet tested
    | Inferring(job: Job)                                // inside backend_->synthesize
    | Obtained(job: Job, result: Synthesis)              // synthesize returned, deadline not yet tested again
    | Answering(job: Job, cause: Cause, decidedAt: int)  // about to call back
    | Leaving                                            // called back, ActiveGuard not yet destroyed
    | Exited

  datatype Caller =
    | Fresh                // has called nothing yet
    | Stamped(job: Job)    // in submit, before the critical section
    | Pushed               // in submit, pushed but not yet notified
    | Accepted             // submit returned true
    | Refused              // submit returned false
    | Flagged              // in shutdown, accepting_ cleared but not yet notified
    | Joining              // in shutdown, waiting for the worker thread
    | Joined               // shutdown returned

  datatype Config = Config(maxDepth: int, timeout: int)

  predicate ValidConfig(cfg: Config) {
    cfg.maxDepth >= 1 && cfg.timeout >= 1
  }

  datatype State = State(
    now: int,
    queue: seq<Job>,
    accepting: bool,
    active: int,
    expired: int,
    worker: Worker,
    callers: seq<Caller>,
    accepted: seq<Job>,
    runs: seq<BackendRun>,
    attempts: seq<Attempt>)

  function Initial(now: int): State {
    State(now, [], true, 0, 0, Awake, [], [], [], [])
  }

  datatype Step =
    | Tick(delta: nat)
    | Arrive
    | Spurious
    | SubmitStamp(c: nat, job: Job)
    | SubmitEnter(c: nat)
    | SubmitNotify(c: nat)
    | ShutdownStore(c: nat)
    | ShutdownNotify(c: nat)
    | ShutdownJoin(c: nat)
    | WorkerCheck
    | WorkerPickup
    | BackendReturns(result: Synthesis)
    | BackendThrows(what: string)
    | WorkerRecheck
    | WorkerAnswer(threw: bool)
    | WorkerLeave

  predicate At(s: State, c: nat, caller: Caller) {
    c < |s.callers| && s.callers[c] == caller
  }

  /** The deadline that submit() gives a job: its own, unless that is the epoch sentinel. */
  function Stamp(cfg: Config, job: Job, now: int): Job {
    if job.deadline == 0 then job.(deadline := now + cfg.timeout * TICKS_PER_SECOND) else job
  }

  predicate CanEnqueue(cfg: Config, s: State) {
    s.accepting && |s.queue| < cfg.maxDepth
  }

  predicate Enabled(cfg: Config, s: State, step: Step) {
    match step
    case Tick(_) => true
    case Arrive => true
    case Spurious => s.worker.Asleep?
    case SubmitStamp(c, job) => At(s, c, Fresh) && job.id == c
    case SubmitEnter(c) => c < |s.callers| && s.callers[c].Stamped?
    case SubmitNotify(c) => At(s, c, Pushed)
    case ShutdownStore(c) => At(s, c, Fresh)
    case ShutdownNotify(c) => At(s, c, Flagged)
    case ShutdownJoin(c) => At(s, c, Joining) && s.worker.Exited?
    case WorkerCheck => s.worker.Awake?
    case WorkerPickup => s.worker.Holding?
    case BackendReturns(_) => s.worker.Inferring? && s.runs != []
    case BackendThrows(_) => s.worker.Inferring? && s.runs != []
    case WorkerRecheck => s.worker.Obtained?
    case WorkerAnswer(threw) => s.worker.Answering? && (threw ==> HasCallback(s.worker.job, s.worker.cause))
    case WorkerLeave => s.worker.Leaving?
  }

  predicate HasCallback(job: Job, cause: Cause) {
    if cause.Served? then job.hasSuccess else job.hasError
  }

  function Notified(worker: Worker): Worker {
    if worker.Asleep? then Awake else worker
  }

  function Finish(runs: seq<BackendRun>, outcome: Outcome): seq<BackendRun>
    requires runs != []
  {
    var last := |runs| - 1;
    runs[last := runs[last].(outcome := outcome)]
  }

  function Apply(cfg: Config, s: State, step: Step): State
    requires Enabled(cfg, s, step)
  {
    match step
    case Tick(delta) => s.(now := s.now + delta)
    case Arrive => s.(callers := s.callers + [Fresh])
    case Spurious => s.(worker := Awake)
    case SubmitStamp(c, job) => s.(callers := s.callers[c := Stamped(Stamp(cfg, job, s.now))])
    case SubmitEnter(c) =>
      if CanEnqueue(cfg, s) then
        var job := s.callers[c].job;
        s.(queue := s.queue + [job], accepted := s.accepted + [job], callers := s.callers[c := Pushed])
      else
        s.(callers := s.callers[c := Refused])
    case SubmitNotify(c) => s.(worker := Notified(s.worker), callers := s.callers[c := Accepted])
    case ShutdownStore(c) => s.(accepting := false, callers := s.callers[c := Flagged])
    case ShutdownNotify(c) => s.(worker := Notified(s.worker), callers := s.callers[c := Joining])
    case ShutdownJoin(c) => s.(callers := s.callers[c := Joined])
    case WorkerCheck =>
      if s.accepting && s.queue == [] then s.(worker := Asleep)
      else if s.queue == [] then s.(worker := Exited)
      else s.(worker := Holding(s.queue[0]), queue := s.queue[1..])
    case WorkerPickup =>
      var job := s.worker.job;
      if s.now >= job.deadline then
        s.(expired := s.expired + 1, worker := Answering(job, QueueTimeout, s.now))
      else
        s.(active := s.active + 1, worker := Inferring(job), runs := s.runs + [BackendRun(job, s.now, Pending)])
    case BackendReturns(result) =>
      s.(worker := Obtained(s.worker.job, result), runs := Finish(s.runs, Gave(result)))
    case BackendThrows(what) =>
      s.(worker := Answering(s.worker.job, BackendError(what), s.now), runs := Finish(s.runs, Raised(what)))
    case WorkerRecheck =>
      var job := s.worker.job;
      var cause := if s.now >= job.deadline then Overrun else Served(s.worker.result);
      s.(worker := Answering(job, cause, s.now))
    case WorkerAnswer(threw) =>
      var job, cause := s.worker.job, s.worker.cause;
      var reaction := if !HasCallback(job, cause) then Absent else if threw then Threw else Returned;
      s.(attempts := s.attempts + [Attempt(job, cause, reaction, s.worker.decidedAt)],
      worker := if cause.QueueTimeout? then Awake else Leaving)
    case WorkerLeave => s.(active := s.active - 1, worker := Awake)
  }

  predicate ValidRun(cfg: Config, s: State, steps: seq<Step>)
    decreases steps
  {
    steps == [] || (Enabled(cfg, s, steps[0]) && ValidRun(cfg, Apply(cfg, s, steps[0]), steps[1..]))
  }

  function Exec(cfg: Config, s: State, steps: seq<Step>): State
    requires ValidRun(cfg, s, steps)
    decreases steps
  {
    if steps == [] then s else Exec(cfg, Apply(cfg, s, steps[0]), steps[1..])
  }

  lemma {:induction false} RunAppend(cfg: Config, s: State, first: seq<Step>, second: seq<Step>)
    requires ValidRun(cfg, s, first) && ValidRun(cfg, Exec(cfg, s, first), second)
    ensures ValidRun(cfg, s, first + second)
    ensures Exec(cfg, s, first + second) == Exec(cfg, Exec(cfg, s, first), second)
    decreases first
  {
    if first == [] {
      assert first + second == second;
    } else {
      RunAppend(cfg, Apply(cfg, s, first[0]), first[1..], second);
      assert (first + second)[1..] == first[1..] + second;
    }
  }

  lemma OneStep(cfg: Config, s: State, step: Step)
    requires Enabled(cfg, s, step)
    ensures ValidRun(cfg, s, [step]) && Exec(cfg, s, [step]) == Apply(cfg, s, step)
  {
    assert [step][1..] == [];
  }

  lemma FirstStep(cfg: Config, s: State, step: Step, rest: seq<Step>)
    requires Enabled(cfg, s, step) && ValidRun(cfg, Apply(cfg, s, step), rest)
    ensures ValidRun(cfg, s, [step] + rest) && Exec(cfg, s, [step] + rest) == Exec(cfg, Apply(cfg, s, step), rest)
  {
    assert ([step] + rest)[1..] == rest;
  }
}
