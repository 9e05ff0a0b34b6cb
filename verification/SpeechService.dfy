/** handle_speech on top of the pool, as one step machine.

    Entry h of `handlers`, of `slots`, of `inputs` and of the pool's `callers` belong together: the handler, the
    result variables its callbacks write to, what it was sent (as history), and its call of submit(). A handler
    validates, probes the pool, raises the active_jobs gauge, submits, waits for its result and counts. Each counter
    operation, each critical section of a result mutex and each pool step is one move.
 */
module SpeechService {
  import opened Basics
  import opened PoolMachine
  import opened Validation

  datatype Handler =
    | Entered(input: HttpInput)
    | Probing(request: Request)               // valid, about to read is_accepting()
    | Ready(request: Request)                 // about to raise the gauge
    | Submitting(request: Request)            // inside submit()
    | Waiting                                 // about to lock result_mutex and test result_ready
    | Sleeping                                // blocked in result_cv.wait
    | Woken                                   // result_ready seen, gauge still raised
    | Settling                                // gauge lowered, about to look at synth_error
    | Rejecting(status: int)                  // about to count and return an error response
    | Done(status: int, audio: Option<Synthesis>)
    | Stopping                                // a thread inside shutdown()

  /** result_ready, synth_result and synth_error. */
  datatype Slot = Slot(ready: bool, result: Synthesis, error: string)

  datatype Service = Service(
    pool: State,
    handlers: seq<Handler>,
    slots: seq<Slot>,
    inputs: seq<Option<HttpInput>>,  // what each handler was sent; None for a shutdown
    requests: multiset<int>,  // requests_total by status
    errors: int,              // errors_total
    gauge: int)               // active_jobs

  datatype Setup = Setup(pool: Config, limits: Limits, hasPool: bool)

  const EMPTY_SLOT := Slot(false, Synthesis([], 24000), "")

  function Start(now: int): Service {
    Service(Initial(now), [], [], [], multiset{}, 0, 0)
  }

  datatype Move =
    | Call(input: HttpInput)
    | Stop
    | Wander(h: nat)      // a spurious wake-up of a waiting handler
    | Validate(h: nat)
    | Probe(h: nat)
    | Raise(h: nat)
    | Pool(step: Step)
    | Return(h: nat)      // submit() came back
    | Test(h: nat)
    | Lower(h: nat)
    | Settle(h: nat)
    | Decline(h: nat)

  predicate Aligned(v: Service) {
    |v.handlers| == |v.slots| == |v.inputs| == |v.pool.callers|
  }

  predicate Is(v: Service, h: nat, handler: Handler) {
    h < |v.handlers| && v.handlers[h] == handler
  }

  /** Which steps of the pool the threads of the service take: handlers submit their own request with both
      callbacks and the epoch deadline, and the callbacks of handle_speech do not throw. */
  predicate Permitted(v: Service, step: Step) {
    match step
    case Arrive => false
    case SubmitStamp(c, job) =>
      && c < |v.handlers| && v.handlers[c].Submitting?
      && job == Job(c, v.handlers[c].request, 0, true, true)
    case ShutdownStore(c) => Is(v, c, Stopping)
    case WorkerAnswer(threw) => !threw
    case _ => true
  }

  predicate CanMove(e: Setup, v: Service, move: Move)
    requires Aligned(v)
  {
    match move
    case Call(_) => true
    case Stop => true
    case Wander(h) => Is(v, h, Sleeping)
    case Validate(h) => h < |v.handlers| && v.handlers[h].Entered?
    case Probe(h) => h < |v.handlers| && v.handlers[h].Probing?
    case Raise(h) => h < |v.handlers| && v.handlers[h].Ready?
    case Pool(step) => Permitted(v, step) && Enabled(e.pool, v.pool, step)
    case Return(h) =>
      h < |v.handlers| && v.handlers[h].Submitting? && (v.pool.callers[h].Accepted? || v.pool.callers[h].Refused?)
    case Test(h) => Is(v, h, Waiting)
    case Lower(h) => Is(v, h, Woken)
    case Settle(h) => Is(v, h, Settling)
    case Decline(h) => h < |v.handlers| && v.handlers[h].Rejecting?
  }

  /** on_success or on_error, run by the worker: fill the slot and notify, in one critical section. */
  function Fill(slot: Slot, answer: Answer): Slot {
    match answer
    case OnSuccess(result) => slot.(result := result, ready := true)
    case OnError(message) => slot.(error := message, ready := true)
  }

  function Notify(handler: Handler): Handler {
    if handler.Sleeping? then Waiting else handler
  }

  function Deliver(v: Service, id: nat, answer: Answer): Service {
    if id < |v.handlers| && id < |v.slots| then
      v.(slots := v.slots[id := Fill(v.slots[id], answer)], handlers := v.handlers[id := Notify(v.handlers[id])])
    else v
  }

  function Perform(e: Setup, v: Service, move: Move): (after: Service)
    requires Aligned(v) && CanMove(e, v, move)
    ensures Aligned(after)
  {
    match move
    case Call(input) => Join(e, v, Entered(input), Some(input))
    case Stop => Join(e, v, Stopping, None)
    case Wander(h) => To(v, h, Waiting)
    case Validate(h) =>
      var screening := Screen(e.limits, v.handlers[h].input);
      To(v, h, if screening.Reject? then Rejecting(screening.status) else Probing(screening.request))
    case Probe(h) =>
      To(v, h, if e.hasPool && v.pool.accepting then Ready(v.handlers[h].request) else Rejecting(503))
    case Raise(h) => To(v, h, Submitting(v.handlers[h].request)).(gauge := v.gauge + 1)
    case Pool(step) =>
      var after := v.(pool := Apply(e.pool, v.pool, step));
      if step.WorkerAnswer? then Deliver(after, v.pool.worker.job.id, AnswerOf(v.pool.worker.cause)) else after
    case Return(h) =>
      if v.pool.callers[h].Accepted? then To(v, h, Waiting)
      else To(v, h, Rejecting(503)).(gauge := v.gauge - 1)
    case Test(h) => To(v, h, if v.slots[h].ready then Woken else Sleeping)
    case Lower(h) => To(v, h, Settling).(gauge := v.gauge - 1)
    case Settle(h) =>
      if v.slots[h].error != "" then To(v, h, Rejecting(500)).(errors := v.errors + 1)
      else To(v, h, Done(200, Some(v.slots[h].result))).(requests := v.requests + multiset{200})
    case Decline(h) =>
      To(v, h, Done(v.handlers[h].status, None)).(requests := v.requests + multiset{v.handlers[h].status})
  }

  function To(v: Service, h: nat, handler: Handler): Service
    requires h < |v.handlers|
  {
    v.(handlers := v.handlers[h := handler])
  }

  function Join(e: Setup, v: Service, handler: Handler, input: Option<HttpInput>): Service {
    v.(handlers := v.handlers + [handler], slots := v.slots + [EMPTY_SLOT], inputs := v.inputs + [input],
    pool := Apply(e.pool, v.pool, Arrive))
  }

  predicate ValidMoves(e: Setup, v: Service, moves: seq<Move>)
    requires Aligned(v)
    decreases moves
  {
    moves == [] ||
    (CanMove(e, v, moves[0]) &&
     ValidMoves(e, Perform(e, v, moves[0]), moves[1..]))
  }

  function PerformAll(e: Setup, v: Service, moves: seq<Move>): (after: Service)
    requires Aligned(v) && ValidMoves(e, v, moves)
    ensures Aligned(after)
    decreases moves
  {
    if moves == [] then v else PerformAll(e, Perform(e, v, moves[0]), moves[1..])
  }
}
