# A verified model of voxtral-server

This project models the concurrent core of voxtral-server, a text-to-speech HTTP server written in C++, and proves
what that core promises over every run: the inference queue and its worker, the speech handlers that wait on it, the
two per-address limiters and the middleware that combines them. It also models the byte and text formats at the edge:
WAV files, the `X-Forwarded-For` header, bearer tokens and request ids.

`dafny verify dfyconfig.toml` checks everything.

## How the model is built

| files | what they model |
|---|---|
| `PoolMachine`, `PoolInvariants`, `PoolTheorems`, `PoolDeadlines` | `InferencePool` as a step machine: submitters, shutdown callers and the worker, each with its own program counter, interleaved in any order |
| `PoolRounds`, `InferencePool` | the same pool as an object whose methods take the machine's steps along |
| `Lifecycle`, `TtsServer` | the server around the pool: as a step machine over all its pools, and as an object |
| `Validation`, `SpeechService`, `SpeechTheorems`, `SpeechResults`, `SpeechInputs`, `SpeechServing` | the request validators, and `handle_speech` as a step machine on top of the pool |
| `AuthLimiter`, `AuthHistory`, `AuthCrowding`, `AuthWindows` | the failure limiter as an object, its answers compared with the full history of failures, when eviction makes them differ, and its fixed windows against sliding ones |
| `RequestLimiter`, `RequestHistory`, `RequestRuns` | the request limiter as an object, a reference that keeps the full history, and what follows for every run |
| `Middleware`, `MiddlewareThreads` | `run_middleware` as sequential code, and the same checks taken by many threads |
| `MiddlewareQuota`, `MiddlewareHistory`, `MiddlewareBursts` | how often both limiters together let an address fail: the bound, the same for the full history, and runs that reach it |
| `Wav`, `ClientIp`, `BearerAuth`, `RequestId`, `BinaryWords` | the encoder, the header scan, the comparison and token check, and the id printer, each with an inverse or a reference definition |

A *step* is a critical section, an atomic operation or a call that leaves the component. It carries the choices made
outside: how far the clock moves, what the backend returns or throws, whether a callback throws, which wake-ups are
spurious. A *run* is a sequence of enabled steps from the initial state, and the results hold for all runs. Liveness
is stated in two parts: the steps that the component's own threads owe are bounded (`OwedStepsBounded`,
`OwedMovesBounded`), and when none is left everything has been answered (`QuiescentMeansDone`, `EveryHandlerReturns`,
`EveryCallReturns`).

The objects' methods are written as the program's statements, and their postconditions tie them to the functions and
relations over which the runs are built: `Submit`, `RunJob` and `WorkerLoop` to the pool machine, `IsBlocked` and
`CheckAndRecordFailure` to `AuthHistory.Does`, `CheckRequest` to `RequestHistory.Does`. A call of the pool object may
find the worker anywhere in its loop; that other threads interfere with the call itself is the matter of the machines.

Time is a number of clock ticks (nanoseconds), read once per limiter call. Samples are real numbers. 32-bit and 8-bit
arithmetic wraps explicitly.

## Where code and documentation differ

The model follows the code.

- SECURITY.md:60 and include/tts/auth.hpp:178 describe the state of both limiters as capped. The request limiter
  only drops windows that are over, and only when it allows a request: with a quota of at least one its table is over
  the cap exactly when more windows than that were running after the last request it allowed (`CapIsSoft`,
  `CapIsExceeded`). With a quota of zero it never drops anything (`ZeroQuotaKeepsAll`).
- include/tts/auth.hpp:28-29 says that the comparison returns true if both strings are equal. It also does so when
  one string extends the other by a multiple of 256 bytes (`EqualityByLength`). `BearerIsExact` says what follows for
  the token check, and `ExtendedKeyGetsIn` gives the wrong tokens that pass it.
- ARCHITECTURE.md:127-129, SECURITY.md:49 and include/tts/auth.hpp:85 call the limiters sliding windows. Both use
  fixed windows that open with the first event. The request limiter keeps the sliding-window promise, at most
  `max_rpm` requests in any minute, exactly when `max_rpm` is at most one (`RequestHistory.SlidingWindowOnlyForOne`);
  what it does keep in an interval of any length is `Capacity` (`ThroughputBound`), 2 * `max_rpm` - 1 for a minute,
  and some run reaches it for every length (`LimiterPeak`). The failure limiter blocks exactly the addresses with more
  than `max_failures` failures in the last window's length only if that length is zero
  (`SlidingWindowOnlyForInstants`); for every other policy some run lets such an address go (`BlockIsMissed`,
  `MissedMinute`), though never the other way round (`BlocksAreJustified`).
- The sizes of a WAV file are computed modulo 2^32. Silence decodes to its own sample count exactly as long as
  44 + 2n < 2^32 (`SilenceRoundTrip`).
- Evicting is unobservable exactly while no failure leaves more than `max_tracked_ips` windows open
  (`AnswersMatchHistory`, `CrowdingIsObservable`): from a run that leaves more of them open, some continuation gets an
  answer that the history contradicts (`CrowdedFalls`). `CrowdedRun` is such a run.
- An eviction may drop the address that was just recorded if the clock has not moved since all other entries
  (`NewcomerSurvives` gives the exact condition).

## Model

| member | source | states |
|---|---|---|
| PoolMachine.AnswerOf | src/tts/inference_pool.cpp:126-182 | Success goes to on_success only, and every error message the pool sends is non-empty |
| PoolTheorems.NoLostWakeUp | src/tts/inference_pool.cpp:61-120 | In every reachable state, if the worker sleeps while there is work or a shutdown to notice, a caller has left its critical section and has yet to notify |
| PoolTheorems.NoJobLost | src/tts/inference_pool.cpp:61-120 | Accepted jobs are the answered ones, the one in hand and the queue, in that order; the queue keeps its bound; a job was accepted exactly when its submit got past the push |
| PoolTheorems.OneAttemptPerJob | src/tts/inference_pool.cpp:122-184 | Two callback attempts never belong to the same submission, and on_success after a served job, on_error otherwise, is run unless it is null, whatever callbacks throw |
| PoolTheorems.ThrowingChangesNothing | src/tts/inference_pool.cpp:126-182 | A callback that throws leaves the pool as one that returns |
| PoolTheorems.AnswersFollowAcceptance | src/tts/inference_pool.cpp:105-185 | Jobs are answered in the order in which they were accepted |
| PoolTheorems.ResolutionOrder | src/tts/inference_pool.cpp:61-185 | A job accepted with k jobs ahead is answered by the (k+1)-th attempt from then on and by no other |
| PoolTheorems.DeadlineSafety | src/tts/inference_pool.cpp:122-183 | The backend runs only for jobs whose deadline is ahead at pick-up; a success needs the deadline ahead after synthesis and carries what the backend gave for that job; active and expired counters agree with the history |
| PoolDeadlines.DueTimeCounts | src/tts/inference_pool.cpp:54-59 | Over every run: a job submitted at t without a deadline is due timeout seconds after t, one with a deadline keeps it; both checks go by that time exactly, and so does every answer |
| PoolDeadlines.CallbacksTellTheTruth | src/tts/inference_pool.cpp:122-182 | What on_success or on_error is told is what the backend did with that job, what it threw included, or that the job timed out in the queue, and then the backend never saw it |
| PoolDeadlines.RefusedExactly | src/tts/inference_pool.cpp:61-72 | A submission is refused exactly when the pool is shut down or the queue is full |
| PoolTheorems.HistoryGrows | src/tts/inference_pool.cpp:61-82 | Histories only grow, and once accepting is false it stays false and nothing more is accepted |
| PoolTheorems.OwedStepsBounded | src/tts/inference_pool.cpp:54-185 | The pool's own steps are bounded by its state, the calls that arrive and the spurious wake-ups |
| PoolTheorems.QuiescentMeansDone | src/tts/inference_pool.cpp:54-185 | When the pool's threads have nothing left to do, all calls have returned, all accepted jobs are answered, and after a shutdown the worker has exited |
| PoolTheorems.ShutdownDrains | src/tts/inference_pool.cpp:77-116 | After the flag is cleared nothing is accepted, the remaining steps are bounded, and at their end every earlier job is answered and the worker is gone for good |
| PoolTheorems.SecondShutdownChangesNothing | src/tts/inference_pool.cpp:77-86 | A second shutdown after the first has returned runs through and leaves the pool as it was |
| PoolInvariants.InvStep | src/tts/inference_pool.cpp:54-185 | Every step keeps conservation, job identity, wake-up, shutdown order, counters, the account of backend calls, and deadlines |
| PoolRounds.RestRuns | src/tts/inference_pool.cpp:122-184 | The rest of a round, from any point of the loop body, is a run of the machine |
| PoolRounds.SubmitRuns | src/tts/inference_pool.cpp:54-75 | A submit without interference is a run of the machine |
| PoolRounds.RoundRuns | src/tts/inference_pool.cpp:122-184 | One round of the worker is a run of the machine, through each of its branches |
| PoolRounds.DrainRuns | src/tts/inference_pool.cpp:105-185 | The worker loop until it returns or waits is a run of the machine |
| PoolRounds.DrainAnswers | src/tts/inference_pool.cpp:105-185 | Draining answers the k-th queued job with what the k-th round brought |
| InferencePools.InferencePool.constructor | src/tts/inference_pool.cpp:31-48 | A new pool accepts, is empty, and is the machine's initial state |
| InferencePools.InferencePool.Submit | src/tts/inference_pool.cpp:54-75 | Accepts exactly when accepting and not full, pushes the job, with now plus the timeout as its deadline unless it brings one, wherever the worker is, and takes the machine along |
| InferencePools.InferencePool.TakeJob | src/tts/inference_pool.cpp:108-120 | Pops the front, or exits when shut down and empty |
| InferencePools.InferencePool.RunJob | src/tts/inference_pool.cpp:122-184 | Answers with the cause that deadlines and backend determine, counts expired jobs, and leaves active as it was |
| InferencePools.InferencePool.WorkerLoop | src/tts/inference_pool.cpp:105-185 | Computes the machine's state after all queued jobs, and ends or waits |
| InferencePools.InferencePool.Advance | src/tts/inference_pool.cpp:105-185 | One step of the worker thread from any point of its loop, as the machine takes it |
| InferencePools.InferencePool.FinishRound | src/tts/inference_pool.cpp:122-184 | From any point of a round to its end, step by step |
| InferencePools.InferencePool.Shutdown | src/tts/inference_pool.cpp:77-86 | Called with the worker anywhere, also in inference, it leaves the pool drained: not accepting, empty, worker gone, every accepted job answered; a repeated call changes nothing |
| Lifecycle.ShutdownLeavesNothing | src/server/server.cpp:33-80 | Over every interleaving of lifecycle calls, submits and workers: a server that is shut down has no unanswered job in any pool it ever made, retired pools are drained at all times, and initialized means that the current pool accepts |
| Lifecycle.ShutdownShutsDown | src/server/server.cpp:66-75 | A server at rest whose last call was shutdown() is down, with every pool it ever made drained |
| Lifecycle.InitializeInitializes | src/server/server.cpp:33-64 | A server at rest whose last call was initialize() is up exactly when it was before, or the backend exists and is ready and both limits are at least one; then its pool accepts, and it made a new one exactly if it was not up |
| Lifecycle.NothingIsForgotten | src/server/server.cpp:33-75 | No pool and nothing accepted or answered is lost in any run |
| Lifecycle.OwedMovesBounded | src/server/server.cpp:33-80 | The moves that the server's threads owe are bounded by its state, the lifecycle calls, the arrivals and the spurious wake-ups |
| Lifecycle.EveryCallReturns | src/server/server.cpp:33-80 | When nothing is owed, initialize() and shutdown() have returned, every accepted job of every pool is answered, and a worker is left only in the pool of a server that is up |
| TtsServers.TtsServer.Initialize | src/server/server.cpp:33-64 | Succeeds exactly when already initialized or backend and limits are fine; a retired pool stays drained |
| TtsServers.TtsServer.Shutdown | src/server/server.cpp:66-75 | Leaves no job of any pool this server ever made unanswered |
| TtsServers.TtsServer.Submit | src/server/request_handler.cpp:294-300 | Through the server, a job is accepted exactly when it is initialized and the queue has room; no other pool is touched |
| TtsServers.TtsServer.Work | src/tts/inference_pool.cpp:105-185 | Between two calls the current pool's worker takes the machine's next step, and no other pool changes |
| TtsServers.TtsServer.IsReady | src/server/server.cpp:77-80 | Ready means initialized with a ready backend; the other conjuncts follow |
| TtsServers.TtsServer.Serve | src/server/server.cpp:33-80 | Over any sequence of calls and worker steps that ends with a shutdown, everything accepted has been answered and nothing was forgotten |
| Validation.ContainsIsOccurrence | src/server/validation.cpp:26-35 | The content-type search succeeds exactly when the text occurs |
| Validation.AcceptedExactly | src/server/validation.cpp:26-133 | Who passes, in the program's own constants |
| Validation.Screen | src/server/request_handler.cpp:182-243 | A request passes exactly when every validator is content, unchanged; 413 is for size alone, other refusals are 400 |
| SpeechTheorems.ServiceInvMove | src/server/request_handler.cpp:179-346 | Every move keeps the pool's invariants, the agreement of handler, call and slot, and the metrics |
| SpeechResults.OwnAnswer | src/server/request_handler.cpp:268-346 | A handler whose submit returned true answers 200 with the audio of its own job if that was served and 500 otherwise; no other handler does |
| SpeechInputs.StatusFollowsInput | src/server/request_handler.cpp:182-346 | A handler answers 400 or 413 exactly when its own input is refused with that status, otherwise 503 exactly when the pool took no job of it, and 200 or 500 when it did |
| SpeechInputs.JobsFollowInputs | src/server/request_handler.cpp:206-283 | A job in the pool carries exactly the fields that its handler was sent |
| SpeechInputs.UnavailableHasCause | src/server/request_handler.cpp:245-300 | Whoever answers 503 found no accepting pool at its probe, or the pool shut down or full at its submit |
| SpeechInputs.NotReadyNeverSubmits | src/server/request_handler.cpp:245-251 | A handler that comes when no pool accepts never submits anything |
| SpeechServing.ValidCallsAreServed | src/server/request_handler.cpp:179-346 | From every reachable state with an accepting pool that has room, for every valid input and every result some run ends in 200 with that result |
| SpeechResults.RefusedLeavesNoJob | src/server/request_handler.cpp:182-300 | A handler that answers 400, 413 or 503 has no job in the pool |
| SpeechResults.MetricsAddUp | src/server/request_handler.cpp:179-346 | Status counters are the finished calls by the status they returned; the gauge counts handlers between increment and decrement; errors count failed calls |
| SpeechResults.OnlyWellFormedJobs | src/server/request_handler.cpp:206-283 | Every queued job passed all validators, and its callback is run |
| SpeechResults.OwedMovesBounded | src/server/request_handler.cpp:179-346 | The service's own moves are bounded by its state, the arrivals and the spurious wake-ups |
| SpeechResults.EveryHandlerReturns | src/server/request_handler.cpp:268-346 | When nothing is owed, every handler has returned, every accepted job is answered, the gauge is 0 and errors equal the 500 count |
| AuthLimiters.OldestOf | include/tts/auth.hpp:153-158 | The inner scan finds an entry with the least window start |
| AuthLimiters.AuthRateLimiter.CheckAndRecordFailure | include/tts/auth.hpp:98-116 | One failure more in the address's window, the answer, and the eviction that may follow |
| AuthLimiters.AuthRateLimiter.IsBlocked | include/tts/auth.hpp:119-130 | The answer, and the erasure of an expired entry |
| AuthLimiters.AuthRateLimiter.EvictToCap | include/tts/auth.hpp:142-161 | Ends with unexpired entries only, as many as the cap allows, none older than one dropped |
| AuthHistory.AnswersMatchHistory | include/tts/auth.hpp:98-161 | While no more than max_tracked_ips windows are open, every answer is that of a history without erasure or eviction |
| AuthHistory.AddressesAreIndependent | include/tts/auth.hpp:98-161 | Under the same premise an answer depends on the address's own events alone |
| AuthCrowding.CrowdingIsObservable | include/tts/auth.hpp:98-161 | A run never leaves more windows open than places if and only if, interrupted anywhere by calls at the same instant for addresses with an open window, it goes on answering as the history does |
| AuthCrowding.CrowdedFalls | include/tts/auth.hpp:142-161 | From any run that leaves more windows open than places, some continuation contradicts the history |
| AuthCrowding.CrowdedRun | include/tts/auth.hpp:98-161 | A run with one place, one tolerated failure and a window of a minute that does so |
| AuthCrowding.FailureCanBeRecorded | include/tts/auth.hpp:98-161 | Whatever the table, an eviction result exists, so every failure can be recorded |
| AuthWindows.SlidingWindowOnlyForInstants | include/tts/auth.hpp:85-130 | Blocked if and only if more than max_failures failures lie in the last window's length: the history of windows keeps that exactly for a window of length zero |
| AuthWindows.BlockIsMissed | include/tts/auth.hpp:98-130 | For every other policy some run of the limiter answers no although more than max_failures failures lie there |
| AuthWindows.MissedMinute | include/tts/auth.hpp:98-130 | Such a run with one tolerated failure and a window of a minute: failures at 0 and twice at 60 s |
| AuthHistory.BlocksAreJustified | include/tts/auth.hpp:98-130 | Blocked at time t means more than max_failures failures of that address in [t - window, t], in every run |
| AuthHistory.TableIsCapped | include/tts/auth.hpp:111-113 | The table never outgrows a positive cap |
| AuthHistory.AtMostOneLiveEntryGoes | include/tts/auth.hpp:111-161 | From a table within the cap at most one unexpired entry is evicted |
| AuthHistory.NewcomerSurvives | include/tts/auth.hpp:111-161 | The address just recorded survives every eviction exactly when it was known, there was room, or another entry is older |
| RequestLimiters.RequestRateLimiter.CheckRequest | include/tts/auth.hpp:181-216 | The answer, the new window and the sweep |
| RequestLimiters.RequestRateLimiter.Sweep | include/tts/auth.hpp:203-212 | Erases exactly the windows that are over |
| RequestHistory.OverIsAMinute | include/tts/auth.hpp:186-189 | Truncated seconds reach 60 exactly when a full minute is over |
| RequestHistory.ThroughputBound | include/tts/auth.hpp:181-199 | In any interval one address gets at most the capacity of its length |
| RequestHistory.CapacityIs | include/tts/auth.hpp:181-199 | The capacity of a length in closed form: max_rpm times one plus the whole minutes in length - 1, and max_rpm - 1 more unless length - 1 is a whole number of minutes |
| RequestHistory.MinuteCapacity | include/tts/auth.hpp:181-199 | For a half-open minute that is 2 * max_rpm - 1 |
| RequestHistory.CapacityIsReached | include/tts/auth.hpp:181-199 | For every quota and every length some requests reach it |
| RequestHistory.SlidingWindowOnlyForOne | include/tts/auth.hpp:181-199 | At most max_rpm requests in every minute: that holds if and only if max_rpm is at most one |
| RequestHistory.QuotaPerWindow | include/tts/auth.hpp:189-199 | In the minute from its start a window allows its own requests up to max_rpm and nothing else |
| RequestRuns.LimiterThroughput | include/tts/auth.hpp:181-216 | The same bound for the limiter with its table and sweep, over any run with any other addresses |
| RequestRuns.LimiterPeak | include/tts/auth.hpp:181-216 | For every quota and every length some run of the limiter reaches it |
| RequestHistory.SweepIsUnobservable | include/tts/auth.hpp:203-212 | Every answer is that of a limiter that keeps all entries, from the address's own requests |
| RequestHistory.RefusalsAreJustified | include/tts/auth.hpp:194-200 | A refusal means more than max_rpm requests of that address in the last 60 seconds |
| RequestHistory.AllowedAgain | include/tts/auth.hpp:186-200 | After a refusal and further refused requests, the next is allowed exactly when the window is a minute old |
| RequestHistory.RetryAfterIsHonest | include/tts/auth.hpp:186-200 | Retry-After is in 1..60, never understates the time left, overstates it by less than a second, and waiting it out is enough |
| RequestHistory.ZeroQuotaRefusesAll | include/tts/auth.hpp:186-200 | With a quota of zero every request is refused, for 60 seconds, for what is left of them, or for one |
| RequestRuns.RefusedCallsAreJustified | include/tts/auth.hpp:194-200 | The same for every refused call of every run |
| RequestRuns.WaitingIsRewarded | include/tts/auth.hpp:186-200 | Over every run: Retry-After is in 1..60, overstates the time left by less than a second, and after refused calls only, a later call of the address is allowed exactly when the window is a minute old |
| RequestRuns.CapIsSoft | include/tts/auth.hpp:203-212 | At any point of any run the table exceeds its cap exactly when more windows than that were running after the last allowed call |
| RequestRuns.ZeroQuotaKeepsAll | include/tts/auth.hpp:194-212 | With a quota of zero the table keeps every address that ever asked |
| RequestRuns.CapIsExceeded | include/tts/auth.hpp:203-212 | A run with one place and two addresses that does it |
| Middleware.Guard.RunMiddleware | src/server/http_adapter.cpp:137-191 | Which check decides, what each refusal costs, and that an auth block consumes no request quota |
| MiddlewareThreads.OnlyWrongTokensCount | src/server/http_adapter.cpp:176-188 | Every failure that a run records belongs to a request with a wrong token; one with the right token is let through |
| MiddlewareThreads.FailuresBounded | src/server/http_adapter.cpp:153-188 | With n threads between block check and recording, no count in one window exceeds max_failures + n |
| MiddlewareQuota.FailuresLimited | src/server/http_adapter.cpp:153-188 | The bound by both limiters: no count in one window exceeds n and the smaller of max_failures and what the request limiter admits in such a window |
| MiddlewareQuota.FullLimit | src/server/http_adapter.cpp:153-188 | That is max_failures + n exactly when the capacity of a window is at least max_failures, so whenever max_rpm is |
| MiddlewareBursts.BoundIsAttained | src/server/http_adapter.cpp:153-188 | For every policy, every quota of at least one and every n >= 1 some run reaches the bound within one window |
| MiddlewareBursts.BlockingIsPossible | src/server/http_adapter.cpp:153-188 | An address is ever blocked in some run if and only if the bound exceeds max_failures |
| MiddlewareHistory.HistoryBounded | src/server/http_adapter.cpp:153-188 | While no more than max_tracked_ips windows are open: no window of the full history counts more failures than the bound, and no interval of a window's length more than twice the bound less one |
| MiddlewareHistory.IntervalAdmitted | src/server/http_adapter.cpp:153-188 | Whatever is evicted: no interval of a window's length contains more failures of an address than n and what the request limiter admits in it |
| MiddlewareBursts.IntervalBoundIsReached | src/server/http_adapter.cpp:153-188 | Some run reaches twice the bound less one, if max_rpm is at least max_failures + n |
| MiddlewareBursts.AdmissionsAreReached | src/server/http_adapter.cpp:153-188 | Some run reaches n and the capacity of a window, if that capacity is at most max_failures |
| Wav.WriteU32 | src/tts/voxtral_backend.cpp:35-40 | Writes the little-endian field in place and nothing else |
| Wav.WriteU16 | src/tts/voxtral_backend.cpp:43-46 | The same for 16 bits |
| Wav.FieldIsExact | src/tts/voxtral_backend.cpp:35-46 | Field bytes and value determine each other |
| Wav.BuildWavHeader | src/tts/voxtral_backend.cpp:52-83 | The 44 bytes of the header, with 32-bit wrap-around in its sizes |
| Wav.BuildSilentWav | src/tts/voxtral_backend.cpp:89-101 | Header and zeros of the wrapped length, or nothing for bad input |
| Wav.FillSamples | src/tts/voxtral_backend.cpp:118-129 | The loop stores sample i in bytes 44 + 2i and 45 + 2i |
| Wav.BuildWavFromFloatSamples | src/tts/voxtral_backend.cpp:109-132 | The result is the encoding of the quantised samples |
| Wav.QuantiseTruncates | src/tts/voxtral_backend.cpp:124-128 | The cast goes toward zero: the sample times 32767 lies between the result and the next number away from zero; samples beyond 1 give 32767 |
| Wav.HeaderLayout | src/tts/voxtral_backend.cpp:52-83 | Every field of the header by its bytes: tags, sizes, PCM, mono, rates, 16 bits |
| Wav.SampleBytes | src/tts/voxtral_backend.cpp:118-129 | Sample i is at bytes 44 + 2i and 45 + 2i, low byte first, in two's complement |
| Wav.SilenceLayout | src/tts/voxtral_backend.cpp:89-101 | Header and zeros, as far as the wrapped length goes |
| Wav.BufferHoldsSamples | src/tts/voxtral_backend.cpp:109-132 | The wrapped length has room for all samples exactly when 44 + 2n < 2^32 |
| Wav.EncodeIsExact | tests/test_wav_contract.cpp:51-136 | Bytes are the encoding of this audio exactly when they decode to it, for every list with 44 + 2n < 2^32 |
| Wav.RoundTrip | tests/test_wav_contract.cpp:51-136 | Decoding gives back rate and samples |
| Wav.DependentFields | tests/test_wav_contract.cpp:65-130 | RIFF size, data size, byte rate and block align of a file that decodes |
| Wav.SilenceRoundTrip | src/tts/voxtral_backend.cpp:89-101 | Silence decodes to its own sample count exactly when header and samples fit 32 bits |
| Wav.QuantiseIsOdd | src/tts/voxtral_backend.cpp:124-125 | The quantiser is odd |
| Wav.QuantiseIsMonotone | src/tts/voxtral_backend.cpp:124-125 | The quantiser is monotone |
| Wav.QuantiseInRange | src/tts/voxtral_backend.cpp:124-125 | The quantiser stays within +/-32767 |
| Wav.QuantiseError | src/tts/voxtral_backend.cpp:124-125 | Its error on the clamped sample is below 1/32767 |
| ClientIp.SplitJoins | include/tts/auth.hpp:58-70 | Entries hold no comma and join to the header |
| ClientIp.SplitIsUnique | include/tts/auth.hpp:58-70 | They are the only such entries |
| ClientIp.TrimIsExact | include/tts/auth.hpp:72-75 | Trimming removes whitespace only, and all of it at both ends |
| ClientIp.TrimIsUnique | include/tts/auth.hpp:72-75 | There is one such result |
| ClientIp.ExtractClientIp | include/tts/auth.hpp:50-78 | The scan from the right finds the trimmed entry that many places from the right, or falls back to the socket address |
| ClientIp.UntrustedIsSocket | include/tts/auth.hpp:54-56 | Without a trusted proxy or a header the socket address counts |
| ClientIp.EntryIsFound | include/tts/auth.hpp:58-78 | Entries joined by commas give what stands between the blanks of the one that many places from the right, or the socket address if there are too few or it is blank |
| ClientIp.PrefixIsIgnored | include/tts/auth.hpp:48-78 | What is written in front of a header with enough entries changes nothing |
| ClientIp.OneMoreProxy | include/tts/auth.hpp:48-78 | One more appended entry and one more trusted hop give the same address |
| BearerAuth.ConstantTimeEquals | include/tts/auth.hpp:32-40 | True exactly when the lengths agree modulo 256 and the common prefix is equal |
| BearerAuth.XorOfLowBytes | include/tts/auth.hpp:33 | The cast of the xor of two lengths to a byte is the xor of their low bytes |
| BearerAuth.EqualityByLength | include/tts/auth.hpp:28-40 | The lengths for which that is equality of strings: equal, or different modulo 256 |
| BearerAuth.CheckBearerAuth | src/server/auth.cpp:8-39 | Accepts exactly the prefix followed by a non-empty token that agrees with the key |
| BearerAuth.PrefixIsText | src/server/auth.cpp:8-39 | An accepted header begins with the text "Bearer " |
| BearerAuth.MessagesTell | src/server/auth.cpp:8-39 | Which of the three messages a refusal carries |
| BearerAuth.ExtendedKeyGetsIn | src/server/auth.cpp:8-39 | A wrong token that gets in: the key with any positive multiple of 256 bytes behind it |
| BearerAuth.BearerIsExact | src/server/auth.cpp:8-39 | The key gets in, anything else only with a length off by a multiple of 256; exact below 256 bytes |
| RequestId.GenerateRequestId | src/server/request_handler.cpp:25-50 | The printed id parses back to the masked words |
| RequestId.MasksAreArithmetic | src/server/request_handler.cpp:37-38 | The two bit masks on 32-bit words do to the binary digits of a number what the model's arithmetic does to the number |
| RequestId.WordsAreExact | src/server/request_handler.cpp:37-38 | A number below 2^32 is known by its binary digits |
| RequestId.FormatIsExact | src/server/request_handler.cpp:40-49 | An id is the print of these words exactly when it parses to them |
| RequestId.FormatExample | src/server/request_handler.cpp:40-49 | The layout by an example in which every digit occurs |
| RequestId.IdsDifferOnFreeBits | src/server/request_handler.cpp:25-50 | Two ids are equal exactly when the 122 free bits are |
| RequestId.GeneratedIds | src/server/request_handler.cpp:25-50 | Generated ids are exactly those that parse, with 4 at index 14 and 8, 9, a or b at index 19 |

## Left out

- The second clock reading of a limiter call: a default-constructed entry reads the clock again, and the model uses one reading per call.
- Memory orders, `volatile` and the timing of the comparison: steps are sequentially consistent.
- Exceptions that do not derive from `std::exception`: the program lets them end the worker, and the model has none.
- Callbacks of `handle_speech` that throw (a failing mutex): taken not to happen; the pool model itself lets any callback throw.
- Two shutdown calls that join the worker thread at the same moment: undefined in C++; the model lets both wait for its exit.
- A backend that never returns: runs may stop there, but the statements about quiescent states take it that an inference ends.
- IEEE rounding, infinities and NaN: samples, durations and speeds are real numbers.
- The engine behind `synthesize`, model loading and file checks: the backend returns or throws anything at any time.
- JSON parsing and ill-typed fields: the model starts from a body that is malformed or an extracted record with its defaults.
- The codes and texts of validation and error responses, headers, histograms, the `queue_depth` gauge and input-size counters: no state depends on them.
- HTTP listening, routes, signals, logging, configuration loading and the voice table: plumbing or fixed data; the catalog is a set of ids.
- Wav.BuildWavFromFloatSamples: requires 44 + 2n < 2^32, because beyond it, and only there, its buffer is too short for the samples (Wav.BufferHoldsSamples) and the program has no defined result.
- Wav.BuildWavHeader: requires a rate whose byte rate fits int, because the program's signed multiplication is undefined beyond it.
- MiddlewareBursts.IntervalBoundIsReached: for a quota of at least max_failures + n. Of the two bounds on an interval (HistoryBounded, IntervalAdmitted) the first is exact there and the second where the capacity of a window is at most max_failures; between these settings neither is known to be exact.
- MiddlewareThreads.FailuresBounded: bounds the entries of the table by the failure limiter alone; MiddlewareQuota.FailuresLimited takes in the request limiter, MiddlewareHistory.HistoryBounded the history that eviction cuts short.
- Pools that a handler still points to after the server has destroyed them: undefined in C++; in the lifecycle model they refuse.
