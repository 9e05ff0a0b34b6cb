/** The middleware under concurrency: threads interleave between the block check and the failure recording.

    Each limiter call is one step, since each limiter holds its mutex for the whole call. Requests are taken to
    need authentication; the internal endpoints touch neither limiter.
 */
module MiddlewareThreads {
  import opened Basics
  import A = AuthLimiters
  import R = RequestLimiters

  datatype Thread =
    | Idle
    | Arrived(ip: string, valid: bool)   // about to ask is_blocked
    | Cleared(ip: string, valid: bool)   // not blocked, about to call check_request
    | Admitted(ip: string, valid: bool)  // within the rate, about to check the token
    | Failing(ip: string)                // wrong token, about to record the failure

  datatype State = State(now: int, failures: A.Table, windows: R.Table, threads: seq<Thread>)

  datatype Step =
    | Tick(delta: nat)
    | Begin(i: nat, ip: string, valid: bool)
    | CheckBlock(i: nat)
    | CheckRate(i: nat)
    | CheckToken(i: nat)
    | Record(i: nat, blocked: bool, after: A.Table)

  datatype Limits = Limits(policy: A.Policy, quota: R.Quota)

  function Start(now: int, n: nat): State {
    State(now, map[], map[], seq(n, _ => Idle))
  }

  ghost predicate Enabled(l: Limits, s: State, step: Step) {
    match step
    case Tick(_) => true
    case Begin(i, _, _) => i < |s.threads| && s.threads[i].Idle?
    case CheckBlock(i) => i < |s.threads| && s.threads[i].Arrived?
    case CheckRate(i) => i < |s.threads| && s.threads[i].Cleared?
    case CheckToken(i) => i < |s.threads| && s.threads[i].Admitted?
    case Record(i, blocked, after) =>
      i < |s.threads| && s.threads[i].Failing?
      && A.Records(l.policy, s.failures, s.threads[i].ip, s.now, blocked, after)
  }

  ghost function Apply(l: Limits, s: State, step: Step): State
    requires Enabled(l, s, step)
  {
    match step
    case Tick(delta) => s.(now := s.now + delta)
    case Begin(i, ip, valid) => s.(threads := s.threads[i := Arrived(ip, valid)])
    case CheckBlock(i) =>
      var ip, valid := s.threads[i].ip, s.threads[i].valid;
      s.(failures := A.Queried(l.policy, s.failures, ip, s.now),
      threads := s.threads[i := if A.Blocks(l.policy, s.failures, ip, s.now) then Idle else Cleared(ip, valid)])
    case CheckRate(i) =>
      var ip, valid := s.threads[i].ip, s.threads[i].valid;
      s.(windows := R.Afterwards(l.quota, s.windows, ip, s.now),
      threads := s.threads[i :=
        if R.Answer(l.quota, R.Lookup(s.windows, ip), s.now) > 0 then Idle else Admitted(ip, valid)])
    case CheckToken(i) =>
      s.(threads := s.threads[i := if s.threads[i].valid then Idle else Failing(s.threads[i].ip)])
    case Record(i, _, after) => s.(failures := after, threads := s.threads[i := Idle])
  }

  ghost predicate ValidRun(l: Limits, s: State, steps: seq<Step>)
    decreases steps
  {
    steps == [] || (Enabled(l, s, steps[0]) && ValidRun(l, Apply(l, s, steps[0]), steps[1..]))
  }

  ghost function Exec(l: Limits, s: State, steps: seq<Step>): State
    requires ValidRun(l, s, steps)
    decreases steps
  {
    if steps == [] then s else Exec(l, Apply(l, s, steps[0]), steps[1..])
  }

  /** The thread has passed the block check for this address and may still record a failure. */
  predicate Past(t: Thread, ip: string) {
    !t.Idle? && !t.Arrived? && t.ip == ip
  }

  function PastCheck(ip: string): Thread -> bool {
    t => Past(t, ip)
  }

  /** Failures counted and failures that may still come stay within the limit plus the number of threads. */
  ghost predicate Bounded(l: Limits, s: State) {
    forall ip | ip in s.failures ::
      s.failures[ip].failures + Count(s.threads, PastCheck(ip)) <= l.policy.maxFailures + |s.threads|
  }

  /** Letting thread i past the check leaves room for it: unless it is past already, not all threads are. */
  lemma RoomForOne(threads: seq<Thread>, i: nat, ip: string)
    requires i < |threads| && !Past(threads[i], ip)
    ensures Count(threads, PastCheck(ip)) + 1 <= |threads|
  {
    var all := threads[i := Cleared(ip, false)];
    CountUpdate(threads, i, Cleared(ip, false), PastCheck(ip));
    assert Count(all, PastCheck(ip)) <= |all|;
  }

  /** Replacing a thread by one that is past the check for no more addresses than before. */
  lemma BoundedUpdate(l: Limits, s: State, i: nat, t: Thread)
    requires Bounded(l, s) && i < |s.threads|
    requires forall ip: string :: Past(t, ip) ==> Past(s.threads[i], ip)
    ensures Bounded(l, s.(threads := s.threads[i := t]))
  {
    forall ip | ip in s.failures
      ensures s.failures[ip].failures + Count(s.threads[i := t], PastCheck(ip)) <= l.policy.maxFailures + |s.threads|
    {
      CountUpdate(s.threads, i, t, PastCheck(ip));
    }
  }

  lemma BoundedBlock(l: Limits, s: State, i: nat)
    requires Bounded(l, s) && Enabled(l, s, CheckBlock(i)) && l.policy.window >= 0
    ensures Bounded(l, Apply(l, s, CheckBlock(i)))
  {
    var t := Apply(l, s, CheckBlock(i));
    var mine := s.threads[i].ip;
    forall ip | ip in t.failures
      ensures t.failures[ip].failures + Count(t.threads, PastCheck(ip)) <= l.policy.maxFailures + |t.threads|
    {
      CountUpdate(s.threads, i, t.threads[i], PastCheck(ip));
      RoomForOne(s.threads, i, ip);
    }
  }

  lemma BoundedRecord(l: Limits, s: State, i: nat, blocked: bool, after: A.Table)
    requires Bounded(l, s) && Enabled(l, s, Record(i, blocked, after))
    ensures Bounded(l, Apply(l, s, Record(i, blocked, after)))
  {
    var t := Apply(l, s, Record(i, blocked, after));
    var mine := s.threads[i].ip;
    RecordedOrOld(l.policy, s.failures, mine, s.now, blocked, after);
    forall ip | ip in t.failures
      ensures t.failures[ip].failures + Count(t.threads, PastCheck(ip)) <= l.policy.maxFailures + |t.threads|
    {
      CountUpdate(s.threads, i, Idle, PastCheck(ip));
    }
  }

  /** Every entry after recording is an old one, or the recorded one with at most one failure more. */
  lemma RecordedOrOld(p: A.Policy, m: A.Table, ip: string, now: int, blocked: bool, after: A.Table)
    requires A.Records(p, m, ip, now, blocked, after)
    ensures forall k | k in after :: k == ip || (k in m && after[k] == m[k])
    ensures ip in after ==> after[ip].failures == 1 || (ip in m && after[ip].failures == m[ip].failures + 1)
  {
  }

  lemma BoundedStep(l: Limits, s: State, step: Step)
    requires Bounded(l, s) && Enabled(l, s, step) && l.policy.window >= 0
    ensures Bounded(l, Apply(l, s, step))
  {
    match step
    case Tick(_) =>
    case Begin(i, ip, valid) => BoundedUpdate(l, s, i, Arrived(ip, valid));
    case CheckBlock(i) => BoundedBlock(l, s, i);
    case CheckRate(i) => BoundedUpdate(l, s, i, Apply(l, s, step).threads[i]);
    case CheckToken(i) => BoundedUpdate(l, s, i, Apply(l, s, step).threads[i]);
    case Record(i, blocked, after) => BoundedRecord(l, s, i, blocked, after);
  }

  lemma {:induction false} BoundedRun(l: Limits, s: State, steps: seq<Step>)
    requires Bounded(l, s) && ValidRun(l, s, steps) && l.policy.window >= 0
    ensures Bounded(l, Exec(l, s, steps)) && |Exec(l, s, steps).threads| == |s.threads|
    decreases steps
  {
    if steps != [] {
      BoundedStep(l, s, steps[0]);
      BoundedRun(l, Apply(l, s, steps[0]), steps[1..]);
    }
  }

  /** With n threads no address's count in one window ever exceeds max_failures + n; a server that takes one
      request at a time stops at max_failures + 1. */
  lemma FailuresBounded(l: Limits, now: int, n: nat, steps: seq<Step>, ip: string)
    requires l.policy.window >= 0 && ValidRun(l, Start(now, n), steps)
    requires ip in Exec(l, Start(now, n), steps).failures
    ensures Exec(l, Start(now, n), steps).failures[ip].failures <= l.policy.maxFailures + n
  {
    BoundedRun(l, Start(now, n), steps);
  }

  // ---------------------------------------------------------------- only wrong tokens count

  /** The request that a thread was last given: its address, and whether its token is the right one. */
  function Given(steps: seq<Step>, i: nat): Option<(string, bool)> {
    if steps == [] then None
    else
      var last := steps[|steps| - 1];
      if last.Begin? && last.i == i then Some((last.ip, last.valid)) else Given(steps[..|steps| - 1], i)
  }

  /** What a thread does concerns the request it was given, and it goes on to record a failure only for a wrong
      token. */
  predicate Serves(t: Thread, given: Option<(string, bool)>) {
    match t
    case Idle => true
    case Failing(ip) => given == Some((ip, false))
    case _ => given == Some((t.ip, t.valid))
  }

  lemma {:induction false} RunInit(l: Limits, s: State, steps: seq<Step>)
    requires ValidRun(l, s, steps) && steps != []
    ensures var front, last := steps[..|steps| - 1], steps[|steps| - 1];
      && ValidRun(l, s, front) && Enabled(l, Exec(l, s, front), last)
      && Exec(l, s, steps) == Apply(l, Exec(l, s, front), last)
    decreases steps
  {
    var front := steps[..|steps| - 1];
    if |steps| > 1 {
      RunInit(l, Apply(l, s, steps[0]), steps[1..]);
      assert steps[1..][..|steps| - 2] == front[1..];
    }
  }

  lemma {:induction false} ThreadsServe(l: Limits, now: int, n: nat, steps: seq<Step>, i: nat)
    requires ValidRun(l, Start(now, n), steps) && i < n
    ensures var t := Exec(l, Start(now, n), steps); |t.threads| == n && Serves(t.threads[i], Given(steps, i))
    decreases |steps|
  {
    if steps != [] {
      var front := steps[..|steps| - 1];
      RunInit(l, Start(now, n), steps);
      ThreadsServe(l, now, n, front, i);
      ServeStep(l, Exec(l, Start(now, n), front), steps[|steps| - 1], i, Given(front, i));
    }
  }

  lemma {:induction false} ServeStep(l: Limits, s: State, step: Step, i: nat, given: Option<(string, bool)>)
    requires Enabled(l, s, step) && i < |s.threads| && Serves(s.threads[i], given)
    ensures |Apply(l, s, step).threads| == |s.threads|
    ensures Serves(Apply(l, s, step).threads[i],
                   if step.Begin? && step.i == i then Some((step.ip, step.valid)) else given)
  {
  }

  /** Whatever failure a run records, the request of that thread had a wrong token; a request with the right one is
      let through instead. */
  lemma {:induction false} OnlyWrongTokensCount(l: Limits, now: int, n: nat, steps: seq<Step>, step: Step)
    requires ValidRun(l, Start(now, n), steps) && Enabled(l, Exec(l, Start(now, n), steps), step)
    ensures step.Record? ==>
      Given(steps, step.i) == Some((Exec(l, Start(now, n), steps).threads[step.i].ip, false))
    ensures step.CheckToken? && Given(steps, step.i).Some? && Given(steps, step.i).value.1 ==>
      Apply(l, Exec(l, Start(now, n), steps), step).threads[step.i] == Idle
  {
    if step.Record? || step.CheckToken? {
      ThreadsLength(l, now, n, steps);
      ThreadsServe(l, now, n, steps, step.i);
    }
  }

  lemma StepLength(l: Limits, s: State, step: Step)
    requires Enabled(l, s, step)
    ensures |Apply(l, s, step).threads| == |s.threads|
  {
  }

  lemma {:induction false} ThreadsLength(l: Limits, now: int, n: nat, steps: seq<Step>)
    requires ValidRun(l, Start(now, n), steps)
    ensures |Exec(l, Start(now, n), steps).threads| == n
    decreases |steps|
  {
    if steps != [] {
      var front := steps[..|steps| - 1];
      RunInit(l, Start(now, n), steps);
      ThreadsLength(l, now, n, front);
      StepLength(l, Exec(l, Start(now, n), front), steps[|steps| - 1]);
    }
  }

  // ---------------------------------------------------------------- runs in parts

  ghost predicate Leads(l: Limits, s: State, steps: seq<Step>, t: State) {
    ValidRun(l, s, steps) && Exec(l, s, steps) == t
  }

  lemma Lead(l: Limits, s: State, step: Step, rest: seq<Step>, t: State)
    requires Enabled(l, s, step) && Leads(l, Apply(l, s, step), rest, t)
    ensures Leads(l, s, [step] + rest, t)
  {
    assert ([step] + rest)[1..] == rest;
  }

  lemma {:induction false} LeadOn(l: Limits, s: State, first: seq<Step>, m: State, second: seq<Step>, t: State)
    requires Leads(l, s, first, m) && Leads(l, m, second, t)
    ensures Leads(l, s, first + second, t)
    decreases first
  {
    if first == [] {
      assert first + second == second;
    } else {
      LeadOn(l, Apply(l, s, first[0]), first[1..], m, second, t);
      assert (first + second)[1..] == first[1..] + second;
    }
  }
}
