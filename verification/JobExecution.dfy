/**
 One delivery inside the worker: the retry loop of `run_attempts`, and `JobExecutor.execute` with
 `_finish`.  What the handler, the failed store and the broker answer is decided by the environment.
 */
module JobExecution {
  import opened Common

  type JobId = nat
  type Body = seq<bv8>

  /** Queue payloads with the envelope codec applied: a decodable envelope, or bytes it rejects. */
  datatype Wire =
    | Envelope(jobId: JobId, reference: string, version: int, body: Body)
    | Malformed(bytes: seq<bv8>)

  /** The failure id is a digest of the connection, the queue and the identity; both digests are taken
      to be collision free, and the connection and the queue are those of this worker. */
  datatype FailureId = OfJob(jobId: JobId) | OfBytes(bytes: seq<bv8>)

  function FailureIdOf(w: Wire): FailureId {
    match w
    case Envelope(jobId, _, _, _) => OfJob(jobId)
    case Malformed(bytes) => OfBytes(bytes)
  }

  datatype Reason =
    | InvalidEnvelope | UnknownJob | UnsupportedJobVersion | InvalidJobPayload | HandlerError
    | HandlerTimeoutError | ExecutionTimeout | RetryExhausted | TimeoutSuppressed

  datatype ExecutionResult = ExecutionResult(attempts: nat, failure: Option<Reason>)

  datatype Record = Record(failureId: FailureId, payload: Wire, failedAt: int, attempts: nat, reason: Reason,
      jobId: Option<JobId>)

  // ---- Policy ---------------------------------------------------------------------------------

  datatype JobPolicy = JobPolicy(maxAttempts: int, backoff: seq<real>, timeout: real) {
    /** The checks of the policy's constructor. */
    predicate Valid() {
      && maxAttempts >= 1
      && timeout > 0.0
      && forall k :: 0 <= k < |backoff| ==> backoff[k] >= 0.0
    }

    /** Delay after the `failed`-th failed attempt; past the end the last delay is reused. */
    function RetryDelay(failed: int): real
      requires failed >= 1
    {
      if backoff == [] then 0.0
      else backoff[if failed - 1 < |backoff| - 1 then failed - 1 else |backoff| - 1]
    }
  }

  // ---- The retry loop --------------------------------------------------------------------------

  /** How `binding.execute` leaves the timeout block. */
  datatype Exit =
    | Completed | RetryableJobError | TimeoutError | InvalidMessageError | JobDefinitionError | OtherError
        | CancelledError

  datatype Attempt = Attempt(exit: Exit, expired: bool)

  datatype RunError = DefinitionDefect | Cancelled | InvalidRetryConfiguration

  /** The loop goes round again after this attempt unless it was the last one allowed. */
  predicate Retries(a: Attempt) {
    a.exit.RetryableJobError? || (a.exit.TimeoutError? && a.expired)
  }

  /** Attempt `k` is the one that ends the loop: all earlier ones asked for a retry, and it does not,
      or no attempt is left. */
  ghost predicate EndsAt(script: nat -> Attempt, maxAttempts: int, k: nat) {
    && 1 <= k <= maxAttempts
    && (forall j: nat :: 1 <= j < k ==> Retries(script(j)))
    && (k == maxAttempts || !Retries(script(k)))
  }

  lemma EndIsUnique(script: nat -> Attempt, maxAttempts: int, k: nat, l: nat)
    requires EndsAt(script, maxAttempts, k) && EndsAt(script, maxAttempts, l)
    ensures k == l
  {
  }

  /** What the worker reports when attempt `k` ends the loop. */
  function Verdict(a: Attempt, k: nat): Outcome<ExecutionResult, RunError> {
    match a.exit
    case Completed => Returned(ExecutionResult(k, if a.expired then Some(TimeoutSuppressed) else None))
    case RetryableJobError => Returned(ExecutionResult(k, Some(RetryExhausted)))
    case TimeoutError => Returned(ExecutionResult(k, Some(if a.expired then ExecutionTimeout else HandlerTimeoutError)))
    case InvalidMessageError => Returned(ExecutionResult(k, Some(InvalidJobPayload)))
    case OtherError => Returned(ExecutionResult(k, Some(HandlerError)))
    case JobDefinitionError => Raised(DefinitionDefect)
    case CancelledError => Raised(Cancelled)
  }

  /** The loop of `run_attempts`.  `script(j)` is how the j-th attempt ends; `sleeps` lists the delays
      slept between attempts. */
  method RunAttempts(policy: JobPolicy, script: nat -> Attempt)
    returns (result: Outcome<ExecutionResult, RunError>, invocations: nat, sleeps: seq<real>)
    requires policy.Valid()
    ensures EndsAt(script, policy.maxAttempts, invocations)
    ensures 1 <= invocations <= policy.maxAttempts
    ensures forall j: nat :: 1 <= j < invocations ==>
      script(j).exit.RetryableJobError? || script(j) == Attempt(TimeoutError, true)
    ensures invocations < policy.maxAttempts ==>
      !script(invocations).exit.RetryableJobError? && script(invocations) != Attempt(TimeoutError, true)
    ensures |sleeps| == invocations - 1
    ensures forall j :: 0 <= j < |sleeps| ==> sleeps[j] == policy.RetryDelay(j + 1)
    ensures result == Verdict(script(invocations), invocations)
    ensures var last := script(invocations);
      && (result == Raised(DefinitionDefect) <==> last.exit.JobDefinitionError?)
      && (result == Raised(Cancelled) <==> last.exit.CancelledError?)
      && result != Raised(InvalidRetryConfiguration)
    ensures result.Returned? ==>
      var last, failure := script(invocations), result.value.failure;
      && result.value.attempts == invocations
      && (failure == None <==> last == Attempt(Completed, false))
      && (failure == Some(TimeoutSuppressed) <==> last == Attempt(Completed, true))
      && (failure == Some(RetryExhausted) <==> last.exit.RetryableJobError?)
      && (failure == Some(ExecutionTimeout) <==> last == Attempt(TimeoutError, true))
      && (failure == Some(HandlerTimeoutError) <==> last == Attempt(TimeoutError, false))
      && (failure == Some(InvalidJobPayload) <==> last.exit.InvalidMessageError?)
      && (failure == Some(HandlerError) <==> last.exit.OtherError?)
  {
    invocations, sleeps := 0, [];
    for attempt := 1 to policy.maxAttempts + 1
      invariant invocations == attempt - 1 == |sleeps|
      invariant invocations < policy.maxAttempts
      invariant forall j: nat :: 1 <= j < attempt ==> Retries(script(j))
      invariant forall j :: 0 <= j < |sleeps| ==> sleeps[j] == policy.RetryDelay(j + 1)
    {
      var outcome := script(attempt);
      invocations := invocations + 1;
      var reason: Reason;
      match outcome.exit {
        case Completed =>
          if outcome.expired {
            return Returned(ExecutionResult(attempt, Some(TimeoutSuppressed))), invocations, sleeps;
          }
          return Returned(ExecutionResult(attempt, None)), invocations, sleeps;
        case RetryableJobError =>
          reason := RetryExhausted;
        case TimeoutError =>
          if !outcome.expired {
            return Returned(ExecutionResult(attempt, Some(HandlerTimeoutError))), invocations, sleeps;
          }
          reason := ExecutionTimeout;
        case InvalidMessageError =>
          return Returned(ExecutionResult(attempt, Some(InvalidJobPayload))), invocations, sleeps;
        case JobDefinitionError =>
          return Raised(DefinitionDefect), invocations, sleeps;
        case OtherError =>
          return Returned(ExecutionResult(attempt, Some(HandlerError))), invocations, sleeps;
        case CancelledError =>
          return Raised(Cancelled), invocations, sleeps;
      }
      if attempt == policy.maxAttempts {
        return Returned(ExecutionResult(attempt, Some(reason))), invocations, sleeps;
      }
      sleeps := sleeps + [policy.RetryDelay(attempt)];
    }
    result := Raised(InvalidRetryConfiguration);
  }

  function Sum(xs: seq<real>): real {
    if xs == [] then 0.0 else Sum(xs[..|xs| - 1]) + xs[|xs| - 1]
  }

  /** The delays slept before attempt `k`. */
  function Delays(policy: JobPolicy, k: nat): seq<real>
    requires k >= 1
  {
    seq(k - 1, j requires j >= 0 => policy.RetryDelay(j + 1))
  }

  /** The total delay in closed form: the configured delays in order, then the last one repeated. */
  lemma {:induction false} TotalDelay(policy: JobPolicy, k: nat)
    requires k >= 1
    ensures var n := |policy.backoff|;
            Sum(Delays(policy, k)) ==
              if n == 0 then 0.0
              else if k - 1 <= n then Sum(policy.backoff[..k - 1])
              else Sum(policy.backoff) + (k - 1 - n) as real * policy.backoff[n - 1]
  {
    if k > 1 {
      var n := |policy.backoff|;
      TotalDelay(policy, k - 1);
      assert Delays(policy, k)[..k - 2] == Delays(policy, k - 1);
      if 0 < n && k - 1 <= n {
        assert policy.backoff[..k - 1][..k - 2] == policy.backoff[..k - 2];
      } else if 0 < n {
        OneMoreTime(k - 2 - n, policy.backoff[n - 1]);
      }
      if 0 < n == k - 2 {
        assert policy.backoff[..k - 2] == policy.backoff;
      }
    }
  }

  lemma OneMoreTime(times: nat, delay: real)
    ensures (times + 1) as real * delay == times as real * delay + delay
  {
  }

  // ---- One delivery as an automaton -----------------------------------------------------------

  /** Why the executor may acknowledge. */
  datatype Cause = Succeeded | Recorded | AlreadyRecorded

  /** Where the execution of a delivery stands.  Every state but the last two waits for the answer to one
      request. */
  datatype Pc =
    | Looking
    | Resolving
    | Handling
    | Saving(record: Record)
    | Settling(cause: Cause)
    | Done
    | Dead

  datatype Request = FindRecord(failureId: FailureId) | ResolveJob | RunJob | SaveRecord(record: Record) | Acknowledge

  datatype Answer = Found | Missing | Bound | NoSuchJob | NoSuchVersion | Ran(result: ExecutionResult) | Stored | Acked
      | Failure

  datatype Job = Job(payload: Wire, possiblyRedelivered: bool, clock: int)

  function RecordFor(job: Job, result: ExecutionResult): Record
    requires result.failure.Some?
  {
    Record(FailureIdOf(job.payload), job.payload, job.clock, result.attempts, result.failure.value,
           if job.payload.Envelope? then Some(job.payload.jobId) else None)
  }

  function Finish(job: Job, result: ExecutionResult): Pc {
    if result.failure.Some? then Saving(RecordFor(job, result)) else Settling(Succeeded)
  }

  /** Past the duplicate check. */
  function Proceed(job: Job): Pc {
    if job.payload.Malformed? then Finish(job, ExecutionResult(0, Some(InvalidEnvelope))) else Resolving
  }

  function Begin(job: Job): Pc {
    if job.possiblyRedelivered then Looking else Proceed(job)
  }

  function Next(job: Job, pc: Pc, a: Answer): Pc {
    match (pc, a)
    case (Looking, Found) => Settling(AlreadyRecorded)
    case (Looking, Missing) => Proceed(job)
    case (Resolving, Bound) => Handling
    case (Resolving, NoSuchJob) => Finish(job, ExecutionResult(0, Some(UnknownJob)))
    case (Resolving, NoSuchVersion) => Finish(job, ExecutionResult(0, Some(UnsupportedJobVersion)))
    case (Handling, Ran(result)) => Finish(job, result)
    case (Saving(_), Stored) => Settling(Recorded)
    case (Settling(_), Acked) => Done
    case (Done, _) => Done
    case (_, _) => Dead
  }

  function RequestAt(job: Job, pc: Pc): Option<Request> {
    match pc
    case Looking => Some(FindRecord(FailureIdOf(job.payload)))
    case Resolving => Some(ResolveJob)
    case Handling => Some(RunJob)
    case Saving(record) => Some(SaveRecord(record))
    case Settling(_) => Some(Acknowledge)
    case _ => None
  }

  datatype Exchange = Exchange(request: Request, answer: Answer)

  /** The reason recorded for the attempt that ended the loop, which has not succeeded. */
  predicate NamesReason(last: Attempt, reason: Reason) {
    && (reason == TimeoutSuppressed <==> last.exit.Completed?)
    && (reason == RetryExhausted <==> last.exit.RetryableJobError?)
    && (reason == ExecutionTimeout <==> last == Attempt(TimeoutError, true))
    && (reason == HandlerTimeoutError <==> last == Attempt(TimeoutError, false))
    && (reason == InvalidJobPayload <==> last.exit.InvalidMessageError?)
    && (reason == HandlerError <==> last.exit.OtherError?)
  }

  /** What the executor makes of the `n`-th attempt when it is the one that ended the loop. */
  predicate AnswersFor(answer: Answer, last: Attempt, n: nat) {
    if last.exit.JobDefinitionError? || last.exit.CancelledError? then answer == Failure
    else if last == Attempt(Completed, false) then answer == Ran(ExecutionResult(n, None))
    else
      && answer.Ran? && answer.result.attempts == n && answer.result.failure.Some?
      && NamesReason(last, answer.result.failure.value)
  }

  /** What follows the handler in the log: nothing after a defect or a cancellation, the acknowledgement after a
      success, and otherwise the saving of a record with the attempts made and the reason for the failure. */
  predicate HandlerIsFollowedUp(log: seq<Exchange>, k: nat, last: Attempt, n: nat) {
    if last.exit.JobDefinitionError? || last.exit.CancelledError? then k + 1 == |log|
    else if last == Attempt(Completed, false) then k + 1 < |log| && log[k + 1].request == Acknowledge
    else
      && k + 1 < |log| && log[k + 1].request.SaveRecord?
      && log[k + 1].request.record.attempts == n && NamesReason(last, log[k + 1].request.record.reason)
  }

  /** The automaton's state after the exchanges of `log`. */
  function Drive(job: Job, log: seq<Exchange>): Pc
    decreases |log|
  {
    if log == [] then Begin(job) else Next(job, Drive(job, log[..|log| - 1]), log[|log| - 1].answer)
  }

  /** Every request of `log` is the one the automaton waits on at that point. */
  ghost predicate Follows(job: Job, log: seq<Exchange>)
    decreases |log|
  {
    log != [] ==>
      var front := log[..|log| - 1];
      Follows(job, front) && RequestAt(job, Drive(job, front)) == Some(log[|log| - 1].request)
  }

  /** The surroundings of one execution: answers are arbitrary, and every exchange is recorded. */
  class Surroundings {
    const job: Job
    const answers: nat -> Answer
    const policy: JobPolicy
    const handler: nat -> Attempt
    var log: seq<Exchange>
    ghost var pc: Pc

    ghost predicate Valid()
      reads this
    {
      policy.Valid() && Follows(job, log) && pc == Drive(job, log)
    }

    constructor (job: Job, answers: nat -> Answer, policy: JobPolicy, handler: nat -> Attempt)
      requires policy.Valid()
      ensures Valid() && log == []
      ensures this.job == job && this.answers == answers && this.policy == policy && this.handler == handler
    {
      this.job, this.answers, this.policy, this.handler, log := job, answers, policy, handler, [];
      pc := Begin(job);
    }

    /** One request, allowed only where the automaton waits on it. */
    method Ask(request: Request) returns (answer: Answer)
      requires Valid() && RequestAt(job, pc) == Some(request)
      modifies this
      ensures Valid() && log == old(log) + [Exchange(request, answer)]
      ensures pc == Next(job, old(pc), answer)
    {
      answer := answers(|log|);
      Note(Exchange(request, answer));
    }

    /** `run_attempts` on the bound job. */
    method Run() returns (answer: Answer)
      requires Valid() && pc == Handling
      modifies this
      ensures Valid() && log == old(log) + [Exchange(RunJob, answer)]
      ensures answer.Ran? || answer == Failure
      ensures forall n: nat :: EndsAt(handler, policy.maxAttempts, n) ==> AnswersFor(answer, handler(n), n)
      ensures pc == Next(job, Handling, answer)
    {
      var result, invocations, sleeps := RunAttempts(policy, handler);
      answer := if result.Returned? then Ran(result.value) else Failure;
      forall n: nat | EndsAt(handler, policy.maxAttempts, n)
        ensures n == invocations
      {
        EndIsUnique(handler, policy.maxAttempts, n, invocations);
      }
      Note(Exchange(RunJob, answer));
    }

    method Note(x: Exchange)
      requires Valid() && RequestAt(job, pc) == Some(x.request)
      modifies this
      ensures Valid() && log == old(log) + [x]
      ensures pc == Next(job, old(pc), x.answer)
    {
      log := log + [x];
      assert log[..|log| - 1] == old(log);
      pc := Next(job, pc, x.answer);
    }
  }

  /** Every handler run in the log is followed up as it should be. */
  ghost predicate FollowsUp(log: seq<Exchange>, env: Surroundings) {
    forall k: nat, n: nat ::
      k < |log| && log[k].request == RunJob && EndsAt(env.handler, env.policy.maxAttempts, n) ==>
        HandlerIsFollowedUp(log, k, env.handler(n), n)
  }

  lemma NothingRan(log: seq<Exchange>, env: Surroundings)
    requires forall k :: 0 <= k < |log| ==> log[k].request != RunJob
    ensures FollowsUp(log, env)
  {
  }

  lemma FinishedFollowsUp(log: seq<Exchange>, k: nat, last: Attempt, n: nat, job: Job, result: ExecutionResult)
    requires AnswersFor(Ran(result), last, n) && k + 1 < |log|
    requires log[k + 1].request == if result.failure.Some? then SaveRecord(RecordFor(job, result)) else Acknowledge
    ensures HandlerIsFollowedUp(log, k, last, n)
  {
  }

  lemma NothingAsked(env: Surroundings)
    requires env.Valid() && env.log == []
    ensures env.pc == Begin(env.job)
  {
  }

  /** `JobExecutor.execute`: returns normally or raises.  It makes exactly the requests of the automaton,
      and returns normally exactly when the automaton ends acknowledged. */
  method Execute(job: Job, env: Surroundings) returns (returned: bool)
    requires env.Valid() && env.log == [] && env.job == job
    modifies env
    ensures Follows(job, env.log)
    ensures Drive(job, env.log) == if returned then Done else Dead
    ensures returned <==> env.log != [] && env.log[|env.log| - 1] == Exchange(Acknowledge, Acked)
    ensures FollowsUp(env.log, env)
  {
    hide Follows, Drive, FollowsUp, Proceed;
    NothingAsked(env);
    var failureId := FailureIdOf(job.payload);
    if job.possiblyRedelivered {
      var existing := env.Ask(FindRecord(failureId));
      if existing == Found {
        var settled := env.Ask(Acknowledge);
        returned := settled == Acked;
        NothingRan(env.log, env);
        return;
      }
      if existing != Missing {
        NothingRan(env.log, env);
        return false;
      }
    }
    returned := ExecuteChecked(job, env);
  }

  /** `execute` past the duplicate check. */
  method ExecuteChecked(job: Job, env: Surroundings) returns (returned: bool)
    requires env.Valid() && env.job == job && env.pc == Proceed(job)
    requires forall k :: 0 <= k < |env.log| ==> env.log[k].request != RunJob
    modifies env
    ensures env.Valid() && env.pc == if returned then Done else Dead
    ensures returned <==> env.log != [] && env.log[|env.log| - 1] == Exchange(Acknowledge, Acked)
    ensures FollowsUp(env.log, env)
  {
    hide Follows, Drive, FollowsUp;
    var result;
    if job.payload.Malformed? {
      result := ExecutionResult(0, Some(InvalidEnvelope));
    } else {
      var binding := env.Ask(ResolveJob);
      if binding == NoSuchJob {
        result := ExecutionResult(0, Some(UnknownJob));
      } else if binding == NoSuchVersion {
        result := ExecutionResult(0, Some(UnsupportedJobVersion));
      } else if binding == Bound {
        returned := RunBound(job, env);
        return;
      } else {
        NothingRan(env.log, env);
        return false;
      }
    }
    returned := FinishDelivery(job, result, env);
    NothingRan(env.log, env);
  }

  /** The bound job is run, and its outcome reported. */
  method RunBound(job: Job, env: Surroundings) returns (returned: bool)
    requires env.Valid() && env.job == job && env.pc == Handling
    requires forall k :: 0 <= k < |env.log| ==> env.log[k].request != RunJob
    modifies env
    ensures env.Valid() && env.pc == if returned then Done else Dead
    ensures returned <==> env.log != [] && env.log[|env.log| - 1] == Exchange(Acknowledge, Acked)
    ensures FollowsUp(env.log, env)
  {
    hide Follows, Drive, EndsAt, NamesReason;
    ghost var k := |env.log|;
    var run := env.Run();
    if run == Failure {
      return false;
    }
    returned := FinishDelivery(job, run.result, env);
    hide AnswersFor, HandlerIsFollowedUp;
    forall n: nat | EndsAt(env.handler, env.policy.maxAttempts, n)
      ensures HandlerIsFollowedUp(env.log, k, env.handler(n), n)
    {
      FinishedFollowsUp(env.log, k, env.handler(n), n, job, run.result);
    }
  }

  /** `_finish`: a failure is saved before the delivery is acknowledged. */
  method FinishDelivery(job: Job, result: ExecutionResult, env: Surroundings) returns (returned: bool)
    requires env.Valid() && env.job == job && env.pc == Finish(job, result)
    modifies env
    ensures env.Valid() && env.pc == if returned then Done else Dead
    ensures |env.log| > |old(env.log)| && env.log[..|old(env.log)|] == old(env.log)
    ensures forall k :: |old(env.log)| <= k < |env.log| ==> env.log[k].request != RunJob
    ensures env.log[|old(env.log)|].request ==
      if result.failure.Some? then SaveRecord(RecordFor(job, result)) else Acknowledge
    ensures returned <==> env.log[|env.log| - 1] == Exchange(Acknowledge, Acked)
  {
    hide Follows, Drive;
    if result.failure.Some? {
      var saved := env.Ask(SaveRecord(RecordFor(job, result)));
      if saved != Stored {
        return false;
      }
    }
    var settled := env.Ask(Acknowledge);
    returned := settled == Acked;
  }

  // ---- What the automaton guarantees -----------------------------------------------------------

  /** The exchange that gives the executor its right to acknowledge. */
  ghost predicate Settles(job: Job, x: Exchange) {
    || (x.request == RunJob && x.answer.Ran? && x.answer.result.failure.None?)
    || (x.request.SaveRecord? && x.request.record.failureId == FailureIdOf(job.payload) && x.answer == Stored)
    || (x.request == FindRecord(FailureIdOf(job.payload)) && x.answer == Found)
  }

  ghost predicate HasCause(job: Job, log: seq<Exchange>) {
    exists j :: 0 <= j < |log| && Settles(job, log[j])
  }

  ghost predicate FoundDuplicate(log: seq<Exchange>) {
    exists j :: 0 <= j < |log| && log[j].request.FindRecord? && log[j].answer == Found
  }

  ghost predicate RanHandler(log: seq<Exchange>) {
    exists j :: 0 <= j < |log| && log[j].request == RunJob
  }

  /** An acknowledgement is requested only after the handler succeeded, the failure record was stored or
      an existing record was found; after a record was found the handler is never run; and the record that
      is stored describes this delivery. */
  lemma {:induction false} AcknowledgesOnlyWithCause(job: Job, log: seq<Exchange>)
    requires Follows(job, log)
    ensures Drive(job, log).Settling? || Drive(job, log).Done? ==> HasCause(job, log)
    ensures FoundDuplicate(log) ==> Drive(job, log) in {Settling(AlreadyRecorded), Done, Dead} && !RanHandler(log)
    ensures RanHandler(log) || FoundDuplicate(log) ==> !Drive(job, log).Looking? && !Drive(job, log).Resolving?
    ensures Drive(job, log).Looking? ==> log == [] && job.possiblyRedelivered
    ensures Drive(job, log).Saving? ==>
              var r := Drive(job, log).record;
              r.failureId == FailureIdOf(job.payload) && r.payload == job.payload
  {
    if log != [] {
      var front := log[..|log| - 1];
      var last := log[|log| - 1];
      AcknowledgesOnlyWithCause(job, front);
      assert forall j :: 0 <= j < |front| ==> log[j] == front[j];
      if HasCause(job, front) {
        var j :| 0 <= j < |front| && Settles(job, front[j]);
        assert Settles(job, log[j]);
      }
      if Settles(job, last) {
        assert Settles(job, log[|log| - 1]);
      }
    }
  }

  /** The payload has just got past the duplicate check, or needed none. */
  predicate IsChecked(job: Job, log: seq<Exchange>) {
    if log == [] then !job.possiblyRedelivered
    else log[|log| - 1] == Exchange(FindRecord(FailureIdOf(job.payload)), Missing)
  }

  /** The last exchange was a failure for the reason, after so many attempts. */
  predicate HasFailed(job: Job, log: seq<Exchange>, attempts: nat, reason: Reason) {
    || (job.payload.Malformed? && IsChecked(job, log) && attempts == 0 && reason == InvalidEnvelope)
    || (log != [] && log[|log| - 1] == Exchange(ResolveJob, NoSuchJob) && attempts == 0 && reason == UnknownJob)
    || (log != [] && log[|log| - 1] == Exchange(ResolveJob, NoSuchVersion) && attempts == 0
        && reason == UnsupportedJobVersion)
    || (log != [] && log[|log| - 1] == Exchange(RunJob, Ran(ExecutionResult(attempts, Some(reason)))))
  }

  /** The record tells whose payload failed, when, after how many attempts and why. */
  predicate Describes(record: Record, job: Job, attempts: nat, reason: Reason) {
    && record.failureId == FailureIdOf(job.payload) && record.payload == job.payload && record.failedAt == job.clock
    && record.attempts == attempts && record.reason == reason
    && (if job.payload.Envelope? then record.jobId == Some(job.payload.jobId) else record.jobId == None)
  }

  /** Each request is made exactly when it should be, told by the last exchange alone: the duplicate check first and
      only for a flagged delivery; the lookup of the job after the check, unless the envelope is malformed; the handler
      once the job is bound; a record, which describes the failure, after a failure; the acknowledgement after a
      success, a stored record or a duplicate.  The execution is over in good order exactly after an accepted
      acknowledgement. */
  lemma EachRequestExactlyWhen(job: Job, log: seq<Exchange>)
    requires Follows(job, log)
    ensures var next := RequestAt(job, Drive(job, log));
      && (next.Some? && next.value.FindRecord? <==> log == [] && job.possiblyRedelivered)
      && (next.Some? && next.value.FindRecord? ==> next.value.failureId == FailureIdOf(job.payload))
      && (next == Some(ResolveJob) <==> job.payload.Envelope? && IsChecked(job, log))
      && (next == Some(RunJob) <==> log != [] && log[|log| - 1] == Exchange(ResolveJob, Bound))
      && (next == Some(Acknowledge) <==> log != [] && Settles(job, log[|log| - 1]))
      && (next.Some? && next.value.SaveRecord? <==> exists n: nat, reason :: HasFailed(job, log, n, reason))
      && (forall n: nat, reason :: HasFailed(job, log, n, reason) && next.Some? && next.value.SaveRecord? ==>
            Describes(next.value.record, job, n, reason))
    ensures Drive(job, log) == Done <==> log != [] && log[|log| - 1] == Exchange(Acknowledge, Acked)
  {
    if log != [] {
      AcknowledgesOnlyWithCause(job, log[..|log| - 1]);
    }
    var next := RequestAt(job, Drive(job, log));
    if next.Some? && next.value.SaveRecord? {
      assert HasFailed(job, log, next.value.record.attempts, next.value.record.reason);
    }
  }
}
