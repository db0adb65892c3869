/** The rows of the engine's tables and the audit entries, as values. */
module Types {

  datatype Option<+T> = None | Some(value: T) {
    function GetOr(default: T): T {
      if Some? then value else default
    }
  }

  datatype JobStatus =
    JobPending | JobRunning | JobCompleted | JobFailed | JobRetrying | JobCancelled

  datatype StepStatus =
    StepPending | StepRunning | StepWaiting | StepCompleted | StepFailed | StepSkipped | StepCompensated

  datatype FailureType = Timeout | NetworkError | ExternalServiceFailure | ValidationError | Unknown

  datatype Strategy =
    Retry | RetryWithDelay | Fallback | Skip | Compensate | Escalate | DeadLetter
    | SwitchModel | ReduceContext | PauseForHuman

  /** A step's stored result: what a handler returned, or what a strategy writes in its place. */
  datatype Value =
    EmptyObject | Given(id: nat) | FallbackBy(service: string) | SkippedMark | CompensatedCount(steps: nat)

  datatype Policy = Policy(
    strategy: Strategy,
    maxRetries: nat,
    fallbackService: Option<string>,
    retryDelayMs: nat,
    backoffMultiplier: real)

  /** A workflow step as authored; `model` is the `model` key of its JSON config. */
  datatype StepConfig = StepConfig(name: string, isCritical: bool, policy: Option<Policy>, model: Option<string>)

  datatype StepRow = StepRow(
    status: StepStatus,
    attempts: nat,
    failure: Option<FailureType>,
    result: Option<Value>)

  datatype Incident = Incident(
    step: nat,
    failure: FailureType,
    resolved: bool,
    escalated: bool,
    retryCount: nat)

  datatype RecoveryAttempt = RecoveryAttempt(
    incident: nat,
    step: nat,
    strategy: Strategy,
    success: bool,
    attempt: nat)

  /** One audit row: the action and the metadata that the code stores with it. */
  datatype Entry =
    | LogJobCreated
    | LogJobStarted
    | LogJobCompleted
    | LogJobFailed
    | LogJobCancelled
    | LogManualRetry
    | LogDeadLettered
    | LogStepStarted(order: nat)
    | LogStepCompleted(attempt: nat)
    | LogStepSkipped
    | LogStepCompensated(step: nat)
    | LogFailureDetected(attempt: nat, failure: FailureType)
    | LogRecoveryStarted(strategy: Strategy, attempt: nat)
    | LogRecoverySucceeded(strategy: Strategy)
    | LogRecoveryFailed(strategy: Strategy)
    | LogEscalated
    | LogApprovalRequested
    | LogModelSwitched(from: Option<string>, to: string, attempt: nat)

  /** A job with every row that belongs to it. A step's id is its index in `steps`. */
  datatype JobRec = JobRec(
    tenant: nat,
    workflow: nat,
    payload: nat,
    cfg: seq<StepConfig>,
    status: JobStatus,
    steps: seq<StepRow>,
    incidents: seq<Incident>,
    attempts: seq<RecoveryAttempt>,
    log: seq<Entry>)

  /** The data of an entry in the workflow queue or in the dead-letter queue. */
  datatype QueueData = QueueData(jobId: nat, tenantId: nat, workflowId: nat, payload: Option<nat>)

  /** How many attempts the worker's loop allows for a step. */
  function MaxAttempts(c: StepConfig): (n: nat)
    ensures n >= 1
  {
    if c.policy.Some? then c.policy.value.maxRetries + 1 else 1
  }

  function SelectStrategy(policy: Option<Policy>, attempt: nat): Strategy {
    match policy
    case None => Escalate
    case Some(p) =>
      if attempt > p.maxRetries then
        if p.strategy == Fallback then Fallback else Escalate
      else
        p.strategy
  }
}
