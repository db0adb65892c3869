/** Rebuilding a job's state from its audit log, and counting entries. */
module Audit {
  import opened Types

  datatype Row = Row(status: StepStatus, attempts: nat)

  /** What a reader of the log knows: `current` is the step of the last STEP_STARTED. */
  datatype History = History(status: JobStatus, rows: seq<Row>, current: Option<nat>)

  function Fresh(n: nat): History {
    History(JobPending, seq(n, _ => Row(StepPending, 0)), None)
  }

  /** Sets the row of the current step, to which entries without a step reference belong. */
  function OnCurrent(h: History, status: StepStatus, attempts: Option<nat>): History {
    if h.current.Some? && h.current.value < |h.rows| then
      var k := h.current.value;
      h.(rows := h.rows[k := Row(status, attempts.GetOr(h.rows[k].attempts))])
    else
      h
  }

  predicate RetriesAfter(cfg: seq<StepConfig>, current: Option<nat>, attempt: nat) {
    current.Some? && current.value < |cfg| && attempt < MaxAttempts(cfg[current.value])
  }

  function RecoveredStatus(strategy: Strategy): StepStatus {
    if strategy == Skip then StepSkipped else StepCompleted
  }

  /** Reading one entry. FAILURE_DETECTED carries the silent RETRYING write and
      RECOVERY_SUCCEEDED the silent COMPLETED or SKIPPED write. */
  function Read(cfg: seq<StepConfig>, h: History, e: Entry): History {
    match e
    case LogJobStarted => h.(status := JobRunning)
    case LogJobCompleted => h.(status := JobCompleted)
    case LogJobFailed => h.(status := JobFailed)
    case LogJobCancelled => h.(status := JobCancelled)
    case LogManualRetry => h.(status := JobPending)
    case LogStepStarted(k) =>
      if k < |h.rows| then h.(current := Some(k), rows := h.rows[k := Row(StepRunning, 1)]) else h
    case LogStepCompleted(a) => OnCurrent(h, StepCompleted, Some(a))
    case LogStepSkipped => OnCurrent(h, StepSkipped, None)
    case LogStepCompensated(k) =>
      if k < |h.rows| then h.(rows := h.rows[k := h.rows[k].(status := StepCompensated)]) else h
    case LogFailureDetected(a, _) =>
      var h' := OnCurrent(h, StepFailed, Some(a));
      if RetriesAfter(cfg, h.current, a) then h'.(status := JobRetrying) else h'
    case LogRecoverySucceeded(strategy) => OnCurrent(h, RecoveredStatus(strategy), None)
    case _ => h
  }

  function Replay(cfg: seq<StepConfig>, log: seq<Entry>): History {
    if log == [] then Fresh(|cfg|)
    else Read(cfg, Replay(cfg, log[..|log| - 1]), log[|log| - 1])
  }

  lemma ReplayAppend(cfg: seq<StepConfig>, log: seq<Entry>, e: Entry)
    ensures Replay(cfg, log + [e]) == Read(cfg, Replay(cfg, log), e)
  {
  }

  /** How many entries of a log satisfy `p`. */
  function Count(p: Entry -> bool, log: seq<Entry>): nat {
    if log == [] then 0
    else Count(p, log[..|log| - 1]) + if p(log[|log| - 1]) then 1 else 0
  }
}
