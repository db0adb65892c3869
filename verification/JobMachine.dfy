/** The worker's program on one job as a step relation. Each step is one action on the
    tables; operator actions may fall between any two of them. */
module JobMachine {
  import opened Types
  import opened Audit
  import Text

  /** What the recovery layer asks of the next attempt. */
  datatype Hint = Hint(overrideModel: Option<string>, reduceContext: bool)

  const NO_HINT := Hint(None, false)

  /** The later hint's keys overwrite the earlier hint's. */
  function Merge(h: Hint, later: Hint): Hint {
    Hint(if later.overrideModel.Some? then later.overrideModel else h.overrideModel,
         h.reduceContext || later.reduceContext)
  }

  /** What a call into a handler, a simulated execution or a fallback provider came to. */
  datatype Attempted = Done(value: Option<Value>) | Broke(failure: FailureType)

  /** The result of `RecoveryService.execute`. */
  datatype Recovered = Recovered(success: bool, strategy: Strategy, result: Option<Value>, hint: Option<Hint>)

  /** The failed attempt that recovery is working on. */
  datatype Failure = Failure(i: nat, a: nat, hint: Hint, f: FailureType)

  /** Where the recovery of a failed attempt stands. */
  datatype Stage =
    | Selecting                                // failure recorded
    | Dispatching(s: Strategy)                 // RECOVERY_STARTED logged
    | Compensating(todo: seq<nat>, total: nat)
    | Seeking(out: Recovered)                  // strategy done, look for an open incident
    | Opening(out: Recovered)                  // none found
    | Linking(out: Recovered, incident: nat)   // recovery attempt to be stored
    | Concluding(out: Recovered)               // RECOVERY_SUCCEEDED or _FAILED to be logged
    | Reviewing(out: Recovered)                // back in the worker

  /** Where a worker stands in its program. */
  datatype Pc =
    | Claimed                                  // entry taken, job row not read
    | Starting                                 // row read, not CANCELLED
    | Boundary(i: nat)                         // top of the step loop
    | Entering(i: nat)                         // status polled, not CANCELLED
    | Attempting(i: nat, a: nat, hint: Hint)   // handler is running
    | InRecovery(x: Failure, at: Stage)
    | Exhausted(i: nat)
    | DeadLettering(i: nat)                    // JOB_FAILED logged
    | Trailing                                 // entry added, DEAD_LETTERED to be logged
    | Finishing
    | Released

  /** From `Trailing` on, the job is no longer the worker's. */
  predicate Owning(pc: Pc) {
    !pc.Trailing? && !pc.Released?
  }

  // ---- Actions ----

  function Logged(r: JobRec, e: Entry): JobRec {
    r.(log := r.log + [e])
  }

  function MarkStarted(r: JobRec): JobRec {
    Logged(r.(status := JobRunning), LogJobStarted)
  }

  function MarkStepRunning(r: JobRec, i: nat): JobRec
    requires i < |r.steps|
  {
    Logged(r.(steps := r.steps[i := r.steps[i].(status := StepRunning, attempts := 1)]), LogStepStarted(i))
  }

  function CompleteStep(r: JobRec, i: nat, a: nat, v: Option<Value>): JobRec
    requires i < |r.steps|
  {
    var row := r.steps[i].(status := StepCompleted, attempts := a, result := Some(v.GetOr(EmptyObject)));
    Logged(r.(steps := r.steps[i := row]), LogStepCompleted(a))
  }

  function RecordFailure(r: JobRec, i: nat, a: nat, f: FailureType): JobRec
    requires i < |r.steps| && i < |r.cfg|
  {
    var row := r.steps[i].(status := StepFailed, attempts := a, failure := Some(f));
    Logged(r.(steps := r.steps[i := row],
              status := if a < MaxAttempts(r.cfg[i]) then JobRetrying else r.status),
           LogFailureDetected(a, f))
  }

  function SetStatus(r: JobRec, i: nat, status: StepStatus): JobRec
    requires i < |r.steps|
  {
    r.(steps := r.steps[i := r.steps[i].(status := status)])
  }

  function CompensateStep(r: JobRec, k: nat): JobRec
    requires k < |r.steps|
  {
    Logged(SetStatus(r, k, StepCompensated), LogStepCompensated(k))
  }

  function EscalateOpen(incidents: seq<Incident>, i: nat): (out: seq<Incident>) {
    seq(|incidents|, k requires 0 <= k < |incidents| =>
      if incidents[k].step == i && !incidents[k].resolved then incidents[k].(escalated := true) else incidents[k])
  }

  function EscalateStep(r: JobRec, i: nat): JobRec {
    Logged(r.(incidents := EscalateOpen(r.incidents, i)), LogEscalated)
  }

  function OpenIncident(r: JobRec, x: Failure): JobRec {
    r.(incidents := r.incidents + [Incident(x.i, x.f, false, false, x.a)])
  }

  function LinkAttempt(r: JobRec, x: Failure, out: Recovered, incident: nat): JobRec {
    r.(attempts := r.attempts + [RecoveryAttempt(incident, x.i, out.strategy, out.success, x.a)])
  }

  function Conclude(r: JobRec, out: Recovered): JobRec {
    Logged(r, if out.success then LogRecoverySucceeded(out.strategy) else LogRecoveryFailed(out.strategy))
  }

  /** The worker's own write after a successful recovery. */
  function SettleRecovered(r: JobRec, i: nat, out: Recovered): JobRec
    requires i < |r.steps|
  {
    r.(steps := r.steps[i := r.steps[i].(status := RecoveredStatus(out.strategy),
                                         result := Some(out.result.GetOr(EmptyObject)))])
  }

  function FailJob(r: JobRec): JobRec {
    Logged(r.(status := JobFailed), LogJobFailed)
  }

  function SkipStep(r: JobRec, i: nat): JobRec
    requires i < |r.steps|
  {
    Logged(SetStatus(r, i, StepSkipped), LogStepSkipped)
  }

  function FinishJob(r: JobRec): JobRec {
    Logged(r.(status := JobCompleted), LogJobCompleted)
  }

  /** The open incident of a step, if there is one. */
  function FirstOpen(incidents: seq<Incident>, i: nat, from: nat := 0): (k: Option<nat>)
    requires from <= |incidents|
    ensures k.Some? ==>
      from <= k.value < |incidents| && incidents[k.value].step == i && !incidents[k.value].resolved
    ensures k.None? ==> forall n :: from <= n < |incidents| ==> incidents[n].step != i || incidents[n].resolved
    decreases |incidents| - from
  {
    if from == |incidents| then None
    else if IsOpen(incidents[from], i) then Some(from)
    else FirstOpen(incidents, i, from + 1)
  }

  predicate IsOpen(n: Incident, i: nat) {
    n.step == i && !n.resolved
  }

  /** Indices of the COMPLETED steps, in creation order. */
  function CompletedSteps(steps: seq<StepRow>, from: nat := 0): (ks: seq<nat>)
    requires from <= |steps|
    ensures forall k :: k in ks <==> from <= k < |steps| && steps[k].status == StepCompleted
    ensures forall n :: 0 <= n < |ks| ==> from <= ks[n] < |steps| && steps[ks[n]].status == StepCompleted
    ensures forall x, y :: 0 <= x < y < |ks| ==> ks[x] < ks[y]
    decreases |steps| - from
  {
    if from == |steps| then []
    else if steps[from].status == StepCompleted then [from] + CompletedSteps(steps, from + 1)
    else CompletedSteps(steps, from + 1)
  }

  /** The model a SWITCH_MODEL policy names; blank names count as none. */
  function FallbackModel(policy: Option<Policy>): Option<string> {
    if policy.None? || policy.value.fallbackService.None? then None
    else
      var name := Text.Trim(policy.value.fallbackService.value);
      if name == "" then None else Some(name)
  }

  function FallbackProvider(policy: Option<Policy>): string {
    if policy.None? then "backup-provider" else policy.value.fallbackService.GetOr("backup-provider")
  }

  /** The worker's reading of a failed recovery: the hint for the next attempt and,
      when the model changes, the entry that says so. */
  function NextHint(hint: Hint, out: Recovered): Hint {
    if out.hint.Some? then Merge(hint, out.hint.value) else hint
  }

  function PreviousModel(c: StepConfig, hint: Hint): Option<string> {
    if hint.overrideModel.Some? then hint.overrideModel else c.model
  }

  function SwitchEntry(c: StepConfig, x: Failure, out: Recovered): Option<Entry> {
    if out.hint.Some? && out.hint.value.overrideModel.Some?
       && out.hint.value.overrideModel != PreviousModel(c, x.hint)
    then Some(LogModelSwitched(PreviousModel(c, x.hint), out.hint.value.overrideModel.value, x.a))
    else None
  }

  function LoggedIf(r: JobRec, e: Option<Entry>): JobRec {
    if e.Some? then Logged(r, e.value) else r
  }

  function NextAttempt(c: StepConfig, x: Failure, hint: Hint): Pc {
    if x.a < MaxAttempts(c) then Attempting(x.i, x.a + 1, hint) else Exhausted(x.i)
  }

  function Failing(s: Strategy): Recovered {
    Recovered(false, s, None, None)
  }

  // ---- The program ----

  predicate FitsFailure(r: JobRec, x: Failure) {
    x.i < |r.cfg| && 1 <= x.a <= MaxAttempts(r.cfg[x.i])
  }

  predicate FitsStage(r: JobRec, at: Stage) {
    at.Compensating? ==> forall n :: 0 <= n < |at.todo| ==> at.todo[n] < |r.cfg|
  }

  /** Indices in `pc` refer to rows that exist. */
  predicate Fits(r: JobRec, pc: Pc) {
    && |r.steps| == |r.cfg|
    && match pc
       case Boundary(i) => i <= |r.cfg|
       case Entering(i) => i < |r.cfg|
       case Attempting(i, a, _) => i < |r.cfg| && 1 <= a <= MaxAttempts(r.cfg[i])
       case InRecovery(x, at) => FitsFailure(r, x) && FitsStage(r, at)
       case Exhausted(i) => i < |r.cfg|
       case DeadLettering(i) => i < |r.cfg|
       case _ => true
  }

  /** `RecoveryService.dispatch`; `c` is what an external call, if there is one, came to. */
  function Dispatch(r: JobRec, x: Failure, s: Strategy, c: Attempted): (n: (JobRec, Stage))
    requires |r.steps| == |r.cfg| && FitsFailure(r, x)
    ensures |n.0.steps| == |n.0.cfg| && n.0.cfg == r.cfg && FitsStage(n.0, n.1)
  {
    var policy := r.cfg[x.i].policy;
    match s
    case Retry => (r, Seeking(if c.Done? then Recovered(true, s, c.value, None) else Failing(s)))
    case RetryWithDelay => (r, Seeking(if c.Done? then Recovered(true, s, c.value, None) else Failing(s)))
    case Fallback =>
      (r, Seeking(if c.Done? then Recovered(true, s, Some(FallbackBy(FallbackProvider(policy))), None) else Failing(s)))
    case Skip => (SetStatus(r, x.i, StepSkipped), Seeking(Recovered(true, s, Some(SkippedMark), None)))
    case Compensate =>
      var todo := CompletedSteps(r.steps);
      (r, Compensating(todo, |todo|))
    case Escalate => (EscalateStep(r, x.i), Seeking(Failing(s)))
    case SwitchModel =>
      var m := FallbackModel(policy);
      (r, Seeking(if m.Some? then Recovered(false, s, None, Some(Hint(m, false))) else Failing(s)))
    case ReduceContext => (r, Seeking(Recovered(false, s, None, Some(Hint(None, true)))))
    case PauseForHuman => (Logged(r, LogApprovalRequested), Seeking(Failing(s)))
    case DeadLetter => (r, Seeking(Failing(s)))
  }

  /** One action of the recovery service, up to its return into the worker. */
  function Recover(r: JobRec, x: Failure, at: Stage, c: Attempted): (n: (JobRec, Stage))
    requires |r.steps| == |r.cfg| && FitsFailure(r, x) && FitsStage(r, at) && !at.Reviewing?
    ensures |n.0.steps| == |n.0.cfg| && n.0.cfg == r.cfg && FitsStage(n.0, n.1)
  {
    match at
    case Selecting =>
      var s := SelectStrategy(r.cfg[x.i].policy, x.a);
      (Logged(r, LogRecoveryStarted(s, x.a)), Dispatching(s))
    case Dispatching(s) => Dispatch(r, x, s, c)
    case Compensating(todo, total) =>
      if todo == [] then (r, Seeking(Recovered(true, Compensate, Some(CompensatedCount(total)), None)))
      else (CompensateStep(r, todo[0]), Compensating(todo[1..], total))
    case Seeking(out) =>
      var k := FirstOpen(r.incidents, x.i);
      (r, if k.Some? then Linking(out, k.value) else Opening(out))
    case Opening(out) => (OpenIncident(r, x), Linking(out, |r.incidents|))
    case Linking(out, n) => (LinkAttempt(r, x, out, n), Concluding(out))
    case Concluding(out) => (Conclude(r, out), Reviewing(out))
  }

  /** The worker's handling of what recovery returned. */
  function Review(r: JobRec, x: Failure, out: Recovered): (n: (JobRec, Pc))
    requires |r.steps| == |r.cfg| && FitsFailure(r, x)
    ensures Fits(n.0, n.1) && n.0.cfg == r.cfg
  {
    if out.success then (SettleRecovered(r, x.i, out), Boundary(x.i + 1))
    else (LoggedIf(r, SwitchEntry(r.cfg[x.i], x, out)), NextAttempt(r.cfg[x.i], x, NextHint(x.hint, out)))
  }

  /** One action of the worker. */
  function Step(r: JobRec, pc: Pc, c: Attempted): (n: (JobRec, Pc))
    requires Fits(r, pc)
    ensures Fits(n.0, n.1) && n.0.cfg == r.cfg
  {
    match pc
    case Claimed => (r, if r.status == JobCancelled then Released else Starting)
    case Starting => (MarkStarted(r), Boundary(0))
    case Boundary(i) => (r, if i == |r.cfg| || r.status == JobCancelled then Finishing else Entering(i))
    case Entering(i) => (MarkStepRunning(r, i), Attempting(i, 1, NO_HINT))
    case Attempting(i, a, hint) =>
      if c.Done? then (CompleteStep(r, i, a, c.value), Boundary(i + 1))
      else (RecordFailure(r, i, a, c.failure), InRecovery(Failure(i, a, hint, c.failure), Selecting))
    case InRecovery(x, at) =>
      if at.Reviewing? then Review(r, x, at.out)
      else var n := Recover(r, x, at, c); (n.0, InRecovery(x, n.1))
    case Exhausted(i) =>
      if r.cfg[i].isCritical then (FailJob(r), DeadLettering(i)) else (SkipStep(r, i), Boundary(i + 1))
    case DeadLettering(i) => (r, Trailing)
    case Trailing => (Logged(r, LogDeadLettered), Released)
    case Finishing => (FinishJob(r), Released)
    case Released => (r, Released)
  }

  /** What others may do to the job's rows between two actions of its worker: the write of a
      cancellation, an incident resolved by an operator, the last write of a dead-letter retry,
      and the last entry of a worker that has just dead-lettered the job. */
  datatype Op = Cancel | Resolve(incident: nat) | ManualRetry | LateDeadLettered

  function Operate(r: JobRec, op: Op): JobRec {
    match op
    case Cancel => Logged(r.(status := JobCancelled), LogJobCancelled)
    case Resolve(k) =>
      if k < |r.incidents| then r.(incidents := r.incidents[k := r.incidents[k].(resolved := true)]) else r
    case ManualRetry => Logged(r.(status := JobPending), LogManualRetry)
    case LateDeadLettered => Logged(r, LogDeadLettered)
  }

  // ---- The invariant ----

  /** The step the worker is inside, if any. */
  function StepOf(pc: Pc): Option<nat> {
    match pc
    case Attempting(i, _, _) => Some(i)
    case InRecovery(x, _) => Some(x.i)
    case Exhausted(i) => Some(i)
    case _ => None
  }

  predicate SkipWritten(at: Stage) {
    && (at.Seeking? || at.Opening? || at.Linking? || at.Concluding? || at.Reviewing?)
    && at.out.success && at.out.strategy == Skip
  }

  /** A stored row as the log must show it. The two differ in two windows: SKIP stores SKIPPED
      before RECOVERY_SUCCEEDED is logged, and the other strategies store COMPLETED after it. */
  function ShownRow(row: StepRow, k: nat, pc: Pc): Row {
    if pc.InRecovery? && pc.x.i == k then
      Row(if pc.at.Reviewing? && pc.at.out.success then RecoveredStatus(pc.at.out.strategy) else StepFailed,
          row.attempts)
    else
      Row(row.status, row.attempts)
  }

  /** The log and the row of step `k` disagree on its status exactly in those windows. */
  predicate InWindow(pc: Pc, k: nat) {
    && pc.InRecovery? && pc.x.i == k
    && if pc.at.Reviewing? then pc.at.out.success && pc.at.out.strategy != Skip else SkipWritten(pc.at)
  }

  /** `h` tells the job's status, every step's status and attempt counter, and the current step. */
  ghost predicate Mirrors(h: History, r: JobRec, pc: Pc) {
    && h.status == r.status
    && |h.rows| == |r.steps|
    && (forall k :: 0 <= k < |r.steps| ==> h.rows[k] == ShownRow(r.steps[k], k, pc))
    && (StepOf(pc).Some? ==> h.current == StepOf(pc))
  }

  /** Inside recovery the step's row says FAILED with the attempt's number, or SKIPPED
      once SKIP has written it. */
  ghost predicate FailureStored(r: JobRec, pc: Pc) {
    pc.InRecovery? ==>
      && pc.x.i < |r.steps|
      && r.steps[pc.x.i].attempts == pc.x.a
      && r.steps[pc.x.i].status == (if SkipWritten(pc.at) then StepSkipped else StepFailed)
      && (pc.at.Compensating? ==> forall n :: 0 <= n < |pc.at.todo| ==> pc.at.todo[n] != pc.x.i)
  }

  /** No two unresolved incidents belong to one step. */
  ghost predicate OneOpen(incidents: seq<Incident>) {
    forall m, n :: 0 <= m < n < |incidents| && !incidents[m].resolved && !incidents[n].resolved
      ==> incidents[m].step != incidents[n].step
  }

  ghost predicate Linked(attempts: seq<RecoveryAttempt>, incidents: seq<Incident>) {
    forall k :: 0 <= k < |attempts| ==>
      attempts[k].incident < |incidents| && incidents[attempts[k].incident].step == attempts[k].step
  }

  ghost predicate IncidentsSound(r: JobRec, pc: Pc) {
    && OneOpen(r.incidents)
    && Linked(r.attempts, r.incidents)
    && (pc.InRecovery? ==>
          && (pc.at.Opening? ==> forall k :: 0 <= k < |r.incidents| ==> !IsOpen(r.incidents[k], pc.x.i))
          && (pc.at.Linking? ==> pc.at.incident < |r.incidents| && r.incidents[pc.at.incident].step == pc.x.i))
  }

  /** What holds of a job's rows at every moment; `pc` is its owner's place, `Released` if it has none. */
  ghost predicate JobInv(r: JobRec, pc: Pc) {
    && Fits(r, pc)
    && Mirrors(Replay(r.cfg, r.log), r, pc)
    && FailureStored(r, pc)
    && IncidentsSound(r, pc)
  }

  /** The entry an action appends, if it appends one. */
  function Emitted(r: JobRec, pc: Pc, c: Attempted): Option<Entry>
    requires Fits(r, pc)
  {
    match pc
    case Starting => Some(LogJobStarted)
    case Entering(i) => Some(LogStepStarted(i))
    case Attempting(_, a, _) => Some(if c.Done? then LogStepCompleted(a) else LogFailureDetected(a, c.failure))
    case InRecovery(x, at) => EmittedInRecovery(r, x, at)
    case Exhausted(i) => Some(if r.cfg[i].isCritical then LogJobFailed else LogStepSkipped)
    case Trailing => Some(LogDeadLettered)
    case Finishing => Some(LogJobCompleted)
    case _ => None
  }

  function EmittedInRecovery(r: JobRec, x: Failure, at: Stage): Option<Entry>
    requires FitsFailure(r, x)
  {
    match at
    case Selecting => Some(LogRecoveryStarted(SelectStrategy(r.cfg[x.i].policy, x.a), x.a))
    case Dispatching(s) =>
      if s == Escalate then Some(LogEscalated) else if s == PauseForHuman then Some(LogApprovalRequested) else None
    case Compensating(todo, _) => if todo == [] then None else Some(LogStepCompensated(todo[0]))
    case Concluding(out) =>
      Some(if out.success then LogRecoverySucceeded(out.strategy) else LogRecoveryFailed(out.strategy))
    case Reviewing(out) => if out.success then None else SwitchEntry(r.cfg[x.i], x, out)
    case _ => None
  }

  lemma StepLogs(r: JobRec, pc: Pc, c: Attempted)
    requires Fits(r, pc)
    ensures var r' := Step(r, pc, c).0;
            r'.cfg == r.cfg && r'.log == LoggedIf(r, Emitted(r, pc, c)).log
  {
  }

  function ReadIf(cfg: seq<StepConfig>, h: History, e: Option<Entry>): History {
    if e.Some? then Read(cfg, h, e.value) else h
  }

  lemma AttemptTells(h: History, r: JobRec, pc: Pc, c: Attempted)
    requires Fits(r, pc) && Mirrors(h, r, pc) && FailureStored(r, pc)
    requires pc.Attempting? || pc.Exhausted?
    ensures var (r', pc') := Step(r, pc, c); Mirrors(ReadIf(r.cfg, h, Emitted(r, pc, c)), r', pc')
  {
  }

  lemma OutsideTells(h: History, r: JobRec, pc: Pc, c: Attempted)
    requires Fits(r, pc) && Mirrors(h, r, pc) && FailureStored(r, pc)
    requires !pc.InRecovery? && !pc.Attempting? && !pc.Exhausted?
    ensures var (r', pc') := Step(r, pc, c); Mirrors(ReadIf(r.cfg, h, Emitted(r, pc, c)), r', pc')
  {
  }

  lemma DispatchTells(h: History, r: JobRec, pc: Pc, c: Attempted)
    requires Fits(r, pc) && Mirrors(h, r, pc) && FailureStored(r, pc)
    requires pc.InRecovery? && pc.at.Dispatching?
    ensures var (r', pc') := Step(r, pc, c); Mirrors(ReadIf(r.cfg, h, Emitted(r, pc, c)), r', pc')
  {
  }

  lemma CompensateTells(h: History, r: JobRec, pc: Pc, c: Attempted)
    requires Fits(r, pc) && Mirrors(h, r, pc) && FailureStored(r, pc)
    requires pc.InRecovery? && pc.at.Compensating?
    ensures var (r', pc') := Step(r, pc, c); Mirrors(ReadIf(r.cfg, h, Emitted(r, pc, c)), r', pc')
  {
  }

  lemma ReviewTells(h: History, r: JobRec, pc: Pc, c: Attempted)
    requires Fits(r, pc) && Mirrors(h, r, pc) && FailureStored(r, pc)
    requires pc.InRecovery? && (pc.at.Reviewing? || pc.at.Concluding?)
    ensures var (r', pc') := Step(r, pc, c); Mirrors(ReadIf(r.cfg, h, Emitted(r, pc, c)), r', pc')
  {
  }

  lemma BookkeepingTells(h: History, r: JobRec, pc: Pc, c: Attempted)
    requires Fits(r, pc) && Mirrors(h, r, pc) && FailureStored(r, pc)
    requires pc.InRecovery? && (pc.at.Selecting? || pc.at.Seeking? || pc.at.Opening? || pc.at.Linking?)
    ensures var (r', pc') := Step(r, pc, c); Mirrors(ReadIf(r.cfg, h, Emitted(r, pc, c)), r', pc')
  {
  }

  /** The entry an action appends tells exactly what the action stored. */
  lemma StepTells(h: History, r: JobRec, pc: Pc, c: Attempted)
    requires Fits(r, pc) && Mirrors(h, r, pc) && FailureStored(r, pc)
    ensures var (r', pc') := Step(r, pc, c); Mirrors(ReadIf(r.cfg, h, Emitted(r, pc, c)), r', pc')
  {
    if pc.Attempting? || pc.Exhausted? {
      AttemptTells(h, r, pc, c);
    } else if !pc.InRecovery? {
      OutsideTells(h, r, pc, c);
    } else if pc.at.Dispatching? {
      DispatchTells(h, r, pc, c);
    } else if pc.at.Compensating? {
      CompensateTells(h, r, pc, c);
    } else if pc.at.Reviewing? || pc.at.Concluding? {
      ReviewTells(h, r, pc, c);
    } else {
      BookkeepingTells(h, r, pc, c);
    }
  }

  lemma DispatchKeepsFailureStored(r: JobRec, pc: Pc, c: Attempted)
    requires Fits(r, pc) && FailureStored(r, pc) && pc.InRecovery? && pc.at.Dispatching?
    ensures var (r', pc') := Step(r, pc, c); FailureStored(r', pc')
  {
  }

  lemma StepKeepsFailureStored(r: JobRec, pc: Pc, c: Attempted)
    requires Fits(r, pc) && FailureStored(r, pc)
    ensures var (r', pc') := Step(r, pc, c); FailureStored(r', pc')
  {
    if pc.InRecovery? && pc.at.Dispatching? {
      DispatchKeepsFailureStored(r, pc, c);
    }
  }

  lemma BookkeepingKeepsIncidents(r: JobRec, pc: Pc, c: Attempted)
    requires Fits(r, pc) && IncidentsSound(r, pc)
    requires pc.InRecovery? && (pc.at.Seeking? || pc.at.Opening? || pc.at.Linking?)
    ensures var (r', pc') := Step(r, pc, c); IncidentsSound(r', pc')
  {
  }

  lemma DispatchKeepsIncidents(r: JobRec, pc: Pc, c: Attempted)
    requires Fits(r, pc) && IncidentsSound(r, pc) && pc.InRecovery? && pc.at.Dispatching?
    ensures var (r', pc') := Step(r, pc, c); IncidentsSound(r', pc')
  {
  }

  lemma StepKeepsIncidents(r: JobRec, pc: Pc, c: Attempted)
    requires Fits(r, pc) && IncidentsSound(r, pc)
    ensures var (r', pc') := Step(r, pc, c); IncidentsSound(r', pc')
  {
    if pc.InRecovery? && (pc.at.Seeking? || pc.at.Opening? || pc.at.Linking?) {
      BookkeepingKeepsIncidents(r, pc, c);
    } else if pc.InRecovery? && pc.at.Dispatching? {
      DispatchKeepsIncidents(r, pc, c);
    }
  }

  lemma StepKeepsJobInv(r: JobRec, pc: Pc, c: Attempted)
    requires JobInv(r, pc)
    ensures var (r', pc') := Step(r, pc, c); JobInv(r', pc')
  {
    var (r', pc') := Step(r, pc, c);
    var e := Emitted(r, pc, c);
    StepLogs(r, pc, c);
    StepTells(Replay(r.cfg, r.log), r, pc, c);
    if e.Some? {
      ReplayAppend(r.cfg, r.log, e.value);
    }
    StepKeepsFailureStored(r, pc, c);
    StepKeepsIncidents(r, pc, c);
  }

  function OperateEntry(op: Op): Option<Entry> {
    match op
    case Cancel => Some(LogJobCancelled)
    case Resolve(_) => None
    case ManualRetry => Some(LogManualRetry)
    case LateDeadLettered => Some(LogDeadLettered)
  }

  lemma OperateTells(h: History, r: JobRec, pc: Pc, op: Op)
    requires Fits(r, pc) && Mirrors(h, r, pc)
    ensures Mirrors(ReadIf(r.cfg, h, OperateEntry(op)), Operate(r, op), pc)
  {
  }

  lemma OperateKeepsIncidents(r: JobRec, pc: Pc, op: Op)
    requires IncidentsSound(r, pc)
    ensures IncidentsSound(Operate(r, op), pc)
  {
  }

  lemma OperateKeepsJobInv(r: JobRec, pc: Pc, op: Op)
    requires JobInv(r, pc)
    ensures JobInv(Operate(r, op), pc)
  {
    OperateTells(Replay(r.cfg, r.log), r, pc, op);
    OperateKeepsIncidents(r, pc, op);
    if OperateEntry(op).Some? {
      ReplayAppend(r.cfg, r.log, OperateEntry(op).value);
    }
  }

  /** Outside recovery and between steps the invariant does not depend on the place. */
  lemma SamePlace(r: JobRec, pc: Pc, pc': Pc)
    requires JobInv(r, pc)
    requires pc'.Released? || pc'.Claimed?
    requires pc.Released? || pc.Claimed? || pc.Trailing?
    ensures JobInv(r, pc')
  {
  }

  // ---- What never goes back ----

  /** Rows are only added, incidents keep their step and never lose a flag, the log is append-only. */
  ghost predicate Grows(r: JobRec, r': JobRec) {
    && r'.cfg == r.cfg && r'.tenant == r.tenant && r'.workflow == r.workflow && r'.payload == r.payload
    && |r'.steps| == |r.steps|
    && r.log <= r'.log
    && r.attempts <= r'.attempts
    && |r.incidents| <= |r'.incidents|
    && forall k :: 0 <= k < |r.incidents| ==> IncidentGrows(r.incidents[k], r'.incidents[k])
  }

  predicate IncidentGrows(n: Incident, n': Incident) {
    && n'.step == n.step && n'.failure == n.failure && n'.retryCount == n.retryCount
    && (n.resolved ==> n'.resolved)
    && (n.escalated ==> n'.escalated)
  }

  lemma StepGrows(r: JobRec, pc: Pc, c: Attempted)
    requires Fits(r, pc)
    ensures Grows(r, Step(r, pc, c).0)
  {
    StepLogs(r, pc, c);
  }

  lemma OperateGrows(r: JobRec, op: Op)
    ensures Grows(r, Operate(r, op))
  {
  }

  lemma SelfGrows(r: JobRec)
    ensures Grows(r, r)
  {
  }

  lemma GrowsOn(r1: JobRec, r2: JobRec, r3: JobRec)
    requires Grows(r1, r2) && Grows(r2, r3)
    ensures Grows(r1, r3)
  {
  }

  // ---- Executions ----

  /** What happens to a job's rows while a worker owns it. */
  datatype Event = Act(c: Attempted) | Operation(op: Op)

  function Happen(r: JobRec, pc: Pc, e: Event): (n: (JobRec, Pc))
    requires Fits(r, pc)
    ensures Fits(n.0, n.1)
  {
    match e
    case Act(c) => Step(r, pc, c)
    case Operation(op) => (Operate(r, op), pc)
  }

  /** Where a worker at `pc` stands after `events`. */
  ghost function Execution(r: JobRec, pc: Pc, events: seq<Event>): (n: (JobRec, Pc))
    requires Fits(r, pc)
    ensures Fits(n.0, n.1)
  {
    if events == [] then (r, pc)
    else
      var last := |events| - 1;
      var n := Execution(r, pc, events[..last]);
      Happen(n.0, n.1, events[last])
  }

  lemma ExecutionNext(r: JobRec, pc: Pc, events: seq<Event>, e: Event)
    requires Fits(r, pc)
    ensures var n := Execution(r, pc, events); Execution(r, pc, events + [e]) == Happen(n.0, n.1, e)
  {
  }

  lemma {:induction false} ExecutionFirst(r: JobRec, pc: Pc, e: Event, events: seq<Event>)
    requires Fits(r, pc)
    ensures var n := Happen(r, pc, e); Execution(r, pc, [e] + events) == Execution(n.0, n.1, events)
  {
    hide Happen, Fits;
    if events == [] {
      ExecutionNext(r, pc, [], e);
      assert [] + [e] == [e] + events;
    } else {
      var last := |events| - 1;
      var prefix := events[..last];
      ExecutionFirst(r, pc, e, prefix);
      ExecutionNext(r, pc, [e] + prefix, events[last]);
      assert [e] + events == [e] + prefix + [events[last]];
    }
  }

  // ---- After the job is given away ----

  /** What others do to the rows of a job that its worker has dead-lettered: an operator's action, the
      job taken again, or an action of whoever has taken it. */
  datatype Meanwhile = ByOperator(op: Op) | Taken | ByOwner(c: Attempted)

  /** `place` is where the present owner stands, `Released` if there is none. An owner that dead-letters
      the job again gives it away in turn; its last entry then comes as an operator's. */
  function Elsewhere(r: JobRec, place: Pc, e: Meanwhile): (n: (JobRec, Pc))
    requires Fits(r, place)
    ensures Fits(n.0, n.1)
  {
    match e
    case ByOperator(op) => (Operate(r, op), place)
    case Taken => (r, if place.Released? then Claimed else place)
    case ByOwner(c) =>
      var n := Step(r, place, c);
      (n.0, if n.1.Trailing? then Released else n.1)
  }

  lemma JobInvFits(r: JobRec, pc: Pc)
    requires JobInv(r, pc)
    ensures Fits(r, pc)
  {
  }

  lemma ElsewhereKeepsJobInv(r: JobRec, place: Pc, e: Meanwhile)
    requires JobInv(r, place)
    ensures var n := Elsewhere(r, place, e); JobInv(n.0, n.1) && Grows(r, n.0)
  {
    hide JobInv, Step, Operate, Grows, Fits;
    JobInvFits(r, place);
    match e
    case ByOperator(op) =>
      OperateKeepsJobInv(r, place, op);
      OperateGrows(r, op);
    case Taken =>
      if place.Released? {
        SamePlace(r, Released, Claimed);
      }
      SelfGrows(r);
    case ByOwner(c) =>
      StepKeepsJobInv(r, place, c);
      StepGrows(r, place, c);
      var n := Step(r, place, c);
      if n.1.Trailing? {
        SamePlace(n.0, n.1, Released);
      }
  }

  // ---- Where the log falls short ----

  /** A failed attempt whose entry and whose writes are two actions, with `op` between them. */
  function RecordFailureApart(r: JobRec, i: nat, a: nat, f: FailureType, op: Op): JobRec
    requires i < |r.steps| && i < |r.cfg|
  {
    var logged := Operate(Logged(r, LogFailureDetected(a, f)), op);
    RecordFailure(logged, i, a, f).(log := logged.log)
  }

  /** Then the log tells the rows unless the failure is retried and `op` writes a job status: the
      entry of that status comes last, but the RETRYING write does. */
  lemma FailureApartTells(h: History, r: JobRec, i: nat, a: nat, hint: Hint, f: FailureType, op: Op)
    requires Fits(r, Attempting(i, a, hint)) && Mirrors(h, r, Attempting(i, a, hint))
    ensures var h' := ReadIf(r.cfg, Read(r.cfg, h, LogFailureDetected(a, f)), OperateEntry(op));
            Mirrors(h', RecordFailureApart(r, i, a, f, op), InRecovery(Failure(i, a, hint, f), Selecting))
            <==> !(a < MaxAttempts(r.cfg[i]) && (op.Cancel? || op.ManualRetry?))
  {
    var h' := ReadIf(r.cfg, Read(r.cfg, h, LogFailureDetected(a, f)), OperateEntry(op));
    var r' := RecordFailureApart(r, i, a, f, op);
    assert forall k :: 0 <= k < |r.steps| ==>
      h'.rows[k] == ShownRow(r'.steps[k], k, InRecovery(Failure(i, a, hint, f), Selecting));
  }
}
