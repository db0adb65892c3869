/** The worker and the recovery service as they are written: loops over steps and attempts that
    update the rows of one job. Every method that touches a row is one step of `JobMachine`. */
module Worker {
  import opened Types
  import opened Audit
  import opened JobMachine
  import opened Backoff
  import opened RunSpec

  class WorkflowWorker {
    const jobId: nat
    const tenant: nat
    const workflow: nat
    const payload: nat
    const cfg: seq<StepConfig>

    var status: JobStatus
    var steps: seq<StepRow>
    var incidents: seq<Incident>
    var attempts: seq<RecoveryAttempt>
    var log: seq<Entry>

    var deadLetters: seq<QueueData>  // entries added to the dead-letter queue
    var calls: seq<Call>             // calls of step handlers
    var simulated: nat               // simulated executions by RETRY and RETRY_WITH_DELAY
    var fallbacks: nat               // calls of the fallback provider
    var slept: int                   // milliseconds slept before retries

    ghost var pc: Pc
    ghost const origin: JobRec       // the rows when the worker took the job
    ghost var events: seq<Event>     // what has happened to them since

    ghost function Rec(): JobRec
      reads `status, `steps, `incidents, `attempts, `log
    {
      JobRec(tenant, workflow, payload, cfg, status, steps, incidents, attempts, log)
    }

    /** The rows satisfy the invariant, and the run so far is an execution of the job machine. */
    ghost predicate Valid()
      reads `status, `steps, `incidents, `attempts, `log, `pc, `events
    {
      Fits(Rec(), pc) && JobInv(Rec(), pc) && Fits(origin, Claimed) && Execution(origin, Claimed, events) == (Rec(), pc)
    }

    /** After the job is given away its rows belong to whoever owns it next, at any place. */
    ghost predicate GivenAway()
      reads `status, `steps, `incidents, `attempts, `log
    {
      exists place :: JobInv(Rec(), place)
    }

    /** Books event `e`, which has led from (`r`, `at`) to where the worker stands now. */
    ghost method Book(r: JobRec, at: Pc, e: Event)
      requires Fits(r, at) && JobInv(r, at) && Fits(origin, Claimed) && Execution(origin, Claimed, events) == (r, at)
      requires (Rec(), pc) == Happen(r, at, e)
      modifies `events
      ensures Valid()
    {
      match e {
        case Act(c) => StepKeepsJobInv(r, at, c);
        case Operation(op) => OperateKeepsJobInv(r, at, op);
      }
      ExecutionNext(origin, Claimed, events, e);
      events := events + [e];
    }

    ghost function Snap(): Snapshot
      reads `steps, `log, `attempts, `simulated, `fallbacks, `slept, `calls
    {
      Snapshot(steps, TallyOf(log), |attempts|, simulated, fallbacks, slept, calls)
    }

    /** A worker that has just taken the job's queue entry. */
    constructor (jobId: nat, r: JobRec)
      requires JobInv(r, Claimed)
      ensures Valid() && Rec() == r && pc == Claimed && this.jobId == jobId
      ensures deadLetters == [] && calls == [] && simulated == 0 && fallbacks == 0 && slept == 0
    {
      this.jobId := jobId;
      tenant, workflow, payload, cfg := r.tenant, r.workflow, r.payload, r.cfg;
      status, steps, incidents, attempts, log := r.status, r.steps, r.incidents, r.attempts, r.log;
      deadLetters, calls, simulated, fallbacks, slept := [], [], 0, 0, 0;
      pc := Claimed;
      origin, events := r, [];
    }

    // ---- Other actors ----

    /** Other actors do `ops` to the job's rows. */
    method Interleave(ops: seq<Op>)
      requires Valid()
      modifies this`status, this`incidents, this`log, this`events
      ensures Valid()
      ensures TallyOf(log) == TallyOf(old(log))
      ensures Quiet(ops) ==> incidents == old(incidents)
    {
      hide JobInv, Execution;
      for n := 0 to |ops|
        invariant Valid()
        invariant TallyOf(log) == TallyOf(old(log))
        invariant Quiet(ops) ==> incidents == old(incidents)
      {
        ghost var r := Rec();
        match ops[n] {
          case Cancel =>
            TallyAppend(log, LogJobCancelled);
            status, log := JobCancelled, log + [LogJobCancelled];
          case Resolve(k) =>
            if k < |incidents| {
              incidents := incidents[k := incidents[k].(resolved := true)];
            }
          case ManualRetry =>
            TallyAppend(log, LogManualRetry);
            status, log := JobPending, log + [LogManualRetry];
          case LateDeadLettered =>
            TallyAppend(log, LogDeadLettered);
            log := log + [LogDeadLettered];
        }
        Book(r, pc, Operation(ops[n]));
      }
    }

    // ---- Recovery ----

    /** `findMany` of the job's COMPLETED steps. */
    method FindCompleted(x: Failure) returns (previous: seq<nat>)
      requires Valid() && pc == InRecovery(x, Dispatching(Compensate))
      modifies this`pc, this`events
      ensures Valid() && pc == InRecovery(x, Compensating(previous, |previous|))
      ensures previous == CompletedSteps(steps)
    {
      hide JobInv, Execution;
      previous := CompletedSteps(steps);
      ghost var r, at := Rec(), pc;
      pc := InRecovery(x, Compensating(previous, |previous|));
      Book(r, at, Act(Done(None)));
    }

    method StoreCompensated(x: Failure, ghost todo: seq<nat>, ghost total: nat, k: nat)
      requires Valid() && todo != [] && k == todo[0] && pc == InRecovery(x, Compensating(todo, total))
      requires k < |steps|
      modifies this`steps, this`log, this`pc, this`events
      ensures Valid() && pc == InRecovery(x, Compensating(todo[1..], total))
      ensures steps == old(steps)[k := old(steps)[k].(status := StepCompensated)]
      ensures log == old(log) + [LogStepCompensated(k)]
      ensures TallyOf(log) == Add(TallyOf(old(log)), LogStepCompensated(k))
    {
      hide JobInv, Execution, TallyOf;
      ghost var r := Rec();
      ghost var at := pc;
      TallyAppend(log, LogStepCompensated(k));
      steps := steps[k := steps[k].(status := StepCompensated)];
      log := log + [LogStepCompensated(k)];
      pc := InRecovery(x, Compensating(todo[1..], total));
      Book(r, at, Act(Done(None)));
    }

    method EndCompensate(x: Failure, total: nat) returns (out: Recovered)
      requires Valid() && pc == InRecovery(x, Compensating([], total))
      modifies this`pc, this`events
      ensures Valid() && pc == InRecovery(x, Seeking(out))
      ensures out == Recovered(true, Compensate, Some(CompensatedCount(total)), None)
    {
      hide JobInv, Execution;
      ghost var r, at := Rec(), pc;
      out := Recovered(true, Compensate, Some(CompensatedCount(total)), None);
      pc := InRecovery(x, Seeking(out));
      Book(r, at, Act(Done(None)));
    }

    method HandleCompensate(x: Failure, o: Oracle) returns (out: Recovered)
      requires Valid() && pc == InRecovery(x, Dispatching(Compensate))
      modifies this`status, this`steps, this`incidents, this`log, this`pc, this`events
      ensures Valid() && pc == InRecovery(x, Seeking(out))
      ensures out == Recovered(true, Compensate, Some(CompensatedCount(|CompletedSteps(old(steps))|)), None)
      ensures steps == CompensateAll(old(steps))
      ensures TallyOf(log) == TallyOf(old(log)).(
                compensated := TallyOf(old(log)).compensated + CompletedSteps(old(steps)))
      ensures QuietAt(o, x.i, x.a) ==> incidents == old(incidents)
    {
      hide Valid, TallyOf, CompensateAll, CompensateEach, CompletedSteps;
      ghost var base := TallyOf(log).compensated;
      var previous := FindCompleted(x);
      for n := 0 to |previous|
        invariant Valid() && pc == InRecovery(x, Compensating(previous[n..], |previous|))
        invariant steps == CompensateEach(old(steps), previous[..n])
        invariant TallyOf(log) == TallyOf(old(log)).(compensated := base + previous[..n])
        invariant QuietAt(o, x.i, x.a) ==> incidents == old(incidents)
      {
        Interleave(o.ops(x.i, x.a, 10 + n));
        StoreCompensated(x, previous[n..], |previous|, previous[n]);
        assert previous[n..][1..] == previous[n + 1..];
        CompensateOneMore(old(steps), previous, n);
        AppendNext(base, previous, n);
      }
      assert previous[|previous|..] == [] && previous[..|previous|] == previous;
      out := EndCompensate(x, |previous|);
      CompensateEachIsAll(old(steps));
    }

    /** RETRY and RETRY_WITH_DELAY: sleep, then one simulated execution. */
    method HandleRetry(x: Failure, s: Strategy, o: Oracle) returns (out: Recovered)
      requires x.i < |cfg| && cfg[x.i].policy.Some? && x.a >= 1 && (s == Retry || s == RetryWithDelay)
      modifies this`simulated, this`slept
      ensures out == Outcome(cfg[x.i], s, o.external(x.i, x.a), 0)
      ensures match o.external(x.i, x.a)
              case Done(v) => out == Recovered(true, s, v, None)
              case Broke(_) => out == Recovered(false, s, None, None)
      ensures simulated == old(simulated) + 1
      ensures slept == old(slept) + SleepBefore(cfg[x.i], s, o, x.i, x.a)
      ensures s == Retry ==> slept == old(slept)
      ensures s == RetryWithDelay && cfg[x.i].policy.value.backoffMultiplier >= 0.0 ==>
        var p := cfg[x.i].policy.value;
        LeastSleep(x.a, p.retryDelayMs, p.backoffMultiplier) <= slept - old(slept) <= 5000
    {
      var p := cfg[x.i].policy.value;
      if p.backoffMultiplier >= 0.0 {
        SleepBounds(x.a, p.retryDelayMs, p.backoffMultiplier, o.jitter(x.i, x.a));
      }
      var delay := 0;
      if s == RetryWithDelay {
        delay := CalcBackoff(x.a, p.retryDelayMs, p.backoffMultiplier, MAX_DELAY, o.jitter(x.i, x.a));
      }
      if delay > 0 {
        slept := slept + if delay <= MAX_SLEEP then delay else MAX_SLEEP;
      }
      simulated := simulated + 1;
      out := match o.external(x.i, x.a) {
        case Done(v) => Recovered(true, s, v, None)
        case Broke(_) => Failing(s)
      };
    }

    method HandleFallback(x: Failure, o: Oracle) returns (out: Recovered)
      requires x.i < |cfg|
      modifies this`fallbacks
      ensures out == Outcome(cfg[x.i], Fallback, o.external(x.i, x.a), 0)
      ensures out.strategy == Fallback && out.hint.None? && (out.success <==> o.external(x.i, x.a).Done?)
      ensures out.success ==>
        var p := cfg[x.i].policy;
        out.result == Some(FallbackBy(if p.Some? && p.value.fallbackService.Some? then p.value.fallbackService.value
                                      else "backup-provider"))
      ensures fallbacks == old(fallbacks) + 1
    {
      fallbacks := fallbacks + 1;
      if o.external(x.i, x.a).Done? {
        out := Recovered(true, Fallback, Some(FallbackBy(FallbackProvider(cfg[x.i].policy))), None);
      } else {
        out := Failing(Fallback);
      }
    }

    method HandleSkip(x: Failure) returns (out: Recovered)
      requires Valid() && pc == InRecovery(x, Dispatching(Skip)) && x.i < |steps|
      modifies this`steps, this`pc, this`events
      ensures Valid() && pc == InRecovery(x, Seeking(out))
      ensures out == Recovered(true, Skip, Some(SkippedMark), None)
      ensures steps == old(steps)[x.i := old(steps)[x.i].(status := StepSkipped)]
    {
      hide JobInv, Execution, TallyOf;
      ghost var r := Rec();
      ghost var at := pc;
      steps := steps[x.i := steps[x.i].(status := StepSkipped)];
      out := Recovered(true, Skip, Some(SkippedMark), None);
      pc := InRecovery(x, Seeking(out));
      Book(r, at, Act(Done(None)));
    }

    /** `updateMany` of the step's unresolved incidents, and ESCALATED. */
    method HandleEscalate(x: Failure) returns (out: Recovered)
      requires Valid() && pc == InRecovery(x, Dispatching(Escalate))
      modifies this`incidents, this`log, this`pc, this`events
      ensures Valid() && pc == InRecovery(x, Seeking(out))
      ensures out == Failing(Escalate)
      ensures incidents == EscalateOpen(old(incidents), x.i)
      ensures Flagged(old(incidents), incidents, x.i)
      ensures log == old(log) + [LogEscalated]
      ensures TallyOf(log) == Add(TallyOf(old(log)), LogEscalated)
    {
      hide JobInv, Execution, TallyOf;
      ghost var r := Rec();
      ghost var at := pc;
      TallyAppend(log, LogEscalated);
      incidents, log := EscalateOpen(incidents, x.i), log + [LogEscalated];
      out := Failing(Escalate);
      pc := InRecovery(x, Seeking(out));
      Book(r, at, Act(Done(None)));
    }

    method HandlePauseForHuman(x: Failure) returns (out: Recovered)
      requires Valid() && pc == InRecovery(x, Dispatching(PauseForHuman))
      modifies this`log, this`pc, this`events
      ensures Valid() && pc == InRecovery(x, Seeking(out))
      ensures out == Failing(PauseForHuman)
      ensures log == old(log) + [LogApprovalRequested]
      ensures TallyOf(log) == Add(TallyOf(old(log)), LogApprovalRequested)
    {
      hide JobInv, Execution, TallyOf;
      ghost var r := Rec();
      ghost var at := pc;
      TallyAppend(log, LogApprovalRequested);
      log := log + [LogApprovalRequested];
      out := Failing(PauseForHuman);
      pc := InRecovery(x, Seeking(out));
      Book(r, at, Act(Done(None)));
    }

    /** SWITCH_MODEL hints at the trimmed fallback, if there is one. */
    method HandleSwitchModel(x: Failure) returns (out: Recovered)
      requires x.i < |cfg|
      ensures out == Outcome(cfg[x.i], SwitchModel, Done(None), 0)
      ensures !out.success && out.strategy == SwitchModel && out.result.None?
      ensures match FallbackModel(cfg[x.i].policy)
              case None => out.hint.None?
              case Some(model) => out.hint == Some(Hint(Some(model), false))
    {
      var nextModel := FallbackModel(cfg[x.i].policy);
      out := if nextModel.None? then Failing(SwitchModel)
             else Recovered(false, SwitchModel, None, Some(Hint(nextModel, false)));
    }

    method HandleReduceContext() returns (out: Recovered)
      ensures out == Recovered(false, ReduceContext, None, Some(Hint(None, true)))
    {
      out := Recovered(false, ReduceContext, None, Some(Hint(None, true)));
    }

    /** A strategy that has touched no row. */
    ghost method Settle(x: Failure, s: Strategy, out: Recovered, c: Attempted)
      requires Valid() && pc == InRecovery(x, Dispatching(s)) && x.i < |cfg|
      requires s != Skip && s != Compensate && s != Escalate && s != PauseForHuman
      requires out == Outcome(cfg[x.i], s, c, 0)
      modifies this`pc, this`events
      ensures Valid() && pc == InRecovery(x, Seeking(out))
    {
      hide JobInv, Execution;
      ghost var r, at := Rec(), pc;
      pc := InRecovery(x, Seeking(out));
      Book(r, at, Act(c));
    }

    method Dispatch(x: Failure, s: Strategy, o: Oracle) returns (out: Recovered)
      requires Valid() && pc == InRecovery(x, Dispatching(s))
      requires x.i < |cfg| && |steps| == |cfg| && x.a >= 1 && s == SelectStrategy(cfg[x.i].policy, x.a)
      modifies this`status, this`steps, this`incidents, this`log, this`pc, this`events
      modifies this`simulated, this`fallbacks, this`slept
      ensures Valid() && pc == InRecovery(x, Seeking(out))
      ensures out == Outcome(cfg[x.i], s, o.external(x.i, x.a), |CompletedSteps(old(steps))|)
      ensures steps == DispatchedRows(old(steps), x.i, s)
      ensures TallyOf(log) == DispatchedTally(TallyOf(old(log)), old(steps), s)
      ensures simulated == old(simulated) + if s == Retry || s == RetryWithDelay then 1 else 0
      ensures fallbacks == old(fallbacks) + if s == Fallback then 1 else 0
      ensures slept == old(slept) + SleepBefore(cfg[x.i], s, o, x.i, x.a)
      ensures QuietAt(o, x.i, x.a) ==>
        incidents == if s == Escalate then EscalateOpen(old(incidents), x.i) else old(incidents)
    {
      hide Valid, TallyOf, CompletedSteps, SelectStrategy, EscalateOpen, CompensateAll, RetrySleep, FallbackModel,
           FallbackProvider, Flagged, LeastSleep, DispatchedTally, Add;
      DispatchedTallies(TallyOf(log), steps, s);
      ghost var c := o.external(x.i, x.a);
      PolicySelects(cfg[x.i].policy, x.a);
      match s {
        case Retry => out := HandleRetry(x, s, o);
        case RetryWithDelay => out := HandleRetry(x, s, o);
        case Fallback => out := HandleFallback(x, o);
        case Skip => out := HandleSkip(x);
        case Compensate => out := HandleCompensate(x, o);
        case Escalate => out := HandleEscalate(x);
        case SwitchModel => out := HandleSwitchModel(x);
        case ReduceContext => out := HandleReduceContext();
        case PauseForHuman => out := HandlePauseForHuman(x);
        case DeadLetter => out := Failing(s);
      }
      if s != Skip && s != Compensate && s != Escalate && s != PauseForHuman {
        Settle(x, s, out, c);
      }
    }

    /** Finds the step's open incident or creates one. */
    method UpsertIncident(x: Failure, out: Recovered, o: Oracle) returns (n: nat)
      requires Valid() && pc == InRecovery(x, Seeking(out))
      modifies this`status, this`incidents, this`log, this`pc, this`events
      ensures Valid() && pc == InRecovery(x, Linking(out, n))
      ensures n < |incidents| && incidents[n].step == x.i
      ensures QuietAt(o, x.i, x.a) ==> !incidents[n].resolved
      ensures TallyOf(log) == TallyOf(old(log))
      ensures QuietAt(o, x.i, x.a) ==>
        incidents == if FirstOpen(old(incidents), x.i).Some? then old(incidents)
                     else old(incidents) + [Incident(x.i, x.f, false, false, x.a)]
    {
      hide JobInv, Execution, TallyOf;
      ghost var r, at := Rec(), pc;
      var open := FirstOpen(incidents, x.i);
      if open.Some? {
        n := open.value;
        pc := InRecovery(x, Linking(out, n));
        Book(r, at, Act(Done(None)));
      } else {
        pc := InRecovery(x, Opening(out));
        Book(r, at, Act(Done(None)));
        Interleave(o.ops(x.i, x.a, 5));
        r, at := Rec(), pc;
        n := |incidents|;
        incidents := incidents + [Incident(x.i, x.f, false, false, x.a)];
        pc := InRecovery(x, Linking(out, n));
        Book(r, at, Act(Done(None)));
      }
    }

    method CreateAttempt(x: Failure, out: Recovered, n: nat)
      requires Valid() && pc == InRecovery(x, Linking(out, n))
      modifies this`attempts, this`pc, this`events
      ensures Valid() && pc == InRecovery(x, Concluding(out))
      ensures attempts == old(attempts) + [RecoveryAttempt(n, x.i, out.strategy, out.success, x.a)]
    {
      hide JobInv, Execution, TallyOf;
      ghost var r := Rec();
      ghost var at := pc;
      attempts := attempts + [RecoveryAttempt(n, x.i, out.strategy, out.success, x.a)];
      pc := InRecovery(x, Concluding(out));
      Book(r, at, Act(Done(None)));
    }

    method LogConclusion(x: Failure, out: Recovered)
      requires Valid() && pc == InRecovery(x, Concluding(out))
      modifies this`log, this`pc, this`events
      ensures Valid() && pc == InRecovery(x, Reviewing(out))
      ensures log == old(log) + [if out.success then LogRecoverySucceeded(out.strategy)
                                 else LogRecoveryFailed(out.strategy)]
      ensures TallyOf(log) == ConcludedTally(TallyOf(old(log)), out)
    {
      hide JobInv, Execution, TallyOf;
      ghost var r := Rec();
      ghost var at := pc;
      var e := if out.success then LogRecoverySucceeded(out.strategy) else LogRecoveryFailed(out.strategy);
      TallyAppend(log, e);
      log := log + [e];
      pc := InRecovery(x, Reviewing(out));
      Book(r, at, Act(Done(None)));
    }

    /** Up to `maxRetries` the strategy is the policy's; beyond, all but FALLBACK give way to ESCALATE. */
    method LogRecoveryStart(x: Failure) returns (s: Strategy)
      requires Valid() && pc == InRecovery(x, Selecting) && x.i < |cfg|
      modifies this`log, this`pc, this`events
      ensures Valid() && pc == InRecovery(x, Dispatching(s))
      ensures s == SelectStrategy(cfg[x.i].policy, x.a)
      ensures cfg[x.i].policy.None? ==> s == Escalate
      ensures cfg[x.i].policy.Some? ==>
        var p := cfg[x.i].policy.value;
        && (x.a <= p.maxRetries ==> s == p.strategy)
        && (x.a > p.maxRetries ==> s == if p.strategy == Fallback then Fallback else Escalate)
      ensures log == old(log) + [LogRecoveryStarted(s, x.a)]
      ensures TallyOf(log) == TallyOf(old(log)).(started := TallyOf(old(log)).started + 1)
    {
      hide JobInv, Execution, TallyOf;
      ghost var r := Rec();
      ghost var at := pc;
      s := SelectStrategy(cfg[x.i].policy, x.a);
      TallyAppend(log, LogRecoveryStarted(s, x.a));
      log := log + [LogRecoveryStarted(s, x.a)];
      pc := InRecovery(x, Dispatching(s));
      Book(r, at, Act(Done(None)));
    }

    /** What `execute` stores once a strategy has come to `out`. */
    method RecordRecovery(x: Failure, out: Recovered, o: Oracle) returns (n: nat)
      requires Valid() && pc == InRecovery(x, Seeking(out))
      modifies this`status, this`incidents, this`attempts, this`log, this`pc, this`events
      ensures Valid() && pc == InRecovery(x, Reviewing(out))
      ensures TallyOf(log) == ConcludedTally(TallyOf(old(log)), out)
      ensures QuietAt(o, x.i, x.a) ==>
        incidents == if FirstOpen(old(incidents), x.i).Some? then old(incidents)
                     else old(incidents) + [Incident(x.i, x.f, false, false, x.a)]
      ensures attempts == old(attempts) + [RecoveryAttempt(n, x.i, out.strategy, out.success, x.a)]
    {
      hide Valid, TallyOf, FirstOpen, ConcludedTally;
      n := UpsertIncident(x, out, o);
      Interleave(o.ops(x.i, x.a, 6));
      CreateAttempt(x, out, n);
      Interleave(o.ops(x.i, x.a, 7));
      LogConclusion(x, out);
    }

    /** `RecoveryService.execute`. */
    method Execute(x: Failure, o: Oracle) returns (out: Recovered, ghost n: nat)
      requires Valid() && pc == InRecovery(x, Selecting)
      requires x.i < |cfg| && |steps| == |cfg| && x.a >= 1
      modifies this`status, this`steps, this`incidents, this`attempts, this`log, this`pc, this`events
      modifies this`simulated, this`fallbacks, this`slept
      ensures Valid() && pc == InRecovery(x, Reviewing(out))
      ensures var s := SelectStrategy(cfg[x.i].policy, x.a);
              && out == Outcome(cfg[x.i], s, o.external(x.i, x.a), |CompletedSteps(old(steps))|)
              && steps == DispatchedRows(old(steps), x.i, s)
              && TallyOf(log) == ExecutedTally(TallyOf(old(log)), old(steps), s, out)
              && simulated == old(simulated) + (if s == Retry || s == RetryWithDelay then 1 else 0)
              && fallbacks == old(fallbacks) + (if s == Fallback then 1 else 0)
              && slept == old(slept) + SleepBefore(cfg[x.i], s, o, x.i, x.a)
              && (QuietAt(o, x.i, x.a) ==> incidents == ExecutedIncidents(old(incidents), x, s))
      ensures attempts == old(attempts) + [RecoveryAttempt(n, x.i, out.strategy, out.success, x.a)]
      ensures cfg[x.i].policy.Some? && x.a <= cfg[x.i].policy.value.maxRetries ==>
        out.strategy == cfg[x.i].policy.value.strategy
    {
      hide Valid, TallyOf, CompletedSteps, Outcome, DispatchedRows, SleepBefore, FirstOpen, EscalateOpen,
           SelectStrategy, ConcludedTally, DispatchedTally;
      Interleave(o.ops(x.i, x.a, 2));
      var s := LogRecoveryStart(x);
      Interleave(o.ops(x.i, x.a, 3));
      out := Dispatch(x, s, o);
      Interleave(o.ops(x.i, x.a, 4));
      n := RecordRecovery(x, out, o);
      OutcomeWins(cfg[x.i], o, x.i, x.a, old(steps), |CompletedSteps(old(steps))|);
    }

    // ---- Attempts ----

    method PersistStepSuccess(i: nat, a: nat, ghost hint: Hint, v: Option<Value>)
      requires Valid() && pc == Attempting(i, a, hint) && i < |steps|
      modifies this`steps, this`log, this`pc, this`events
      ensures Valid() && pc == Boundary(i + 1)
      ensures steps == old(steps)[i := old(steps)[i].(status := StepCompleted, attempts := a,
                                                      result := Some(v.GetOr(EmptyObject)))]
      ensures log == old(log) + [LogStepCompleted(a)]
      ensures TallyOf(log) == TallyOf(old(log))
    {
      hide JobInv, Execution, TallyOf;
      ghost var r := Rec();
      ghost var at := pc;
      TallyAppend(log, LogStepCompleted(a));
      steps := steps[i := steps[i].(status := StepCompleted, attempts := a, result := Some(v.GetOr(EmptyObject)))];
      log := log + [LogStepCompleted(a)];
      pc := Boundary(i + 1);
      Book(r, at, Act(Done(v)));
    }

    /** FAILURE_DETECTED, the step's row and, if attempts remain, the job's RETRYING. */
    method RecordFailedAttempt(i: nat, a: nat, hint: Hint, f: FailureType)
      requires Valid() && pc == Attempting(i, a, hint) && i < |cfg| && i < |steps|
      modifies this`status, this`steps, this`log, this`pc, this`events
      ensures Valid() && pc == InRecovery(Failure(i, a, hint, f), Selecting)
      ensures steps == FailedRows(old(steps), i, a, f)
      ensures steps == old(steps)[i := old(steps)[i].(status := StepFailed, attempts := a, failure := Some(f))]
      ensures log == old(log) + [LogFailureDetected(a, f)]
      ensures a < MaxAttempts(cfg[i]) ==> status == JobRetrying
      ensures a >= MaxAttempts(cfg[i]) ==> status == old(status)
      ensures TallyOf(log) == TallyOf(old(log)).(detected := TallyOf(old(log)).detected + 1)
    {
      hide JobInv, Execution, TallyOf;
      ghost var r := Rec();
      ghost var at := pc;
      TallyAppend(log, LogFailureDetected(a, f));
      log := log + [LogFailureDetected(a, f)];
      steps := steps[i := steps[i].(status := StepFailed, attempts := a, failure := Some(f))];
      if a < MaxAttempts(cfg[i]) {
        status := JobRetrying;
      }
      pc := InRecovery(Failure(i, a, hint, f), Selecting);
      Book(r, at, Act(Broke(f)));
    }

    method StoreRecovered(x: Failure, out: Recovered)
      requires Valid() && pc == InRecovery(x, Reviewing(out)) && out.success && x.i < |steps|
      modifies this`steps, this`pc, this`events
      ensures Valid() && pc == Boundary(x.i + 1)
      ensures steps == old(steps)[x.i := old(steps)[x.i].(
                         status := if out.strategy == Skip then StepSkipped else StepCompleted,
                         result := Some(out.result.GetOr(EmptyObject)))]
    {
      hide JobInv, Execution;
      ghost var r := Rec();
      ghost var at := pc;
      steps := steps[x.i := steps[x.i].(status := RecoveredStatus(out.strategy),
                                        result := Some(out.result.GetOr(EmptyObject)))];
      pc := Boundary(x.i + 1);
      Book(r, at, Act(Done(None)));
    }

    /** Takes over the hint and logs MODEL_SWITCHED when it changes the model. */
    method TakeHint(x: Failure, out: Recovered) returns (next: Hint)
      requires Valid() && pc == InRecovery(x, Reviewing(out)) && !out.success && x.i < |cfg|
      modifies this`log, this`pc, this`events
      ensures Valid() && pc == NextAttempt(cfg[x.i], x, next)
      ensures next == NextHint(x.hint, out)
      ensures next.overrideModel == if out.hint.Some? && out.hint.value.overrideModel.Some?
                                    then out.hint.value.overrideModel else x.hint.overrideModel
      ensures next.reduceContext <==> x.hint.reduceContext || (out.hint.Some? && out.hint.value.reduceContext)
      ensures TallyOf(log) == TallyOf(old(log)).(
                switched := TallyOf(old(log)).switched + (if SwitchEntry(cfg[x.i], x, out).Some? then 1 else 0))
      ensures var used := if x.hint.overrideModel.Some? then x.hint.overrideModel else cfg[x.i].model;
              if out.hint.Some? && out.hint.value.overrideModel.Some? && out.hint.value.overrideModel != used
              then log == old(log) + [LogModelSwitched(used, out.hint.value.overrideModel.value, x.a)]
              else log == old(log)
    {
      hide JobInv, Execution, TallyOf;
      ghost var r := Rec();
      ghost var at := pc;
      next := NextHint(x.hint, out);
      var e := SwitchEntry(cfg[x.i], x, out);
      if e.Some? {
        TallyAppend(log, e.value);
        log := log + [e.value];
      }
      pc := NextAttempt(cfg[x.i], x, next);
      Book(r, at, Act(Done(None)));
    }

    /** The catch branch of the attempt loop, once the failure is recorded. */
    method HandleFailure(x: Failure, o: Oracle) returns (done: bool, result: Option<Value>, next: Hint)
      requires Valid() && pc == InRecovery(x, Selecting)
      requires x.i < |cfg| && |steps| == |cfg| && x.a >= 1
      modifies this`status, this`steps, this`incidents, this`attempts, this`log, this`pc, this`events
      modifies this`simulated, this`fallbacks, this`slept
      ensures Valid() && |steps| == |cfg|
      ensures pc == if done then Boundary(x.i + 1) else NextAttempt(cfg[x.i], x, next)
      ensures done == Recovers(cfg[x.i], o, x.i, x.a)
      ensures var s := SelectStrategy(cfg[x.i].policy, x.a);
              var out := AttemptOutcome(cfg[x.i], o, x.i, x.a, old(steps));
              && (done ==> result == Some(out.result.GetOr(EmptyObject))
                           && steps == DispatchedRows(old(steps), x.i, s)[
                               x.i := old(steps)[x.i].(status := RecoveredStatus(s), result := result)])
              && (!done ==> steps == old(steps) && next == NextHint(x.hint, out))
              && TallyOf(log) == HandledTally(cfg[x.i], TallyOf(old(log)), old(steps), x, s, out)
              && simulated == old(simulated) + (if s == Retry || s == RetryWithDelay then 1 else 0)
              && fallbacks == old(fallbacks) + (if s == Fallback then 1 else 0)
              && slept == old(slept) + SleepBefore(cfg[x.i], s, o, x.i, x.a)
              && (QuietAt(o, x.i, x.a) ==> incidents == ExecutedIncidents(old(incidents), x, s))
      ensures |attempts| == |old(attempts)| + 1
    {
      hide Valid, TallyOf, CompletedSteps, SleepBefore, ExecutedIncidents, ExecutedTally, DispatchedRows,
           SelectStrategy, Outcome, Recovers, SwitchEntry;
      OutcomeWins(cfg[x.i], o, x.i, x.a, steps, |CompletedSteps(steps)|);
      var out;
      ghost var n;
      out, n := Execute(x, o);
      Interleave(o.ops(x.i, x.a, 8));
      if out.success {
        StoreRecovered(x, out);
        return true, Some(out.result.GetOr(EmptyObject)), x.hint;
      }
      next := TakeHint(x, out);
      done, result := false, None;
    }

    /** `handler.execute`, with whatever others do meanwhile. */
    method CallHandler(i: nat, a: nat, hint: Hint, results: map<string, Value>, o: Oracle) returns (handled: Attempted)
      requires Valid()
      modifies this`status, this`incidents, this`log, this`events, this`calls
      ensures Valid()
      ensures handled == o.handler(i, a) && calls == old(calls) + [Call(i, a, hint, results)]
      ensures TallyOf(log) == TallyOf(old(log))
      ensures QuietAt(o, i, a) ==> incidents == old(incidents)
    {
      hide Valid, TallyOf;
      calls := calls + [Call(i, a, hint, results)];
      handled := o.handler(i, a);
      Interleave(o.ops(i, a, 1));
    }

    /** One round of the attempt loop. */
    method TryAttempt(i: nat, a: nat, hint: Hint, results: map<string, Value>, o: Oracle)
      returns (done: bool, result: Option<Value>, next: Hint)
      requires Valid() && pc == Attempting(i, a, hint)
      requires i < |cfg| && |steps| == |cfg| && a >= 1
      modifies this`status, this`steps, this`incidents, this`attempts, this`log, this`pc, this`events
      modifies this`simulated, this`fallbacks, this`slept, this`calls
      ensures Valid() && |steps| == |cfg|
      ensures done <==> Wins(cfg[i], o, i, a)
      ensures done ==> pc == Boundary(i + 1)
      ensures !done ==> pc == NextAttempt(cfg[i], Failure(i, a, hint, o.handler(i, a).failure), next)
      ensures Tried(cfg[i], o, i, a, hint, results, result, old(Snap()), Snap())
      ensures !done ==>
        next == NextHint(hint, AttemptOutcome(cfg[i], o, i, a, FailedRows(old(steps), i, a, o.handler(i, a).failure)))
      ensures o.handler(i, a).Broke? && QuietAt(o, i, a) ==>
        incidents == ExecutedIncidents(old(incidents), Failure(i, a, hint, o.handler(i, a).failure),
                                       SelectStrategy(cfg[i].policy, a))
    {
      hide Valid, TallyOf, CompletedSteps, HandledTally, SleepBefore, AttemptOutcome, ExecutedIncidents, SelectStrategy,
           DispatchedRows, Recovers, RecoveredStatus, NextHint, QuietAt;
      var handled := CallHandler(i, a, hint, results, o);
      if handled.Done? {
        PersistStepSuccess(i, a, hint, handled.value);
        return true, handled.value, hint;
      }
      RecordFailedAttempt(i, a, hint, handled.failure);
      done, result, next := HandleFailure(Failure(i, a, hint, handled.failure), o);
    }

    /** The attempt loop. It settles step `i` exactly when some attempt wins, and the first such
        attempt, `n`, decides everything that is stored. */
    method ExecuteStepWithRecovery(i: nat, results: map<string, Value>, o: Oracle)
      returns (success: bool, result: Option<Value>, ghost n: nat)
      requires Valid() && pc == Attempting(i, 1, NO_HINT)
      requires i < |cfg| && |steps| == |cfg|
      modifies this`status, this`steps, this`incidents, this`attempts, this`log, this`pc, this`events
      modifies this`simulated, this`fallbacks, this`slept, this`calls
      ensures Valid() && |steps| == |cfg|
      ensures Decides(cfg[i], o, i, n) && (success <==> Wins(cfg[i], o, i, n))
      ensures pc == if success then Boundary(i + 1) else Exhausted(i)
      ensures !success ==> result.None?
      ensures StepDone(cfg[i], o, i, n, results, result, old(Snap()), Snap())
      // A step that recovery settles has its policy's strategy to thank: SKIP leaves it SKIPPED and every
      // other strategy COMPLETED, and COMPENSATE alone touches other rows.
      ensures success && o.handler(i, n).Broke? ==>
        var s := cfg[i].policy.value.strategy;
        && steps[i].status == (if s == Skip then StepSkipped else StepCompleted)
        && forall k :: 0 <= k < |cfg| && k != i ==>
             steps[k] == if s == Compensate && old(steps)[k].status == StepCompleted
                         then old(steps)[k].(status := StepCompensated) else old(steps)[k]
      ensures success && o.handler(i, n).Done? ==>
        steps[i].status == StepCompleted && forall k :: 0 <= k < |cfg| && k != i ==> steps[k] == old(steps)[k]
      // A step that nothing settles leaves an open incident. Its flag `escalated` is set unless the
      // only attempt was the one that opened the incident.
      ensures !success && QuietStep(o, i) ==> HasOpen(incidents, i)
      ensures !success && QuietStep(o, i) && Escalating(cfg[i]) ==>
        (AllEscalated(incidents, i) <==> MaxAttempts(cfg[i]) >= 2 || HasOpen(old(incidents), i))
    {
      hide Valid, TallyOf, Tried, LostSoFar, StepDone, HintAt, HasOpen, AllEscalated, ExecutedIncidents, AttemptOutcome,
           Recovers;
      ghost var c, b := cfg[i], Snap();
      NoAttemptYet(c, o, i, results, b);
      var a, hint := 1, NO_HINT;
      while a <= MaxAttempts(cfg[i])
        invariant 1 <= a <= MaxAttempts(c) + 1
        invariant Valid() && |steps| == |cfg|
        invariant forall k :: 1 <= k < a ==> !Wins(c, o, i, k)
        invariant a <= MaxAttempts(c) ==> pc == Attempting(i, a, hint) && hint == HintAt(c, a)
        invariant a > MaxAttempts(c) ==> pc == Exhausted(i)
        invariant LostSoFar(c, o, i, a - 1, results, b, Snap())
        invariant a == 1 ==> incidents == old(incidents)
        invariant a > 1 && QuietStep(o, i) ==> HasOpen(incidents, i)
        invariant a > MaxAttempts(c) && Escalating(c) && QuietStep(o, i) ==>
          (AllEscalated(incidents, i) <==> MaxAttempts(c) >= 2 || HasOpen(old(incidents), i))
      {
        ghost var m, known, rows := Snap(), incidents, steps;
        var done, v, next := TryAttempt(i, a, hint, results, o);
        if done {
          RoundWon(c, o, i, a, results, v, b, m, Snap());
          WonByPolicy(c, o, i, a, results, v, b, Snap());
          return true, v, a;
        }
        RoundLost(c, o, i, a, results, v, b, m, Snap());
        if a < MaxAttempts(c) {
          OneMoreHint(c, o, i, a, FailedRows(rows, i, a, o.handler(i, a).failure));
        }
        ExecutedHasOpen(known, Failure(i, a, hint, o.handler(i, a).failure), SelectStrategy(c.policy, a));
        hint, a := next, a + 1;
      }
      AllLost(c, o, i, results, b, Snap());
      success, result, n := false, None, MaxAttempts(cfg[i]);
    }

    // ---- The step loop ----

    /** Polls the job's status between steps. */
    method PollCancelled(i: nat) returns (cancelled: bool)
      requires Valid() && pc == Boundary(i) && i < |cfg|
      modifies this`pc, this`events
      ensures Valid() && pc == if cancelled then Finishing else Entering(i)
      ensures cancelled <==> status == JobCancelled
    {
      hide JobInv, Execution;
      ghost var r, at := Rec(), pc;
      cancelled := status == JobCancelled;
      pc := if cancelled then Finishing else Entering(i);
      Book(r, at, Act(Done(None)));
    }

    ghost method EndSteps()
      requires Valid() && pc == Boundary(|cfg|)
      modifies this`pc, this`events
      ensures Valid() && pc == Finishing
    {
      hide JobInv, Execution;
      ghost var r, at := Rec(), pc;
      pc := Finishing;
      Book(r, at, Act(Done(None)));
    }

    method MarkStepRunning(i: nat)
      requires Valid() && pc == Entering(i) && i < |steps|
      modifies this`steps, this`log, this`pc, this`events
      ensures Valid() && pc == Attempting(i, 1, NO_HINT)
      ensures steps == old(steps)[i := old(steps)[i].(status := StepRunning, attempts := 1)]
      ensures log == old(log) + [LogStepStarted(i)]
      ensures TallyOf(log) == TallyOf(old(log))
    {
      hide JobInv, Execution, TallyOf;
      ghost var r := Rec();
      ghost var at := pc;
      TallyAppend(log, LogStepStarted(i));
      steps := steps[i := steps[i].(status := StepRunning, attempts := 1)];
      log := log + [LogStepStarted(i)];
      pc := Attempting(i, 1, NO_HINT);
      Book(r, at, Act(Done(None)));
    }

    method SkipExhausted(i: nat)
      requires Valid() && pc == Exhausted(i) && i < |cfg| && i < |steps| && !cfg[i].isCritical
      modifies this`steps, this`log, this`pc, this`events
      ensures Valid() && pc == Boundary(i + 1)
      ensures steps == old(steps)[i := old(steps)[i].(status := StepSkipped)]
      ensures log == old(log) + [LogStepSkipped]
    {
      hide JobInv, Execution;
      ghost var r := Rec();
      ghost var at := pc;
      steps := steps[i := steps[i].(status := StepSkipped)];
      log := log + [LogStepSkipped];
      pc := Boundary(i + 1);
      Book(r, at, Act(Done(None)));
    }

    method StoreJobFailed(i: nat)
      requires Valid() && pc == Exhausted(i) && i < |cfg| && cfg[i].isCritical
      modifies this`status, this`log, this`pc, this`events
      ensures Valid() && pc == DeadLettering(i)
      ensures status == JobFailed && log == old(log) + [LogJobFailed]
    {
      hide JobInv, Execution;
      ghost var r := Rec();
      ghost var at := pc;
      status, log := JobFailed, log + [LogJobFailed];
      pc := DeadLettering(i);
      Book(r, at, Act(Done(None)));
    }

    method MoveToDeadLetter(ghost i: nat)
      requires Valid() && pc == DeadLettering(i)
      modifies this`deadLetters, this`pc, this`events
      ensures Valid() && pc == Trailing
      ensures deadLetters == old(deadLetters) + [QueueData(jobId, tenant, workflow, Some(payload))]
    {
      hide JobInv, Execution;
      ghost var r, at := Rec(), pc;
      deadLetters := deadLetters + [QueueData(jobId, tenant, workflow, Some(payload))];
      pc := Trailing;
      Book(r, at, Act(Done(None)));
    }

    /** The rows in the hands of operators and later owners: anything that keeps them sound may happen. */
    method LeaveToOthers(events: seq<Meanwhile>)
      requires JobInv(Rec(), Released)
      modifies this`status, this`steps, this`incidents, this`attempts, this`log
      ensures GivenAway() && Grows(old(Rec()), Rec())
    {
      hide JobInv, Grows, Elsewhere;
      var place := Released;
      SelfGrows(Rec());
      JobInvFits(Rec(), Released);
      for n := 0 to |events|
        invariant Fits(Rec(), place) && JobInv(Rec(), place) && Grows(old(Rec()), Rec())
      {
        var r := JobRec(tenant, workflow, payload, cfg, status, steps, incidents, attempts, log);
        var next := Elsewhere(r, place, events[n]);
        ElsewhereKeepsJobInv(r, place, events[n]);
        GrowsOn(old(Rec()), r, next.0);
        SameJob(r, next.0);
        status, steps, incidents := next.0.status, next.0.steps, next.0.incidents;
        attempts, log, place := next.0.attempts, next.0.log, next.1;
        assert Rec() == next.0;
      }
    }

    lemma SameJob(r: JobRec, r': JobRec)
      requires Grows(r, r')
      ensures r'.tenant == r.tenant && r'.workflow == r.workflow && r'.payload == r.payload && r'.cfg == r.cfg
    {
    }

    /** The last entry of a worker that no longer owns the job. */
    method LogDeadLettering()
      requires pc == Trailing && GivenAway()
      modifies this`log, this`pc
      ensures pc == Released && GivenAway()
      ensures log == old(log) + [LogDeadLettered]
    {
      hide JobInv;
      ghost var r := Rec();
      ghost var place :| JobInv(r, place);
      OperateKeepsJobInv(r, place, LateDeadLettered);
      log := log + [LogDeadLettered];
      pc := Released;
      assert Rec() == Operate(r, LateDeadLettered);
      assert JobInv(Rec(), place);
    }

    /** What the step loop does with a step that no attempt settled. `given` are the rows when the job is
        given away, which is when the dead-letter entry is added; from then on they are others'. */
    method GiveUp(i: nat, o: Oracle) returns (failed: bool, ghost given: seq<StepRow>)
      requires Valid() && pc == Exhausted(i) && i < |cfg| && |steps| == |cfg|
      modifies this`status, this`steps, this`incidents, this`attempts, this`log, this`pc, this`events, this`deadLetters
      ensures failed == cfg[i].isCritical
      ensures failed ==> pc == Released && GivenAway() && given == old(steps)
                         && deadLetters == old(deadLetters) + [QueueData(jobId, tenant, workflow, Some(payload))]
                         && log != [] && log[|log| - 1] == LogDeadLettered
      ensures !failed ==> Valid() && pc == Boundary(i + 1) && deadLetters == old(deadLetters)
                          && steps == old(steps)[i := old(steps)[i].(status := StepSkipped)] && given == steps
    {
      hide Valid, GivenAway, JobInv, Grows;
      var last := MaxAttempts(cfg[i]) + 1;
      Interleave(o.ops(i, last, 0));
      failed := cfg[i].isCritical;
      if failed {
        StoreJobFailed(i);
        Interleave(o.ops(i, last, 1));
        MoveToDeadLetter(i);
        given := steps;
        GiveAway();
        LeaveToOthers(o.after(i));
        LogDeadLettering();
      } else {
        SkipExhausted(i);
        given := steps;
      }
    }

    lemma GiveAway()
      requires Valid() && pc == Trailing
      ensures JobInv(Rec(), Released)
    {
      SamePlace(Rec(), Trailing, Released);
    }

    /** One round of the step loop, after the status poll. */
    method RunStep(i: nat, results: map<string, Value>, o: Oracle)
      returns (failed: bool, result: Option<Value>, ghost n: nat, ghost given: seq<StepRow>)
      requires Valid() && pc == Entering(i) && i < |cfg| && |steps| == |cfg|
      modifies this`status, this`steps, this`incidents, this`attempts, this`log, this`pc, this`events
      modifies this`simulated, this`fallbacks, this`slept, this`calls, this`deadLetters
      ensures |given| == |cfg| && StepReport(cfg[i], o, i, n, result, old(steps), given, failed)
      ensures if failed then GivenAway() else Valid() && given == steps
      ensures pc == if failed then Released else Boundary(i + 1)
      ensures deadLetters == if failed then old(deadLetters) + [QueueData(jobId, tenant, workflow, Some(payload))]
                             else old(deadLetters)
      ensures calls == old(calls) + CallsUpTo(cfg[i], i, n, results)
    {
      hide Valid, GivenAway, Decides, Wins, StepReport, StepTally, Sleeps, Simulations, FallbackCalls, CallsUpTo,
           TallyOf, CompletedOthers, Broken, Compensates, Compensated, DecidedStatus;
      Interleave(o.ops(i, 0, 1));
      MarkStepRunning(i);
      ghost var b := Snap();
      var success;
      success, result, n := ExecuteStepWithRecovery(i, results, o);
      ghost var s := Snap();
      if success {
        failed, given := false, steps;
      } else {
        failed, given := GiveUp(i, o);
      }
      StepReported(cfg[i], o, i, n, results, result, b, s, old(steps), given, failed);
    }

    /** The step loop: its outcome from any starting rows, whatever others do meanwhile. */
    method RunSteps(o: Oracle)
      returns (failed: bool, ghost decided: seq<nat>, ghost inputs: seq<map<string, Value>>,
               ghost outcomes: seq<Option<Value>>, ghost given: seq<StepRow>)
      requires Valid() && pc == Boundary(0) && |steps| == |cfg|
      modifies this`status, this`steps, this`incidents, this`attempts, this`log, this`pc, this`events
      modifies this`simulated, this`fallbacks, this`slept, this`calls, this`deadLetters
      ensures |inputs| == |decided|
      // The run fails at the first critical step that nothing settles; otherwise it ends after
      // the last step or at the boundary at which it reads CANCELLED.
      ensures RunReport(cfg, o, decided, outcomes, old(steps), given, failed)
      ensures if failed then GivenAway() else Valid() && given == steps
      ensures failed ==> pc == Released
      ensures !failed ==> pc == Finishing && (|decided| < |cfg| ==> status == JobCancelled)
      ensures deadLetters == if failed then old(deadLetters) + [QueueData(jobId, tenant, workflow, Some(payload))]
                             else old(deadLetters)
      // What the handlers were called with.
      ensures calls == old(calls) + RunCalls(cfg, decided, inputs)
      ensures InputsLatest(cfg, outcomes, inputs)
    {
      hide Valid, GivenAway, RunCalls, CallsUpTo, LatestResults, InputsLatest, StepReport, Ran, Reported,
           CompensatedLater, Compensated;
      failed, decided, inputs, outcomes, given := false, [], [], [], steps;
      var results: map<string, Value> := map[];
      var i := 0;
      NothingRun(cfg, o, steps);
      while i < |cfg|
        invariant 0 <= i <= |cfg|
        invariant Valid() && pc == Boundary(i) && !failed
        invariant |decided| == |inputs| == |outcomes| == i
        invariant RunReport(cfg, o, decided, outcomes, old(steps), steps, false) && given == steps
        invariant deadLetters == old(deadLetters)
        invariant calls == old(calls) + RunCalls(cfg, decided, inputs)
        invariant LatestResults(cfg, outcomes, results)
        invariant InputsLatest(cfg, outcomes, inputs)
      {
        Interleave(o.ops(i, 0, 0));
        var cancelled := PollCancelled(i);
        if cancelled {
          return;
        }
        ghost var rows := steps;
        var v: Option<Value>;
        ghost var n;
        failed, v, n, given := RunStep(i, results, o);
        RoundDone(cfg, o, decided, outcomes, old(steps), rows, given, n, v, failed);
        RunCallsNext(cfg, decided, inputs, n, results, old(calls));
        LatestResultsNext(cfg, outcomes, results, v);
        InputsLatestNext(cfg, outcomes, inputs, v, results);
        decided, inputs, outcomes := decided + [n], inputs + [results], outcomes + [v];
        if failed {
          return;
        }
        if v.Some? {
          results := results[cfg[i].name := v.value];
        }
        i := i + 1;
      }
      EndSteps();
    }

    // ---- The run ----

    /** Loads the job; a CANCELLED job is skipped. */
    method LoadJob() returns (cancelled: bool)
      requires Valid() && pc == Claimed
      modifies this`pc, this`events
      ensures Valid() && pc == if cancelled then Released else Starting
      ensures cancelled <==> status == JobCancelled
    {
      hide JobInv, Execution;
      ghost var r, at := Rec(), pc;
      cancelled := status == JobCancelled;
      pc := if cancelled then Released else Starting;
      Book(r, at, Act(Done(None)));
    }

    method MarkStarted()
      requires Valid() && pc == Starting
      modifies this`status, this`log, this`pc, this`events
      ensures Valid() && pc == Boundary(0)
      ensures status == JobRunning && log == old(log) + [LogJobStarted]
    {
      hide JobInv, Execution;
      ghost var r, at := Rec(), pc;
      status, log := JobRunning, log + [LogJobStarted];
      pc := Boundary(0);
      Book(r, at, Act(Done(None)));
    }

    method CompleteJob()
      requires Valid() && pc == Finishing
      modifies this`status, this`log, this`pc, this`events
      ensures Valid() && pc == Released
      ensures status == JobCompleted && log == old(log) + [LogJobCompleted]
    {
      hide JobInv, Execution;
      ghost var r, at := Rec(), pc;
      status, log := JobCompleted, log + [LogJobCompleted];
      pc := Released;
      Book(r, at, Act(Done(None)));
    }

    /** One run of the job. Once started it ends FAILED or COMPLETED: a cancellation that the run
        observes at a step boundary makes it skip the remaining steps and complete. `given` are the rows
        at the end of the run or, if it failed, when it gave the job away. */
    method ProcessJob(o: Oracle)
      returns (outcome: Option<JobStatus>, ghost decided: seq<nat>, ghost inputs: seq<map<string, Value>>,
               ghost outcomes: seq<Option<Value>>, ghost given: seq<StepRow>)
      requires Valid() && pc == Claimed && |steps| == |cfg|
      modifies this
      ensures pc == Released
      ensures if outcome == Some(JobFailed) then GivenAway() else Valid() && given == steps
      ensures outcome.None? <==> old(status) == JobCancelled
      ensures outcome.None? ==> Rec() == old(Rec()) && calls == old(calls) && deadLetters == old(deadLetters)
      ensures outcome.Some? ==> outcome == Some(JobFailed) || (outcome == Some(JobCompleted) && status == JobCompleted)
      ensures outcome.Some? ==>
        && RunReport(cfg, o, decided, outcomes, old(steps), given, outcome == Some(JobFailed))
        && |inputs| == |decided| && calls == old(calls) + RunCalls(cfg, decided, inputs)
        && InputsLatest(cfg, outcomes, inputs)
      ensures deadLetters == if outcome == Some(JobFailed)
                             then old(deadLetters) + [QueueData(jobId, tenant, workflow, Some(payload))]
                             else old(deadLetters)
    {
      hide Valid, GivenAway, Reported, InputsLatest, RunCalls, CompensatedLater, Ran, Compensated;
      decided, inputs, outcomes, given := [], [], [], steps;
      var cancelled := LoadJob();
      if cancelled {
        return None, [], [], [], steps;
      }
      Interleave(o.ops(0, 0, 2));
      MarkStarted();
      var failed;
      failed, decided, inputs, outcomes, given := RunSteps(o);
      if failed {
        return Some(JobFailed), decided, inputs, outcomes, given;
      }
      Interleave(o.ops(|cfg|, 0, 0));
      CompleteJob();
      outcome := Some(JobCompleted);
    }
  }
}
