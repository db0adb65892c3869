/** What a run of the worker amounts to: who wins an attempt, what each round of the attempt loop and
    of the step loop adds, and what has been stored, called, logged and slept at the end. */
module RunSpec {
  import opened Types
  import opened Audit
  import opened JobMachine
  import opened Backoff

  /** Everything the run cannot control: what handlers and external calls come to, what others do
      to the rows before each action, and the jitter of each delay. */
  datatype Oracle = Oracle(
    handler: (nat, nat) -> Attempted,
    external: (nat, nat) -> Attempted,
    ops: (nat, nat, nat) -> seq<Op>,
    after: nat -> seq<Meanwhile>,
    jitter: (nat, nat) -> Jitter)

  /** A call of a step handler with the hint and the `payload.steps` it received. */
  datatype Call = Call(step: nat, attempt: nat, hint: Hint, results: map<string, Value>)

  // ---- Who wins ----

  predicate Recovers(c: StepConfig, o: Oracle, i: nat, a: nat) {
    match SelectStrategy(c.policy, a)
    case Retry => o.external(i, a).Done?
    case RetryWithDelay => o.external(i, a).Done?
    case Fallback => o.external(i, a).Done?
    case Skip => true
    case Compensate => true
    case _ => false
  }

  /** Attempt `a` of step `i` ends with the step settled. */
  predicate Wins(c: StepConfig, o: Oracle, i: nat, a: nat) {
    o.handler(i, a).Done? || Recovers(c, o, i, a)
  }

  /** The attempt is decided by COMPENSATE. */
  predicate Compensates(c: StepConfig, o: Oracle, i: nat, a: nat) {
    o.handler(i, a).Broke? && SelectStrategy(c.policy, a) == Compensate
  }

  // ---- Sequences ----

  lemma Regroup<T>(a: seq<T>, b: seq<T>, c: seq<T>)
    ensures a + (b + c) == a + b + c
  {
  }

  lemma Appended<T>(s: seq<T>, x: T)
    ensures (s + [x])[..|s|] == s && (s + [x])[|s|] == x
  {
  }

  // ---- Counting ----

  /** What the entries of a step run add up to. Operators' entries are not counted. */
  datatype Tally = Tally(
    detected: nat, started: nat, succeeded: nat, failed: nat,
    escalated: nat, approvals: nat, switched: nat, compensated: seq<nat>)

  function Add(t: Tally, e: Entry): Tally {
    match e
    case LogFailureDetected(_, _) => t.(detected := t.detected + 1)
    case LogRecoveryStarted(_, _) => t.(started := t.started + 1)
    case LogRecoverySucceeded(_) => t.(succeeded := t.succeeded + 1)
    case LogRecoveryFailed(_) => t.(failed := t.failed + 1)
    case LogEscalated => t.(escalated := t.escalated + 1)
    case LogApprovalRequested => t.(approvals := t.approvals + 1)
    case LogModelSwitched(_, _, _) => t.(switched := t.switched + 1)
    case LogStepCompensated(k) => t.(compensated := t.compensated + [k])
    case _ => t
  }

  function TallyOf(log: seq<Entry>): Tally {
    if log == [] then Tally(0, 0, 0, 0, 0, 0, 0, [])
    else Add(TallyOf(log[..|log| - 1]), log[|log| - 1])
  }

  lemma TallyAppend(log: seq<Entry>, e: Entry)
    ensures TallyOf(log + [e]) == Add(TallyOf(log), e)
  {
  }

  predicate Quiet(ops: seq<Op>) {
    forall k :: 0 <= k < |ops| ==> !ops[k].Resolve?
  }

  function CompensateAll(rows: seq<StepRow>): (out: seq<StepRow>)
    ensures |out| == |rows|
    ensures forall k :: 0 <= k < |rows| ==> out[k] == Compensated(rows[k])
  {
    seq(|rows|, k requires 0 <= k < |rows| => Compensated(rows[k]))
  }

  function Compensated(row: StepRow): StepRow {
    if row.status == StepCompleted then row.(status := StepCompensated) else row
  }

  // ---- What recovery comes to ----

  /** The result of dispatching strategy `s`; `completed` is the number of COMPLETED steps. */
  function Outcome(c: StepConfig, s: Strategy, external: Attempted, completed: nat): Recovered {
    match s
    case Retry => if external.Done? then Recovered(true, s, external.value, None) else Failing(s)
    case RetryWithDelay => if external.Done? then Recovered(true, s, external.value, None) else Failing(s)
    case Fallback =>
      if external.Done? then Recovered(true, s, Some(FallbackBy(FallbackProvider(c.policy))), None) else Failing(s)
    case Skip => Recovered(true, s, Some(SkippedMark), None)
    case Compensate => Recovered(true, s, Some(CompensatedCount(completed)), None)
    case SwitchModel =>
      if FallbackModel(c.policy).Some? then Recovered(false, s, None, Some(Hint(FallbackModel(c.policy), false)))
      else Failing(s)
    case ReduceContext => Recovered(false, s, None, Some(Hint(None, true)))
    case _ => Failing(s)
  }

  function DispatchedRows(rows: seq<StepRow>, i: nat, s: Strategy): (out: seq<StepRow>)
    requires i < |rows|
    ensures |out| == |rows| && out[i] == rows[i].(status := out[i].status)
  {
    match s
    case Skip => rows[i := rows[i].(status := StepSkipped)]
    case Compensate => CompensateAll(rows)
    case _ => rows
  }

  lemma PolicySelects(policy: Option<Policy>, a: nat)
    ensures SelectStrategy(policy, a) != Escalate ==> policy.Some?
  {
  }

  function DispatchedTally(t: Tally, rows: seq<StepRow>, s: Strategy): Tally {
    t.(escalated := t.escalated + (if s == Escalate then 1 else 0),
       approvals := t.approvals + (if s == PauseForHuman then 1 else 0),
       compensated := if s == Compensate then t.compensated + CompletedSteps(rows) else t.compensated)
  }

  lemma DispatchedTallies(t: Tally, rows: seq<StepRow>, s: Strategy)
    ensures DispatchedTally(t, rows, s) ==
              if s == Escalate then Add(t, LogEscalated)
              else if s == PauseForHuman then Add(t, LogApprovalRequested)
              else if s == Compensate then t.(compensated := t.compensated + CompletedSteps(rows))
              else t
  {
  }

  function ConcludedTally(t: Tally, out: Recovered): Tally {
    if out.success then t.(succeeded := t.succeeded + 1) else t.(failed := t.failed + 1)
  }

  function ExecutedTally(t: Tally, rows: seq<StepRow>, s: Strategy, out: Recovered): Tally {
    ConcludedTally(DispatchedTally(t.(started := t.started + 1), rows, s), out)
  }

  function HandledTally(c: StepConfig, t: Tally, rows: seq<StepRow>, x: Failure, s: Strategy, out: Recovered): Tally {
    var t' := ExecutedTally(t, rows, s, out);
    t'.(switched := t'.switched + (if !out.success && SwitchEntry(c, x, out).Some? then 1 else 0))
  }

  function TriedTally(c: StepConfig, t: Tally, rows: seq<StepRow>, x: Failure, s: Strategy, out: Recovered): Tally {
    HandledTally(c, t.(detected := t.detected + 1), rows, x, s, out)
  }

  /** The sleep before the simulated execution of attempt `a`. */
  function SleepBefore(c: StepConfig, s: Strategy, o: Oracle, i: nat, a: nat): int
    requires a >= 1
  {
    if s == RetryWithDelay && c.policy.Some? then
      RetrySleep(a, c.policy.value.retryDelayMs, c.policy.value.backoffMultiplier, o.jitter(i, a))
    else 0
  }

  /** Exactly the unresolved incidents of step `i` have been flagged. */
  predicate Flagged(before: seq<Incident>, after: seq<Incident>, i: nat) {
    && |after| == |before|
    && forall k :: 0 <= k < |before| ==>
         after[k] == if before[k].step == i && !before[k].resolved then before[k].(escalated := true) else before[k]
  }

  predicate HasOpen(incidents: seq<Incident>, i: nat) {
    exists k :: 0 <= k < |incidents| && IsOpen(incidents[k], i)
  }

  predicate AllEscalated(incidents: seq<Incident>, i: nat) {
    forall k :: 0 <= k < |incidents| && IsOpen(incidents[k], i) ==> incidents[k].escalated
  }

  /** What `execute` leaves of the incidents when nobody resolves one meanwhile. */
  function ExecutedIncidents(incidents: seq<Incident>, x: Failure, s: Strategy): seq<Incident> {
    var marked := if s == Escalate then EscalateOpen(incidents, x.i) else incidents;
    if FirstOpen(marked, x.i).Some? then marked else marked + [Incident(x.i, x.f, false, false, x.a)]
  }

  ghost predicate QuietAt(o: Oracle, i: nat, a: nat) {
    forall p :: Quiet(o.ops(i, a, p))
  }

  // ---- What an attempt and a step come to ----

  function AttemptOutcome(c: StepConfig, o: Oracle, i: nat, a: nat, rows: seq<StepRow>): Recovered {
    Outcome(c, SelectStrategy(c.policy, a), o.external(i, a), |CompletedSteps(rows)|)
  }

  /** Recovery wins exactly with the strategies that succeed; without success no row is touched. */
  lemma OutcomeWins(c: StepConfig, o: Oracle, i: nat, a: nat, rows: seq<StepRow>, completed: nat)
    requires i < |rows|
    ensures var s := SelectStrategy(c.policy, a);
            var out := Outcome(c, s, o.external(i, a), completed);
            && out.strategy == s
            && (out.success <==> Recovers(c, o, i, a))
            && (!out.success ==> DispatchedRows(rows, i, s) == rows)
  {
  }

  function FailedRows(rows: seq<StepRow>, i: nat, a: nat, f: FailureType): (out: seq<StepRow>)
    requires i < |rows|
    ensures |out| == |rows|
  {
    rows[i := rows[i].(status := StepFailed, attempts := a, failure := Some(f))]
  }

  /** The hint that attempt `a` receives: none at first, the policy's hint from then on. */
  function HintAt(c: StepConfig, a: nat): Hint {
    if a <= 1 || c.policy.None? then NO_HINT
    else
      match c.policy.value.strategy
      case SwitchModel => Hint(FallbackModel(c.policy), false)
      case ReduceContext => Hint(None, true)
      case _ => NO_HINT
  }

  /** SWITCH_MODEL with a retry to spend and a model other than the configured one. */
  predicate Switches(c: StepConfig) {
    && c.policy.Some? && c.policy.value.strategy == SwitchModel && c.policy.value.maxRetries >= 1
    && FallbackModel(c.policy).Some? && FallbackModel(c.policy) != c.model
  }

  /** How often the first `k` attempts select ESCALATE. */
  function Escalations(c: StepConfig, k: nat): nat {
    match c.policy
    case None => k
    case Some(p) =>
      if p.strategy == Escalate then k
      else if p.strategy == Fallback || k <= p.maxRetries then 0
      else k - p.maxRetries
  }

  /** How often the first `k` attempts ask for approval. */
  function Approvals(c: StepConfig, k: nat): nat {
    if c.policy.None? || c.policy.value.strategy != PauseForHuman then 0
    else if k <= c.policy.value.maxRetries then k else c.policy.value.maxRetries
  }

  /** The tally after `k` attempts that settled nothing. */
  function LostTally(c: StepConfig, t: Tally, k: nat): Tally {
    t.(detected := t.detected + k, started := t.started + k, failed := t.failed + k,
       escalated := t.escalated + Escalations(c, k),
       approvals := t.approvals + Approvals(c, k),
       switched := t.switched + (if k >= 1 && Switches(c) then 1 else 0))
  }

  /** The tally of a step decided at attempt `n`; `rows` are the rows when that attempt had failed. */
  function StepTally(c: StepConfig, o: Oracle, i: nat, n: nat, t: Tally, compensated: seq<nat>): Tally
    requires n >= 1
  {
    if !Wins(c, o, i, n) then LostTally(c, t, n)
    else
      var before := LostTally(c, t, n - 1);
      if o.handler(i, n).Done? then before
      else before.(detected := before.detected + 1, started := before.started + 1, succeeded := before.succeeded + 1,
                   compensated := if Compensates(c, o, i, n) then before.compensated + compensated
                                  else before.compensated)
  }

  /** Attempts of a step decided at `n` whose handler failed. */
  function Broken(o: Oracle, i: nat, n: nat): nat
    requires n >= 1
  {
    if o.handler(i, n).Done? then n - 1 else n
  }

  /** Simulated executions among `k` failed attempts: the last allowed attempt escalates instead. */
  function Simulations(c: StepConfig, k: nat): nat {
    if c.policy.Some? && (c.policy.value.strategy == Retry || c.policy.value.strategy == RetryWithDelay) then
      if k <= c.policy.value.maxRetries then k else c.policy.value.maxRetries
    else 0
  }

  function FallbackCalls(c: StepConfig, k: nat): nat {
    if c.policy.Some? && c.policy.value.strategy == Fallback then k else 0
  }

  function JitterOf(o: Oracle, i: nat): nat -> Jitter {
    a => o.jitter(i, a)
  }

  function Sleeps(c: StepConfig, o: Oracle, i: nat, k: nat): int {
    if c.policy.Some? && c.policy.value.strategy == RetryWithDelay then
      TotalSleep(Simulations(c, k), c.policy.value.retryDelayMs, c.policy.value.backoffMultiplier, JitterOf(o, i))
    else 0
  }

  function CallsUpTo(c: StepConfig, i: nat, n: nat, results: map<string, Value>): (calls: seq<Call>)
    ensures |calls| == n
    ensures forall k :: 0 <= k < n ==> calls[k] == Call(i, k + 1, HintAt(c, k + 1), results)
  {
    if n == 0 then [] else CallsUpTo(c, i, n - 1, results) + [Call(i, n, HintAt(c, n), results)]
  }

  /** Attempt `n` decides step `i`: it is the first that wins, or the last one allowed if none does. */
  predicate Decides(c: StepConfig, o: Oracle, i: nat, n: nat) {
    && 1 <= n <= MaxAttempts(c)
    && (forall a :: 1 <= a < n ==> !Wins(c, o, i, a))
    && (Wins(c, o, i, n) || n == MaxAttempts(c))
  }

  function DecidedStatus(c: StepConfig, o: Oracle, i: nat, n: nat): StepStatus {
    if o.handler(i, n).Done? then StepCompleted
    else if Recovers(c, o, i, n) then RecoveredStatus(SelectStrategy(c.policy, n))
    else StepFailed
  }

  lemma DecisionUnique(c: StepConfig, o: Oracle, i: nat, m: nat, n: nat)
    requires Decides(c, o, i, m) && Decides(c, o, i, n)
    ensures m == n
  {
  }

  /** The steps that COMPENSATE at step `i` finds COMPLETED; `i` itself has just failed. */
  function CompletedOthers(rows: seq<StepRow>, i: nat): seq<nat>
    requires i < |rows|
  {
    CompletedSteps(rows[i := rows[i].(status := StepFailed)])
  }

  lemma CompletedByStatus(rows: seq<StepRow>, rows': seq<StepRow>, from: nat)
    requires |rows| == |rows'| && from <= |rows|
    requires forall k :: 0 <= k < |rows| ==> rows[k].status == rows'[k].status
    ensures CompletedSteps(rows, from) == CompletedSteps(rows', from)
    decreases |rows| - from
  {
  }

  // ---- One attempt more ----

  lemma OneMoreHint(c: StepConfig, o: Oracle, i: nat, a: nat, rows: seq<StepRow>)
    requires 1 <= a < MaxAttempts(c) && !Recovers(c, o, i, a)
    ensures NextHint(HintAt(c, a), AttemptOutcome(c, o, i, a, rows)) == HintAt(c, a + 1)
  {
  }

  lemma OneMoreLost(c: StepConfig, o: Oracle, x: Failure, rows: seq<StepRow>, t: Tally)
    requires 1 <= x.a <= MaxAttempts(c) && x.hint == HintAt(c, x.a) && !Recovers(c, o, x.i, x.a)
    ensures var s := SelectStrategy(c.policy, x.a);
            TriedTally(c, LostTally(c, t, x.a - 1), rows, x, s, AttemptOutcome(c, o, x.i, x.a, rows))
            == LostTally(c, t, x.a)
  {
  }

  lemma RecoveredTally(c: StepConfig, o: Oracle, x: Failure, rows: seq<StepRow>, t: Tally)
    requires 1 <= x.a <= MaxAttempts(c) && o.handler(x.i, x.a).Broke? && Recovers(c, o, x.i, x.a)
    ensures var s := SelectStrategy(c.policy, x.a);
            TriedTally(c, LostTally(c, t, x.a - 1), rows, x, s, AttemptOutcome(c, o, x.i, x.a, rows))
            == StepTally(c, o, x.i, x.a, t, CompletedSteps(rows))
  {
  }

  lemma OneMoreExecution(c: StepConfig, o: Oracle, i: nat, a: nat)
    requires 1 <= a <= MaxAttempts(c)
    ensures var s := SelectStrategy(c.policy, a);
            && Simulations(c, a) == Simulations(c, a - 1) + (if s == Retry || s == RetryWithDelay then 1 else 0)
            && FallbackCalls(c, a) == FallbackCalls(c, a - 1) + (if s == Fallback then 1 else 0)
            && Sleeps(c, o, i, a) == Sleeps(c, o, i, a - 1) + SleepBefore(c, s, o, i, a)
  {
  }

  /** The rows when recovery has won attempt `x.a`. */
  lemma RecoveredRows(c: StepConfig, o: Oracle, x: Failure, before: seq<StepRow>, after: seq<StepRow>,
                      result: Option<Value>)
    requires x.i < |before| && o.handler(x.i, x.a).Broke? && Recovers(c, o, x.i, x.a)
    requires var failed := FailedRows(before, x.i, x.a, x.f);
             var s := SelectStrategy(c.policy, x.a);
             after == DispatchedRows(failed, x.i, s)[
               x.i := failed[x.i].(status := RecoveredStatus(s), result := result)]
    ensures |after| == |before|
    ensures after[x.i].status == DecidedStatus(c, o, x.i, x.a)
    ensures after[x.i].attempts == x.a && after[x.i].result == result
    ensures forall k :: 0 <= k < |before| && k != x.i ==>
      after[k] == if Compensates(c, o, x.i, x.a) then Compensated(before[k]) else before[k]
  {
  }

  /** What a step run changes, besides job status, incidents and log order. */
  datatype Snapshot = Snapshot(
    rows: seq<StepRow>, tally: Tally, attempts: nat,
    simulated: nat, fallbacks: nat, slept: int, calls: seq<Call>)

  /** From `b` to `s` attempt `a` of step `i` was made; `result` is what it returned if it won. */
  ghost predicate Tried(c: StepConfig, o: Oracle, i: nat, a: nat, hint: Hint, results: map<string, Value>,
                        result: Option<Value>, b: Snapshot, s: Snapshot)
    requires i < |b.rows| && a >= 1
  {
    && s.calls == b.calls + [Call(i, a, hint, results)]
    && match o.handler(i, a)
       case Done(v) =>
         && result == v
         && s.(calls := b.calls) == b.(rows := b.rows[i := b.rows[i].(
              status := StepCompleted, attempts := a, result := Some(v.GetOr(EmptyObject)))])
       case Broke(f) =>
         var strategy := SelectStrategy(c.policy, a);
         var x := Failure(i, a, hint, f);
         var failed := FailedRows(b.rows, i, a, f);
         var out := AttemptOutcome(c, o, i, a, failed);
         && (Recovers(c, o, i, a) ==> result == Some(out.result.GetOr(EmptyObject)))
         && s.rows == (if Recovers(c, o, i, a) then
                         DispatchedRows(failed, i, strategy)[
                           i := failed[i].(status := RecoveredStatus(strategy), result := result)]
                       else failed)
         && s.tally == TriedTally(c, b.tally, failed, x, strategy, out)
         && s.attempts == b.attempts + 1
         && s.simulated == b.simulated + (if strategy == Retry || strategy == RetryWithDelay then 1 else 0)
         && s.fallbacks == b.fallbacks + (if strategy == Fallback then 1 else 0)
         && s.slept == b.slept + SleepBefore(c, strategy, o, i, a)
  }

  /** From `b` to `s` the first `k` attempts of step `i` were made and none won. */
  ghost predicate LostSoFar(c: StepConfig, o: Oracle, i: nat, k: nat, results: map<string, Value>,
                            b: Snapshot, s: Snapshot)
    requires i < |b.rows|
  {
    && |s.rows| == |b.rows|
    && (k > 0 ==> s.rows[i].status == StepFailed && s.rows[i].attempts == k)
    && (forall n :: 0 <= n < |b.rows| && n != i ==> s.rows[n] == b.rows[n])
    && s.tally == LostTally(c, b.tally, k)
    && s.attempts == b.attempts + k
    && s.simulated == b.simulated + Simulations(c, k)
    && s.fallbacks == b.fallbacks + FallbackCalls(c, k)
    && s.slept == b.slept + Sleeps(c, o, i, k)
    && s.calls == b.calls + CallsUpTo(c, i, k, results)
  }

  /** From `b` to `s` step `i` was run and decided at attempt `n`. */
  ghost predicate StepDone(c: StepConfig, o: Oracle, i: nat, n: nat, results: map<string, Value>,
                           result: Option<Value>, b: Snapshot, s: Snapshot)
    requires i < |b.rows| && n >= 1
  {
    && |s.rows| == |b.rows|
    && s.rows[i].status == DecidedStatus(c, o, i, n) && s.rows[i].attempts == n
    && (Wins(c, o, i, n) ==> s.rows[i].result == Some(result.GetOr(EmptyObject)))
    && (Wins(c, o, i, n) ==>
          if o.handler(i, n).Done? then result == o.handler(i, n).value else result.Some?)
    && (forall k :: 0 <= k < |b.rows| && k != i ==>
          s.rows[k] == if Compensates(c, o, i, n) then Compensated(b.rows[k]) else b.rows[k])
    && s.tally == StepTally(c, o, i, n, b.tally, CompletedOthers(b.rows, i))
    && s.attempts == b.attempts + Broken(o, i, n)
    && s.simulated == b.simulated + Simulations(c, Broken(o, i, n))
    && s.fallbacks == b.fallbacks + FallbackCalls(c, Broken(o, i, n))
    && s.slept == b.slept + Sleeps(c, o, i, Broken(o, i, n))
    && s.calls == b.calls + CallsUpTo(c, i, n, results)
  }

  lemma RoundLost(c: StepConfig, o: Oracle, i: nat, a: nat, results: map<string, Value>, result: Option<Value>,
                  b: Snapshot, m: Snapshot, s: Snapshot)
    requires i < |b.rows| && 1 <= a <= MaxAttempts(c) && !Wins(c, o, i, a)
    requires LostSoFar(c, o, i, a - 1, results, b, m)
    requires Tried(c, o, i, a, HintAt(c, a), results, result, m, s)
    ensures LostSoFar(c, o, i, a, results, b, s)
  {
    var x := Failure(i, a, HintAt(c, a), o.handler(i, a).failure);
    OneMoreLost(c, o, x, FailedRows(m.rows, i, a, x.f), b.tally);
    OneMoreExecution(c, o, i, a);
    OneMoreCall(c, i, a, results, b.calls);
    hide HintAt, LostTally, TriedTally, Simulations, FallbackCalls, Sleeps, SleepBefore, CallsUpTo, AttemptOutcome,
         Recovers;
  }

  lemma RoundWon(c: StepConfig, o: Oracle, i: nat, a: nat, results: map<string, Value>, result: Option<Value>,
                 b: Snapshot, m: Snapshot, s: Snapshot)
    requires i < |b.rows| && 1 <= a <= MaxAttempts(c) && Wins(c, o, i, a)
    requires LostSoFar(c, o, i, a - 1, results, b, m)
    requires Tried(c, o, i, a, HintAt(c, a), results, result, m, s)
    ensures StepDone(c, o, i, a, results, result, b, s)
  {
    hide HintAt, LostTally, TriedTally, Simulations, FallbackCalls, Sleeps, SleepBefore, CallsUpTo, AttemptOutcome,
         CompletedSteps, StepTally, Compensated;
    OneMoreExecution(c, o, i, a);
    OneMoreCall(c, i, a, results, b.calls);
    if o.handler(i, a).Broke? {
      var x := Failure(i, a, HintAt(c, a), o.handler(i, a).failure);
      var failed := FailedRows(m.rows, i, a, x.f);
      RecoveredRows(c, o, x, m.rows, s.rows, result);
      RecoveredTally(c, o, x, failed, b.tally);
      CompletedByStatus(failed, b.rows[i := b.rows[i].(status := StepFailed)], 0);
    } else {
      HandledTallyKept(c, o, i, a, b.tally, CompletedOthers(b.rows, i));
    }
  }

  lemma HandledTallyKept(c: StepConfig, o: Oracle, i: nat, a: nat, t: Tally, compensated: seq<nat>)
    requires a >= 1 && o.handler(i, a).Done?
    ensures StepTally(c, o, i, a, t, compensated) == LostTally(c, t, a - 1)
  {
  }

  /** What a step won at attempt `n` owes to its policy, with the statuses written out. */
  lemma WonByPolicy(c: StepConfig, o: Oracle, i: nat, n: nat, results: map<string, Value>, result: Option<Value>,
                    b: Snapshot, s: Snapshot)
    requires i < |b.rows| && n >= 1 && Wins(c, o, i, n) && StepDone(c, o, i, n, results, result, b, s)
    ensures o.handler(i, n).Broke? ==>
      && c.policy.Some?
      && var strategy := c.policy.value.strategy;
         && s.rows[i].status == (if strategy == Skip then StepSkipped else StepCompleted)
         && forall k :: 0 <= k < |b.rows| && k != i ==>
              s.rows[k] == if strategy == Compensate && b.rows[k].status == StepCompleted
                           then b.rows[k].(status := StepCompensated) else b.rows[k]
    ensures o.handler(i, n).Done? ==>
      s.rows[i].status == StepCompleted && forall k :: 0 <= k < |b.rows| && k != i ==> s.rows[k] == b.rows[k]
  {
    hide StepTally, Sleeps, Simulations, FallbackCalls, CallsUpTo;
  }

  lemma AllLost(c: StepConfig, o: Oracle, i: nat, results: map<string, Value>, b: Snapshot, s: Snapshot)
    requires i < |b.rows| && !Wins(c, o, i, MaxAttempts(c))
    requires LostSoFar(c, o, i, MaxAttempts(c), results, b, s)
    ensures StepDone(c, o, i, MaxAttempts(c), results, None, b, s)
  {
  }

  lemma NoAttemptYet(c: StepConfig, o: Oracle, i: nat, results: map<string, Value>, b: Snapshot)
    requires i < |b.rows|
    ensures HintAt(c, 1) == NO_HINT
    ensures LostSoFar(c, o, i, 0, results, b, b)
  {
  }

  lemma OneMoreCall(c: StepConfig, i: nat, a: nat, results: map<string, Value>, base: seq<Call>)
    requires a >= 1
    ensures base + CallsUpTo(c, i, a, results)
            == base + CallsUpTo(c, i, a - 1, results) + [Call(i, a, HintAt(c, a), results)]
  {
  }

  lemma ExecutedHasOpen(incidents: seq<Incident>, x: Failure, s: Strategy)
    ensures HasOpen(ExecutedIncidents(incidents, x, s), x.i)
    ensures s == Escalate ==> (AllEscalated(ExecutedIncidents(incidents, x, s), x.i) <==> HasOpen(incidents, x.i))
  {
    var marked := if s == Escalate then EscalateOpen(incidents, x.i) else incidents;
    var all := ExecutedIncidents(incidents, x, s);
    if FirstOpen(marked, x.i).Some? {
      assert IsOpen(all[FirstOpen(marked, x.i).value], x.i);
    } else {
      assert IsOpen(all[|marked|], x.i);
    }
    if HasOpen(incidents, x.i) {
      var k :| 0 <= k < |incidents| && IsOpen(incidents[k], x.i);
      assert IsOpen(marked[k], x.i);
    }
  }

  /** The last attempt that the policy of `c` allows selects ESCALATE. */
  predicate Escalating(c: StepConfig) {
    c.policy.None? || c.policy.value.strategy != Fallback
  }

  ghost predicate QuietStep(o: Oracle, i: nat) {
    forall a :: QuietAt(o, i, a)
  }

  // ---- Whole runs ----

  /** Some step after `k` was decided by COMPENSATE. */
  ghost predicate CompensatedLater(cfg: seq<StepConfig>, o: Oracle, decided: seq<nat>, k: int)
    requires |decided| <= |cfg|
  {
    exists m :: k < m < |decided| && 0 <= m && Compensates(cfg[m], o, m, decided[m])
  }

  /** Where a step that the run has left stands. */
  ghost function FinalStatus(cfg: seq<StepConfig>, o: Oracle, decided: seq<nat>, k: nat): StepStatus
    requires k < |decided| <= |cfg|
  {
    var own := if Wins(cfg[k], o, k, decided[k]) then DecidedStatus(cfg[k], o, k, decided[k]) else StepSkipped;
    if own == StepCompleted && CompensatedLater(cfg, o, decided, k) then StepCompensated else own
  }

  lemma CompensatedLaterNext(cfg: seq<StepConfig>, o: Oracle, decided: seq<nat>, n: nat, k: int)
    requires |decided| < |cfg| && k < |decided|
    ensures CompensatedLater(cfg, o, decided + [n], k)
            <==> CompensatedLater(cfg, o, decided, k) || Compensates(cfg[|decided|], o, |decided|, n)
  {
  }

  /** The stored row of a step that the run has left, `failed` if the run failed at it. */
  ghost predicate Reported(cfg: seq<StepConfig>, o: Oracle, decided: seq<nat>, outcomes: seq<Option<Value>>,
                           k: nat, row: StepRow, failed: bool)
    requires k < |decided| == |outcomes| <= |cfg|
  {
    var won := Wins(cfg[k], o, k, decided[k]);
    && row.attempts == decided[k]
    && row.status == (if failed then StepFailed else FinalStatus(cfg, o, decided, k))
    && (outcomes[k].Some? ==> won)
    && (won ==> row.result == Some(outcomes[k].GetOr(EmptyObject)))
    && (won ==> if o.handler(k, decided[k]).Done? then outcomes[k] == o.handler(k, decided[k]).value
                else outcomes[k].Some?)
  }

  lemma ReportedNext(cfg: seq<StepConfig>, o: Oracle, decided: seq<nat>, outcomes: seq<Option<Value>>,
                     n: nat, v: Option<Value>, k: nat, row: StepRow)
    requires k < |decided| == |outcomes| < |cfg|
    requires Reported(cfg, o, decided, outcomes, k, row, false)
    ensures Reported(cfg, o, decided + [n], outcomes + [v], k,
                     if Compensates(cfg[|decided|], o, |decided|, n) then Compensated(row) else row, false)
  {
  }

  lemma ReportedLast(cfg: seq<StepConfig>, o: Oracle, decided: seq<nat>, outcomes: seq<Option<Value>>,
                     n: nat, v: Option<Value>, row: StepRow, failed: bool)
    requires |decided| == |outcomes| < |cfg|
    requires var i := |decided|;
             var won := Wins(cfg[i], o, i, n);
             && row.attempts == n
             && row.status == (if won then DecidedStatus(cfg[i], o, i, n)
                               else if failed then StepFailed else StepSkipped)
             && (failed ==> !won)
             && (v.Some? ==> won)
             && (won ==> row.result == Some(v.GetOr(EmptyObject)))
             && (won ==> if o.handler(i, n).Done? then v == o.handler(i, n).value else v.Some?)
    ensures Reported(cfg, o, decided + [n], outcomes + [v], |decided|, row, failed)
  {
  }

  /** The handler calls of a run whose step `k` was decided at attempt `decided[k]` with input `inputs[k]`. */
  function RunCalls(cfg: seq<StepConfig>, decided: seq<nat>, inputs: seq<map<string, Value>>): seq<Call>
    requires |decided| == |inputs| <= |cfg|
  {
    if decided == [] then []
    else
      var k := |decided| - 1;
      RunCalls(cfg, decided[..k], inputs[..k]) + CallsUpTo(cfg[k], k, decided[k], inputs[k])
  }

  lemma RunCallsLast(cfg: seq<StepConfig>, decided: seq<nat>, inputs: seq<map<string, Value>>)
    requires 0 < |decided| == |inputs| <= |cfg|
    ensures var k := |decided| - 1;
            RunCalls(cfg, decided, inputs)
            == RunCalls(cfg, decided[..k], inputs[..k]) + CallsUpTo(cfg[k], k, decided[k], inputs[k])
  {
  }

  lemma RunCallsNext(cfg: seq<StepConfig>, decided: seq<nat>, inputs: seq<map<string, Value>>, n: nat,
                     m: map<string, Value>, base: seq<Call>)
    requires |decided| == |inputs| < |cfg|
    ensures base + RunCalls(cfg, decided + [n], inputs + [m])
            == base + RunCalls(cfg, decided, inputs) + CallsUpTo(cfg[|decided|], |decided|, n, m)
  {
    hide CallsUpTo, RunCalls;
    Appended(decided, n);
    Appended(inputs, m);
    RunCallsLast(cfg, decided + [n], inputs + [m]);
    Regroup(base, RunCalls(cfg, decided, inputs), CallsUpTo(cfg[|decided|], |decided|, n, m));
  }

  /** Step `k` is the last step called `name` that returned a result. */
  ghost predicate IsLatest(cfg: seq<StepConfig>, outcomes: seq<Option<Value>>, name: string, k: nat)
    requires |outcomes| <= |cfg|
  {
    && k < |outcomes| && outcomes[k].Some? && cfg[k].name == name
    && forall l :: k < l < |outcomes| ==> !(outcomes[l].Some? && cfg[l].name == name)
  }

  /** `payload.steps` holds exactly the results of the earlier steps, the latest for equal names. */
  ghost predicate LatestResults(cfg: seq<StepConfig>, outcomes: seq<Option<Value>>, m: map<string, Value>)
    requires |outcomes| <= |cfg|
  {
    && (forall name, k: nat :: IsLatest(cfg, outcomes, name, k) ==> name in m && m[name] == outcomes[k].value)
    && (forall name :: name in m ==> exists k: nat :: IsLatest(cfg, outcomes, name, k))
  }

  /** Every step received the results of the steps before it. */
  ghost predicate InputsLatest(cfg: seq<StepConfig>, outcomes: seq<Option<Value>>, inputs: seq<map<string, Value>>)
    requires |inputs| == |outcomes| <= |cfg|
  {
    forall k :: 0 <= k < |inputs| ==> LatestResults(cfg, outcomes[..k], inputs[k])
  }

  lemma InputsLatestNext(cfg: seq<StepConfig>, outcomes: seq<Option<Value>>, inputs: seq<map<string, Value>>,
                         v: Option<Value>, m: map<string, Value>)
    requires |inputs| == |outcomes| < |cfg|
    requires InputsLatest(cfg, outcomes, inputs) && LatestResults(cfg, outcomes, m)
    ensures InputsLatest(cfg, outcomes + [v], inputs + [m])
  {
    hide LatestResults;
    forall k | 0 <= k < |inputs + [m]|
      ensures LatestResults(cfg, (outcomes + [v])[..k], (inputs + [m])[k])
    {
      if k < |inputs| {
        assert (outcomes + [v])[..k] == outcomes[..k];
      } else {
        assert (outcomes + [v])[..k] == outcomes;
      }
    }
  }

  lemma LatestResultsNext(cfg: seq<StepConfig>, outcomes: seq<Option<Value>>, m: map<string, Value>, v: Option<Value>)
    requires |outcomes| < |cfg| && LatestResults(cfg, outcomes, m)
    ensures LatestResults(cfg, outcomes + [v], if v.Some? then m[cfg[|outcomes|].name := v.value] else m)
  {
    var i := |outcomes|;
    var next := outcomes + [v];
    var m' := if v.Some? then m[cfg[i].name := v.value] else m;
    forall name, k: nat | IsLatest(cfg, next, name, k)
      ensures name in m' && m'[name] == next[k].value
    {
      if k < i {
        assert !(next[i].Some? && cfg[i].name == name);
        assert IsLatest(cfg, outcomes, name, k) by {
          forall l | k < l < i ensures !(outcomes[l].Some? && cfg[l].name == name) {
            assert next[l] == outcomes[l];
          }
        }
      }
    }
    forall name | name in m'
      ensures exists k: nat :: IsLatest(cfg, next, name, k)
    {
      if v.Some? && name == cfg[i].name {
        assert IsLatest(cfg, next, name, i);
      } else {
        var k: nat :| IsLatest(cfg, outcomes, name, k);
        assert IsLatest(cfg, next, name, k);
      }
    }
  }

  lemma NothingRun(cfg: seq<StepConfig>, o: Oracle, rows: seq<StepRow>)
    requires |rows| == |cfg|
    ensures RunReport(cfg, o, [], [], rows, rows, false)
    ensures RunCalls(cfg, [], []) == []
    ensures LatestResults(cfg, [], map[]) && InputsLatest(cfg, [], [])
  {
  }

  /** The step loop has left `decided`: it fails exactly at a critical step that nothing settles. */
  ghost predicate Ran(cfg: seq<StepConfig>, o: Oracle, decided: seq<nat>, failed: bool) {
    && |decided| <= |cfg|
    && (forall k :: 0 <= k < |decided| ==> Decides(cfg[k], o, k, decided[k]))
    && (forall k :: 0 <= k < |decided| ==>
          (cfg[k].isCritical && !Wins(cfg[k], o, k, decided[k]) <==> failed && k == |decided| - 1))
    && (failed ==> decided != [])
  }

  /** What one round of the step loop does to the rows: `i` is decided at attempt `n` with result `v`. */
  ghost predicate StepReport(c: StepConfig, o: Oracle, i: nat, n: nat, v: Option<Value>,
                             rows: seq<StepRow>, rows': seq<StepRow>, failed: bool)
    requires i < |rows| == |rows'|
  {
    && Decides(c, o, i, n)
    && (failed <==> c.isCritical && !Wins(c, o, i, n))
    && rows'[i].attempts == n
    && rows'[i].status == (if Wins(c, o, i, n) then DecidedStatus(c, o, i, n)
                           else if failed then StepFailed else StepSkipped)
    && (Wins(c, o, i, n) ==> rows'[i].result == Some(v.GetOr(EmptyObject)))
    && (Wins(c, o, i, n) ==> if o.handler(i, n).Done? then v == o.handler(i, n).value else v.Some?)
    && (v.Some? ==> Wins(c, o, i, n))
    && forall k :: 0 <= k < |rows| && k != i ==>
         rows'[k] == if Compensates(c, o, i, n) then Compensated(rows[k]) else rows[k]
  }

  /** `b` and `s` are taken before and after the attempt loop; `rows'` is what the step loop then leaves. */
  lemma StepReported(c: StepConfig, o: Oracle, i: nat, n: nat, results: map<string, Value>, v: Option<Value>,
                     b: Snapshot, s: Snapshot, rows: seq<StepRow>, rows': seq<StepRow>, failed: bool)
    requires i < |rows| && b.rows == rows[i := rows[i].(status := StepRunning, attempts := 1)]
    requires Decides(c, o, i, n) && StepDone(c, o, i, n, results, v, b, s)
    requires failed <==> c.isCritical && !Wins(c, o, i, n)
    requires rows' == if Wins(c, o, i, n) || failed then s.rows else s.rows[i := s.rows[i].(status := StepSkipped)]
    requires !Wins(c, o, i, n) ==> v.None?
    ensures StepReport(c, o, i, n, v, rows, rows', failed)
  {
  }

  /** What a run has done to the rows `first`: the steps it has left are as `Reported`; of the others
      only those that an earlier run had completed may have changed, by compensation. */
  ghost predicate RunReport(cfg: seq<StepConfig>, o: Oracle, decided: seq<nat>, outcomes: seq<Option<Value>>,
                            first: seq<StepRow>, rows: seq<StepRow>, failed: bool)
  {
    && |decided| == |outcomes| <= |cfg| == |first| == |rows|
    && Ran(cfg, o, decided, failed)
    && (forall k :: 0 <= k < |decided| ==>
          Reported(cfg, o, decided, outcomes, k, rows[k], failed && k == |decided| - 1))
    && (forall k :: |decided| <= k < |cfg| ==>
          rows[k] == if CompensatedLater(cfg, o, decided, -1) then Compensated(first[k]) else first[k])
  }

  lemma RanNext(cfg: seq<StepConfig>, o: Oracle, decided: seq<nat>, n: nat, failed: bool)
    requires |decided| < |cfg| && Ran(cfg, o, decided, false) && Decides(cfg[|decided|], o, |decided|, n)
    requires failed <==> cfg[|decided|].isCritical && !Wins(cfg[|decided|], o, |decided|, n)
    ensures Ran(cfg, o, decided + [n], failed)
  {
  }

  /** One round of the step loop, on the report so far. */
  lemma RoundDone(cfg: seq<StepConfig>, o: Oracle, decided: seq<nat>, outcomes: seq<Option<Value>>,
                  first: seq<StepRow>, rows: seq<StepRow>, rows': seq<StepRow>, n: nat, v: Option<Value>, failed: bool)
    requires |decided| < |cfg| == |rows'|
    requires RunReport(cfg, o, decided, outcomes, first, rows, false)
    requires StepReport(cfg[|decided|], o, |decided|, n, v, rows, rows', failed)
    ensures RunReport(cfg, o, decided + [n], outcomes + [v], first, rows', failed)
  {
    hide Reported, Compensates, Compensated, Decides, DecidedStatus, Wins, Ran, CompensatedLater;
    RanNext(cfg, o, decided, n, failed);
    ReportedLast(cfg, o, decided, outcomes, n, v, rows'[|decided|], failed);
    forall k | 0 <= k < |decided|
      ensures Reported(cfg, o, decided + [n], outcomes + [v], k, rows'[k], false)
    {
      ReportedNext(cfg, o, decided, outcomes, n, v, k, rows[k]);
    }
    forall k | |decided| < k < |cfg|
      ensures rows'[k] == if CompensatedLater(cfg, o, decided + [n], -1) then Compensated(first[k]) else first[k]
    {
      CompensatedLaterNext(cfg, o, decided, n, -1);
      CompensatedTwice(first[k]);
    }
  }

  lemma CompensatedTwice(row: StepRow)
    ensures Compensated(Compensated(row)) == Compensated(row)
  {
  }

  /** The rows after the steps `ks` are marked one by one. */
  function CompensateEach(rows: seq<StepRow>, ks: seq<nat>): (out: seq<StepRow>)
    requires forall n :: 0 <= n < |ks| ==> ks[n] < |rows|
    ensures |out| == |rows|
    ensures forall k :: 0 <= k < |rows| ==>
      out[k] == if k in ks then rows[k].(status := StepCompensated) else rows[k]
  {
    if ks == [] then rows
    else
      var k := ks[|ks| - 1];
      var done := CompensateEach(rows, ks[..|ks| - 1]);
      assert ks == ks[..|ks| - 1] + [k];
      done[k := done[k].(status := StepCompensated)]
  }

  lemma CompensateEachIsAll(rows: seq<StepRow>)
    ensures CompensateEach(rows, CompletedSteps(rows)) == CompensateAll(rows)
  {
  }

  lemma CompensateOneMore(rows: seq<StepRow>, ks: seq<nat>, n: nat)
    requires n < |ks| && forall k :: 0 <= k < |ks| ==> ks[k] < |rows|
    ensures var done := CompensateEach(rows, ks[..n]);
            CompensateEach(rows, ks[..n + 1]) == done[ks[n] := done[ks[n]].(status := StepCompensated)]
  {
    assert ks[..n + 1][..n] == ks[..n];
  }

  lemma AppendNext<T>(base: seq<T>, s: seq<T>, n: nat)
    requires n < |s|
    ensures base + s[..n + 1] == base + s[..n] + [s[n]]
  {
  }
}
