/** What follows from what a run amounts to: its outcome, compensation, budgets and accounting. */
module RunLaws {
  import opened Types
  import opened JobMachine
  import opened Backoff
  import opened RunSpec

  // ---- What a run amounts to ----

  /** No attempt that the policy allows settles step `i`. */
  ghost predicate Hopeless(c: StepConfig, o: Oracle, i: nat) {
    forall a :: 1 <= a <= MaxAttempts(c) ==> !Wins(c, o, i, a)
  }

  /** A step run succeeds iff some attempt wins, whichever attempt decides it. */
  lemma SettledIffSomeAttemptWins(c: StepConfig, o: Oracle, i: nat, n: nat)
    requires Decides(c, o, i, n)
    ensures Wins(c, o, i, n) <==> !Hopeless(c, o, i)
  {
  }

  predicate Settled(row: StepRow) {
    row.status == StepCompleted || row.status == StepSkipped || row.status == StepCompensated
  }

  /** A run that does not stop at a cancellation fails iff no attempt settles some critical step. It
      then fails at the first such step: that step is FAILED, the steps before it are settled and the
      steps after it were never started. Otherwise every step is settled. */
  lemma RunOutcome(cfg: seq<StepConfig>, o: Oracle, decided: seq<nat>, outcomes: seq<Option<Value>>,
                   first: seq<StepRow>, rows: seq<StepRow>, failed: bool)
    requires RunReport(cfg, o, decided, outcomes, first, rows, failed) && (failed || |decided| == |cfg|)
    ensures failed <==> exists k :: 0 <= k < |cfg| && cfg[k].isCritical && Hopeless(cfg[k], o, k)
    ensures failed ==>
      var k := |decided| - 1;
      && cfg[k].isCritical && Hopeless(cfg[k], o, k) && rows[k].status == StepFailed
      && (forall m :: 0 <= m < k ==> !(cfg[m].isCritical && Hopeless(cfg[m], o, m)) && Settled(rows[m]))
      && (forall m :: k < m < |cfg| ==> rows[m] == first[m] || rows[m] == Compensated(first[m]))
    ensures !failed ==> forall k :: 0 <= k < |cfg| ==> Settled(rows[k])
  {
  }

  /** Once COMPENSATE decides step `m`, no earlier step is left COMPLETED by that run: one that an
      attempt had completed is COMPENSATED, one that was skipped stays SKIPPED. */
  lemma SagaCut(cfg: seq<StepConfig>, o: Oracle, decided: seq<nat>, outcomes: seq<Option<Value>>,
                first: seq<StepRow>, rows: seq<StepRow>, failed: bool, m: nat, k: nat)
    requires RunReport(cfg, o, decided, outcomes, first, rows, failed)
    requires k < m < |decided| && Compensates(cfg[m], o, m, decided[m])
    ensures rows[k].status != StepCompleted
    ensures rows[k].status == StepCompensated <==>
              Wins(cfg[k], o, k, decided[k]) && DecidedStatus(cfg[k], o, k, decided[k]) != StepSkipped
  {
    assert CompensatedLater(cfg, o, decided, k);
    hide Ran, CompensatedLater, Compensates;
    assert Reported(cfg, o, decided, outcomes, k, rows[k], false);
  }

  /** COMPENSATE marks the COMPLETED steps and no others. */
  lemma CompensationExact(rows: seq<StepRow>, k: nat)
    requires k < |rows|
    ensures CompensateAll(rows)[k].status == StepCompensated <==>
              rows[k].status == StepCompleted || rows[k].status == StepCompensated
    ensures rows[k].status != StepCompleted ==> CompensateAll(rows)[k] == rows[k]
    ensures k in CompletedSteps(rows) <==> rows[k].status == StepCompleted
  {
  }

  /** Step `m` was won by recovery under a COMPENSATE policy. */
  ghost predicate RollsBack(cfg: seq<StepConfig>, o: Oracle, decided: seq<nat>, m: nat)
    requires m < |decided| <= |cfg|
  {
    && o.handler(m, decided[m]).Broke?
    && cfg[m].policy.Some? && cfg[m].policy.value.strategy == Compensate
    && decided[m] <= cfg[m].policy.value.maxRetries
  }

  /** The status of every step that a run has left, by its policy: SKIPPED if no attempt won or SKIP
      did, else COMPENSATED if a later step rolled back, else COMPLETED. */
  lemma RowsByPolicy(cfg: seq<StepConfig>, o: Oracle, decided: seq<nat>, outcomes: seq<Option<Value>>,
                     first: seq<StepRow>, rows: seq<StepRow>, failed: bool, k: nat)
    requires RunReport(cfg, o, decided, outcomes, first, rows, failed)
    requires k < |decided| && !(failed && k == |decided| - 1)
    ensures rows[k].status ==
              if !Wins(cfg[k], o, k, decided[k]) then StepSkipped
              else if o.handler(k, decided[k]).Broke? && cfg[k].policy.value.strategy == Skip then StepSkipped
              else if exists m :: k < m < |decided| && RollsBack(cfg, o, decided, m) then StepCompensated
              else StepCompleted
  {
    assert Reported(cfg, o, decided, outcomes, k, rows[k], false);
    RollsBackIsCompensates(cfg, o, decided, k);
  }

  lemma RollsBackIsCompensates(cfg: seq<StepConfig>, o: Oracle, decided: seq<nat>, k: int)
    requires |decided| <= |cfg| && k >= -1
    ensures CompensatedLater(cfg, o, decided, k) <==> exists m :: k < m < |decided| && RollsBack(cfg, o, decided, m)
  {
    if CompensatedLater(cfg, o, decided, k) {
      var m :| k < m < |decided| && 0 <= m && Compensates(cfg[m], o, m, decided[m]);
      assert RollsBack(cfg, o, decided, m);
    }
    if m: nat :| k < m < |decided| && RollsBack(cfg, o, decided, m) {
      assert Compensates(cfg[m], o, m, decided[m]);
    }
  }

  /** A run in which no step rolls back leaves no step newly COMPENSATED. */
  lemma NoRollbackNoCompensation(cfg: seq<StepConfig>, o: Oracle, decided: seq<nat>, outcomes: seq<Option<Value>>,
                                 first: seq<StepRow>, rows: seq<StepRow>, failed: bool)
    requires RunReport(cfg, o, decided, outcomes, first, rows, failed)
    requires forall m :: 0 <= m < |decided| ==> !RollsBack(cfg, o, decided, m)
    ensures forall k :: 0 <= k < |cfg| && rows[k].status == StepCompensated ==> |decided| <= k && rows[k] == first[k]
  {
    RollsBackIsCompensates(cfg, o, decided, -1);
    forall k | 0 <= k < |decided| && rows[k].status == StepCompensated
      ensures false
    {
      assert Reported(cfg, o, decided, outcomes, k, rows[k], failed && k == |decided| - 1);
      RollsBackIsCompensates(cfg, o, decided, k);
    }
  }

  lemma NoneToCompensate(rows: seq<StepRow>, from: nat)
    requires from <= |rows| && forall k :: 0 <= k < |rows| ==> rows[k].status != StepCompleted
    ensures CompletedSteps(rows, from) == []
    decreases |rows| - from
  {
  }

  /** COMPENSATE leaves nothing to compensate: a second one finds no step and changes none. */
  lemma CompensateLeavesNone(rows: seq<StepRow>)
    ensures CompletedSteps(CompensateAll(rows)) == []
    ensures CompensateAll(CompensateAll(rows)) == CompensateAll(rows)
  {
    forall k | 0 <= k < |rows|
      ensures CompensateAll(rows)[k].status != StepCompleted
    {
      CompensationExact(rows, k);
    }
    NoneToCompensate(CompensateAll(rows), 0);
  }

  // ---- Budgets ----

  function Sum(ns: seq<nat>): nat {
    if ns == [] then 0 else Sum(ns[..|ns| - 1]) + ns[|ns| - 1]
  }

  /** The attempts that the policies of the first `n` steps allow in all. */
  function Budget(cfg: seq<StepConfig>, n: nat): nat
    requires n <= |cfg|
  {
    if n == 0 then 0 else Budget(cfg, n - 1) + MaxAttempts(cfg[n - 1])
  }

  lemma {:induction false} RunCallsLength(cfg: seq<StepConfig>, decided: seq<nat>, inputs: seq<map<string, Value>>)
    requires |decided| == |inputs| <= |cfg|
    ensures |RunCalls(cfg, decided, inputs)| == Sum(decided)
  {
    if decided != [] {
      RunCallsLength(cfg, decided[..|decided| - 1], inputs[..|decided| - 1]);
    }
  }

  /** A run makes at most `maxRetries + 1` handler calls a step, one where there is no policy. */
  lemma HandlerBudget(cfg: seq<StepConfig>, o: Oracle, decided: seq<nat>, inputs: seq<map<string, Value>>, failed: bool)
    requires Ran(cfg, o, decided, failed) && |inputs| == |decided|
    ensures |RunCalls(cfg, decided, inputs)| <= Budget(cfg, |cfg|)
  {
    RunCallsLength(cfg, decided, inputs);
    SumWithinBudget(cfg, o, decided);
    BudgetGrows(cfg, |decided|, |cfg|);
  }

  lemma {:induction false} SumWithinBudget(cfg: seq<StepConfig>, o: Oracle, decided: seq<nat>)
    requires |decided| <= |cfg| && forall k :: 0 <= k < |decided| ==> Decides(cfg[k], o, k, decided[k])
    ensures Sum(decided) <= Budget(cfg, |decided|)
  {
    if decided != [] {
      var prefix := decided[..|decided| - 1];
      SumWithinBudget(cfg, o, prefix);
      assert Decides(cfg[|prefix|], o, |prefix|, decided[|prefix|]);
    }
  }

  lemma {:induction false} BudgetGrows(cfg: seq<StepConfig>, m: nat, n: nat)
    requires m <= n <= |cfg|
    ensures Budget(cfg, m) <= Budget(cfg, n)
  {
    if m < n {
      BudgetGrows(cfg, m, n - 1);
    }
  }

  /** Real and simulated executions of a RETRY step: at most `2 * maxRetries + 1`, and exactly that
      many iff every execution before the last failed. */
  lemma ExecutionBudget(c: StepConfig, o: Oracle, i: nat, n: nat)
    requires Decides(c, o, i, n) && c.policy.Some?
    requires c.policy.value.strategy == Retry || c.policy.value.strategy == RetryWithDelay
    ensures var most := 2 * c.policy.value.maxRetries + 1;
            var made := n + Simulations(c, Broken(o, i, n));
            && made <= most
            && (made == most <==>
                  forall a :: 1 <= a <= c.policy.value.maxRetries ==> o.handler(i, a).Broke? && o.external(i, a).Broke?)
            && (!Wins(c, o, i, n) ==> made == most)
  {
    var r := c.policy.value.maxRetries;
    if n <= r {
      assert Wins(c, o, i, n);
    } else {
      forall a | 1 <= a <= r
        ensures o.handler(i, a).Broke? && o.external(i, a).Broke?
      {
        assert !Wins(c, o, i, a);
      }
    }
  }

  lemma FallbackBudget(c: StepConfig, o: Oracle, i: nat, n: nat)
    requires Decides(c, o, i, n) && c.policy.Some? && c.policy.value.strategy == Fallback
    ensures n <= c.policy.value.maxRetries + 1
    ensures FallbackCalls(c, Broken(o, i, n)) <= n
    ensures FallbackCalls(c, Broken(o, i, n)) == n <==> o.handler(i, n).Broke?
  {
  }

  /** A step sleeps only under RETRY_WITH_DELAY: then, for every retry that its failures used, at most 5 s
      and at least ninety percent of that retry's delay or 5 s, and in all at most the jittered geometric
      sum of its delays plus rounding. */
  lemma StepSleepCapped(c: StepConfig, o: Oracle, i: nat, n: nat)
    requires Decides(c, o, i, n) && (c.policy.Some? ==> c.policy.value.backoffMultiplier >= 0.0)
    ensures var slept := Sleeps(c, o, i, Broken(o, i, n));
            && (c.policy.None? || c.policy.value.strategy != RetryWithDelay ==> slept == 0)
            && (c.policy.Some? && c.policy.value.strategy == RetryWithDelay ==>
                  var p := c.policy.value;
                  var used := if Broken(o, i, n) <= p.maxRetries then Broken(o, i, n) else p.maxRetries;
                  && LeastTotal(used, p.retryDelayMs, p.backoffMultiplier) <= slept
                  && 0 <= slept <= 5000 * used
                  && slept as real <= 1.1 * Scale(p.retryDelayMs, Geometric(p.backoffMultiplier, p.maxRetries))
                                   + 0.5 * p.maxRetries as real)
  {
    if c.policy.Some? && c.policy.value.strategy == RetryWithDelay {
      var p := c.policy.value;
      var k := Simulations(c, Broken(o, i, n));
      TotalSleepCapped(k, p.retryDelayMs, p.backoffMultiplier, JitterOf(o, i));
      TotalSleepAtLeast(k, p.retryDelayMs, p.backoffMultiplier, JitterOf(o, i));
      TotalSleepGeometric(k, p.retryDelayMs, p.backoffMultiplier, JitterOf(o, i));
      GeometricGrows(p.retryDelayMs, p.backoffMultiplier, k, p.maxRetries);
    }
  }

  // ---- Accounting ----

  /** Every failure is detected once, recovered from once and recorded once. */
  lemma RecoveryAccounting(c: StepConfig, o: Oracle, i: nat, n: nat, t: Tally, compensated: seq<nat>)
    requires Decides(c, o, i, n)
    ensures var s := StepTally(c, o, i, n, t, compensated);
            && s.detected - t.detected == Broken(o, i, n)
            && s.started - t.started == Broken(o, i, n)
            && s.succeeded - t.succeeded + s.failed - t.failed == Broken(o, i, n)
            && s.succeeded - t.succeeded == (if Wins(c, o, i, n) && o.handler(i, n).Broke? then 1 else 0)
            && t.switched <= s.switched <= t.switched + 1
  {
  }

  /** ESCALATED entries of a step that nothing settles. */
  lemma EscalationAccounting(c: StepConfig, o: Oracle, i: nat, n: nat, t: Tally, compensated: seq<nat>)
    requires Decides(c, o, i, n) && !Wins(c, o, i, n)
    ensures n == MaxAttempts(c)
    ensures StepTally(c, o, i, n, t, compensated).escalated - t.escalated ==
            if c.policy.None? then 1
            else if c.policy.value.strategy == Fallback then 0
            else if c.policy.value.strategy == Escalate then c.policy.value.maxRetries + 1
            else 1
  {
  }

  /** APPROVAL_REQUESTED is logged under PAUSE_FOR_HUMAN only: once for each failure that is retried. */
  lemma ApprovalAccounting(c: StepConfig, o: Oracle, i: nat, n: nat, t: Tally, compensated: seq<nat>)
    requires Decides(c, o, i, n)
    ensures StepTally(c, o, i, n, t, compensated).approvals - t.approvals ==
            if c.policy.None? || c.policy.value.strategy != PauseForHuman then 0
            else if Broken(o, i, n) <= c.policy.value.maxRetries then Broken(o, i, n)
            else c.policy.value.maxRetries
  {
  }

  /** SKIP and COMPENSATE win at the first failure if a retry is allowed; without one they are
      turned into ESCALATE and never win. */
  lemma SkipNeedsARetry(c: StepConfig, o: Oracle, i: nat)
    requires c.policy.Some? && (c.policy.value.strategy == Skip || c.policy.value.strategy == Compensate)
    requires o.handler(i, 1).Broke?
    ensures Recovers(c, o, i, 1) <==> c.policy.value.maxRetries >= 1
    ensures c.policy.value.maxRetries == 0 ==> Hopeless(c, o, i)
  {
  }
}
