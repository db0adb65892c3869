/** What a run has done to a job's rows at every moment of every interleaving, up to its end. */
module Progress {
  import opened Types
  import opened Audit
  import opened JobMachine
  import opened RunSpec
  import opened RunLaws
  import opened Protocol

  /** A step that the run has left: some allowed attempt was its last, it is settled, and if it is
      critical it is SKIPPED only where the policy says SKIP and that attempt was not the last. */
  predicate LeftRow(c: StepConfig, row: StepRow) {
    && Settled(row)
    && 1 <= row.attempts <= MaxAttempts(c)
    && (c.isCritical && row.status == StepSkipped ==>
          c.policy.Some? && c.policy.value.strategy == Skip && row.attempts <= c.policy.value.maxRetries)
  }

  /** A step that the run has not reached: as `base` has it, or compensated since. */
  predicate NotReached(base: StepRow, row: StepRow) {
    row == base || row == Compensated(base)
  }

  ghost predicate Around(base: JobRec, r: JobRec, lo: nat, hi: nat)
    requires |base.steps| == |r.steps| == |r.cfg|
  {
    && (forall k :: 0 <= k < lo && k < |r.steps| ==> LeftRow(r.cfg[k], r.steps[k]))
    && (forall k :: hi <= k < |r.steps| ==> NotReached(base.steps[k], r.steps[k]))
  }

  /** The strategy in the place is the one selected for the attempt. */
  predicate Chosen(c: StepConfig, x: Failure, at: Stage) {
    var s := SelectStrategy(c.policy, x.a);
    match at
    case Selecting => true
    case Dispatching(chosen) => chosen == s
    case Compensating(_, _) => s == Compensate
    case Seeking(out) => out.strategy == s
    case Opening(out) => out.strategy == s
    case Linking(out, _) => out.strategy == s
    case Concluding(out) => out.strategy == s
    case Reviewing(out) => out.strategy == s
  }

  /** The steps to compensate are COMPLETED, and each is listed once. */
  predicate StillCompleted(r: JobRec, todo: seq<nat>) {
    && (forall n :: 0 <= n < |todo| ==> todo[n] < |r.steps| && r.steps[todo[n]].status == StepCompleted)
    && (forall m, n :: 0 <= m < n < |todo| ==> todo[m] < todo[n])
  }

  predicate CancelledSince(base: JobRec, r: JobRec) {
    exists n :: |base.log| <= n < |r.log| && r.log[n] == LogJobCancelled
  }

  predicate Begun(pc: Pc) {
    !pc.Claimed? && !pc.Starting? && !pc.Released?
  }

  /** What the run of a worker that has taken the job with rows `base` has done when it stands at `pc`. */
  ghost predicate Progressed(base: JobRec, r: JobRec, pc: Pc) {
    && Fits(r, pc) && r.cfg == base.cfg && |r.steps| == |base.steps| && |base.log| <= |r.log|
    && (Begun(pc) && r.status == JobCancelled ==> CancelledSince(base, r))
    && match pc
       case Claimed => r.steps == base.steps
       case Starting => r.steps == base.steps
       case Boundary(i) => Around(base, r, i, i)
       case Entering(i) => Around(base, r, i, i)
       case Attempting(i, _, _) => Around(base, r, i, i + 1)
       case InRecovery(x, at) =>
         && Around(base, r, x.i, x.i + 1) && Chosen(r.cfg[x.i], x, at)
         && (at.Compensating? ==> StillCompleted(r, at.todo))
       case Exhausted(i) => Around(base, r, i, i + 1) && Spent(r, i)
       case DeadLettering(i) => Around(base, r, i, i + 1) && Spent(r, i) && r.cfg[i].isCritical
       case Finishing => exists n: nat :: FinishedAt(base, r, n)
       case Trailing => true
       case Released => true
  }

  /** Step `i` is FAILED, and it was the last allowed attempt that failed. */
  predicate Spent(r: JobRec, i: nat) {
    i < |r.steps| && i < |r.cfg| && r.steps[i].status == StepFailed && r.steps[i].attempts == MaxAttempts(r.cfg[i])
  }

  /** The step loop ended at boundary `n`: after the last step, or at a cancellation written meanwhile. */
  ghost predicate FinishedAt(base: JobRec, r: JobRec, n: nat)
    requires |base.steps| == |r.steps| == |r.cfg|
  {
    n <= |r.cfg| && Around(base, r, n, n) && (n < |r.cfg| ==> CancelledSince(base, r))
  }

  // ---- One action ----

  lemma LongerLog(base: JobRec, r: JobRec, r': JobRec)
    requires r.log <= r'.log
    ensures CancelledSince(base, r) ==> CancelledSince(base, r')
  {
    if CancelledSince(base, r) {
      var n :| |base.log| <= n < |r.log| && r.log[n] == LogJobCancelled;
      assert r'.log[n] == LogJobCancelled;
    }
  }

  /** Only an operator's write makes the status CANCELLED. */
  lemma StepNeverCancels(r: JobRec, pc: Pc, c: Attempted)
    requires Fits(r, pc)
    ensures var (r', pc') := Step(r, pc, c);
            && r.log <= r'.log && r'.cfg == r.cfg && |r'.steps| == |r.steps|
            && (r'.status == JobCancelled ==> r.status == JobCancelled)
            && (pc.Starting? ==> r'.status == JobRunning)
  {
    StepLogs(r, pc, c);
  }

  lemma RecoveryProgresses(base: JobRec, r: JobRec, pc: Pc, c: Attempted)
    requires Progressed(base, r, pc) && FailureStored(r, pc) && pc.InRecovery? && !pc.at.Reviewing?
    ensures var (r', pc') := Step(r, pc, c);
            && Around(base, r', pc.x.i, pc.x.i + 1)
            && pc'.InRecovery? && pc'.x == pc.x && Chosen(r'.cfg[pc.x.i], pc.x, pc'.at)
            && (pc'.at.Compensating? ==> StillCompleted(r', pc'.at.todo))
  {
  }

  lemma ReviewProgresses(base: JobRec, r: JobRec, pc: Pc, c: Attempted)
    requires Progressed(base, r, pc) && FailureStored(r, pc) && pc.InRecovery? && pc.at.Reviewing?
    ensures var (r', pc') := Step(r, pc, c);
            match pc'
            case Boundary(i) => Around(base, r', i, i)
            case Attempting(i, _, _) => Around(base, r', i, i + 1)
            case Exhausted(i) => Around(base, r', i, i + 1) && Spent(r', i)
            case _ => false
  {
  }

  lemma StepProgresses(base: JobRec, r: JobRec, pc: Pc, c: Attempted)
    requires JobInv(r, pc) && Progressed(base, r, pc)
    ensures var (r', pc') := Step(r, pc, c); Progressed(base, r', pc')
  {
    var (r', pc') := Step(r, pc, c);
    StepNeverCancels(r, pc, c);
    LongerLog(base, r, r');
    if pc.InRecovery? {
      if pc.at.Reviewing? {
        ReviewProgresses(base, r, pc, c);
      } else {
        RecoveryProgresses(base, r, pc, c);
      }
    } else if pc.Boundary? && pc'.Finishing? {
      assert FinishedAt(base, r', pc.i);
    }
  }

  lemma OperateProgresses(base: JobRec, r: JobRec, pc: Pc, op: Op)
    requires Progressed(base, r, pc)
    ensures Progressed(base, Operate(r, op), pc)
  {
    var r' := Operate(r, op);
    LongerLog(base, r, r');
    if op.Cancel? {
      assert r'.log[|r.log|] == LogJobCancelled;
    }
    if pc.Finishing? {
      var n: nat :| FinishedAt(base, r, n);
      assert FinishedAt(base, r', n);
    }
  }

  lemma {:induction false} ExecutionProgresses(base: JobRec, events: seq<Event>)
    requires JobInv(base, Claimed)
    ensures var (r, pc) := Execution(base, Claimed, events); JobInv(r, pc) && Progressed(base, r, pc)
  {
    if events == [] {
    } else {
      var last := |events| - 1;
      var (r, pc) := Execution(base, Claimed, events[..last]);
      ExecutionProgresses(base, events[..last]);
      hide JobInv, Progressed, Step, Operate;
      match events[last] {
        case Act(c) => StepKeepsJobInv(r, pc, c); StepProgresses(base, r, pc, c);
        case Operation(op) => OperateKeepsJobInv(r, pc, op); OperateProgresses(base, r, pc, op);
      }
    }
  }

  // ---- Every interleaving ----

  /** Worker `w` takes job `j` after `before` and still owns it after `acts`, whatever the others do. The
      steps it has left are settled, each by an allowed attempt; the steps it has not reached are as they
      were or compensated; where it dead-letters the job, a critical step has lost every allowed attempt;
      where it completes the job, every step is settled unless a cancellation was logged meanwhile. */
  lemma RunInEveryInterleaving(before: seq<Action>, acts: seq<Action>, j: nat, w: nat)
    requires Admits(INIT, before) && Admits(After(INIT, before), acts) && Owns(After(INIT, before), acts, j, w)
    requires After(INIT, before).workers[w].pc == Claimed
    ensures var s := After(INIT, before);
            var t := After(s, acts);
            && j in s.jobs && j in t.jobs && w in t.workers
            && Progressed(s.jobs[j], t.jobs[j], t.workers[w].pc)
  {
    var s := After(INIT, before);
    InitInv();
    RunKeepsInv(INIT, before);
    var events := InterleavingIsExecution(s, acts, j, w);
    ExecutionProgresses(s.jobs[j], events);
  }

  /** What the end of the run therefore means. */
  lemma EndOfRun(base: JobRec, r: JobRec, pc: Pc)
    requires Progressed(base, r, pc) && (pc.DeadLettering? || pc.Finishing?)
    ensures pc.DeadLettering? ==>
      && pc.i < |r.steps| && r.cfg[pc.i].isCritical && r.steps[pc.i].status == StepFailed
      && r.steps[pc.i].attempts == MaxAttempts(r.cfg[pc.i])
      && (forall k :: 0 <= k < pc.i ==> Settled(r.steps[k]))
      && (forall k :: pc.i < k < |r.steps| ==> NotReached(base.steps[k], r.steps[k]))
    ensures pc.Finishing? && !CancelledSince(base, r) ==>
      forall k :: 0 <= k < |r.steps| ==> LeftRow(r.cfg[k], r.steps[k])
  {
    if pc.Finishing? {
      var n: nat :| FinishedAt(base, r, n);
    }
  }
}
