/** Runs from the empty system in which the documentation's promises are seen to fail. */
module Witnesses {
  import opened Types
  import opened Audit
  import opened JobMachine
  import opened Protocol

  /** After `acts` job 0 has the rows `r`, and worker 0 owns it and stands at `pc`. */
  ghost predicate At(acts: seq<Action>, r: JobRec, pc: Pc) {
    && Admits(INIT, acts)
    && var s := After(INIT, acts);
       && 0 in s.jobs && s.jobs[0] == r && Fits(r, pc)
       && 0 in s.workers && s.workers[0] == Busy(0, pc)
       && 0 in s.token && s.token[0] == AtWorker(0) && s.dead == map[]
  }

  lemma Begin(cfg: seq<StepConfig>) returns (acts: seq<Action>)
    requires cfg != []
    ensures At(acts, NewJob(0, 0, None, cfg), Claimed)
  {
    assert Admits(INIT, []) && After(INIT, []) == INIT;
    hide Admits, After, NewJob;
    AfterNext(INIT, [], Create(0, 0, 0, None, cfg));
    acts := [] + [Create(0, 0, 0, None, cfg)];
    AfterNext(INIT, acts, Enqueue(0, 0));
    acts := acts + [Enqueue(0, 0)];
    AfterNext(INIT, acts, Take(0, 0));
    acts := acts + [Take(0, 0)];
    assert Fits(NewJob(0, 0, None, cfg), Claimed) by {
      NewJobFits(cfg);
    }
  }

  lemma NewJobFits(cfg: seq<StepConfig>)
    ensures Fits(NewJob(0, 0, None, cfg), Claimed)
  {
  }

  /** Worker 0 does its next action and keeps the job. */
  lemma Go(acts: seq<Action>, r: JobRec, pc: Pc, c: Attempted) returns (more: seq<Action>)
    requires At(acts, r, pc) && Owning(pc) && !pc.DeadLettering? && !Step(r, pc, c).1.Released?
    ensures Fits(r, pc) && At(more, Step(r, pc, c).0, Step(r, pc, c).1)
  {
    hide Step, Fits;
    AfterNext(INIT, acts, Work(0, c, 0));
    more := acts + [Work(0, c, 0)];
  }

  /** Worker 0 does its last action. */
  lemma GoHome(acts: seq<Action>, r: JobRec, pc: Pc, c: Attempted) returns (more: seq<Action>)
    requires At(acts, r, pc) && Owning(pc) && !pc.DeadLettering? && Step(r, pc, c).1.Released?
    ensures Admits(INIT, more)
    ensures var s := After(INIT, more); 0 in s.jobs && s.jobs[0] == Step(r, pc, c).0 && 0 !in s.workers
  {
    hide Step, Fits;
    AfterNext(INIT, acts, Work(0, c, 0));
    more := acts + [Work(0, c, 0)];
  }

  /** A step under `policy` whose first attempt has begun. */
  ghost predicate Trying(r: JobRec, c: StepConfig) {
    && r.cfg == [c] && r.status == JobRunning && r.incidents == [] && |r.steps| == 1
    && r.steps[0].status == StepRunning && r.steps[0].attempts == 1
  }

  lemma FirstAttempt(c: StepConfig) returns (acts: seq<Action>, r: JobRec)
    ensures At(acts, r, Attempting(0, 1, NO_HINT)) && Trying(r, c)
  {
    hide At;
    acts := Begin([c]);
    r := NewJob(0, 0, None, [c]);
    var go := Done(None);
    acts := Go(acts, r, Claimed, go);
    acts := Go(acts, r, Starting, go);
    r := MarkStarted(r);
    acts := Go(acts, r, Boundary(0), go);
    acts := Go(acts, r, Entering(0), go);
    r := MarkStepRunning(r, 0);
  }

  const FAILURE := Failure(0, 1, NO_HINT, Timeout)

  /** The first attempt has failed and recovery has selected its strategy. */
  ghost predicate Failed(r: JobRec, c: StepConfig) {
    && r.cfg == [c] && r.incidents == [] && |r.steps| == 1
    && r.steps[0].status == StepFailed && r.steps[0].attempts == 1
  }

  lemma FirstFailure(c: StepConfig) returns (acts: seq<Action>, r: JobRec)
    ensures At(acts, r, InRecovery(FAILURE, Dispatching(SelectStrategy(c.policy, 1)))) && Failed(r, c)
  {
    hide At, SelectStrategy;
    acts, r := FirstAttempt(c);
    acts := Go(acts, r, Attempting(0, 1, NO_HINT), Broke(Timeout));
    r := RecordFailure(r, 0, 1, Timeout);
    acts := Go(acts, r, InRecovery(FAILURE, Selecting), Done(None));
    r := Logged(r, LogRecoveryStarted(SelectStrategy(c.policy, 1), 1));
  }

  /** The bookkeeping of a recovery of that failure. */
  lemma Booked(acts: seq<Action>, r: JobRec, out: Recovered) returns (more: seq<Action>, r': JobRec)
    requires At(acts, r, InRecovery(FAILURE, Seeking(out))) && r.incidents == []
    ensures At(more, r', InRecovery(FAILURE, Reviewing(out)))
    ensures r'.cfg == r.cfg && r'.steps == r.steps && r'.incidents == [Incident(0, Timeout, false, false, 1)]
    ensures LogEscalated in r.log ==> LogEscalated in r'.log
  {
    hide At;
    var go := Done(None);
    r' := r;
    more := Go(acts, r', InRecovery(FAILURE, Seeking(out)), go);
    more := Go(more, r', InRecovery(FAILURE, Opening(out)), go);
    r' := OpenIncident(r', FAILURE);
    more := Go(more, r', InRecovery(FAILURE, Linking(out, 0)), go);
    r' := LinkAttempt(r', FAILURE, out, 0);
    more := Go(more, r', InRecovery(FAILURE, Concluding(out)), go);
    r' := Conclude(r', out);
  }

  /** The row of step 0 and what the log tells of it differ. */
  ghost predicate LogMisses(acts: seq<Action>) {
    && Admits(INIT, acts)
    && var s := After(INIT, acts);
       && 0 in s.jobs && |s.jobs[0].steps| == 1
       && |Replay(s.jobs[0].cfg, s.jobs[0].log).rows| == 1
       && Replay(s.jobs[0].cfg, s.jobs[0].log).rows[0].status != s.jobs[0].steps[0].status
  }

  lemma WindowMisses(acts: seq<Action>, r: JobRec, pc: Pc)
    requires At(acts, r, pc) && InWindow(pc, 0) && |r.steps| == 1
    ensures LogMisses(acts)
  {
    LogTellsHistory(acts, 0);
    assert OwnerPc(After(INIT, acts), 0) == pc;
  }

  /** The window of SKIP is reached: the row says SKIPPED and the log still says FAILED. */
  lemma SkipWindowIsReached()
    ensures exists acts :: LogMisses(acts)
                           && After(INIT, acts).jobs[0].steps[0].status == StepSkipped
  {
    var c := StepConfig("step", false, Some(Policy(Skip, 1, None, 0, 1.0)), None);
    var acts, r := FirstFailure(c);
    var out := Recovered(true, Skip, Some(SkippedMark), None);
    acts := Go(acts, r, InRecovery(FAILURE, Dispatching(Skip)), Done(None));
    WindowMisses(acts, SetStatus(r, 0, StepSkipped), InRecovery(FAILURE, Seeking(out)));
  }

  /** The window of the other strategies is reached: the log says COMPLETED and the row still says FAILED. */
  lemma CompletedWindowIsReached()
    ensures exists acts :: LogMisses(acts)
                           && After(INIT, acts).jobs[0].steps[0].status == StepFailed
  {
    var c := StepConfig("step", false, Some(Policy(Retry, 1, None, 0, 1.0)), None);
    var acts, r := FirstFailure(c);
    var out := Recovered(true, Retry, None, None);
    acts := Go(acts, r, InRecovery(FAILURE, Dispatching(Retry)), Done(None));
    acts, r := Booked(acts, r, out);
    WindowMisses(acts, r, InRecovery(FAILURE, Reviewing(out)));
  }

  /** A reachable place at which a cancellation between FAILURE_DETECTED and the writes after it leaves
      the log with CANCELLED and the job with RETRYING. */
  lemma SplitFailureMisleads()
    ensures exists acts, r ::
              && At(acts, r, Attempting(0, 1, NO_HINT)) && |r.cfg| == 1
              && var r' := RecordFailureApart(r, 0, 1, Timeout, Cancel);
                 Replay(r'.cfg, r'.log).status == JobCancelled && r'.status == JobRetrying
  {
    var c := StepConfig("step", false, Some(Policy(Retry, 1, None, 0, 1.0)), None);
    var acts, r := FirstAttempt(c);
    var detected := r.log + [LogFailureDetected(1, Timeout)];
    ReplayAppend(r.cfg, detected, LogJobCancelled);
    assert RecordFailureApart(r, 0, 1, Timeout, Cancel).log == detected + [LogJobCancelled];
  }

  /** The job is COMPLETED, its step was escalated, and the step's open incident is not flagged. */
  ghost predicate EscalatedUnflagged(acts: seq<Action>) {
    && Admits(INIT, acts)
    && var s := After(INIT, acts);
       && 0 in s.jobs && 0 !in s.workers && s.jobs[0].status == JobCompleted
       && LogEscalated in s.jobs[0].log
       && s.jobs[0].incidents == [Incident(0, Timeout, false, false, 1)]
  }

  const PLAIN := StepConfig("step", false, None, None)

  lemma Escalated() returns (acts: seq<Action>, r: JobRec)
    ensures At(acts, r, InRecovery(FAILURE, Reviewing(Failing(Escalate))))
    ensures r.cfg == [PLAIN] && |r.steps| == 1
    ensures LogEscalated in r.log && r.incidents == [Incident(0, Timeout, false, false, 1)]
  {
    hide At;
    acts, r := FirstFailure(PLAIN);
    acts := Go(acts, r, InRecovery(FAILURE, Dispatching(Escalate)), Done(None));
    r := EscalateStep(r, 0);
    assert r.log[|r.log| - 1] == LogEscalated;
    acts, r := Booked(acts, r, Failing(Escalate));
  }

  /** A run ends with an escalated step whose incident does not say so. */
  lemma EscalationLost()
    ensures exists acts :: EscalatedUnflagged(acts)
  {
    hide At;
    var go := Done(None);
    var acts, r := Escalated();
    acts := Go(acts, r, InRecovery(FAILURE, Reviewing(Failing(Escalate))), go);
    acts := Go(acts, r, Exhausted(0), go);
    r := SkipStep(r, 0);
    acts := Go(acts, r, Boundary(1), go);
    acts := GoHome(acts, r, Finishing, go);
    assert EscalatedUnflagged(acts);
  }
}
