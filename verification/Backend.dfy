/** The services around the engine: job creation and cancellation, the two queues, dead-letter
    retries and incident resolution. Every method that touches a table is one protocol action. */
module Backend {
  import opened Types
  import opened Audit
  import opened JobMachine
  import opened Protocol

  datatype Workflow = Workflow(tenant: nat, steps: seq<StepConfig>)

  datatype ApiError = NotFound | Conflict
  datatype Result<+T> = Ok(value: T) | Err(error: ApiError)

  /** A job as it is first stored: PENDING with all its steps, the payload or an empty one, one entry. */
  predicate IsNew(r: JobRec, tenant: nat, workflow: nat, payload: Option<nat>, cfg: seq<StepConfig>) {
    && r.tenant == tenant && r.workflow == workflow && r.cfg == cfg && r.status == JobPending
    && r.payload == (if payload.Some? then payload.value else EMPTY_PAYLOAD)
    && |r.steps| == |cfg|
    && (forall k :: 0 <= k < |cfg| ==> r.steps[k] == StepRow(StepPending, 0, None, None))
    && r.incidents == [] && r.attempts == [] && r.log == [LogJobCreated]
  }

  class Services {
    const workflows: map<nat, Workflow>

    var jobs: map<nat, JobRec>
    var workflowQueue: map<nat, QueueData>
    var deadLetterQueue: map<nat, QueueData>
    var nextJob: nat
    var nextEntry: nat

    ghost var others: Sys            // what the other actors are doing: workers, cancellations, requests
    ghost var history: seq<Action>

    ghost function State(): Sys
      reads this
    {
      others.(jobs := jobs, queue := workflowQueue, dead := deadLetterQueue)
    }

    /** The state is reached from the empty system by the actions of `history`; ids are fresh. */
    ghost predicate Valid()
      reads this
    {
      && Admits(INIT, history) && After(INIT, history) == State()
      && (forall j :: j in jobs ==> j < nextJob)
      && (forall id :: id in workflowQueue ==> id < nextEntry)
      && (forall id :: id in deadLetterQueue ==> id < nextEntry)
    }

    constructor (workflows: map<nat, Workflow>)
      ensures Valid() && jobs == map[] && workflowQueue == map[] && deadLetterQueue == map[]
      ensures this.workflows == workflows
    {
      this.workflows := workflows;
      jobs, workflowQueue, deadLetterQueue, nextJob, nextEntry := map[], map[], map[], 0, 0;
      others, history := INIT, [];
    }

    /** Books action `a`, which has led from `s` to the present tables. */
    ghost method Book(s: Sys, a: Action)
      requires Admits(INIT, history) && After(INIT, history) == s && Enabled(s, a)
      requires jobs == Do(s, a).jobs && workflowQueue == Do(s, a).queue && deadLetterQueue == Do(s, a).dead
      requires (forall j :: j in jobs ==> j < nextJob)
               && (forall id :: id in workflowQueue ==> id < nextEntry)
               && (forall id :: id in deadLetterQueue ==> id < nextEntry)
      modifies `others, `history
      ensures Valid() && State() == Do(s, a)
    {
      hide Do, Enabled, Admits, After;
      AfterNext(INIT, history, a);
      history, others := history + [a], Do(s, a);
    }

    // ---- Job creation ----

    /** `createWithSteps` and JOB_CREATED. */
    method StoreJob(tenant: nat, workflow: nat, payload: Option<nat>, cfg: seq<StepConfig>) returns (j: nat)
      requires Valid() && cfg != []
      modifies this
      ensures Valid() && j !in old(jobs)
      ensures State() == Created(old(State()), j, NewJob(tenant, workflow, payload, cfg), payload)
    {
      ghost var s := State();
      j, nextJob := nextJob, nextJob + 1;
      jobs := jobs[j := NewJob(tenant, workflow, payload, cfg)];
      Book(s, Create(j, tenant, workflow, payload, cfg));
    }

    method EnqueueWorkflow(j: nat, data: QueueData) returns (id: nat)
      requires Valid() && j in State().creating && data == State().creating[j]
      modifies this
      ensures Valid() && id !in old(workflowQueue)
      ensures State() == Enqueued(old(State()), j, id)
    {
      ghost var s := State();
      id, nextEntry := nextEntry, nextEntry + 1;
      workflowQueue := workflowQueue[id := data];
      Book(s, Enqueue(j, id));
    }

    ghost method GiveUpEnqueue(j: nat)
      requires Valid() && j in State().creating
      modifies `others, `history
      ensures Valid() && State() == Abandoned(old(State()), j)
    {
      Book(State(), EnqueueFails(j));
    }

    /** `JobsService.create`; the queue insert may fail, and the job then stays PENDING. */
    method CreateJob(tenant: nat, workflow: nat, payload: Option<nat>, queueUp: bool) returns (res: Result<nat>)
      requires Valid()
      modifies this
      ensures Valid()
      ensures workflow !in workflows || workflows[workflow].tenant != tenant <==> res == Err(NotFound)
      ensures workflow in workflows && workflows[workflow].tenant == tenant && workflows[workflow].steps == []
              <==> res == Err(Conflict)
      ensures res.Err? ==> State() == old(State())
      ensures res.Ok? ==>
        var cfg := workflows[workflow].steps;
        && res.value !in old(jobs)
        && res.value in jobs && jobs == old(jobs)[res.value := jobs[res.value]]
        && IsNew(jobs[res.value], tenant, workflow, payload, cfg)
        && deadLetterQueue == old(deadLetterQueue)
        && if queueUp then
             exists id: nat :: id !in old(workflowQueue)
               && workflowQueue == old(workflowQueue)[id := QueueData(res.value, tenant, workflow, payload)]
           else workflowQueue == old(workflowQueue)
    {
      hide Admits, After;
      if workflow !in workflows || workflows[workflow].tenant != tenant {
        return Err(NotFound);
      }
      if workflows[workflow].steps == [] {
        return Err(Conflict);
      }
      var j := StoreJob(tenant, workflow, payload, workflows[workflow].steps);
      if queueUp {
        var id := EnqueueWorkflow(j, QueueData(j, tenant, workflow, payload));
        assert id !in old(workflowQueue);
      } else {
        GiveUpEnqueue(j);
      }
      res := Ok(j);
    }

    // ---- Cancellation ----

    ghost method PassCheck(j: nat)
      requires Valid() && j in jobs && Cancellable(jobs[j].status)
      modifies `others, `history
      ensures Valid()
      ensures State() == old(State()).(cancelling := old(State()).cancelling + multiset{j})
    {
      Book(State(), CheckCancel(j));
    }

    /** The unconditional status write, and JOB_CANCELLED. */
    method StoreCancelled(j: nat)
      requires Valid() && j in jobs && State().cancelling[j] > 0
      modifies this
      ensures Valid()
      ensures State() == OnJob(old(State()), j, Cancel).(cancelling := old(State()).cancelling - multiset{j})
    {
      ghost var s := State();
      jobs := jobs[j := Operate(jobs[j], Cancel)];
      Book(s, WriteCancel(j));
    }

    /** `JobsService.cancel`, when nobody writes between its check and its write. */
    method CancelJob(tenant: nat, j: nat) returns (res: Result<JobStatus>)
      requires Valid()
      modifies this
      ensures Valid()
      ensures j !in old(jobs) || old(jobs)[j].tenant != tenant <==> res == Err(NotFound)
      ensures j in old(jobs) && old(jobs)[j].tenant == tenant
              && old(jobs)[j].status in {JobCompleted, JobFailed, JobCancelled}
              <==> res == Err(Conflict)
      ensures res.Err? ==> State() == old(State())
      ensures res.Ok? ==>
        && res.value == JobCancelled
        && jobs == old(jobs)[j := old(jobs)[j].(status := JobCancelled, log := old(jobs)[j].log + [LogJobCancelled])]
        && workflowQueue == old(workflowQueue) && deadLetterQueue == old(deadLetterQueue)
    {
      hide Admits, After;
      if j !in jobs || jobs[j].tenant != tenant {
        return Err(NotFound);
      }
      if !Cancellable(jobs[j].status) {
        return Err(Conflict);
      }
      PassCheck(j);
      StoreCancelled(j);
      res := Ok(JobCancelled);
    }

    // ---- Dead-letter retry ----

    ghost method Pick(tenant: nat, entry: nat)
      requires Valid() && State().retry.NoRetry?
      requires entry in deadLetterQueue && deadLetterQueue[entry].tenantId == tenant
      modifies `others, `history
      ensures Valid() && State() == old(State()).(retry := Picked(entry))
    {
      Book(State(), PickRetry(tenant, entry));
    }

    method AddRetried(entry: nat) returns (id: nat)
      requires Valid() && State().retry == Picked(entry) && entry in deadLetterQueue
      modifies this
      ensures Valid() && id !in old(workflowQueue)
      ensures State() == RetryRequeued(old(State()), id)
    {
      ghost var s := State();
      id, nextEntry := nextEntry, nextEntry + 1;
      workflowQueue := workflowQueue[id := deadLetterQueue[entry]];
      Book(s, Requeue(id));
    }

    method RemoveEntry(entry: nat)
      requires Valid() && State().retry.Requeued? && State().retry.entry == entry
      modifies this
      ensures Valid() && State() == RetryRemoved(old(State()))
    {
      ghost var s := State();
      deadLetterQueue := deadLetterQueue - {entry};
      Book(s, Action.RemoveRetried);
    }

    /** PENDING and MANUAL_RETRY. */
    method StorePending(j: nat)
      requires Valid() && State().retry.Removed? && State().retry.data.jobId == j && j in jobs
      modifies this
      ensures Valid() && State() == RetryFinished(old(State()))
    {
      ghost var s := State();
      jobs := jobs[j := Operate(jobs[j], ManualRetry)];
      Book(s, Action.FinishRetry);
    }

    /** `DeadLetterService.retry`, when no other retry is under way and nobody interferes: exactly
        the picked entry moves to the workflow queue and its job becomes PENDING. */
    method RetryDeadLetter(tenant: nat, entry: nat) returns (res: Result<nat>)
      requires Valid() && State().retry.NoRetry?
      modifies this
      ensures Valid() && State().retry.NoRetry?
      ensures entry !in old(deadLetterQueue) || old(deadLetterQueue)[entry].tenantId != tenant <==> res.Err?
      ensures res.Err? ==> res == Err(NotFound) && State() == old(State())
      ensures res.Ok? ==>
        var data := old(deadLetterQueue)[entry];
        var j := data.jobId;
        && res.value !in old(workflowQueue)
        && workflowQueue == old(workflowQueue)[res.value := data]
        && deadLetterQueue == old(deadLetterQueue) - {entry}
        && j in old(jobs)
        && jobs == old(jobs)[j := old(jobs)[j].(status := JobPending, log := old(jobs)[j].log + [LogManualRetry])]
    {
      if entry !in deadLetterQueue || deadLetterQueue[entry].tenantId != tenant {
        return Err(NotFound);
      }
      EntryHasJob(entry);
      hide Admits, After;
      var data := deadLetterQueue[entry];
      Pick(tenant, entry);
      var id := AddRetried(entry);
      RemoveEntry(entry);
      StorePending(data.jobId);
      res := Ok(id);
    }

    lemma EntryHasJob(entry: nat)
      requires Valid() && entry in deadLetterQueue
      ensures deadLetterQueue[entry].jobId in jobs
    {
      InitInv();
      RunKeepsInv(INIT, history);
      assert DataFits(State().jobs, State().dead[entry]);
    }

    // ---- Incidents ----

    /** `IncidentsService.resolve`. */
    method ResolveIncident(tenant: nat, j: nat, k: nat) returns (res: Result<bool>)
      requires Valid()
      modifies this
      ensures Valid()
      ensures j in old(jobs) && old(jobs)[j].tenant == tenant && k < |old(jobs)[j].incidents| <==> res == Ok(true)
      ensures res != Ok(true) ==> res == Err(NotFound) && State() == old(State())
      ensures res == Ok(true) ==>
        var r := old(jobs)[j];
        && jobs == old(jobs)[j := r.(incidents := r.incidents[k := r.incidents[k].(resolved := true)])]
        && workflowQueue == old(workflowQueue) && deadLetterQueue == old(deadLetterQueue)
    {
      hide Admits, After;
      if j !in jobs || jobs[j].tenant != tenant || k >= |jobs[j].incidents| {
        return Err(NotFound);
      }
      ghost var s := State();
      jobs := jobs[j := Operate(jobs[j], Resolve(k))];
      Book(s, Action.ResolveIncident(j, k));
      res := Ok(true);
    }
  }
}
