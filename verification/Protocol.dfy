/** The whole system: API calls, any number of workers, the two queues, operators. Every action is
    one access to a shared table or queue, so any interleaving of actors is a sequence of actions. */
module Protocol {
  import opened Types
  import opened Audit
  import opened JobMachine

  /** Where the right to run a job lies. It moves with the queue entries and is never copied. */
  datatype Token = Nowhere | AtCreator | InQueue(id: nat) | AtWorker(w: nat) | InDeadLetters(id: nat)

  datatype Busy = Busy(job: nat, pc: Pc)

  /** The dead-letter retry in progress; retries are serialised. */
  datatype Retrying =
    | NoRetry
    | Picked(entry: nat)
    | Requeued(entry: nat, data: QueueData)   // added to the workflow queue, still in the dead-letter queue
    | Removed(data: QueueData)                // PENDING and MANUAL_RETRY still to be written

  /** `cancelling` holds the cancellations that have passed their status check and not yet written.
      `token` and `added` are auxiliary variables, which no action reads: where each job's token lies,
      and for which jobs the dead-letter queue has ever got an entry. */
  datatype Sys = Sys(
    jobs: map<nat, JobRec>,
    creating: map<nat, QueueData>,
    queue: map<nat, QueueData>,
    dead: map<nat, QueueData>,
    workers: map<nat, Busy>,
    cancelling: multiset<nat>,
    retry: Retrying,
    token: map<nat, Token>,
    added: multiset<nat>)

  const INIT := Sys(map[], map[], map[], map[], map[], multiset{}, NoRetry, map[], multiset{})

  datatype Action =
    | Create(j: nat, tenant: nat, workflow: nat, payload: Option<nat>, cfg: seq<StepConfig>)
    | Enqueue(j: nat, id: nat)
    | EnqueueFails(j: nat)
    | Take(w: nat, id: nat)
    | Work(w: nat, c: Attempted, id: nat)
    | CheckCancel(j: nat)
    | WriteCancel(j: nat)
    | ResolveIncident(j: nat, k: nat)
    | PickRetry(tenant: nat, entry: nat)
    | Requeue(id: nat)
    | RemoveRetried
    | FinishRetry

  const EMPTY_PAYLOAD: nat := 0

  function NewJob(tenant: nat, workflow: nat, payload: Option<nat>, cfg: seq<StepConfig>): JobRec {
    JobRec(tenant, workflow, payload.GetOr(EMPTY_PAYLOAD), cfg, JobPending,
           seq(|cfg|, _ => StepRow(StepPending, 0, None, None)), [], [], [LogJobCreated])
  }

  /** What the worker adds to the dead-letter queue. */
  function DeadLetterData(j: nat, r: JobRec): QueueData {
    QueueData(j, r.tenant, r.workflow, Some(r.payload))
  }

  predicate Cancellable(status: JobStatus) {
    !status.JobCompleted? && !status.JobFailed? && !status.JobCancelled?
  }

  predicate Enabled(s: Sys, a: Action) {
    match a
    case Create(j, _, _, _, cfg) => j !in s.jobs && cfg != []
    case Enqueue(j, id) => j in s.creating && id !in s.queue
    case EnqueueFails(j) => j in s.creating
    case Take(w, id) => w !in s.workers && id in s.queue && s.queue[id].jobId in s.jobs
    case Work(w, _, id) =>
      && w in s.workers && s.workers[w].job in s.jobs
      && Fits(s.jobs[s.workers[w].job], s.workers[w].pc)
      && id !in s.dead
    case CheckCancel(j) => j in s.jobs && Cancellable(s.jobs[j].status)
    case WriteCancel(j) => j in s.jobs && s.cancelling[j] > 0
    case ResolveIncident(j, k) => j in s.jobs && k < |s.jobs[j].incidents|
    case PickRetry(tenant, e) => s.retry.NoRetry? && e in s.dead && s.dead[e].tenantId == tenant
    case Requeue(id) => s.retry.Picked? && s.retry.entry in s.dead && id !in s.queue
    case RemoveRetried => s.retry.Requeued?
    case FinishRetry => s.retry.Removed? && s.retry.data.jobId in s.jobs
  }

  // ---- The actions ----

  function OnJob(s: Sys, j: nat, op: Op): Sys
    requires j in s.jobs
  {
    s.(jobs := s.jobs[j := Operate(s.jobs[j], op)])
  }

  /** The job and its steps are stored in one transaction, with JOB_CREATED. */
  function Created(s: Sys, j: nat, r: JobRec, payload: Option<nat>): Sys {
    s.(jobs := s.jobs[j := r],
       creating := s.creating[j := QueueData(j, r.tenant, r.workflow, payload)],
       token := s.token[j := AtCreator])
  }

  function Enqueued(s: Sys, j: nat, id: nat): Sys
    requires j in s.creating
  {
    s.(creating := s.creating - {j}, queue := s.queue[id := s.creating[j]], token := s.token[j := InQueue(id)])
  }

  /** The queue insert failed: the job stays PENDING for ever. */
  function Abandoned(s: Sys, j: nat): Sys {
    s.(creating := s.creating - {j}, token := s.token[j := Nowhere])
  }

  function Taken(s: Sys, w: nat, id: nat): Sys
    requires id in s.queue
  {
    var j := s.queue[id].jobId;
    s.(queue := s.queue - {id}, workers := s.workers[w := Busy(j, Claimed)], token := s.token[j := AtWorker(w)])
  }

  function RetryRequeued(s: Sys, id: nat): Sys
    requires s.retry.Picked? && s.retry.entry in s.dead
  {
    var data := s.dead[s.retry.entry];
    s.(queue := s.queue[id := data], retry := Requeued(s.retry.entry, data),
       token := s.token[data.jobId := InQueue(id)])
  }

  function RetryRemoved(s: Sys): Sys
    requires s.retry.Requeued?
  {
    s.(dead := s.dead - {s.retry.entry}, retry := Removed(s.retry.data))
  }

  function RetryFinished(s: Sys): Sys
    requires s.retry.Removed? && s.retry.data.jobId in s.jobs
  {
    OnJob(s, s.retry.data.jobId, ManualRetry).(retry := NoRetry)
  }

  /** Worker `w` has turned its job's rows into `r'` and stands at `pc'`. */
  function Worked(s: Sys, w: nat, r': JobRec, pc': Pc, id: nat): Sys
    requires w in s.workers && s.workers[w].job in s.jobs
  {
    var b := s.workers[w];
    s.(jobs := s.jobs[b.job := r'],
       workers := if pc'.Released? then s.workers - {w} else s.workers[w := Busy(b.job, pc')],
       dead := if b.pc.DeadLettering? then s.dead[id := DeadLetterData(b.job, s.jobs[b.job])] else s.dead,
       token := if b.pc.DeadLettering? then s.token[b.job := InDeadLetters(id)]
                else if Owning(b.pc) && pc'.Released? then s.token[b.job := Nowhere]
                else s.token,
       added := if b.pc.DeadLettering? then s.added + multiset{b.job} else s.added)
  }

  function Do(s: Sys, a: Action): Sys
    requires Enabled(s, a)
  {
    match a
    case Create(j, tenant, workflow, payload, cfg) => Created(s, j, NewJob(tenant, workflow, payload, cfg), payload)
    case Enqueue(j, id) => Enqueued(s, j, id)
    case EnqueueFails(j) => Abandoned(s, j)
    case Take(w, id) => Taken(s, w, id)
    case Work(w, c, id) =>
      var n := Step(s.jobs[s.workers[w].job], s.workers[w].pc, c);
      Worked(s, w, n.0, n.1, id)
    case CheckCancel(j) => s.(cancelling := s.cancelling + multiset{j})
    case WriteCancel(j) => OnJob(s, j, Cancel).(cancelling := s.cancelling - multiset{j})
    case ResolveIncident(j, k) => OnJob(s, j, Resolve(k))
    case PickRetry(_, e) => s.(retry := Picked(e))
    case Requeue(id) => RetryRequeued(s, id)
    case RemoveRetried => RetryRemoved(s)
    case FinishRetry => RetryFinished(s)
  }

  // ---- Ownership ----

  /** The place of `t` really holds the right to run `j`. */
  predicate Has(s: Sys, j: nat, t: Token) {
    match t
    case Nowhere => false
    case AtCreator => j in s.creating
    case InQueue(id) => id in s.queue && s.queue[id].jobId == j
    case AtWorker(w) => w in s.workers && s.workers[w].job == j && Owning(s.workers[w].pc)
    case InDeadLetters(id) =>
      id in s.dead && s.dead[id].jobId == j && !(s.retry.Requeued? && s.retry.entry == id)
  }

  predicate DataFits(jobs: map<nat, JobRec>, d: QueueData) {
    && d.jobId in jobs
    && d.tenantId == jobs[d.jobId].tenant && d.workflowId == jobs[d.jobId].workflow
    && d.payload.GetOr(EMPTY_PAYLOAD) == jobs[d.jobId].payload
  }

  ghost predicate AllFit(jobs: map<nat, JobRec>, entries: map<nat, QueueData>) {
    forall id :: id in entries ==> DataFits(jobs, entries[id])
  }

  ghost predicate RetryFits(s: Sys) {
    match s.retry
    case NoRetry => true
    case Picked(e) => e in s.dead
    case Requeued(e, data) => e in s.dead && s.dead[e] == data
    case Removed(data) => DataFits(s.jobs, data)
  }

  ghost predicate CreatorsFit(creating: map<nat, QueueData>) {
    forall j :: j in creating ==> creating[j].jobId == j
  }

  ghost predicate WorkersFit(jobs: map<nat, JobRec>, workers: map<nat, Busy>) {
    forall w :: w in workers ==> workers[w].job in jobs && !workers[w].pc.Released?
  }

  /** Queue entries carry the ids of jobs that exist; so do the workers. */
  ghost predicate EntriesFit(s: Sys) {
    && CreatorsFit(s.creating)
    && AllFit(s.jobs, s.creating)
    && AllFit(s.jobs, s.queue)
    && AllFit(s.jobs, s.dead)
    && WorkersFit(s.jobs, s.workers)
    && RetryFits(s)
  }

  ghost predicate TokenExact(s: Sys, j: nat) {
    && j in s.token
    && (forall t :: Has(s, j, t) ==> s.token[j] == t)
    && (s.token[j] != Nowhere ==> Has(s, j, s.token[j]))
  }

  /** The auxiliary variable names the one place that holds each job's token. */
  ghost predicate TokensExact(s: Sys) {
    forall j :: j in s.jobs ==> TokenExact(s, j)
  }

  /** The place in the program of the worker that owns `j`. */
  function OwnerPc(s: Sys, j: nat): Pc {
    if j in s.token && s.token[j].AtWorker? && s.token[j].w in s.workers then s.workers[s.token[j].w].pc else Released
  }

  /** How an action moves the worker with respect to ownership. */
  ghost predicate Moves(pc: Pc, pc': Pc) {
    && (pc.DeadLettering? ==> pc'.Trailing?)
    && (pc.Trailing? ==> pc'.Released?)
    && (Owning(pc) && !pc.DeadLettering? ==> !pc'.Trailing?)
  }

  lemma StepMoves(r: JobRec, pc: Pc, c: Attempted)
    requires Fits(r, pc)
    ensures Moves(pc, Step(r, pc, c).1)
  {
  }

  /** What was ordered does not change: tenant, workflow and payload. */
  predicate SameOrder(r: JobRec, r': JobRec) {
    r'.tenant == r.tenant && r'.workflow == r.workflow && r'.payload == r.payload
  }

  ghost predicate SameIds(jobs: map<nat, JobRec>, jobs': map<nat, JobRec>) {
    forall j :: j in jobs ==> j in jobs' && SameOrder(jobs[j], jobs'[j])
  }

  lemma JobsChange(s: Sys, s': Sys)
    requires EntriesFit(s) && SameIds(s.jobs, s'.jobs)
    requires s' == s.(jobs := s'.jobs)
    ensures EntriesFit(s')
  {
  }

  lemma CreatedFits(s: Sys, j: nat, r: JobRec, payload: Option<nat>)
    requires EntriesFit(s) && j !in s.jobs && r.payload == payload.GetOr(EMPTY_PAYLOAD)
    ensures EntriesFit(Created(s, j, r, payload))
  {
    JobsChange(s, s.(jobs := s.jobs[j := r]));
  }

  lemma EnqueuedFits(s: Sys, j: nat, id: nat)
    requires EntriesFit(s) && j in s.creating
    ensures EntriesFit(Enqueued(s, j, id))
  {
  }

  lemma TakenFits(s: Sys, w: nat, id: nat)
    requires EntriesFit(s) && id in s.queue
    ensures EntriesFit(Taken(s, w, id))
  {
  }

  lemma RequeuedFits(s: Sys, id: nat)
    requires EntriesFit(s) && s.retry.Picked?
    ensures EntriesFit(RetryRequeued(s, id))
  {
  }

  lemma RemovedFits(s: Sys)
    requires EntriesFit(s) && s.retry.Requeued?
    ensures EntriesFit(RetryRemoved(s))
  {
  }

  lemma WorkedFits(s: Sys, w: nat, r': JobRec, pc': Pc, id: nat)
    requires EntriesFit(s) && w in s.workers && id !in s.dead
    requires SameOrder(s.jobs[s.workers[w].job], r')
    ensures EntriesFit(Worked(s, w, r', pc', id))
  {
    var s' := Worked(s, w, r', pc', id);
    JobsChange(s, s.(jobs := s'.jobs));
    assert AllFit(s'.jobs, s'.dead);
  }

  lemma WorkedTokens(s: Sys, w: nat, r': JobRec, pc': Pc, id: nat, j: nat)
    requires EntriesFit(s) && TokensExact(s) && w in s.workers && id !in s.dead && j in s.jobs
    requires Moves(s.workers[w].pc, pc')
    ensures TokenExact(Worked(s, w, r', pc', id), j)
  {
    var s' := Worked(s, w, r', pc', id);
    assert Owning(s.workers[w].pc) ==> Has(s, s.workers[w].job, AtWorker(w));
    assert TokenExact(s, j);
    forall t | Has(s', j, t)
      ensures s'.token[j] == t
    {
      assert Has(s, j, t) || t == InDeadLetters(id);
    }
  }

  lemma CreatedTokens(s: Sys, j: nat, r: JobRec, payload: Option<nat>, k: nat)
    requires EntriesFit(s) && TokensExact(s) && j !in s.jobs && (k in s.jobs || k == j)
    ensures TokenExact(Created(s, j, r, payload), k)
  {
    var s' := Created(s, j, r, payload);
    assert k != j ==> TokenExact(s, k);
    forall t | Has(s', k, t)
      ensures s'.token[k] == t
    {
      assert Has(s, k, t) || s'.token[k] == t;
    }
  }

  lemma EnqueuedTokens(s: Sys, j: nat, id: nat, k: nat)
    requires EntriesFit(s) && TokensExact(s) && j in s.creating && id !in s.queue && k in s.jobs
    ensures TokenExact(Enqueued(s, j, id), k)
  {
    var s' := Enqueued(s, j, id);
    assert Has(s, j, AtCreator) && TokenExact(s, j) && TokenExact(s, k);
    forall t | Has(s', k, t)
      ensures s'.token[k] == t
    {
      assert Has(s, k, t) || s'.token[k] == t;
    }
  }

  lemma AbandonedTokens(s: Sys, j: nat, k: nat)
    requires EntriesFit(s) && TokensExact(s) && j in s.creating && k in s.jobs
    ensures TokenExact(Abandoned(s, j), k)
  {
    assert Has(s, j, AtCreator) && TokenExact(s, j) && TokenExact(s, k);
    forall t | Has(Abandoned(s, j), k, t)
      ensures Abandoned(s, j).token[k] == t
    {
      assert Has(s, k, t);
    }
  }

  lemma TakenTokens(s: Sys, w: nat, id: nat, k: nat)
    requires EntriesFit(s) && TokensExact(s) && w !in s.workers && id in s.queue && k in s.jobs
    ensures TokenExact(Taken(s, w, id), k)
  {
    var s' := Taken(s, w, id);
    var j := s.queue[id].jobId;
    assert Has(s, j, InQueue(id)) && TokenExact(s, j) && TokenExact(s, k);
    forall t | Has(s', k, t)
      ensures s'.token[k] == t
    {
      assert Has(s, k, t) || s'.token[k] == t;
    }
  }

  lemma RequeuedTokens(s: Sys, id: nat, k: nat)
    requires EntriesFit(s) && TokensExact(s) && s.retry.Picked? && id !in s.queue && k in s.jobs
    ensures TokenExact(RetryRequeued(s, id), k)
  {
    var s' := RetryRequeued(s, id);
    var j := s.dead[s.retry.entry].jobId;
    assert Has(s, j, InDeadLetters(s.retry.entry)) && TokenExact(s, j) && TokenExact(s, k);
    forall t | Has(s', k, t)
      ensures s'.token[k] == t
    {
      assert Has(s, k, t) || s'.token[k] == t;
    }
  }

  /** An action that leaves every token in its place. */
  lemma SettledTokens(s: Sys, s': Sys)
    requires TokensExact(s) && s'.jobs.Keys == s.jobs.Keys && s'.token == s.token
    requires forall j, t :: j in s.jobs ==> (Has(s', j, t) <==> Has(s, j, t))
    ensures TokensExact(s')
  {
  }

  // ---- Rows ----

  ghost predicate RowsSound(s: Sys) {
    && (forall j :: j in s.jobs ==> JobInv(s.jobs[j], OwnerPc(s, j)))
    && (forall w :: w in s.workers && !Owning(s.workers[w].pc) ==> s.workers[w].pc == Trailing)
  }

  /** The other jobs' owners do not notice an action of worker `w`; nor does the new owner
      of a job that `w` has already given up. */
  lemma WorkedOthers(s: Sys, w: nat, r': JobRec, pc': Pc, id: nat, j: nat)
    requires EntriesFit(s) && TokensExact(s) && w in s.workers && j in s.jobs
    requires j != s.workers[w].job || (s.workers[w].pc.Trailing? && pc'.Released?)
    ensures var s' := Worked(s, w, r', pc', id);
            && s'.token[j] == s.token[j]
            && OwnerPc(s', j) == OwnerPc(s, j)
  {
    assert TokenExact(s, j);
  }

  lemma WorkedRows(s: Sys, w: nat, r': JobRec, pc': Pc, id: nat)
    requires EntriesFit(s) && TokensExact(s) && RowsSound(s) && w in s.workers
    requires Moves(s.workers[w].pc, pc')
    requires Owning(s.workers[w].pc) ==> JobInv(r', pc')
    requires !Owning(s.workers[w].pc) ==> r' == Operate(s.jobs[s.workers[w].job], LateDeadLettered)
    ensures RowsSound(Worked(s, w, r', pc', id))
  {
    hide JobInv, Operate;
    var b := s.workers[w];
    var s' := Worked(s, w, r', pc', id);
    forall j | j in s'.jobs ensures JobInv(s'.jobs[j], OwnerPc(s', j)) {
      if j != b.job {
        WorkedOthers(s, w, r', pc', id, j);
      } else if Owning(b.pc) {
        assert TokenExact(s, j) && Has(s, j, AtWorker(w));
        if pc'.Trailing? {
          SamePlace(r', pc', Released);
        }
      } else {
        WorkedOthers(s, w, r', pc', id, j);
        OperateKeepsJobInv(s.jobs[j], OwnerPc(s, j), LateDeadLettered);
      }
    }
  }

  lemma OperatedRows(s: Sys, k: nat, op: Op)
    requires RowsSound(s) && k in s.jobs
    ensures RowsSound(OnJob(s, k, op))
  {
    var s' := OnJob(s, k, op);
    OperateKeepsJobInv(s.jobs[k], OwnerPc(s, k), op);
    forall j | j in s'.jobs ensures JobInv(s'.jobs[j], OwnerPc(s', j)) {
      assert OwnerPc(s', j) == OwnerPc(s, j);
    }
  }

  lemma NewJobSound(tenant: nat, workflow: nat, payload: Option<nat>, cfg: seq<StepConfig>)
    ensures JobInv(NewJob(tenant, workflow, payload, cfg), Released)
  {
  }

  lemma CreatedRows(s: Sys, j: nat, tenant: nat, workflow: nat, payload: Option<nat>, cfg: seq<StepConfig>)
    requires TokensExact(s) && RowsSound(s) && j !in s.jobs
    ensures RowsSound(Created(s, j, NewJob(tenant, workflow, payload, cfg), payload))
  {
    NewJobSound(tenant, workflow, payload, cfg);
    var s' := Created(s, j, NewJob(tenant, workflow, payload, cfg), payload);
    forall k | k in s'.jobs ensures JobInv(s'.jobs[k], OwnerPc(s', k)) {
      assert k != j ==> OwnerPc(s', k) == OwnerPc(s, k);
    }
  }

  /** The token of a job moves between places that are not workers. */
  lemma MovedRows(s: Sys, s': Sys)
    requires RowsSound(s) && s'.jobs == s.jobs && s'.workers == s.workers
    requires forall k :: k in s.jobs ==> OwnerPc(s', k) == OwnerPc(s, k)
    ensures RowsSound(s')
  {
  }

  lemma TakenRows(s: Sys, w: nat, id: nat)
    requires EntriesFit(s) && TokensExact(s) && RowsSound(s) && w !in s.workers && id in s.queue
    ensures RowsSound(Taken(s, w, id))
  {
    hide JobInv;
    var s' := Taken(s, w, id);
    var j := s.queue[id].jobId;
    assert DataFits(s.jobs, s.queue[id]) && Has(s, j, InQueue(id)) && TokenExact(s, j);
    SamePlace(s.jobs[j], Released, Claimed);
    forall k | k in s'.jobs ensures JobInv(s'.jobs[k], OwnerPc(s', k)) {
      assert TokenExact(s, k);
      assert k != j ==> OwnerPc(s', k) == OwnerPc(s, k);
    }
  }

  // ---- Accounting ----

  predicate IsStart(e: Entry) { e.LogJobStarted? }
  predicate IsCompletion(e: Entry) { e.LogJobCompleted? }
  predicate IsFailure(e: Entry) { e.LogJobFailed? }
  predicate IsManualRetry(e: Entry) { e.LogManualRetry? }

  function Starts(r: JobRec): nat { Count(IsStart, r.log) }
  function Completions(r: JobRec): nat { Count(IsCompletion, r.log) }
  function Failures(r: JobRec): nat { Count(IsFailure, r.log) }
  function ManualRetries(r: JobRec): nat { Count(IsManualRetry, r.log) }

  /** A retry of `j` that has reached the workflow queue and has not yet been logged. */
  function Pending(s: Sys, j: nat): nat {
    if (s.retry.Requeued? || s.retry.Removed?) && s.retry.data.jobId == j then 1 else 0
  }

  /** JOB_STARTED is logged and the run has not ended. */
  predicate Active(pc: Pc) {
    pc.Boundary? || pc.Entering? || pc.Attempting? || pc.InRecovery? || pc.Exhausted? || pc.Finishing?
  }

  /** A failed run whose job waits in the dead-letter queue or is about to be put there. */
  predicate Failed(t: Token, pc: Pc) {
    t.InDeadLetters? || pc.DeadLettering?
  }

  ghost predicate Balanced(r: JobRec, t: Token, pc: Pc, pending: nat) {
    && Starts(r) == Failures(r) + Completions(r) + (if Active(pc) then 1 else 0)
    && Failures(r) == ManualRetries(r) + pending + (if Failed(t, pc) then 1 else 0)
    && Completions(r) <= (if t == Nowhere then 1 else 0)
  }

  ghost predicate BooksBalanced(s: Sys) {
    forall j :: j in s.jobs && j in s.token ==> Balanced(s.jobs[j], s.token[j], OwnerPc(s, j), Pending(s, j))
  }

  lemma CountsAppend(r: JobRec, r': JobRec, e: Entry)
    requires r'.log == r.log + [e]
    ensures Starts(r') == Starts(r) + if IsStart(e) then 1 else 0
    ensures Completions(r') == Completions(r) + if IsCompletion(e) then 1 else 0
    ensures Failures(r') == Failures(r) + if IsFailure(e) then 1 else 0
    ensures ManualRetries(r') == ManualRetries(r) + if IsManualRetry(e) then 1 else 0
  {
  }

  /** One action of the owner; `t'` is where it leaves the token. */
  lemma StepBalances(r: JobRec, pc: Pc, c: Attempted, t: Token, t': Token, pending: nat)
    requires Fits(r, pc) && Owning(pc) && Balanced(r, t, pc, pending) && t.AtWorker?
    requires var pc' := Step(r, pc, c).1;
             && (pc.DeadLettering? ==> t'.InDeadLetters?)
             && (!pc.DeadLettering? && pc'.Released? ==> t' == Nowhere)
             && (!pc.DeadLettering? && !pc'.Released? ==> t' == t)
    ensures var (r', pc') := Step(r, pc, c);
            Balanced(r', t', if t'.AtWorker? then pc' else Released, pending)
  {
    var e := Emitted(r, pc, c);
    var (r', pc') := Step(r, pc, c);
    StepLogs(r, pc, c);
    if e.Some? {
      CountsAppend(r, r', e.value);
    } else {
      SameCounts(r, r');
    }
    hide Starts, Failures, Completions, ManualRetries;
    EntriesOfPlaces(r, pc, c);
    hide Step, Emitted;
  }

  lemma SameCounts(r: JobRec, r': JobRec)
    requires r'.log == r.log
    ensures Starts(r') == Starts(r) && Completions(r') == Completions(r)
    ensures Failures(r') == Failures(r) && ManualRetries(r') == ManualRetries(r)
  {
  }

  /** Runs begin and end exactly with their entries. */
  lemma EntriesOfPlaces(r: JobRec, pc: Pc, c: Attempted)
    requires Fits(r, pc) && Owning(pc)
    ensures var e := Emitted(r, pc, c);
            var pc' := Step(r, pc, c).1;
            && (e.Some? && IsStart(e.value) <==> pc.Starting?)
            && (e.Some? && IsCompletion(e.value) <==> pc.Finishing?)
            && (e.Some? && IsFailure(e.value) <==> pc'.DeadLettering?)
            && (e.Some? ==> !IsManualRetry(e.value))
            && (pc.Starting? || (Active(pc) && !pc.Finishing? && !pc'.DeadLettering?) <==> Active(pc'))
            && (pc'.DeadLettering? ==> Active(pc) && !pc.Finishing?)
            && (pc'.Released? ==> pc.Claimed? || pc.Finishing?)
  {
  }

  lemma OperatedBalance(r: JobRec, op: Op, t: Token, pc: Pc, pending: nat)
    requires Balanced(r, t, pc, pending) && (op.ManualRetry? ==> pending == 1)
    ensures Balanced(Operate(r, op), t, pc, if op.ManualRetry? then 0 else pending)
  {
    if OperateEntry(op).Some? {
      CountsAppend(r, Operate(r, op), OperateEntry(op).value);
    }
  }

  lemma WorkedBooks(s: Sys, w: nat, r': JobRec, pc': Pc, id: nat)
    requires EntriesFit(s) && TokensExact(s) && BooksBalanced(s) && w in s.workers
    requires Moves(s.workers[w].pc, pc') && (!Owning(s.workers[w].pc) ==> s.workers[w].pc.Trailing?)
    requires var b := s.workers[w];
             var t' := Worked(s, w, r', pc', id).token[b.job];
             && (Owning(b.pc) ==> Balanced(r', t', if t'.AtWorker? then pc' else Released, Pending(s, b.job)))
             && (!Owning(b.pc) ==> r' == Operate(s.jobs[b.job], LateDeadLettered))
    ensures BooksBalanced(Worked(s, w, r', pc', id))
  {
    var b := s.workers[w];
    var s' := Worked(s, w, r', pc', id);
    hide Balanced, Operate;
    forall j | j in s'.jobs && j in s'.token
      ensures Balanced(s'.jobs[j], s'.token[j], OwnerPc(s', j), Pending(s', j))
    {
      if j == b.job && Owning(b.pc) {
        assert TokenExact(s, j) && Has(s, j, AtWorker(w));
      } else {
        WorkedOthers(s, w, r', pc', id, j);
        if j == b.job {
          OperatedBalance(s.jobs[j], LateDeadLettered, s.token[j], OwnerPc(s, j), Pending(s, j));
        }
      }
    }
  }

  lemma OperatedBooks(s: Sys, k: nat, op: Op)
    requires BooksBalanced(s) && k in s.jobs && !op.ManualRetry?
    ensures BooksBalanced(OnJob(s, k, op))
  {
    hide Balanced, Operate;
    var s' := OnJob(s, k, op);
    forall j | j in s'.jobs && j in s'.token
      ensures Balanced(s'.jobs[j], s'.token[j], OwnerPc(s', j), Pending(s', j))
    {
      assert OwnerPc(s', j) == OwnerPc(s, j);
      if j == k {
        OperatedBalance(s.jobs[k], op, s.token[k], OwnerPc(s, k), Pending(s, k));
      }
    }
  }

  lemma FinishedBooks(s: Sys)
    requires BooksBalanced(s) && s.retry.Removed? && s.retry.data.jobId in s.jobs
    ensures BooksBalanced(RetryFinished(s))
  {
    hide Balanced, Operate;
    var s' := RetryFinished(s);
    var k := s.retry.data.jobId;
    forall j | j in s'.jobs && j in s'.token
      ensures Balanced(s'.jobs[j], s'.token[j], OwnerPc(s', j), Pending(s', j))
    {
      assert OwnerPc(s', j) == OwnerPc(s, j);
      if j == k {
        OperatedBalance(s.jobs[k], ManualRetry, s.token[k], OwnerPc(s, k), Pending(s, k));
      }
    }
  }

  lemma NewJobBooks(tenant: nat, workflow: nat, payload: Option<nat>, cfg: seq<StepConfig>)
    ensures Balanced(NewJob(tenant, workflow, payload, cfg), AtCreator, Released, 0)
  {
  }

  lemma CreatedBooks(s: Sys, j: nat, tenant: nat, workflow: nat, payload: Option<nat>, cfg: seq<StepConfig>)
    requires EntriesFit(s) && TokensExact(s) && BooksBalanced(s) && j !in s.jobs
    ensures BooksBalanced(Created(s, j, NewJob(tenant, workflow, payload, cfg), payload))
  {
    hide Balanced, NewJob;
    NewJobBooks(tenant, workflow, payload, cfg);
    var s' := Created(s, j, NewJob(tenant, workflow, payload, cfg), payload);
    assert Pending(s', j) == 0;
    forall k | k in s'.jobs && k in s'.token
      ensures Balanced(s'.jobs[k], s'.token[k], OwnerPc(s', k), Pending(s', k))
    {
      if k != j {
        assert TokenExact(s, k);
        assert OwnerPc(s', k) == OwnerPc(s, k);
      }
    }
  }

  lemma SameBooks(r: JobRec, t: Token, pc: Pc, t': Token, pc': Pc, pending: nat)
    requires Balanced(r, t, pc, pending) && Active(pc) == Active(pc') && Failed(t, pc) == Failed(t', pc')
    requires t == Nowhere ==> t' == Nowhere
    ensures Balanced(r, t', pc', pending)
  {
  }

  lemma TakenBooks(s: Sys, w: nat, id: nat)
    requires EntriesFit(s) && TokensExact(s) && BooksBalanced(s) && w !in s.workers && id in s.queue
    ensures BooksBalanced(Taken(s, w, id))
  {
    hide Balanced;
    var s' := Taken(s, w, id);
    var k := s.queue[id].jobId;
    assert DataFits(s.jobs, s.queue[id]) && Has(s, k, InQueue(id)) && TokenExact(s, k);
    forall j | j in s'.jobs && j in s'.token
      ensures Balanced(s'.jobs[j], s'.token[j], OwnerPc(s', j), Pending(s', j))
    {
      if j == k {
        SameBooks(s.jobs[j], s.token[j], OwnerPc(s, j), s'.token[j], OwnerPc(s', j), Pending(s, j));
      } else {
        assert TokenExact(s, j);
        assert OwnerPc(s', j) == OwnerPc(s, j);
      }
    }
  }

  lemma RequeuedBooks(s: Sys, id: nat)
    requires EntriesFit(s) && TokensExact(s) && BooksBalanced(s) && s.retry.Picked?
    ensures BooksBalanced(RetryRequeued(s, id))
  {
    var s' := RetryRequeued(s, id);
    var k := s.dead[s.retry.entry].jobId;
    assert DataFits(s.jobs, s.dead[s.retry.entry]) && Has(s, k, InDeadLetters(s.retry.entry)) && TokenExact(s, k);
    forall j | j in s'.jobs && j in s'.token
      ensures Balanced(s'.jobs[j], s'.token[j], OwnerPc(s', j), Pending(s', j))
    {
      assert j != k ==> OwnerPc(s', j) == OwnerPc(s, j);
    }
  }

  /** The books do not see an action that logs nothing and moves no token between kinds of place. */
  lemma SettledBooks(s: Sys, s': Sys)
    requires BooksBalanced(s) && s'.jobs == s.jobs && s.token.Keys == s'.token.Keys
    requires forall j :: j in s.jobs && j in s.token ==>
               && OwnerPc(s', j) == OwnerPc(s, j) && Pending(s', j) == Pending(s, j)
               && (s.token[j] == s'.token[j] || (s.token[j].AtCreator? && !s'.token[j].InDeadLetters?))
    ensures BooksBalanced(s')
  {
  }

  // ---- Every run ----

  ghost predicate Inv(s: Sys) {
    EntriesFit(s) && TokensExact(s) && RowsSound(s) && BooksBalanced(s)
  }

  lemma TrailingStep(r: JobRec, c: Attempted)
    requires Fits(r, Trailing)
    ensures Step(r, Trailing, c).0 == Operate(r, LateDeadLettered)
  {
  }

  /** What one action of worker `w` comes to for its own job. */
  lemma WorkersStep(s: Sys, w: nat, c: Attempted, id: nat)
    requires Inv(s) && Enabled(s, Work(w, c, id))
    ensures var b := s.workers[w];
            var r := s.jobs[b.job];
            var (r', pc') := Step(r, b.pc, c);
            var t' := Worked(s, w, r', pc', id).token[b.job];
            && Moves(b.pc, pc') && Grows(r, r')
            && (Owning(b.pc) ==> JobInv(r', pc'))
            && (Owning(b.pc) ==> Balanced(r', t', if t'.AtWorker? then pc' else Released, Pending(s, b.job)))
            && (!Owning(b.pc) ==> b.pc.Trailing? && r' == Operate(r, LateDeadLettered))
  {
    var b := s.workers[w];
    var r := s.jobs[b.job];
    var n := Step(r, b.pc, c);
    var s' := Worked(s, w, n.0, n.1, id);
    hide Step, Fits, JobInv, Balanced, Operate, Grows, EntriesFit;
    StepMoves(r, b.pc, c);
    StepGrows(r, b.pc, c);
    assert TokenExact(s, b.job);
    if b.pc.Trailing? {
      TrailingStep(r, c);
    }
    if Owning(b.pc) {
      assert Has(s, b.job, AtWorker(w));
      StepKeepsJobInv(r, b.pc, c);
      StepBalances(r, b.pc, c, s.token[b.job], s'.token[b.job], Pending(s, b.job));
    }
  }

  lemma WorkKeepsInv(s: Sys, w: nat, c: Attempted, id: nat)
    requires Inv(s) && Enabled(s, Work(w, c, id))
    ensures Inv(Do(s, Work(w, c, id)))
  {
    hide Step, Fits, JobInv, Balanced, Operate, EntriesFit, RowsSound, BooksBalanced, TokenExact, Moves;
    var n := Step(s.jobs[s.workers[w].job], s.workers[w].pc, c);
    var s' := Worked(s, w, n.0, n.1, id);
    WorkersStep(s, w, c, id);
    WorkedFits(s, w, n.0, n.1, id);
    WorkedRows(s, w, n.0, n.1, id);
    WorkedBooks(s, w, n.0, n.1, id);
    forall j | j in s.jobs ensures TokenExact(s', j) {
      WorkedTokens(s, w, n.0, n.1, id, j);
    }
  }

  lemma NewJobPayload(tenant: nat, workflow: nat, payload: Option<nat>, cfg: seq<StepConfig>)
    ensures NewJob(tenant, workflow, payload, cfg).payload == payload.GetOr(EMPTY_PAYLOAD)
  {
  }

  lemma CreateKeepsInv(s: Sys, j: nat, tenant: nat, workflow: nat, payload: Option<nat>, cfg: seq<StepConfig>)
    requires Inv(s) && j !in s.jobs
    ensures Inv(Created(s, j, NewJob(tenant, workflow, payload, cfg), payload))
  {
    hide RowsSound, BooksBalanced, NewJob;
    var r := NewJob(tenant, workflow, payload, cfg);
    var s' := Created(s, j, r, payload);
    NewJobPayload(tenant, workflow, payload, cfg);
    CreatedFits(s, j, r, payload);
    CreatedRows(s, j, tenant, workflow, payload, cfg);
    CreatedBooks(s, j, tenant, workflow, payload, cfg);
    forall k | k in s'.jobs ensures TokenExact(s', k) {
      CreatedTokens(s, j, r, payload, k);
    }
  }

  lemma EnqueueKeepsInv(s: Sys, j: nat, id: nat)
    requires Inv(s) && j in s.creating && id !in s.queue
    ensures Inv(Enqueued(s, j, id))
  {
    hide EntriesFit, RowsSound, BooksBalanced, TokenExact, Has;
    EnqueuedFits(s, j, id);
    EnqueuedRowsAndBooks(s, j, id);
    forall k | k in s.jobs ensures TokenExact(Enqueued(s, j, id), k) {
      EnqueuedTokens(s, j, id, k);
    }
  }

  lemma EnqueuedRowsAndBooks(s: Sys, j: nat, id: nat)
    requires EntriesFit(s) && TokensExact(s) && RowsSound(s) && BooksBalanced(s) && j in s.creating
    ensures RowsSound(Enqueued(s, j, id)) && BooksBalanced(Enqueued(s, j, id))
  {
    hide RowsSound, BooksBalanced;
    assert DataFits(s.jobs, s.creating[j]) && Has(s, j, AtCreator) && TokenExact(s, j);
    MovedRows(s, Enqueued(s, j, id));
    SettledBooks(s, Enqueued(s, j, id));
  }

  lemma AbandonedFits(s: Sys, j: nat)
    requires EntriesFit(s)
    ensures EntriesFit(Abandoned(s, j))
  {
  }

  lemma AbandonKeepsInv(s: Sys, j: nat)
    requires Inv(s) && j in s.creating
    ensures Inv(Abandoned(s, j))
  {
    hide EntriesFit, RowsSound, BooksBalanced, TokenExact, Has;
    AbandonedFits(s, j);
    AbandonedRowsAndBooks(s, j);
    forall k | k in s.jobs ensures TokenExact(Abandoned(s, j), k) {
      AbandonedTokens(s, j, k);
    }
  }

  lemma AbandonedRowsAndBooks(s: Sys, j: nat)
    requires EntriesFit(s) && TokensExact(s) && RowsSound(s) && BooksBalanced(s) && j in s.creating
    ensures RowsSound(Abandoned(s, j)) && BooksBalanced(Abandoned(s, j))
  {
    hide RowsSound, BooksBalanced;
    assert DataFits(s.jobs, s.creating[j]) && Has(s, j, AtCreator) && TokenExact(s, j);
    MovedRows(s, Abandoned(s, j));
    SettledBooks(s, Abandoned(s, j));
  }

  lemma TakeKeepsInv(s: Sys, w: nat, id: nat)
    requires Inv(s) && w !in s.workers && id in s.queue
    ensures Inv(Taken(s, w, id))
  {
    hide EntriesFit, RowsSound, BooksBalanced, TokenExact, Has;
    TakenFits(s, w, id);
    TakenRows(s, w, id);
    TakenBooks(s, w, id);
    forall k | k in s.jobs ensures TokenExact(Taken(s, w, id), k) {
      TakenTokens(s, w, id, k);
    }
  }

  lemma OperatedTokens(s: Sys, k: nat, op: Op)
    requires TokensExact(s) && k in s.jobs
    ensures TokensExact(OnJob(s, k, op))
  {
    hide Operate;
    SettledTokens(s, OnJob(s, k, op));
  }

  lemma OperatedFits(s: Sys, k: nat, op: Op)
    requires EntriesFit(s) && k in s.jobs
    ensures EntriesFit(OnJob(s, k, op))
  {
    OperateGrows(s.jobs[k], op);
    hide Operate;
    JobsChange(s, OnJob(s, k, op));
  }

  lemma OperationKeepsInv(s: Sys, k: nat, op: Op)
    requires Inv(s) && k in s.jobs && !op.ManualRetry?
    ensures Inv(OnJob(s, k, op))
  {
    hide EntriesFit, TokensExact, RowsSound, BooksBalanced, OnJob;
    OperatedFits(s, k, op);
    OperatedRows(s, k, op);
    OperatedBooks(s, k, op);
    OperatedTokens(s, k, op);
  }

  lemma PickedTokens(s: Sys, e: nat)
    requires TokensExact(s) && s.retry.NoRetry?
    ensures TokensExact(s.(retry := Picked(e)))
  {
    SettledTokens(s, s.(retry := Picked(e)));
  }

  lemma RemovedTokens(s: Sys)
    requires TokensExact(s) && s.retry.Requeued?
    ensures TokensExact(RetryRemoved(s))
  {
    SettledTokens(s, RetryRemoved(s));
  }

  lemma PickedFits(s: Sys, e: nat)
    requires EntriesFit(s) && e in s.dead
    ensures EntriesFit(s.(retry := Picked(e)))
  {
  }

  lemma PickKeepsInv(s: Sys, e: nat)
    requires Inv(s) && s.retry.NoRetry? && e in s.dead
    ensures Inv(s.(retry := Picked(e)))
  {
    hide EntriesFit, RowsSound, BooksBalanced, TokensExact;
    PickedFits(s, e);
    RetryRowsAndBooks(s, s.(retry := Picked(e)));
    PickedTokens(s, e);
  }

  /** A retry moves on without adding to the workflow queue or finishing. */
  lemma RetryRowsAndBooks(s: Sys, s': Sys)
    requires RowsSound(s) && BooksBalanced(s)
    requires s' == s.(retry := s'.retry, dead := s'.dead) && forall j :: j in s.jobs ==> Pending(s', j) == Pending(s, j)
    ensures RowsSound(s') && BooksBalanced(s')
  {
    hide RowsSound, BooksBalanced;
    MovedRows(s, s');
    SettledBooks(s, s');
  }

  lemma RequeueKeepsInv(s: Sys, id: nat)
    requires Inv(s) && s.retry.Picked? && id !in s.queue
    ensures Inv(RetryRequeued(s, id))
  {
    assert s.retry.entry in s.dead;
    hide EntriesFit, RowsSound, BooksBalanced, TokenExact, Has;
    RequeuedFits(s, id);
    RequeuedRows(s, id);
    RequeuedBooks(s, id);
    forall k | k in s.jobs ensures TokenExact(RetryRequeued(s, id), k) {
      RequeuedTokens(s, id, k);
    }
  }

  lemma RequeuedRows(s: Sys, id: nat)
    requires EntriesFit(s) && TokensExact(s) && RowsSound(s) && s.retry.Picked?
    ensures RowsSound(RetryRequeued(s, id))
  {
    hide RowsSound;
    assert Has(s, s.dead[s.retry.entry].jobId, InDeadLetters(s.retry.entry));
    assert DataFits(s.jobs, s.dead[s.retry.entry]) && TokenExact(s, s.dead[s.retry.entry].jobId);
    MovedRows(s, RetryRequeued(s, id));
  }

  lemma RemoveKeepsInv(s: Sys)
    requires Inv(s) && s.retry.Requeued?
    ensures Inv(RetryRemoved(s))
  {
    hide EntriesFit, RowsSound, BooksBalanced, TokensExact;
    RemovedFits(s);
    RetryRowsAndBooks(s, RetryRemoved(s));
    RemovedTokens(s);
  }

  lemma FinishKeepsInv(s: Sys)
    requires Inv(s) && s.retry.Removed? && s.retry.data.jobId in s.jobs
    ensures Inv(RetryFinished(s))
  {
    hide EntriesFit, RowsSound, BooksBalanced, TokensExact, Operate;
    var k := s.retry.data.jobId;
    OperatedFits(s, k, ManualRetry);
    OperatedRows(s, k, ManualRetry);
    OperatedTokens(s, k, ManualRetry);
    RetryOver(OnJob(s, k, ManualRetry));
    FinishedBooks(s);
  }

  lemma RetryOver(m: Sys)
    requires EntriesFit(m) && RowsSound(m) && TokensExact(m) && m.retry.Removed?
    ensures var s' := m.(retry := NoRetry); EntriesFit(s') && RowsSound(s') && TokensExact(s')
  {
    hide RowsSound;
    MovedRows(m, m.(retry := NoRetry));
    SettledTokens(m, m.(retry := NoRetry));
  }

  lemma DoKeepsInv(s: Sys, a: Action)
    requires Inv(s) && Enabled(s, a)
    ensures Inv(Do(s, a))
  {
    hide Inv, OnJob, Created, Enqueued, Abandoned, Taken, Worked, RetryRequeued, RetryRemoved, RetryFinished;
    match a {
      case Create(j, tenant, workflow, payload, cfg) => CreateKeepsInv(s, j, tenant, workflow, payload, cfg);
      case Enqueue(j, id) => EnqueueKeepsInv(s, j, id);
      case EnqueueFails(j) => AbandonKeepsInv(s, j);
      case Take(w, id) => TakeKeepsInv(s, w, id);
      case Work(w, c, id) => WorkKeepsInv(s, w, c, id);
      case CheckCancel(j) => CancellingIrrelevant(s, s.cancelling + multiset{j});
      case WriteCancel(j) =>
        OperationKeepsInv(s, j, Cancel);
        CancellingIrrelevant(OnJob(s, j, Cancel), s.cancelling - multiset{j});
      case ResolveIncident(j, k) => OperationKeepsInv(s, j, Resolve(k));
      case PickRetry(_, e) => PickKeepsInv(s, e);
      case Requeue(id) => RequeueKeepsInv(s, id);
      case RemoveRetried => RemoveKeepsInv(s);
      case FinishRetry => FinishKeepsInv(s);
    }
  }

  lemma CancellingIrrelevant(s: Sys, m: multiset<nat>)
    requires Inv(s)
    ensures Inv(s.(cancelling := m))
  {
    hide JobInv, Balanced;
    var s' := s.(cancelling := m);
    MovedRows(s, s');
    SettledBooks(s, s');
    SettledTokens(s, s');
  }

  /** `acts` is an interleaving that the system admits from `s`. */
  ghost predicate Admits(s: Sys, acts: seq<Action>)
    decreases |acts|
  {
    acts == [] || (Enabled(s, acts[0]) && Admits(Do(s, acts[0]), acts[1..]))
  }

  ghost function After(s: Sys, acts: seq<Action>): Sys
    requires Admits(s, acts)
    decreases |acts|
  {
    if acts == [] then s else After(Do(s, acts[0]), acts[1..])
  }

  lemma {:induction false} RunKeepsInv(s: Sys, acts: seq<Action>)
    requires Inv(s) && Admits(s, acts)
    ensures Inv(After(s, acts))
    decreases |acts|
  {
    if acts != [] {
      DoKeepsInv(s, acts[0]);
      RunKeepsInv(Do(s, acts[0]), acts[1..]);
    }
  }

  lemma {:induction false} AfterNext(s: Sys, acts: seq<Action>, a: Action)
    requires Admits(s, acts) && Enabled(After(s, acts), a)
    ensures Admits(s, acts + [a]) && After(s, acts + [a]) == Do(After(s, acts), a)
    decreases |acts|
  {
    hide Enabled, Do;
    if acts == [] {
      assert acts + [a] == [a] && [a][1..] == [];
      assert Admits(Do(s, a), []) && After(Do(s, a), []) == Do(s, a);
    } else {
      assert (acts + [a])[0] == acts[0] && (acts + [a])[1..] == acts[1..] + [a];
      AfterNext(Do(s, acts[0]), acts[1..], a);
    }
  }

  // ---- Additions to the dead-letter queue ----

  /** The entries ever added for `j` are its failed runs, but for the one about to be added. */
  ghost predicate AdditionsCounted(s: Sys, j: nat) {
    if j in s.jobs then Failures(s.jobs[j]) == s.added[j] + (if OwnerPc(s, j).DeadLettering? then 1 else 0)
    else s.added[j] == 0
  }

  lemma OperatedFailures(r: JobRec, op: Op)
    ensures Failures(Operate(r, op)) == Failures(r)
  {
    if OperateEntry(op).Some? {
      CountsAppend(r, Operate(r, op), OperateEntry(op).value);
    }
  }

  lemma StepFailures(r: JobRec, pc: Pc, c: Attempted)
    requires Fits(r, pc) && Owning(pc)
    ensures Failures(Step(r, pc, c).0) == Failures(r) + if Step(r, pc, c).1.DeadLettering? then 1 else 0
  {
    var e := Emitted(r, pc, c);
    StepLogs(r, pc, c);
    EntriesOfPlaces(r, pc, c);
    hide Step, Emitted, Fits;
    if e.Some? {
      CountsAppend(r, Step(r, pc, c).0, e.value);
    } else {
      SameCounts(r, Step(r, pc, c).0);
    }
  }

  lemma WorkCounted(s: Sys, w: nat, c: Attempted, id: nat, j: nat)
    requires Inv(s) && Enabled(s, Work(w, c, id)) && AdditionsCounted(s, j)
    ensures AdditionsCounted(Do(s, Work(w, c, id)), j)
  {
    hide Step, Fits, Operate, Failures, Balanced, JobInv, Grows, EntriesFit, RowsSound, BooksBalanced;
    var b := s.workers[w];
    var n := Step(s.jobs[b.job], b.pc, c);
    WorkersStep(s, w, c, id);
    if j in s.jobs {
      assert TokenExact(s, j);
      if j != b.job || !Owning(b.pc) {
        WorkedOthers(s, w, n.0, n.1, id, j);
        OperatedFailures(s.jobs[j], LateDeadLettered);
      } else {
        assert Has(s, j, AtWorker(w));
        StepFailures(s.jobs[j], b.pc, c);
      }
    }
  }

  lemma OperationCounted(s: Sys, a: Action, j: nat)
    requires Enabled(s, a) && AdditionsCounted(s, j) && (a.WriteCancel? || a.ResolveIncident? || a.FinishRetry?)
    ensures AdditionsCounted(Do(s, a), j)
  {
    hide Operate, Failures;
    match a
    case WriteCancel(k) => OperatedFailures(s.jobs[k], Cancel);
    case ResolveIncident(k, n) => OperatedFailures(s.jobs[k], Resolve(n));
    case FinishRetry => OperatedFailures(s.jobs[s.retry.data.jobId], ManualRetry);
    case _ =>
  }

  lemma NewJobFailures(tenant: nat, workflow: nat, payload: Option<nat>, cfg: seq<StepConfig>)
    ensures Failures(NewJob(tenant, workflow, payload, cfg)) == 0
  {
  }

  lemma MoveCounted(s: Sys, a: Action, j: nat)
    requires TokensExact(s) && EntriesFit(s) && Enabled(s, a) && AdditionsCounted(s, j)
    requires !a.Work? && !a.WriteCancel? && !a.ResolveIncident? && !a.FinishRetry?
    ensures AdditionsCounted(Do(s, a), j)
  {
    hide NewJob, Failures, EntriesFit;
    if j in s.jobs {
      assert TokenExact(s, j);
    }
    match a
    case Create(k, tenant, workflow, payload, cfg) => NewJobFailures(tenant, workflow, payload, cfg);
    case Enqueue(k, _) => assert Has(s, k, AtCreator);
    case EnqueueFails(k) => assert Has(s, k, AtCreator);
    case Take(_, id) => assert Has(s, s.queue[id].jobId, InQueue(id));
    case Requeue(_) => assert Has(s, s.dead[s.retry.entry].jobId, InDeadLetters(s.retry.entry));
    case _ =>
  }

  lemma {:induction false} RunCounted(s: Sys, acts: seq<Action>, j: nat)
    requires Inv(s) && Admits(s, acts) && AdditionsCounted(s, j)
    ensures AdditionsCounted(After(s, acts), j)
    decreases |acts|
  {
    if acts != [] {
      var a := acts[0];
      if a.Work? {
        WorkCounted(s, a.w, a.c, a.id, j);
      } else if a.WriteCancel? || a.ResolveIncident? || a.FinishRetry? {
        OperationCounted(s, a, j);
      } else {
        MoveCounted(s, a, j);
      }
      hide AdditionsCounted, Do, Enabled;
      DoKeepsInv(s, a);
      RunCounted(Do(s, a), acts[1..], j);
    }
  }

  lemma InitInv()
    ensures Inv(INIT)
  {
  }

  /** In every interleaving each job's token is in at most one place, so at most one worker at a
      time runs its steps. */
  lemma SingleOwner(acts: seq<Action>, j: nat, t1: Token, t2: Token)
    requires Admits(INIT, acts) && j in After(INIT, acts).jobs
    requires Has(After(INIT, acts), j, t1) && Has(After(INIT, acts), j, t2)
    ensures t1 == t2
  {
    InitInv();
    RunKeepsInv(INIT, acts);
    assert TokenExact(After(INIT, acts), j);
  }

  /** No worker is ever stuck: whatever the handler does, its next action is defined. */
  lemma WorkersProceed(acts: seq<Action>, w: nat, c: Attempted, id: nat)
    requires Admits(INIT, acts) && w in After(INIT, acts).workers && id !in After(INIT, acts).dead
    ensures Enabled(After(INIT, acts), Work(w, c, id))
  {
    var s := After(INIT, acts);
    InitInv();
    RunKeepsInv(INIT, acts);
    var j := s.workers[w].job;
    assert TokenExact(s, j);
    if Owning(s.workers[w].pc) {
      assert Has(s, j, AtWorker(w));
    }
    assert JobInv(s.jobs[j], OwnerPc(s, j));
  }

  /** The audit log of a job, read alone, tells its status, every step's status and attempt counter,
      except for the status of a step whose recovery is between its entry and its write. */
  lemma LogTellsHistory(acts: seq<Action>, j: nat)
    requires Admits(INIT, acts) && j in After(INIT, acts).jobs
    ensures var s := After(INIT, acts);
            var r := s.jobs[j];
            var h := Replay(r.cfg, r.log);
            && h.status == r.status
            && |h.rows| == |r.steps|
            && forall k :: 0 <= k < |r.steps| ==>
                 && h.rows[k].attempts == r.steps[k].attempts
                 && (h.rows[k].status == r.steps[k].status <==> !InWindow(OwnerPc(s, j), k))
  {
    InitInv();
    RunKeepsInv(INIT, acts);
    var s := After(INIT, acts);
    assert JobInv(s.jobs[j], OwnerPc(s, j));
  }

  /** In every interleaving an entry of either queue carries its job's ids and payload; one without a
      payload stands for the empty one. */
  lemma EntriesCarryTheirJobs(acts: seq<Action>, id: nat)
    requires Admits(INIT, acts)
    ensures var s := After(INIT, acts);
            && (id in s.queue ==> Orders(s.queue[id], s.jobs)) && (id in s.dead ==> Orders(s.dead[id], s.jobs))
  {
    InitInv();
    RunKeepsInv(INIT, acts);
    var s := After(INIT, acts);
    assert id in s.queue ==> DataFits(s.jobs, s.queue[id]);
    assert id in s.dead ==> DataFits(s.jobs, s.dead[id]);
  }

  predicate Orders(d: QueueData, jobs: map<nat, JobRec>) {
    && d.jobId in jobs
    && var r := jobs[d.jobId];
       d == QueueData(d.jobId, r.tenant, r.workflow, d.payload)
       && (d.payload == Some(r.payload) || (d.payload.None? && r.payload == EMPTY_PAYLOAD))
  }

  /** Incidents in every interleaving: at most one unresolved per step, and recovery attempts
      point at incidents of their own step. */
  lemma IncidentIntegrity(acts: seq<Action>, j: nat)
    requires Admits(INIT, acts) && j in After(INIT, acts).jobs
    ensures var r := After(INIT, acts).jobs[j]; OneOpen(r.incidents) && Linked(r.attempts, r.incidents)
  {
    InitInv();
    RunKeepsInv(INIT, acts);
    var s := After(INIT, acts);
    assert JobInv(s.jobs[j], OwnerPc(s, j));
  }

  /** How often a job starts, completes and fails over its whole life. */
  lemma WholeLife(acts: seq<Action>, j: nat)
    requires Admits(INIT, acts) && j in After(INIT, acts).jobs
    ensures var s := After(INIT, acts);
            var r := s.jobs[j];
            && Completions(r) <= 1
            && (Completions(r) == 1 ==> forall t :: !Has(s, j, t))
            && Starts(r) <= 1 + ManualRetries(r) + Pending(s, j)
            && (!OwnerPc(s, j).DeadLettering? && !Active(OwnerPc(s, j)) ==> Starts(r) == Completions(r) + Failures(r))
            && s.added[j] - ManualRetries(r) - Pending(s, j)
               == (if exists id :: Has(s, j, InDeadLetters(id)) then 1 else 0)
            && Failures(r) == s.added[j] + (if OwnerPc(s, j).DeadLettering? then 1 else 0)
  {
    InitInv();
    RunKeepsInv(INIT, acts);
    RunCounted(INIT, acts, j);
    var s := After(INIT, acts);
    assert TokenExact(s, j);
    assert Balanced(s.jobs[j], s.token[j], OwnerPc(s, j), Pending(s, j));
    if Failed(s.token[j], OwnerPc(s, j)) || Active(OwnerPc(s, j)) {
      assert s.token[j] != Nowhere;
    }
  }

  // ---- One worker's view ----

  /** What action `a` is to worker `w`, which owns `j`: its own action, an operator's action on the
      rows, or nothing. */
  ghost function Seen(a: Action, s: Sys, j: nat, w: nat): Option<Event> {
    match a
    case Work(v, c, _) =>
      if v == w then Some(Act(c))
      else if v in s.workers && s.workers[v].job == j then Some(Operation(LateDeadLettered))
      else None
    case WriteCancel(k) => if k == j then Some(Operation(Cancel)) else None
    case ResolveIncident(k, n) => if k == j then Some(Operation(Resolve(n))) else None
    case FinishRetry => if s.retry.Removed? && s.retry.data.jobId == j then Some(Operation(ManualRetry)) else None
    case _ => None
  }

  lemma OwnerActs(s: Sys, c: Attempted, id: nat, j: nat, w: nat)
    requires Enabled(s, Work(w, c, id)) && s.workers[w].job == j
    requires w in Do(s, Work(w, c, id)).workers
    ensures var s' := Do(s, Work(w, c, id));
            && j in s'.jobs && (s'.jobs[j], s'.workers[w].pc) == Happen(s.jobs[j], s.workers[w].pc, Act(c))
  {
  }

  lemma OwnerWatches(s: Sys, a: Action, j: nat, w: nat)
    requires TokenExact(s, j) && j in s.jobs && Enabled(s, a) && Has(s, j, AtWorker(w))
    requires forall v :: v in s.workers && !Owning(s.workers[v].pc) ==> s.workers[v].pc == Trailing
    requires !(a.Work? && a.w == w) && w in Do(s, a).workers
    requires s.workers[w].job == j && Fits(s.jobs[j], s.workers[w].pc)
    ensures var s' := Do(s, a);
            var e := Seen(a, s, j, w);
            j in s'.jobs && (s'.jobs[j], s'.workers[w].pc)
            == if e.None? then (s.jobs[j], s.workers[w].pc) else Happen(s.jobs[j], s.workers[w].pc, e.value)
  {
    assert a.Work? && s.workers[a.w].job == j ==>
      Step(s.jobs[j], s.workers[a.w].pc, a.c).0 == Operate(s.jobs[j], LateDeadLettered) by
    {
      if a.Work? && s.workers[a.w].job == j {
        assert !Has(s, j, AtWorker(a.w));
      }
    }
    hide Step, Fits, Operate, TokenExact, NewJob;
  }

  lemma OwnerSees(s: Sys, a: Action, j: nat, w: nat)
    requires Inv(s) && Enabled(s, a) && Has(s, j, AtWorker(w)) && Has(Do(s, a), j, AtWorker(w))
    ensures j in s.jobs && JobInv(s.jobs[j], s.workers[w].pc)
    ensures var s' := Do(s, a);
            var e := Seen(a, s, j, w);
            j in s'.jobs && (s'.jobs[j], s'.workers[w].pc)
            == if e.None? then (s.jobs[j], s.workers[w].pc) else Happen(s.jobs[j], s.workers[w].pc, e.value)
  {
    assert TokenExact(s, j);
    assert JobInv(s.jobs[j], OwnerPc(s, j));
    hide Do, Happen, Enabled, Worked;
    if a.Work? && a.w == w {
      OwnerActs(s, a.c, a.id, j, w);
    } else {
      OwnerWatches(s, a, j, w);
    }
  }

  /** Worker `w` owns `j` before, during and after `acts`. */
  ghost predicate Owns(s: Sys, acts: seq<Action>, j: nat, w: nat)
    requires Admits(s, acts)
    decreases |acts|
  {
    Has(s, j, AtWorker(w)) && (acts != [] ==> Owns(Do(s, acts[0]), acts[1..], j, w))
  }

  /** However the actors are interleaved, what the owner of a job lives through is an execution of
      the job machine: its own actions, with operators' actions between them. */
  lemma {:induction false} InterleavingIsExecution(s: Sys, acts: seq<Action>, j: nat, w: nat)
    returns (events: seq<Event>)
    requires Inv(s) && Admits(s, acts) && Owns(s, acts, j, w)
    ensures j in s.jobs && JobInv(s.jobs[j], s.workers[w].pc)
    ensures var t := After(s, acts);
            && Has(t, j, AtWorker(w)) && j in t.jobs
            && Execution(s.jobs[j], s.workers[w].pc, events) == (t.jobs[j], t.workers[w].pc)
    decreases |acts|
  {
    assert TokenExact(s, j) && JobInv(s.jobs[j], OwnerPc(s, j));
    hide Inv, JobInv, TokenExact, Do, Step, Operate;
    if acts == [] {
      events := [];
    } else {
      var s' := Do(s, acts[0]);
      OwnerSees(s, acts[0], j, w);
      DoKeepsInv(s, acts[0]);
      events := InterleavingIsExecution(s', acts[1..], j, w);
      var e := Seen(acts[0], s, j, w);
      if e.Some? {
        ExecutionFirst(s.jobs[j], s.workers[w].pc, e.value, events);
        events := [e.value] + events;
      }
    }
  }

  // ---- What never comes back ----

  ghost predicate Gone(s: Sys, j: nat) {
    j in s.jobs && j in s.token && s.token[j] == Nowhere
  }

  /** `j` has been neither started nor worked on. */
  ghost predicate Untouched(s: Sys, s': Sys, j: nat)
    requires Gone(s, j) && Gone(s', j)
  {
    s'.jobs[j].steps == s.jobs[j].steps && Starts(s'.jobs[j]) == Starts(s.jobs[j])
  }

  lemma OperatedStarts(r: JobRec, op: Op)
    ensures Operate(r, op).steps == r.steps && Starts(Operate(r, op)) == Starts(r)
  {
  }

  /** A job whose token is gone: no action starts it again or touches its steps. */
  lemma TokenStaysGone(s: Sys, a: Action, j: nat)
    requires TokenExact(s, j) && Enabled(s, a) && Gone(s, j)
    requires forall v :: v in s.workers && !Owning(s.workers[v].pc) ==> s.workers[v].pc == Trailing
    ensures Gone(Do(s, a), j) && Untouched(s, Do(s, a), j)
  {
    if a.Work? {
      WorkedGone(s, a.w, a.c, a.id, j);
    } else if a.WriteCancel? || a.ResolveIncident? || a.FinishRetry? {
      OperatedGone(s, a, j);
    } else {
      MovedGone(s, a, j);
    }
  }

  lemma OperatedGone(s: Sys, a: Action, j: nat)
    requires Enabled(s, a) && Gone(s, j) && (a.WriteCancel? || a.ResolveIncident? || a.FinishRetry?)
    ensures Gone(Do(s, a), j) && Untouched(s, Do(s, a), j)
  {
    hide Operate, Starts;
    match a
    case WriteCancel(k) => OperatedStarts(s.jobs[k], Cancel);
    case ResolveIncident(k, n) => OperatedStarts(s.jobs[k], Resolve(n));
    case FinishRetry => OperatedStarts(s.jobs[s.retry.data.jobId], ManualRetry);
    case _ =>
  }

  lemma MovedGone(s: Sys, a: Action, j: nat)
    requires TokenExact(s, j) && Enabled(s, a) && Gone(s, j)
    requires !a.Work? && !a.WriteCancel? && !a.ResolveIncident? && !a.FinishRetry?
    ensures Gone(Do(s, a), j) && Untouched(s, Do(s, a), j)
  {
    hide NewJob, Starts;
    match a
    case Enqueue(k, _) => assert Has(s, k, AtCreator);
    case EnqueueFails(k) => assert Has(s, k, AtCreator);
    case Take(_, id) => assert Has(s, s.queue[id].jobId, InQueue(id));
    case Requeue(_) => assert Has(s, s.dead[s.retry.entry].jobId, InDeadLetters(s.retry.entry));
    case _ =>
  }

  lemma WorkedGone(s: Sys, w: nat, c: Attempted, id: nat, j: nat)
    requires TokenExact(s, j) && Enabled(s, Work(w, c, id)) && Gone(s, j)
    requires forall v :: v in s.workers && !Owning(s.workers[v].pc) ==> s.workers[v].pc == Trailing
    ensures Gone(Do(s, Work(w, c, id)), j) && Untouched(s, Do(s, Work(w, c, id)), j)
  {
    var b := s.workers[w];
    assert b.job == j ==> !Has(s, j, AtWorker(w));
    assert b.pc.Trailing? ==> Step(s.jobs[b.job], b.pc, c).0 == Operate(s.jobs[b.job], LateDeadLettered);
    hide Step, Operate, Starts, Fits;
    if b.job == j {
      OperatedStarts(s.jobs[j], LateDeadLettered);
    }
  }

  lemma {:induction false} NoTokenNoRun(s: Sys, acts: seq<Action>, j: nat)
    requires Inv(s) && Admits(s, acts) && Gone(s, j)
    ensures Gone(After(s, acts), j) && Untouched(s, After(s, acts), j)
    decreases |acts|
  {
    if acts != [] {
      DoKeepsInv(s, acts[0]);
      TokenStaysGone(s, acts[0], j);
      NoTokenNoRun(Do(s, acts[0]), acts[1..], j);
    }
  }

  lemma {:induction false} AfterConcat(s: Sys, acts: seq<Action>, more: seq<Action>)
    requires Admits(s, acts + more)
    ensures Admits(s, acts) && Admits(After(s, acts), more) && After(s, acts + more) == After(After(s, acts), more)
    decreases |acts|
  {
    if acts == [] {
      assert acts + more == more;
    } else {
      assert (acts + more)[0] == acts[0] && (acts + more)[1..] == acts[1..] + more;
      hide Do, Enabled;
      AfterConcat(Do(s, acts[0]), acts[1..], more);
    }
  }

  /** Once a job has logged JOB_COMPLETED it is never started again and its steps never change. */
  lemma CompletedForGood(acts: seq<Action>, more: seq<Action>, j: nat)
    requires Admits(INIT, acts + more) && Admits(INIT, acts)
    requires j in After(INIT, acts).jobs && Completions(After(INIT, acts).jobs[j]) == 1
    ensures var s, t := After(INIT, acts), After(INIT, acts + more);
            j in t.jobs && t.jobs[j].steps == s.jobs[j].steps && Starts(t.jobs[j]) == Starts(s.jobs[j])
  {
    var s := After(INIT, acts);
    AfterConcat(INIT, acts, more);
    InitInv();
    RunKeepsInv(INIT, acts);
    assert TokenExact(s, j);
    assert Balanced(s.jobs[j], s.token[j], OwnerPc(s, j), Pending(s, j));
    NoTokenNoRun(s, more, j);
  }

  ghost predicate AllGrow(s: Sys, s': Sys) {
    forall j :: j in s.jobs ==> j in s'.jobs && Grows(s.jobs[j], s'.jobs[j])
  }

  lemma DoGrows(s: Sys, a: Action)
    requires Enabled(s, a)
    ensures AllGrow(s, Do(s, a))
  {
    hide Grows, Step, Operate, Fits;
    forall j | j in s.jobs
      ensures j in Do(s, a).jobs && Grows(s.jobs[j], Do(s, a).jobs[j])
    {
      SelfGrows(s.jobs[j]);
      match a
      case Work(w, c, _) => StepGrows(s.jobs[s.workers[w].job], s.workers[w].pc, c);
      case WriteCancel(k) => OperateGrows(s.jobs[k], Cancel);
      case ResolveIncident(k, n) => OperateGrows(s.jobs[k], Resolve(n));
      case FinishRetry => OperateGrows(s.jobs[s.retry.data.jobId], ManualRetry);
      case _ =>
    }
  }

  /** Whatever happens, logs are only appended to, incidents and recovery attempts are only added,
      and no incident loses its `resolved` or `escalated` flag. */
  lemma {:induction false} HistoryGrows(s: Sys, acts: seq<Action>)
    requires Admits(s, acts)
    ensures AllGrow(s, After(s, acts))
    decreases |acts|
  {
    hide Grows, Do;
    if acts == [] {
      forall j | j in s.jobs ensures Grows(s.jobs[j], s.jobs[j]) {
        SelfGrows(s.jobs[j]);
      }
    } else {
      var s', t := Do(s, acts[0]), After(s, acts);
      DoGrows(s, acts[0]);
      HistoryGrows(s', acts[1..]);
      forall j | j in s.jobs ensures j in t.jobs && Grows(s.jobs[j], t.jobs[j]) {
        GrowsOn(s.jobs[j], s'.jobs[j], t.jobs[j]);
      }
    }
  }
}
