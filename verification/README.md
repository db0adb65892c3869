# Failure recovery engine: a verified model

A job runs the steps of a workflow. Each step has a bounded attempt loop; every failed attempt calls a
recovery dispatcher that may re-execute, fall back, skip, compensate earlier steps, escalate, or send a
hint to the next attempt. Job, step, incident, recovery-attempt and audit rows change together, while API
calls, other workers and operators act on the same tables and on two queues. This project models that
engine, and three smaller cores beside it, and proves what they keep.

| file | what it models |
|---|---|
| `Types.dfy`, `Text.dfy` | the rows, the audit entries, the choice of a strategy; JavaScript white space |
| `Audit.dfy` | reading a job's log: `Replay` folds the entries into statuses and attempt counters |
| `JobMachine.dfy` | the worker and the recovery service on one job, one table access per action, with operators' actions between them |
| `Protocol.dfy` | the whole system: API calls, any number of workers, both queues, dead-letter retries, cancellations |
| `RunSpec.dfy` | what a run amounts to: who wins an attempt, what a round of each loop adds |
| `Worker.dfy` | the loops of the worker and the handlers of the recovery service, on mutable rows |
| `RunLaws.dfy` | outcome, compensation, budgets and accounting of runs |
| `Progress.dfy` | what a run has done at every moment of every interleaving |
| `Witnesses.dfy` | runs from the empty system in which the documentation's promises fail |
| `Backend.dfy` | job creation, cancellation, dead-letter retry and incident resolution, on mutable tables |
| `Idempotency.dfy` | the idempotency interceptor under concurrent requests |
| `Webhook.dfy`, `Backoff.dfy` | the delivery loop and the two delay formulas |
| `Template.dfy`, `Llm.dfy` | the `{{path}}` interpolator; how recovery hints reach the provider |

How the parts meet. A step of `JobMachine.Step` is one access to a table. `Worker.WorkflowWorker` is the
imperative form: each of its methods that touches a row is proved to be such a step (`Valid` says that the
rows and the worker's place are an execution of the machine), and others' actions may fall before every one
of them. `Protocol` puts any number of such workers into the whole system, and
`Protocol.InterleavingIsExecution` shows that the owner of a job lives through an execution of the machine
in every interleaving. `Backend.Services` is the imperative form of the other actors; its `Valid` says that
the tables are reached by protocol actions. Handlers, simulated executions, fallback providers, jitters and
other actors' actions are parameters of a run (`Oracle`) and arbitrary. A worker that has added its job to
the dead-letter queue owns it no more: from that insert on the rows may change as any later owner changes
them, and what a failed run reports is the rows at the insert.

Assumptions. Store calls do not throw. Every step type of a workflow has a registered handler. The workflow
queue delivers each entry once, in any order. Dead-letter retries are serialised; their four accesses are
separate actions. A write and its audit entry are one action, with two exceptions that follow the code: the
SKIPPED write of SKIP comes before its RECOVERY_SUCCEEDED entry, and the worker's own write after a
successful recovery comes after it. A job's steps are a given sequence, and a step's id and order are its
index. A log entry that names no step belongs to the step of the last STEP_STARTED. Delays are reals.

What came out, beyond the properties that hold as the documentation states them:

- README.md:353 says that every state change emits an entry. Three do not: RETRYING on the job, and
  SKIPPED or COMPLETED after a recovery. FAILURE_DETECTED and RECOVERY_SUCCEEDED carry them, given the
  policies, so the log still tells the history (`Protocol.LogTellsHistory`), except for the status of a step
  inside the two windows above, and there it never does; both windows are reached (`Witnesses`). If the
  FAILURE_DETECTED entry and the writes after it are taken apart, replay fails exactly if the failure is
  retried and a cancellation or a dead-letter retry writes the job's status between them
  (`JobMachine.FailureApartTells`).
- A step of RETRY or RETRY_WITH_DELAY makes at most 2 * maxRetries + 1 executions. That number is reached
  also when the very last execution succeeds: `RunLaws.ExecutionBudget` gives the exact condition.
- SKIP and COMPENSATE with maxRetries = 0 become ESCALATE and never succeed (`RunLaws.SkipNeedsARetry`),
  and the DEAD_LETTER strategy of README.md:155 is answered with "Unknown strategy" by the dispatcher, so no
  policy moves a job to the dead-letter queue by itself.
- README.md:154 says that ESCALATE flags the incident. The flag is written before the incident is created,
  so a step with one attempt and no open incident ends with an unflagged one:
  `Worker.WorkflowWorker.ExecuteStepWithRecovery` states exactly when the flag is set, and
  `Witnesses.EscalationLost` is a run that loses it.
- A run that reads CANCELLED at a step boundary starts no further step, and then ends as COMPLETED; the
  webhook event for cancelled jobs is never chosen.
- backend/src/modules/webhooks/webhook.service.ts:26-30 promises a row and an audit entry for every attempt;
  the code keeps one row per event, overwritten by each attempt, and logs one entry, at the end.
- `fallbackModels`, documented in backend/src/modules/workers/handlers/llm-call.handler.ts:17-18 as the list
  that SWITCH_MODEL goes through, is never read: SWITCH_MODEL always takes `policy.fallbackService`.
- The interceptor stores an empty object for an answer without a body, so a replay can differ from the first
  answer in that one case, and only then (`Idempotency.ReplayIsTheAnswer`).
- For multipliers in [1, 11/9) a later delay can be the shorter one (`Backoff.BackoffCanShrink`);
  `Backoff.BackoffKeepsOrder` is the exact condition for the delays that are returned, and 11/9 the exact bound
  before capping and rounding.
- An update that has no new value for a column leaves it alone, so a delivered webhook row can keep the error
  of an earlier attempt (`Webhook.WebhookService.Dispatch`).

## Model

| member | source | states |
|---|---|---|
| Protocol.SingleOwner | backend/src/modules/queue/queue.service.ts:39-56 | In every interleaving of creations, workers, cancellations, incident resolutions and dead-letter retries the right to run a job is in at most one place: with its creator, in one workflow-queue entry, with one worker, or in one dead-letter entry that is not already being retried. So no two workers run steps of one job at once. |
| Protocol.LogTellsHistory | backend/src/modules/audit/audit.service.ts:17-27 | In every interleaving, replaying a job's log gives its status, every step's attempt counter, and the status of a step if and only if that step's recovery is not between its entry and its write. |
| Protocol.WholeLife | backend/src/modules/workers/workflow-worker.service.ts:98-190 | A job completes at most once, and then no place holds it; it starts at most once plus once per dead-letter retry; between runs its starts are its completions plus its failures. The entries ever added to the dead-letter queue for it, minus its retries, are the entries present that are not being retried, which are 0 or 1; they are as many as its failed runs, but for one about to be added. |
| Protocol.CompletedForGood | backend/src/modules/workers/workflow-worker.service.ts:436-452 | However a run goes on after a job has logged JOB_COMPLETED, the job is never started again and none of its steps changes. |
| Protocol.NoTokenNoRun | backend/src/modules/jobs/jobs.service.ts:61-77 | A job whose right to run is gone (completed, skipped as cancelled, or never enqueued) is never started and its steps never change, whatever the others do. |
| Protocol.WorkersProceed | backend/src/modules/workers/workflow-worker.service.ts:98-205 | No reachable state blocks a worker: whatever its handler does, its next action is defined. |
| Protocol.IncidentIntegrity | backend/src/modules/recovery/recovery.service.ts:299-314 | In every interleaving with operators' resolutions a step has at most one unresolved incident, and every recovery attempt points at an incident of its own step. |
| Protocol.EntriesCarryTheirJobs | backend/src/modules/queue/queue.service.ts:39-56 | In every interleaving an entry of either queue carries the ids and the payload of a stored job; one without a payload stands for the empty one. |
| Protocol.HistoryGrows | backend/src/modules/incidents/incidents.service.ts:24-33 | Whatever happens, a job's log and its recovery attempts are only appended to, incidents are only added and keep their step, and neither `resolved` nor `escalated` is ever taken back. |
| Protocol.InterleavingIsExecution | backend/src/modules/workers/workflow-worker.service.ts:98-124 | While a worker owns a job, any interleaving of the whole system is, on that job's rows, an execution of the job machine: the worker's own actions with operators' actions between them. |
| Protocol.OwnerSees | backend/src/modules/queue/queue.service.ts:39-48 | One action of anybody is, to the owner of a job, its own step, one operator action on the rows, or nothing. |
| Progress.RunInEveryInterleaving | backend/src/modules/workers/workflow-worker.service.ts:98-205 | In every interleaving of the whole system from the empty one, from the moment a worker takes a job and as long as it owns it: every step it has left is settled by an allowed attempt, a critical one being SKIPPED only by SKIP; every step it has not reached is as it was or has been compensated; where it dead-letters the job a critical step is FAILED at its last allowed attempt; where it completes the job every step was left so, unless JOB_CANCELLED was logged meanwhile. |
| Progress.EndOfRun | backend/src/modules/workers/workflow-worker.service.ts:160-204 | What that means at the two ends of a run: which steps are settled, failed or untouched. |
| Progress.ExecutionProgresses | backend/src/modules/workers/workflow-worker.service.ts:231-340 | The same for any execution of the job machine from a sound job, with arbitrary handler outcomes and operators' actions. |
| Witnesses.SkipWindowIsReached | backend/src/modules/recovery/recovery.service.ts:246-252 | A run from the empty system reaches a place where a step is SKIPPED and the log tells FAILED. |
| Witnesses.CompletedWindowIsReached | backend/src/modules/workers/workflow-worker.service.ts:303-313 | A run from the empty system reaches a place where the log tells COMPLETED and the step is still FAILED. |
| Witnesses.SplitFailureMisleads | backend/src/modules/workers/workflow-worker.service.ts:265-286 | A run from the empty system reaches an attempt at which a cancellation between FAILURE_DETECTED and the writes after it leaves the log with CANCELLED and the job RETRYING. |
| Witnesses.EscalationLost | backend/src/modules/recovery/recovery.service.ts:280-314 | A run from the empty system ends with an escalated step whose open incident is not flagged. |
| Protocol.RunKeepsInv | backend/src/modules/dead-letter/dead-letter.service.ts:36-56 | Every interleaving keeps the system invariant: entries carry the ids of existing jobs, tokens are exact, every job's rows are sound at its owner's place, and the books of starts, ends and retries balance. |
| Protocol.WorkKeepsInv | backend/src/modules/workers/workflow-worker.service.ts:126-205 | Any action of any worker at any place keeps the system invariant. |
| Protocol.TakeKeepsInv | backend/src/modules/workers/workflow-worker.service.ts:74-81 | Taking an entry from the workflow queue keeps it, with the token moving from the entry to the worker. |
| Protocol.CreateKeepsInv | backend/src/modules/jobs/jobs.service.ts:43-59 | Storing a job, its steps and JOB_CREATED keeps it. |
| Protocol.EnqueueKeepsInv | backend/src/modules/queue/queue.service.ts:39-43 | Adding the workflow-queue entry keeps it, with the token moving from the creator to the entry. |
| Protocol.AbandonKeepsInv | backend/src/modules/jobs/jobs.service.ts:72-77 | A queue insert that fails keeps it, and the job's token is gone. |
| Protocol.OperationKeepsInv | backend/src/modules/jobs/jobs.service.ts:94-107 | The late write of a cancellation, or of an incident resolution, keeps it at any place of the job's owner. |
| Protocol.RequeueKeepsInv | backend/src/modules/queue/queue.service.ts:50-53 | Adding a retried entry to the workflow queue while the dead-letter entry still stands keeps it: the old entry no longer counts. |
| Protocol.RemoveKeepsInv | backend/src/modules/queue/queue.service.ts:54-55 | Removing the retried dead-letter entry keeps it. |
| Protocol.FinishKeepsInv | backend/src/modules/dead-letter/dead-letter.service.ts:45-55 | The PENDING write and MANUAL_RETRY keep it even if a worker has already taken, run or dead-lettered the job again. |
| JobMachine.StepTells | backend/src/modules/workers/workflow-worker.service.ts:140-318 | If a reading of the log shows a job's rows, then reading on over the entry that an action appends, if any, shows the rows that the action leaves. |
| JobMachine.StepKeepsJobInv | backend/src/modules/recovery/recovery.service.ts:55-107 | Every action of the worker and of the recovery service keeps: log and rows agree, the failing step's row holds its attempt, at most one incident per step is open, recovery attempts are linked. |
| JobMachine.OperateKeepsJobInv | backend/src/modules/incidents/incidents.service.ts:24-33 | So does any operator action at any place of the owner. |
| JobMachine.FailureApartTells | backend/src/modules/workers/workflow-worker.service.ts:265-286 | With FAILURE_DETECTED and the writes after it taken apart and an operator action between them, the log still tells the rows if and only if the failure is not retried or the operator does not write the job's status. |
| JobMachine.StepGrows | backend/src/modules/recovery/recovery.service.ts:254-314 | One action appends to log and attempts, adds incidents, and takes back no flag. |
| JobMachine.ExecutionFirst | backend/src/modules/workers/workflow-worker.service.ts:231-340 | Executions compose: the first event and then the rest. |
| JobMachine.ElsewhereKeepsJobInv | backend/src/modules/workers/workflow-worker.service.ts:177-189 | Whatever operators and later owners do to a job that its worker has given away keeps its rows sound for the present owner and its history growing. |
| JobMachine.CompletedSteps | backend/src/modules/recovery/recovery.service.ts:255-259 | The query of COMPENSATE returns exactly the COMPLETED steps, each once, in creation order. |
| JobMachine.FirstOpen | backend/src/modules/recovery/recovery.service.ts:300-303 | The search for an open incident finds one of the step that is not resolved, or there is none. |
| Worker.WorkflowWorker.constructor | backend/src/modules/workers/workflow-worker.service.ts:395-406 | A worker that takes a sound job starts a valid run with empty counters. |
| Worker.WorkflowWorker.ProcessJob | backend/src/modules/workers/workflow-worker.service.ts:98-124 | A job read as CANCELLED is left untouched. Otherwise the run reports FAILED or COMPLETED, and the rows are as `RunReport` says for the attempts that decided the steps: at the end of the run, or, if it failed, when the dead-letter entry was added, since from then on they belong to whoever takes the job next. One entry with the job's ids and payload is added exactly if it failed; the handlers were called as `RunCalls` says, with the inputs that `InputsLatest` says. |
| Worker.WorkflowWorker.RunSteps | backend/src/modules/workers/workflow-worker.service.ts:126-205 | The step loop, from any starting rows and with any actions of others: it stops at the first critical step that no attempt settles, at the boundary where it reads CANCELLED, or after the last step; the rows of every step left and not left, up to the moment the job is given away if the run fails; `payload.steps` holds exactly the results of the earlier steps that returned one, the latest for equal names. |
| Worker.WorkflowWorker.RunStep | backend/src/modules/workers/workflow-worker.service.ts:137-201 | One round: the attempt that decides the step is the first that wins or the last allowed; the row tells that attempt's number, status and result; the round fails iff the step is critical and nothing settled it; other rows change only by COMPENSATE. For a failed round the rows are those at the dead-letter insert. |
| Worker.WorkflowWorker.GiveUp | backend/src/modules/workers/workflow-worker.service.ts:165-201 | A step that nothing settled ends the run with one dead-letter entry if it is critical, the rows being untouched up to that insert and others' from then on, with DEAD_LETTERED as this worker's last entry; it is SKIPPED if it is not critical. |
| Worker.WorkflowWorker.LeaveToOthers | backend/src/modules/workers/workflow-worker.service.ts:183-188 | Between the dead-letter insert and DEAD_LETTERED operators and later owners may do anything that the engine does; rows stay sound and history only grows. |
| Worker.WorkflowWorker.MoveToDeadLetter | backend/src/modules/workers/workflow-worker.service.ts:177-182 | One entry with the job's ids and payload is added, and the worker no longer owns the job. |
| Worker.WorkflowWorker.CallHandler | backend/src/modules/workers/workflow-worker.service.ts:233-244 | One call with the attempt's hint and the results so far, while others act. |
| Worker.WorkflowWorker.ExecuteStepWithRecovery | backend/src/modules/workers/workflow-worker.service.ts:207-343 | The attempt loop succeeds iff some attempt in 1..maxRetries+1 has a handler or recovery success, and the least such attempt decides status, result, attempt counter, log tally, sleeps and calls. A handler success leaves the step COMPLETED and other rows alone; a recovery success leaves it SKIPPED under a SKIP policy and COMPLETED under any other, and under COMPENSATE alone turns the other COMPLETED rows into COMPENSATED ones. Without success, and if nobody resolves incidents meanwhile, the step has an open incident; unless the policy is FALLBACK it is escalated iff there was a second attempt or an incident was open before. |
| Worker.WorkflowWorker.TryAttempt | backend/src/modules/workers/workflow-worker.service.ts:231-339 | One attempt: it settles the step iff it wins; everything it stores, logs and calls otherwise. |
| Worker.WorkflowWorker.RecordFailedAttempt | backend/src/modules/workers/workflow-worker.service.ts:261-286 | A failed attempt is logged, its row says FAILED with the attempt's number, and the job becomes RETRYING iff attempts remain. |
| Worker.WorkflowWorker.HandleFailure | backend/src/modules/workers/workflow-worker.service.ts:288-339 | The rest of the catch branch: settled with the strategy's status and result, or the rows untouched and the hint taken over. |
| Worker.WorkflowWorker.PersistStepSuccess | backend/src/modules/workers/workflow-worker.service.ts:246-260 | A handler success stores COMPLETED, the attempt's number and the result, an empty object if there is none. |
| Worker.WorkflowWorker.StoreRecovered | backend/src/modules/workers/workflow-worker.service.ts:303-313 | A recovery success stores SKIPPED for SKIP and COMPLETED for every other strategy, with its result, and keeps the attempt counter. |
| Worker.WorkflowWorker.TakeHint | backend/src/modules/workers/workflow-worker.service.ts:321-338 | A hint overwrites the previous one key by key; MODEL_SWITCHED is logged iff the model changes, with the model used so far, the new one and the attempt. |
| Worker.WorkflowWorker.Execute | backend/src/modules/recovery/recovery.service.ts:55-107 | One recovery: its outcome, exactly the rows it touches, its entries, and one recovery attempt that names the incident, the step, the strategy, its success and the attempt; up to maxRetries the strategy is the one that the policy names. |
| Worker.WorkflowWorker.LogRecoveryStart | backend/src/modules/recovery/recovery.service.ts:111-120 | Without a policy ESCALATE is selected, up to maxRetries the policy's strategy, and beyond FALLBACK for FALLBACK and ESCALATE for the rest; RECOVERY_STARTED names the strategy and the attempt. |
| Worker.WorkflowWorker.RecordRecovery | backend/src/modules/recovery/recovery.service.ts:82-106 | An incident is found or created, one recovery attempt is added that names it, the step, the strategy, its success and the attempt, and one concluding entry is logged. |
| Worker.WorkflowWorker.Dispatch | backend/src/modules/recovery/recovery.service.ts:122-144 | Each strategy's result, rows, entries, simulated executions, fallback calls and sleep; a strategy the dispatcher does not know fails without touching a row. |
| Worker.WorkflowWorker.HandleRetry | backend/src/modules/recovery/recovery.service.ts:201-226 | RETRY and RETRY_WITH_DELAY: one simulated execution decides success and result; RETRY does not sleep, RETRY_WITH_DELAY sleeps at least ninety percent of the attempt's delay or 5 s, and at most 5 s. |
| Worker.WorkflowWorker.HandleFallback | backend/src/modules/recovery/recovery.service.ts:228-244 | One call of the fallback provider; success names the policy's provider, or `backup-provider` if it names none. |
| Worker.WorkflowWorker.HandleSwitchModel | backend/src/modules/recovery/recovery.service.ts:153-167 | Never a success; hints at the trimmed fallback model iff the policy names one that is not blank. |
| Worker.WorkflowWorker.HandleReduceContext | backend/src/modules/recovery/recovery.service.ts:170-177 | Never a success; always hints at the short prompt. |
| Worker.WorkflowWorker.HandleSkip | backend/src/modules/recovery/recovery.service.ts:246-252 | The failing step is SKIPPED and no other row changes. |
| Worker.WorkflowWorker.HandleCompensate | backend/src/modules/recovery/recovery.service.ts:254-278 | Exactly the COMPLETED steps become COMPENSATED, with one STEP_COMPENSATED entry each in creation order, whatever others do between the writes; the result is their number. |
| Worker.WorkflowWorker.HandleEscalate | backend/src/modules/recovery/recovery.service.ts:280-297 | Index by index, exactly the unresolved incidents of the step are flagged and nothing else of them changes; one ESCALATED entry; never a success. |
| Worker.WorkflowWorker.HandlePauseForHuman | backend/src/modules/recovery/recovery.service.ts:184-197 | One APPROVAL_REQUESTED entry and no row; never a success. |
| Worker.WorkflowWorker.UpsertIncident | backend/src/modules/recovery/recovery.service.ts:299-314 | The open incident of the step is reused; if there is none, one with the failure and the attempt is added. The incident returned belongs to the step, and is unresolved unless somebody resolves it meanwhile. |
| Worker.WorkflowWorker.PollCancelled | backend/src/modules/workers/workflow-worker.service.ts:134-135 | The poll at a boundary ends the loop iff the job's status is CANCELLED, and changes no row. |
| RunSpec.DecisionUnique | backend/src/modules/workers/workflow-worker.service.ts:231-342 | At most one attempt decides a step. |
| RunSpec.RoundWon | backend/src/modules/workers/workflow-worker.service.ts:302-318 | After lost rounds, a winning one leaves what `StepDone` says: status, result, counters, tally, sleeps and calls of the whole loop. |
| RunSpec.WonByPolicy | backend/src/modules/recovery/recovery.service.ts:246-278 | A step that recovery settles is SKIPPED iff its policy says SKIP and COMPLETED otherwise; other rows change iff it says COMPENSATE. |
| RunSpec.RoundLost | backend/src/modules/workers/workflow-worker.service.ts:261-339 | A lost round adds exactly one failure, one recovery, its sleep and its call to the rounds before it, and touches only its own row. |
| RunSpec.RoundDone | backend/src/modules/workers/workflow-worker.service.ts:133-202 | One round of the step loop extends the report of the run by its step. |
| RunSpec.LatestResultsNext | backend/src/modules/workers/workflow-worker.service.ts:160-163 | Storing a step's result under its name keeps the map exactly the latest results by name. |
| RunSpec.CompensateEach | backend/src/modules/recovery/recovery.service.ts:260-272 | Marking steps one by one changes the listed rows and no others. |
| RunLaws.RunOutcome | backend/src/modules/workers/workflow-worker.service.ts:126-205 | From any starting rows, a run that observes no cancellation fails iff no allowed attempt settles some critical step. It then fails at the first such step, which is FAILED, with every earlier step COMPLETED, SKIPPED or COMPENSATED and every later one never started; otherwise every step is settled. |
| RunLaws.RowsByPolicy | backend/src/modules/workers/workflow-worker.service.ts:302-318 | The final status of every step left by a run, from its own policy and later ones: SKIPPED if nothing won or SKIP did, else COMPENSATED if a later step was settled by COMPENSATE, else COMPLETED. |
| RunLaws.NoRollbackNoCompensation | backend/src/modules/recovery/recovery.service.ts:254-278 | A run in which no step is settled by COMPENSATE leaves no step newly COMPENSATED. |
| RunLaws.SettledIffSomeAttemptWins | backend/src/modules/workers/workflow-worker.service.ts:231-342 | The deciding attempt wins iff any allowed attempt does. |
| RunLaws.SagaCut | backend/src/modules/recovery/recovery.service.ts:254-278 | Once COMPENSATE decides a step, to the end of that run no earlier step is COMPLETED; an earlier one is COMPENSATED iff it had been completed, not skipped. |
| RunLaws.CompensateLeavesNone | backend/src/modules/recovery/recovery.service.ts:254-278 | After COMPENSATE no step is left to compensate: a second one finds none and changes none. |
| RunLaws.HandlerBudget | backend/src/modules/workers/workflow-worker.service.ts:149 | The handler calls of a run are at most the sum of maxRetries + 1 over the steps, 1 where there is no policy. |
| RunLaws.ExecutionBudget | backend/src/modules/recovery/recovery.service.ts:201-226 | A step of RETRY or RETRY_WITH_DELAY makes at most 2 * maxRetries + 1 real and simulated executions, exactly that many iff every execution of the first maxRetries attempts failed, so in particular when all fail. |
| RunLaws.FallbackBudget | backend/src/modules/recovery/recovery.service.ts:228-244 | A FALLBACK step makes at most maxRetries + 1 handler calls and as many fallback calls, equally many iff the deciding handler call failed. |
| RunLaws.StepSleepCapped | backend/src/modules/recovery/recovery.service.ts:205-214 | A step sleeps only under RETRY_WITH_DELAY. Then, for each retry that its failures used, it sleeps at most 5000 ms and at least ninety percent of the retry's delay or 5000 ms, and in all at most 1.1 times the geometric sum of its delays plus half a millisecond each. |
| RunLaws.RecoveryAccounting | backend/src/modules/recovery/recovery.service.ts:63-104 | In a step run FAILURE_DETECTED, RECOVERY_STARTED and RECOVERY_SUCCEEDED plus RECOVERY_FAILED are all the number of failed handler calls, at most one recovery succeeds, and MODEL_SWITCHED is logged at most once. |
| RunLaws.EscalationAccounting | backend/src/modules/recovery/recovery.service.ts:111-120 | A step that nothing settles logs ESCALATED never under FALLBACK, maxRetries + 1 times under ESCALATE, and once under every other policy or none. |
| RunLaws.ApprovalAccounting | backend/src/modules/recovery/recovery.service.ts:184-197 | APPROVAL_REQUESTED is logged under PAUSE_FOR_HUMAN only, once for each failed attempt up to maxRetries. |
| RunLaws.SkipNeedsARetry | backend/src/modules/recovery/recovery.service.ts:114-118 | SKIP and COMPENSATE win the first failure iff a retry is allowed; with none they never settle the step. |
| Backend.Services.CreateJob | backend/src/modules/jobs/jobs.service.ts:30-82 | Refused exactly for a missing or foreign workflow or one without steps; otherwise one job is stored, PENDING with all its steps PENDING, the payload or an empty one and JOB_CREATED, and one entry with its ids and payload is queued, or none if the insert fails. |
| Backend.Services.CancelJob | backend/src/modules/jobs/jobs.service.ts:94-107 | Refused exactly for a missing or foreign job or one that is COMPLETED, FAILED or CANCELLED; otherwise only status and log of that job change. |
| Backend.Services.RetryDeadLetter | backend/src/modules/dead-letter/dead-letter.service.ts:36-56 | Refused exactly for a missing or foreign entry; otherwise exactly that entry moves to the workflow queue and its job becomes PENDING with one MANUAL_RETRY. |
| Backend.Services.ResolveIncident | backend/src/modules/incidents/incidents.service.ts:24-33 | Refused exactly for a missing or foreign incident; otherwise only its flag `resolved` changes. |
| Backend.Services.StoreCancelled | backend/src/modules/jobs/job.repository.ts:107-112 | The status write of a cancellation that passed its check earlier is unconditional, and is one protocol action. |
| Backend.Services.AddRetried | backend/src/modules/queue/queue.service.ts:53 | The retried entry's data is added to the workflow queue under a new id, as one protocol action. |
| Backend.Services.EntryHasJob | backend/src/modules/dead-letter/dead-letter.service.ts:45-48 | In every reachable state a dead-letter entry belongs to a stored job. |
| Idempotency.StoredIsAnExecution | backend/src/common/idempotency/idempotency.interceptor.ts:81-101 | In every interleaving of arrivals, lookups, executions and inserts a stored entry is what one execution of a request with that tenant, key and body hash answered. |
| Idempotency.StoredForGood | backend/prisma/schema.prisma:163 | A stored entry never changes, whatever follows. |
| Idempotency.AnswersAgree | backend/src/common/idempotency/idempotency.interceptor.ts:57-72 | Every replay answered what is stored for its own body hash, every conflict stands against a different hash, every other answer is that request's own execution. |
| Idempotency.ScopeIffKey | backend/src/common/idempotency/idempotency.interceptor.ts:48-49 | A request is cached iff its tenant is not empty and its header holds a character that is not white space. |
| Idempotency.ScopeIsTenantAndKey | backend/prisma/schema.prisma:163 | Two requests meet in the table iff they have the same tenant and their headers agree up to white space at the ends. |
| Idempotency.AnsweredByOwnTenant | backend/src/common/idempotency/idempotency.interceptor.ts:52-66 | A replay or conflict stands against an execution for the same tenant under the same key: the replay is its stored answer, the conflict is with its different body hash. |
| Idempotency.TenantsApart | backend/src/common/idempotency/idempotency.interceptor.ts:52-74 | In every interleaving a tenant's requests are answered exactly as if no other tenant's existed. |
| Idempotency.StoredStopsExecution | backend/src/common/idempotency/idempotency.interceptor.ts:57-67 | Once an entry is stored, a request with its key that has not looked up yet never executes: it is replayed or refused by the hash. |
| Idempotency.ApartIsServe | backend/src/common/idempotency/idempotency.interceptor.ts:44-75 | In every admitted run in which a request arrives only when all before it are done, inserts included, every request is told exactly what "execute once per key, then replay" says for the arrivals in order, and the table is the one it leaves, whichever inserts fail. |
| Idempotency.SerialFrom | backend/src/common/idempotency/idempotency.interceptor.ts:44-75 | The same from any state with at most one request under way, which the rest of the run completes as if alone; nothing that was told before changes. |
| Idempotency.ExecutesIffUnstored | backend/src/common/idempotency/idempotency.interceptor.ts:57-73 | However requests overlap, a request executes if and only if it has no key or nothing was stored under its key when it looked up; otherwise it is told the stored answer or refused. |
| Idempotency.ServedOnce | backend/src/common/idempotency/idempotency.interceptor.ts:57-72 | Under one key at most one handler's answer is stored: earlier visits threw or their inserts failed, every later one is told what that one stored, or refused. |
| Idempotency.OverlapExecutesTwice | backend/src/common/idempotency/idempotency.interceptor.ts:68-72 | Two requests with one key that overlap can both execute, and the second caller then holds an answer that is never replayed. |
| Idempotency.ReplayMeansSameBody | backend/src/common/idempotency/idempotency.interceptor.ts:77-79 | With an injective hash a replay answers a request whose body is the one that was executed. |
| Idempotency.ReplayIsTheAnswer | backend/src/common/idempotency/idempotency.interceptor.ts:97 | A replay has the status and the body of the execution it stands for, `{}` in place of a missing body; it is that answer itself iff there was a body. |
| Idempotency.Interceptor.Intercept | backend/src/common/idempotency/idempotency.interceptor.ts:44-75 | One undisturbed request: without a tenant or a header that is not blank the handler runs and the table stays; else it runs iff the key is not stored; the answer and the table are those of "execute once, then replay", also when the insert fails. |
| Idempotency.Interceptor.Persist | backend/src/common/idempotency/idempotency.interceptor.ts:81-109 | The first insert under a key wins. |
| Webhook.WebhookService.Dispatch | backend/src/modules/webhooks/webhook.service.ts:45-124 | With a callback URL the loop makes a <= maxAttempts sends, up to the first success; exactly one entry is logged, WEBHOOK_DELIVERED or WEBHOOK_FAILED; the row counts a attempts, is DELIVERED with its time iff the last send succeeded and FAILED otherwise, and keeps the latest response code and the latest network error, each from the latest send that gave one; the total wait is that of a - 1 failures. |
| Webhook.LatestOfAll | backend/src/modules/webhooks/webhook.service.ts:79-88 | The stored code is that of the latest send that got an answer and the stored error that of the latest that got none, and each is empty iff there was no such send. |
| Webhook.TotalWaitClosed | backend/src/modules/webhooks/webhook.service.ts:105-107 | n waits last 1000 * (2^n - 1) ms for n <= 5 and 31000 + 30000 * (n - 5) ms beyond. |
| Webhook.EndUnique | backend/src/modules/webhooks/webhook.service.ts:75-98 | The number of sends is determined by their outcomes. |
| Backoff.BackoffBounds | backend/src/modules/recovery/recovery.utils.ts:37-47 | For every jitter the delay lies between 0 and the cap and within ten percent of the uncapped delay, up to rounding. |
| Backoff.BackoffNeverShrinks | backend/src/modules/recovery/recovery.utils.ts:43-46 | With a multiplier of at least 11/9 the capped, rounded delay never decreases with the attempt number, for any jitters. |
| Backoff.BackoffKeepsOrder | backend/src/modules/recovery/recovery.utils.ts:37-47 | For any two attempts, the delay returned for the second is never shorter than that for the first, for all jitters, if and only if the longest delay of the first is at most the shortest of the second, both computed from base, multiplier and cap. |
| Backoff.JitterRange | backend/src/modules/recovery/recovery.utils.ts:44-46 | Jitter gives delays exactly between a shortest and a longest one, and both ends are reached. |
| Backoff.JitterKeepsOrder | backend/src/modules/recovery/recovery.utils.ts:43-45 | Before capping and rounding, successive delays keep their order for all jitters if and only if the multiplier is at least 11/9. |
| Backoff.BackoffCanShrink | backend/src/modules/recovery/recovery.utils.ts:43-46 | Base 1000 and multiplier 1.2 give a shorter second delay for some jitters. |
| Backoff.TotalSleepCapped | backend/src/modules/recovery/recovery.service.ts:205-214 | The sleeps of n failed attempts add up to at most 5000 n ms. |
| Backoff.SleepBounds | backend/src/modules/recovery/recovery.service.ts:205-214 | One sleep lies between ninety percent of base * multiplier^(attempt - 1) or 5000 ms, and 5000 ms or 1.1 times that delay plus rounding. |
| Backoff.TotalSleepAtLeast | backend/src/modules/recovery/recovery.service.ts:205-214 | The sleeps of n failed attempts add up to at least the sum of the least ones. |
| Backoff.LeastTotalGeometric | backend/src/modules/recovery/recovery.service.ts:205-214 | While no delay reaches the cap, that sum is at least 0.9 times the geometric sum less one millisecond each. |
| Backoff.RoundNearest | backend/src/modules/recovery/recovery.utils.ts:46 | Rounding takes the nearest integer and goes up at one half. |
| Backoff.TotalSleepGeometric | backend/src/modules/recovery/recovery.service.ts:205-214 | They add up to at most 1.1 times the geometric sum plus half a millisecond each. |
| Backoff.GeometricClosed | backend/src/modules/recovery/recovery.utils.ts:43 | The geometric sum in closed form. |
| Template.MatchIsUnique | backend/src/modules/workers/handlers/template.ts:7 | The token expression, read declaratively, matches at a position in at most one way, the one that takes every run as far as it goes. |
| Template.ScanIsLeftmost | backend/src/modules/workers/handlers/template.ts:11 | The linear scan lists exactly the leftmost matches without overlap, and no other list does. |
| Template.Rebuilds | backend/src/modules/workers/handlers/template.ts:11-14 | Literals and raw tokens put together are the template. |
| Template.NeverRescanned | backend/src/modules/workers/handlers/template.ts:11-14 | The rendering is the text before the first token, the token's value, and the rendering of the rest on its own: substituted text takes part in no later match. |
| Template.OneToken | backend/src/modules/workers/handlers/template.ts:7-14 | A template with one token, white space allowed inside its braces, becomes the literals around the text of its path. |
| Template.NameFilled | backend/src/modules/workers/handlers/template.ts:9-15 | A name in braces becomes the string that the context holds under that name. |
| Template.TokenText | backend/src/modules/workers/handlers/template.ts:12-13 | A string stands for itself, other scalars for their usual text, an object for a constant, null and what is missing for nothing. |
| Template.PathChars | backend/src/modules/workers/handlers/template.ts:7 | The characters of a path, by their codes. |
| Template.SplitConcat | backend/src/modules/workers/handlers/template.ts:30 | Splitting `p.q` at dots is splitting `p` and splitting `q`. |
| Template.SplitOfDotted | backend/src/modules/workers/handlers/template.ts:30 | Splitting undoes joining with dots. |
| Template.WalkConcat | backend/src/modules/workers/handlers/template.ts:31-39 | Walking two lists of parts is walking the first and, if it leads somewhere, the second from there. |
| Template.LookupComposes | backend/src/modules/workers/handlers/template.ts:29-40 | Looking up `p.q` is looking up `p` and then `q` in what is there. |
| Template.ArrayMember | backend/src/modules/workers/handlers/template.ts:33-34 | On an array, the decimal text of an index reads that element, and a name that is neither an index nor `length` reads only what arrays inherit. |
| Template.ObjectMember | backend/src/modules/workers/handlers/template.ts:33-34 | A lookup in an object gives every key its own value, and any other name what objects inherit. |
| Template.AtKey | backend/src/modules/workers/handlers/template.ts:29-40 | A path without a dot looks up the member of that name in the context. |
| Template.DecimalDenotes | backend/src/modules/workers/handlers/template.ts:33-34 | The text of an index denotes that index. |
| Template.JoinedConcat | backend/src/modules/workers/handlers/template.ts:13 | An array prints its elements with one comma between each two, however it is cut. |
| Template.Lookup | backend/src/modules/workers/handlers/template.ts:29-40 | The loop over the parts finds what the path leads to, and nothing as soon as a part is missing. |
| Template.Interpolate | backend/src/modules/workers/handlers/template.ts:9-27 | The recursion over strings, arrays and objects returns the template with every string in it rendered; scalars pass through. |
| Template.FilledKeepsShape | backend/src/modules/workers/handlers/template.ts:16-26 | At every depth array lengths, object keys, their order and all values that are not strings stay as they were. |
| Template.DependsOnTokens | backend/src/modules/workers/handlers/template.ts:9-27 | Two contexts that agree on the text of every token occurring in a nested template give equal output. |
| Template.NoTokensNoChange | backend/src/modules/workers/handlers/template.ts:11 | A template without tokens is its own output. |
| Text.TrimKeepsMiddle | backend/src/modules/recovery/recovery.service.ts:154 | Trimming takes off white space at both ends, all of it and nothing else. |
| Text.TrimFinds | backend/src/common/idempotency/idempotency.interceptor.ts:48 | Whatever white space is around a text that neither begins nor ends with it, trimming gives that text. |
| Text.TrimmedAway | backend/src/modules/recovery/recovery.service.ts:154-155 | Nothing is left iff the text is all white space. |
| Text.AsciiSpace | backend/src/modules/workers/handlers/template.ts:7 | The white space among the first 128 characters. |
| Llm.Execute | backend/src/modules/workers/handlers/llm-call.handler.ts:77-96 | An attempt is refused iff the rendered prompt is empty; otherwise the hint's model wins over the step's, the step's over the environment's, and a prompt over 2000 characters is cut and marked iff the hint says so. |
| Llm.HintsReachTheProvider | backend/src/modules/workers/workflow-worker.service.ts:320-338 | Over any number of attempts, with or without a policy: the first runs the step's own model on the whole prompt; under SWITCH_MODEL with a fallback that holds a character other than white space every later one runs the trimmed fallback; under REDUCE_CONTEXT every later one sends at most 2015 characters, the first 2000 and the mark if there are more; otherwise hints change nothing. |

## Left out

- A cancelled job staying CANCELLED: the RETRYING write and the final write of the run overwrite it.
- COMPLETED staying COMPLETED: a cancellation that passed its check before, or the last write of a dead-letter retry, can still overwrite the status; what is proved is that the job never runs again.
- Steps done once across dead-letter retries: a retried job runs all of its steps again.
- Concurrent dead-letter retries of one entry, which could add it twice.
- Expiry of idempotency entries: `expiresAt` is written and never read.
- Exactly-once execution for overlapping requests with one idempotency key; it fails, as `Idempotency.OverlapExecutesTwice` shows.
- Worker.WorkflowWorker.ExecuteStepWithRecovery: what it says about the incident's flag holds if nobody resolves an incident of the job during the step; the rest holds with any actions of others.
- Backend.Services.CancelJob: stated for a call whose check and write are not separated by others; the separated case is the pair CheckCancel and WriteCancel of `Protocol`.
- Backend.Services.RetryDeadLetter: stated for a call that nobody interferes with; the separated case is the four retry actions of `Protocol`. An entry without a tenant id, which the source lets any tenant retry, does not occur, since every entry carries its job's tenant.
- Backoff.JitterKeepsOrder: about delays before capping and rounding; `Backoff.BackoffKeepsOrder` is about those that are returned.
- Progress.RunInEveryInterleaving: tells that an attempt settled a step or that all allowed ones failed, not which handler outcomes these were; that is in `Worker.WorkflowWorker.RunSteps`.
- Template.Interpolate: objects with an own key `__proto__` or `toString` and lookups of `__proto__` are not modelled; inherited functions are a parameter of the context; lengths are counted in characters, not in UTF-16 units.
- Failures of the stores, of an audit insert or of a handler lookup, which would leave a job RUNNING.
- Rounding of floating-point numbers, real time, timers and random numbers; delays and sleeps are numbers.
- Prisma, Redis and BullMQ internals, HTTP, HMAC and SHA-256; the body hash is a value.
- The webhook call after a run, which only chooses the event from the final status; the payload and its signature.
- Failure classification, simulated failure rates, token prices, provider calls, the handler registry and statistics: finite tables or one branch each.
- Timestamps, error texts, telemetry, metrics, logging and the stored queue id of a job.
- Controllers, authentication, request validation, health checks, configuration parsing, seeding, tenant management and the frontend.
