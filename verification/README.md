# Plugin execution system: model and proofs

The repository runs plugins for users: an HTTP service takes execution requests, workers run the plugins, and
results, events and webhooks follow. This project models the parts whose correctness is hard to see from one
function at a time, and proves what they guarantee over every input, every run and every interleaving.

- **Durable queue and pools** (`LeaseQueue`, `LeaseProtocol`, `LeaseTheorems`, `DurablePool`, `Backoff`). The task
  table of the Postgres queue as an object whose methods are the SQL statements; any number of workers and
  reclaimers as a state machine over those statements; fencing, absorbing ends, and when exactly the attempt limit is
  passed.
- **Local execution path** (`Executions`, `Digests`, `ExecutionRepository`, `ExecutionService`, `LocalProtocol`,
  `LocalTheorems`, `LocalWork`, `LocalWorker`, `LocalCalls`). The store, the service and the in-memory queue as
  objects; creating calls, workers, cancels, crashes and recovery interleaved as a state machine; which of its steps
  lose work, exactly; the worker's code and the service's calls proved to be runs of it.
- **Postgres execution path** (`MetadataStore`, `DurableProtocol`, `DurableTheorems`, `DurableCreations`,
  `DurableFinality`, `DurableHandler`, `EnterpriseExecution`). Transactions that may fail at any statement; creations,
  leased handlers, cancels and crashes interleaved as a state machine; the handler's code proved to be a run of it.
- **Queue and Postgres path together** (`DurableSystem`, `DurableSystemTheorems`, `DurableSystemRuns`). The two
  machines over one task table: a creation enqueues, a lease is what a handler call is made for, and a lease is settled
  by what its call returned; a bound on plugin starts, and runs that reach it.
- **Webhooks** (`Webhook`, `WebhookTheorems`), **plugin registry** (`Plugins`, `Registry`), **preview sanitizer**
  (`Utf8`, `Sanitize`), **capped output buffer** (`LimitedBuffers`). `Options`, `Lists` and `Scopes` are shared.

Code that updates state is a class with methods, each proved against a function of the old state; the step
functions of the state machines use the same functions, so the theorems are about what the methods do. What these
functions compute is said again without them, in columns, fields, bytes or counts, by the contracts themselves and by
the lemmas named `...InColumns`, `...InFields`, `...InBytes` and `...ByCounts`.

## Assumptions

- Every SQL statement, every transaction and every local service call is one atomic step. The local service reads,
  validates and writes without a lock across the three (`internal/repository/execution_repo.go:49`), so the local
  theorems hold as far as that granularity does.
- Fresh identifiers never repeat: lease tokens, local ids and delivery ids are drawn from counters, and where a
  protocol draws an id it draws one not yet used. Hashes are injective.
- The clock of a run never goes backwards. Plugin runs, replies, policy decisions, file contents and the choice
  among simultaneous events are parameters or free choices, so every theorem covers all of them.
- Rows held locked by a concurrent statement, which `SKIP LOCKED` passes over, are a parameter of each statement.

## What is not as one might expect

- **A canceled local execution can become failed.** The status write after a rejected submit
  (`internal/service/execution.go:80`) consults no table. `LocalTheorems.StepFollowsTableIff` says that this is the
  only write off the table, exactly when a cancel came in between; `OverwriteIsReachable` gives the run.
- **The durable handler as written never finalizes.** It inserts the same attempt twice
  (`internal/worker/metadata_execution_handler.go:50`, `:89`) by a plain insert under a primary key
  (`internal/storage/postgres/metadata_store.go:132`, `migrations/postgres/001_enterprise_metadata.sql:116`), so the
  second fails. `DurableTheorems.AsWrittenNothingFinishes` proves it for every run. Everything else about this path
  is proved both as written and for a variant, called `upsert`, that uses the statement of
  `internal/repository/postgres.go:399` instead.
- **With the upsert, final statuses are not final on the durable path.** `DurableFinality.FinalLeavesIff` says
  exactly which steps replace one, `FinalKept` that it is kept over every run without such a step, and
  `RerunIsReachable` and `LostCancelIsReachable` that both kinds of step happen. As written it cannot come up: the
  only final status a run reaches is Canceled, and `AsWrittenFinalIsAbsorbing` proves that it stays.
- **As written, only canceled work is ever acknowledged**, so everything else can end in the dead letters only:
  `DurableSystemTheorems.OnlyCanceledIsAcked`. On the way there its plugins are started once per lease:
  `DurableSystemRuns.StartsReachBound` has runs without any failure of a statement in which they start as often as the
  limit and the reclaims allow.
- **Resubmitting an execution under its own id is never reported as existing**, although
  `internal/storage/postgres/integration_test.go:39-52` expects it: `MetadataStore.SameIdIsNeverExisting`.
- **The pool's delay wraps around at attempt 35.** The product overflows 64 bits; `Backoff.PoolBackoffIdealIff`
  gives the exact condition on the attempt limit.
- **The attempt limit alone does not bound attempts**, because a reclaim ignores it. A row gets past it exactly if a
  reclaim found it at the limit, and by the number of such reclaims: `LeaseTheorems.LimitIsPassedIff`. The resulting
  bound on all leases is reached for every limit, number of rows and number of reclaims: `BoundIsAttained`.
- **A full queue, or a done context, during recovery leaves one execution marked queued that is in no queue**; the
  contract of `RecoverIncompleteExecutions` says which one.
- **The local path can leave a waiting execution to nobody**, in exactly three kinds of step: a create call whose audit
  entry fails, a worker whose failure report is not audited while its execution is queued, and recovery that gives up.
  `LocalWork.StepHoldsIff` says that no other step does, `CrashHolds` that a crash brings everything back, and the
  three `...LossIsReachable` that each of them happens.
- **A preview can hold DEL and the control characters U+0080 to U+009F**, and with U+009B a control sequence in its
  8-bit form, although `internal/security/sanitize.go:11-12` says that control sequences are removed.
  `Sanitize.LaterControlsStayIff` says when, `EightBitSequenceStays` gives an input.
- **Asking for plugins without a scope does not skip the scope check** (`internal/service/plugin.go:59-60`): the empty
  scope is filled in first, so the check is made against the default scope. The contract of
  `ValidatePluginsExecutableInScope` follows the code.

## Model

| member | source | states |
|---|---|---|
| Backoff.PoolBackoffIsIdeal | internal/worker/durable_pool.go:177-187 | up to attempt 34 the delay is min(2^(n-1) * 1,000,000,000 ns, maxBackoff), with no 64-bit wrap-around |
| Backoff.PoolBackoffWraps | internal/worker/durable_pool.go:177-187 | at attempt 35 it is not, for any positive cap: the product comes out negative, at the first failing attempt |
| Backoff.PoolBackoffReduced | internal/worker/durable_pool.go:177-187 | for every attempt: the product reduced to 64 bits, or past attempt 63 that of what the conversion yields, capped |
| Backoff.PoolBackoffIdealIff | internal/worker/durable_pool.go:177-187 | all delays a pool can ask for are ideal if and only if its attempt limit is at most 35 |
| Backoff.IdealBackoffMonotone | internal/worker/durable_pool.go:177-187 | the intended delay never shrinks from one attempt to a later one |
| Backoff.WebhookBackoffIsCapped | internal/service/webhook.go:336-342 | the webhook delay is min(2^(n-1), 64) * 60,000,000,000 ns for every n, and monotone |
| LeaseQueue.PickTakesMin | internal/queue/postgres.go:31-38 | a limited, ordered selection takes exactly min(limit, candidates) rows |
| LeaseQueue.Pick | internal/queue/postgres.go:31-38 | what it takes is distinct, in order, and no later than anything left behind |
| LeaseQueue.PickedUpdated | internal/queue/postgres.go:39-44 | the a-th picked row is leased with the a-th fresh token and the next attempt number |
| LeaseQueue.OthersKept | internal/queue/postgres.go:39-44 | rows not picked are untouched, in a lease and in a reclaim |
| LeaseQueue.PostgresQueue.Enqueue | internal/queue/postgres.go:16-22 | a new task is appended ready, due at the given time or now, with no token and no attempt; a known one is left as it is |
| LeaseQueue.PostgresQueue.LeaseNext | internal/queue/postgres.go:24-58 | takes min(limit, n) of the n rows that are ready, due and unlocked; none left behind has an earlier time, or the same time and an earlier creation; they are leased in turn under fresh tokens until now plus the whole seconds of the duration and returned as they now are; no other row changes |
| LeaseQueue.PostgresQueue.Heartbeat | internal/queue/postgres.go:60-69 | each leased row that answers to task, token and worker gets the new end of its lease and keeps all else; every other row is untouched; true if and only if there was one, and otherwise nothing changes |
| LeaseQueue.PostgresQueue.Ack | internal/queue/postgres.go:70-73 | each row that answers to the token is acked, whatever its status, and keeps all else, the token included; no other row changes; a second Ack does nothing |
| LeaseQueue.PostgresQueue.Nack | internal/queue/postgres.go:74-92 | each row that answers to the token loses it and goes to the dead letters exactly at the limit, when not retryable or when asked to, and otherwise back to ready at the given delay; no other row changes; a second Nack does nothing |
| LeaseQueue.PostgresQueue.ReclaimExpiredLeases | internal/queue/postgres.go:93-108 | takes min(limit, n) of the n unlocked leased rows whose end is before now, none left behind having ended earlier; they are ready now, without token, worker and end, at their attempt number; no other row changes |
| LeaseQueue.PostgresQueue.Depth | internal/queue/postgres.go:113-117 | counts the ready and leased rows of one scope |
| LeaseProtocol.LeaseAllIsStatement | internal/queue/postgres.go:24-58 | leasing row by row, which the invariant is proved for, is the lease statement |
| LeaseProtocol.ReclaimAllIsStatement | internal/queue/postgres.go:93-108 | likewise for the reclaim statement |
| LeaseProtocol.StepKeepsInv | internal/queue/postgres.go:16-108 | every statement of every worker keeps the invariant on rows, tokens, attempt numbers and counts |
| LeaseProtocol.RunKeepsInv | internal/worker/durable_pool.go:101-175 | so does every run of any number of workers and reclaimers, with deaths at any point |
| LeaseTheorems.Fencing | internal/queue/postgres.go:60-92 | an unsettled lease's Ack or Nack takes effect if and only if its token is current; a stale token, or a heartbeat after the lease settled, changes nothing |
| LeaseTheorems.OneLeaseOut | internal/queue/postgres.go:24-58 | a row is leased if and only if one unsettled lease of it is current, and no two are |
| LeaseTheorems.EndsAreAbsorbing | internal/queue/postgres.go:24-108 | over every continuation, acked and dead rows never change and a lost token never becomes current again |
| LeaseTheorems.LeaseEndsIff | internal/queue/postgres.go:60-108 | a step ends a lease that is out if and only if it is its own Ack or Nack or a reclaim of its row, which comes after the row's end; only its own heartbeat moves that end |
| LeaseTheorems.LeaseIsKept | internal/queue/postgres.go:24-108 | over every run without its Ack, its Nack and a reclaim after t plus the whole seconds of the duration, a lease given at t keeps its token |
| LeaseTheorems.LimitIsPassedIff | internal/queue/postgres.go:74-108 | a row is past the limit M (or ready at M) if and only if a reclaim found it at the limit or past it, and then by exactly the number of such reclaims |
| LeaseTheorems.LeasesAreBounded | internal/queue/postgres.go:31-107 | n rows and R reclaims, L of them at the limit or past it, allow at most n*M + L leases; every lease is out, settled once with effect, or reclaimed once |
| LeaseTheorems.BoundIsAttained | internal/queue/postgres.go:97-102 | for every M, n >= 1 and R, a reachable state with n rows and R reclaims in which n*M + R leases were given out |
| LeaseTheorems.AttemptsAreConsecutive | internal/queue/postgres.go:39-44 | successive leases of a task are numbered 1, 2, 3, ... through every mix of Nacks and reclaims |
| LeaseTheorems.AttemptKeysAreFresh | migrations/postgres/001_enterprise_metadata.sql:115-130 | two leases of one task never share an attempt number, the later having the larger |
| LeaseTheorems.LeasesAreDisjoint | internal/queue/postgres.go:31-44 | two LeaseNext calls, one after the other or overlapping with `SKIP LOCKED` as assumed, take disjoint rows |
| LeaseTheorems.NackDelay | internal/worker/durable_pool.go:122-141 | a pool Nack leaves the row ready exactly below the limit, after exactly the intended delay, for limits up to 35 |
| DurablePool.DurableWorkerPool.constructor | internal/worker/durable_pool.go:49-75 | each missing option takes its default, so a limit of at least one attempt always holds |
| DurablePool.DurableWorkerPool.HandleOne | internal/worker/durable_pool.go:122-141 | ends a task by one Ack or one Nack under its own token, never both, which is a step of the queue's machine |
| DurablePool.DurableWorkerPool.Beat | internal/worker/durable_pool.go:143-158 | a heartbeat tick extends by one lease duration, which is a step of the queue's machine |
| DurablePool.DurableWorkerPool.PollOnce | internal/worker/durable_pool.go:101-120 | a poll tick leases at most one task and settles what it leased, which is a run of the queue's machine |
| DurablePool.DurableWorkerPool.ReclaimTick | internal/worker/durable_pool.go:160-175 | a reclaim tick takes back up to a hundred expired leases, which is a step of the queue's machine |
| Executions.TableIsEdges | internal/service/execution_state.go:11-32 | the edges of the table, one by one |
| Executions.TablesAgree | internal/service/execution_state.go:11-32 | final is the same as no way out, cancelable the same as an edge to Canceled, and no edge leads back |
| Executions.AggregateExecutionStatus | internal/service/result.go:36-60 | by counts of n results: Success if all n > 0 succeeded, PartialSuccess if some did, Timeout if none did and all timed out, otherwise Failed; always an edge out of Running |
| Executions.BuildExecutionSummary | internal/service/result.go:20-35 | every result is counted once, as success, timeout or failure, and their durations are added |
| Executions.RunPlugins | internal/service/runtime.go:57-63 | one result per plugin, in order, as the run reported it |
| Digests.SortSorts | internal/validator/json.go:32-38 | sorting gives a sorted permutation |
| Digests.SortedIsUnique | internal/validator/json.go:32-38 | sorted permutations of one another are equal |
| Digests.HashStringsIgnoresOrder | internal/validator/json.go:32-38 | two lists hash the same if and only if they are permutations |
| Scopes.SameScopeIff | internal/model/scope.go:29-33 | two scopes are the same if their names are, a missing one standing for the default |
| ExecutionRepository.SetStatusKeeps | internal/repository/execution_repo.go:89-110 | a status write keeps ids, keys and hashes, and changes one record at most |
| ExecutionRepository.CreateRecordIsIdempotent | internal/repository/execution_repo.go:32-48 | a key in use returns its record and changes nothing; otherwise the record is appended; keys stay unique |
| ExecutionRepository.FirstRequestWins | internal/repository/execution_repo.go:32-48 | over any sequence of requests, a later one with a key in use gets the record of the first that used it |
| ExecutionRepository.CreateThenFind | internal/repository/execution_repo.go:32-48 | once created, a keyed record is what every later request with its key finds |
| ExecutionRepository.Repository.CreateWithIdempotency | internal/repository/execution_repo.go:32-48 | the first record of the same key, user and scope is returned and nothing changes, or the record is appended if there is none or the key is empty |
| ExecutionRepository.Repository.GetByID | internal/repository/execution_repo.go:63-74 | the first record with the id, or none |
| ExecutionRepository.Repository.Update | internal/repository/execution_repo.go:49-62 | replaces the first record with the id, or appends |
| ExecutionRepository.Repository.UpdateStatus | internal/repository/execution_repo.go:89-110 | sets the status of the first record with the id; an unknown id is no error |
| ExecutionRepository.Repository.ListIncomplete | internal/repository/execution_repo.go:124-140 | exactly the pending, queued and running records, in store order |
| ExecutionService.ExecutionQueue.Submit | internal/worker/queue.go:11-20 | appends if there is room; rejects a full queue or a done context; may do either when both are possible |
| ExecutionService.ExecutionQueue.Receive | internal/worker/worker_pool.go:31-42 | hands out the oldest id once |
| ExecutionService.Service.MarkQueued | internal/service/execution.go:144-157 | the first record with the id goes from Pending to Queued; with another status, or without a record, nothing changes and it reports so |
| ExecutionService.Service.MarkRunning | internal/service/execution.go:158-176 | likewise from Queued to Running, only if its audit entry can be written |
| ExecutionService.Service.FinishExecution | internal/service/execution.go:177-202 | likewise to the given status, from exactly the statuses with an edge to it |
| ExecutionService.Service.CancelExecution | internal/service/execution.go:123-143 | cancels an unfinished execution that is the user's own, or of an admin's scope, or any for a super admin, and nothing else; a failed audit is reported after the write |
| ExecutionService.CanViewByRole | internal/service/auth.go:55-57 | a plain user sees their own executions in their scope, an admin those of the scope, a super admin all |
| ExecutionService.Service.CreateExecution | internal/service/execution.go:36-86 | an answer from the store only for the same key, input and permutation of plugins; a conflict only for a key used otherwise; either leaves store and queue alone; a new record is the request's and ends pending if the audit failed, failed if the queue did not take it, and otherwise queued and last in the queue |
| ExecutionService.Service.RecoverIncompleteExecutions | internal/service/execution.go:210-242 | in store order, pending and queued executions become queued and are sent once, running ones fail, nothing else changes; it stops at the first that does not fit or meets a done context; the count is the queue's growth |
| ExecutionService.Service.RecoverOne | internal/service/execution.go:217-240 | one item of that loop: the store, the queue and whether it was sent, for any state of the context |
| ExecutionService.WaitingIdsOfFilter | internal/service/execution.go:211-216 | the filtered list has the same waiting ids, in the same order, as the store |
| LocalProtocol.StepKeepsInv | internal/worker/execution_worker.go:35-85 | every step of a creator, worker, cancel, crash or recovery keeps the invariant on statuses, results, queue and hands |
| LocalProtocol.RunAllKeepsInv | internal/worker/worker_pool.go:24-46 | so does every interleaving of them |
| LocalTheorems.PluginsStartAtMostOnce | internal/service/execution.go:158-176 | through cancels, crashes at any point of a run, restarts and recoveries the plugins of an execution are started at most once |
| LocalTheorems.OneHandAtMost | internal/service/execution.go:210-242 | an id is in the queue or with one worker, once, or in neither |
| LocalWork.StepHoldsIff | internal/service/execution.go:63-242 | where every waiting execution is in the queue, being created, with a worker or on the recovery list, a step leaves one to nobody if and only if it is a create call ending at its audit with the execution pending, a worker ending unaudited with it queued, or recovery giving up |
| LocalWork.WaitingIsHeld | internal/service/execution.go:36-242 | over every run in which that did not happen since the last crash, each waiting execution is in one of those places, and never is any in two |
| LocalWork.CrashHolds | internal/service/execution.go:210-216 | after a crash everything that waits is on the recovery list, also what had been lost |
| LocalWork.CreatorLossIsReachable | internal/service/execution.go:63-67 | a run up to the first kind of loss |
| LocalWork.WorkerLossIsReachable | internal/service/execution.go:177-189 | a run up to the second |
| LocalWork.RecoveryLossIsReachable | internal/service/execution.go:217-240 | a run up to the third |
| LocalTheorems.ReportedStatusHasResults | internal/worker/execution_worker.go:64-85 | Success, PartialSuccess and Timeout have exactly one saved result per plugin, in order, adding up to that status |
| LocalTheorems.StepFollowsTableIff | internal/service/execution.go:76-85 | a step changes statuses along the table if and only if it is not the failure write after a rejected submit meeting a canceled execution |
| LocalTheorems.FinalIsAbsorbing | internal/service/execution_state.go:11-23 | over runs without that write, a record with a final status never changes |
| LocalTheorems.FinalOrOverwritten | internal/service/execution.go:76-85 | over all runs it never changes, or was Canceled and became Failed by a rejected create call |
| LocalTheorems.OverwriteIsReachable | internal/service/execution.go:66-85 | a run in which that happens |
| LocalTheorems.EndedUnstartedNeverRuns | internal/service/execution.go:158-176 | an execution that ended before it started never runs, whoever holds its id |
| LocalTheorems.KeysStayUnique | internal/repository/execution_repo.go:32-48 | in every interleaving there is one execution per scope, user and non-empty key |
| LocalWorker.ExecutionWorker.HandleExecution | internal/worker/execution_worker.go:35-62 | the call, for any plugin, store and audit outcomes, is a run of the protocol's worker from the received id to its end, and starts the plugins exactly if it found the execution queued and could audit the start; then it stores one result per plugin and the status they count up to, and after any error what is not final fails, if that can be audited; no other record changes |
| LocalWorker.ExecutionWorker.RunExecutionSafely | internal/worker/execution_worker.go:64-85 | up to its return, with the status it leaves; an error leaves the worker about to fail the execution |
| LocalWorker.ExecutionWorker.RunAndSave | internal/worker/execution_worker.go:75-84 | the plugins, the saved results and the final status |
| LocalCalls.CreateCallIsRun | internal/service/execution.go:52-86 | what CreateExecution leaves, whether it failed at the audit or the queue or succeeded, a run of the local machine leaves |
| LocalCalls.RefusedCallIsRun | internal/service/execution.go:52-64 | a creation whose key is in use is the one Create step of the machine, which changes nothing |
| LocalCalls.CancelCallIsRun | internal/service/execution.go:123-143 | what a cancel leaves, the one Cancel step leaves if the cancel is allowed, and no step if it is not |
| LocalCalls.RecoveryCallIsRun | internal/service/execution.go:210-242 | what a recovery leaves, whether it worked off its list or gave up, a run of recovery steps leaves |
| MetadataStore.Store.CreateExecutionAndEnqueue | internal/storage/postgres/metadata_store.go:56-113 | commits record, events, audit entry and queue row together, or answers with the execution that has the key under another id, or leaves nothing, for a failure at any statement; without one, only a repeated key or id stops it |
| MetadataStore.Store.TransitionExecutionWithEvent | internal/storage/postgres/metadata_store.go:115-129 | happens if and only if no statement fails, the status is the one expected and the event and audit ids are new; then status, event and audit entry change together, and otherwise nothing does |
| MetadataStore.Store.AppendAttempt | internal/storage/postgres/metadata_store.go:130-138 | happens if and only if no statement fails, the execution is there, the event id is new and neither the id nor the (execution, attempt number) is taken, or with the upsert the latter is, whose status is then set; the event goes with it |
| MetadataStore.Store.AppendResultAndFinalize | internal/storage/postgres/metadata_store.go:139-159 | happens if and only if no statement fails and the keys let it in; then results, the status whatever it was, event and audit entry change together |
| MetadataStore.SameIdIsNeverExisting | internal/storage/postgres/metadata_store.go:98-112 | an execution sent again under its id is never reported as existing: it aborts, or is announced twice, exactly by key, fresh ids and no failure |
| DurableProtocol.CreateOutcome | internal/storage/postgres/metadata_store.go:16-27 | a creation of a new id commits as a whole - record, two events, audit entry, queue row - and only without another execution of its key, or leaves no trace |
| DurableProtocol.FinalByCounts | internal/service/result.go:36-60 | the final status a handler works out, by counts of the statuses in its rows |
| DurableProtocol.StepWrites | internal/worker/metadata_execution_handler.go:53-92 | what each step can write to the executions: nothing, a new record, or one status, and from which one |
| DurableTheorems.GateRun | internal/worker/metadata_execution_handler.go:53-63 | over every run, what never entered Running is queued or canceled and has not run, and no handler is past its gate |
| DurableTheorems.CanceledBeforeStartForever | internal/worker/metadata_execution_handler.go:53-63 | canceled before a transition to Running committed means canceled forever and never run, whatever follows |
| DurableTheorems.OneWinnerOutOfQueued | internal/storage/postgres/metadata_store.go:115-129 | over every run, exactly one compare-and-set out of Queued committed for each execution that is no longer queued, and none for the others |
| DurableTheorems.RaceFromQueued | internal/service/enterprise_execution.go:114-132 | a start and a cancel that both read Queued: in either order the first wins, the second changes nothing, and the loser is told |
| DurableTheorems.AsWrittenNothingFinishes | internal/worker/metadata_execution_handler.go:50-92 | with the plain insert, in every run statuses stay in Queued, Running and Canceled, no result is stored, and a handler succeeds only on what it read as canceled |
| DurableCreations.CreationsAreAllOrNothing | internal/storage/postgres/metadata_store.go:56-113 | in every run each execution has one queue row, its two creation events in order and one creation audit entry, nothing else has any, and keys are unique |
| DurableCreations.OpeningNeverClashes | internal/worker/metadata_execution_handler.go:43-52 | if leases are numbered without repeats, the insert that opens an attempt never meets its id or number |
| DurableSystem.StaysTogether | internal/worker/durable_pool.go:101-141 | in every run of the system both machines are in states their own runs reach, over one table, with one handler call per lease |
| DurableSystem.LeasesNumberCalls | internal/worker/durable_pool.go:101-141 | in every run of the system no two handler calls share an execution and an attempt number |
| DurableSystem.LeasedAttemptsOpen | internal/worker/metadata_execution_handler.go:43-52 | so the insert that opens an attempt never meets its id or number |
| DurableSystemTheorems.OnlyCanceledIsAcked | internal/worker/durable_pool.go:122-141 | with the plain insert, in every run of the system a row is acked only if its execution is canceled |
| DurableSystemTheorems.StartsAreBounded | internal/worker/durable_pool.go:122-141 | in every run of the system plugins are started at most as often as the row was leased, at most M times and once more per late reclaim |
| DurableSystemRuns.StartsReachBound | internal/worker/metadata_execution_handler.go:35-93 | for every limit M and every r, with the plain insert and no statement aborted, a run of the system with r late reclaims starts the plugins of an execution nobody cancels M + r times and leaves its row in the dead letters |
| DurableFinality.HandlerFails | internal/worker/metadata_execution_handler.go:77-92 | with the plain insert, a handler past its gate whose attempt is recorded runs the plugins, returns an error though nothing was aborted, and changes nothing in the database |
| DurableFinality.FinalLeavesIff | internal/storage/postgres/metadata_store.go:115-159 | in every reachable state a step changes an execution with a final status if and only if it is a start by a handler that read that status, other than Canceled, or a finalization to another status, with no statement aborted and its event and audit ids unused |
| DurableFinality.FinalKept | internal/storage/postgres/metadata_store.go:115-159 | over every run without such a step a final status is kept |
| DurableFinality.AsWrittenFinalIsAbsorbing | internal/worker/metadata_execution_handler.go:50-92 | with the plain insert, the only final status any run reaches is Canceled, and it is kept over every continuation |
| DurableFinality.LeaseRunsAgain | internal/worker/metadata_execution_handler.go:35-93 | with the upsert, an uninterrupted handler of anything but a canceled execution ends with the aggregate status and its results; what had ended runs again |
| DurableFinality.RerunIsReachable | internal/worker/metadata_execution_handler.go:53-92 | for all results, a run from the empty database in which an ended execution is run again and its status replaced |
| DurableFinality.CancelIsOverwritten | internal/storage/postgres/metadata_store.go:151 | with the upsert, a cancel committed while the plugins run is replaced by the end of the handler |
| DurableFinality.LostCancelIsReachable | internal/storage/postgres/metadata_store.go:151 | for all results, a run from the empty database in which that happens |
| DurableHandler.MetadataExecutionHandler.HandleLeasedExecution | internal/worker/metadata_execution_handler.go:35-93 | the call, for any failures and plugin outcomes, is a run of the protocol's handler from beginning to return; transaction by transaction, with their statuses, events and audit entries, it opens the attempt, passes the gate, runs, closes, finalizes, or reports the failure; as written it succeeds if and only if it read Canceled and its opening insert committed |
| DurableHandler.MetadataExecutionHandler.PassGate | internal/worker/metadata_execution_handler.go:53-63 | its cancel check and transition to Running: canceled and running executions are left alone |
| DurableHandler.MetadataExecutionHandler.RunAndClose | internal/worker/metadata_execution_handler.go:77-92 | its run, second append and finalization; success needs the upsert |
| DurableHandler.MetadataExecutionHandler.RunToEnd | internal/worker/metadata_execution_handler.go:64-92 | that with the deferred failure write |
| EnterpriseExecution.EnterpriseExecutionService.CreateExecution | internal/service/enterprise_execution.go:39-74 | a used key is answered with its execution for the same input and a permutation of the plugins and is a conflict otherwise, changing nothing; a new execution is the request's record, queued, with its two events, audit entry and queue row |
| EnterpriseExecution.EnterpriseExecutionService.CancelExecution | internal/service/enterprise_execution.go:114-132 | cancels by compare-and-set from the status read, with event and audit entry, exactly an unfinished execution that is the user's own, or of an admin's scope, or any for a super admin, if policy allows |
| EnterpriseExecution.CancelCallIsRun | internal/service/enterprise_execution.go:114-132 | such a cancel is a read and a write of the state machine's canceler |
| EnterpriseExecution.SameHashesSameRequest | internal/service/execution_idempotency.go:17-31 | the hash comparison decides: same input and same plugins in any order |
| Webhook.AddresseesExact | internal/service/webhook.go:189-206 | an event goes to exactly the enabled endpoints of its scope whose list is empty or has its type or "*", once for each place in the store and in its order |
| Webhook.WebhookService.GetEndpointByID | internal/repository/webhook_repo.go:47-58 | the first endpoint with the id, or none |
| Webhook.WebhookService.UpdateDelivery | internal/repository/webhook_repo.go:108-121 | replaces the first delivery with the id, or appends |
| Webhook.PutInFields | internal/repository/webhook_repo.go:108-121 | which is: the first of that id is replaced and nothing else, or the delivery is added at the end |
| Webhook.WebhookService.DispatchExecutionEvent | internal/service/webhook.go:189-250 | one delivery per addressed endpoint, in order, with fresh ids, stored as its first attempt left it: delivered, dead if only one is allowed, or waiting for a minute |
| Webhook.WebhookService.RetryFailedDeliveries | internal/service/webhook.go:267-296 | handles, in store order, only failed deliveries whose retry time is not after `now`, each as one more attempt or as a dead letter, and leaves the rest untouched; one of them is left behind only if `max` > 0 others stand before it that were handled |
| Webhook.ProcessInFields | internal/service/webhook.go:298-334 | what handling a delivery makes of it, for any delivery: dead without an enabled endpoint; else the next attempt, with both keys in its payload, delivered by 200 to 299, dead at the limit, or to be retried after the pause |
| Webhook.FullTakesNoMore | internal/service/webhook.go:274-276 | once the batch is full, no later item is taken |
| WebhookTheorems.RunKeepsInv | internal/service/webhook.go:208-334 | in every run, for every limit M: 1 <= attempt, attempt <= M unless it is the first, a failed one has attempts left and a retry time, none is pending, and the payload is the original plus at most the two retry keys, which name this delivery and attempt |
| WebhookTheorems.RunFollows | internal/service/webhook.go:267-334 | from any store, over every run: no delivery is lost or moved, delivered and dead ones never change, payloads change in the two retry keys only |
| WebhookTheorems.RetryOutcome | internal/service/webhook.go:298-342 | what a retry leads to: delivered, dead at the limit or without an enabled endpoint, or waiting for exactly min(2^(n-1), 64) minutes |
| WebhookTheorems.RetryWaits | internal/service/webhook.go:252-334 | over every run, when attempt n ended at t, attempt n + 1 is made by a tick no earlier than t plus min(2^(n-1), 64) minutes |
| WebhookTheorems.StepInFields | internal/service/webhook.go:189-296 | the steps of these runs do what the contracts of the service's methods say |
| WebhookTheorems.TickUsesWork | internal/service/webhook.go:252-296 | each handled delivery uses up at least one of the attempts left |
| WebhookTheorems.TicksSettleAll | internal/service/webhook.go:267-334 | as many ticks as there are attempts left, each after all are due, leave no failed delivery, for any batch limits and replies |
| Plugins.PluginRepository.Update | internal/repository/plugin_repo.go:29-44 | replaces the first plugin with the id, or appends, with its scope filled in |
| Plugins.PluginRepository.GetByNameVersion | internal/repository/plugin_repo.go:57-68 | the first plugin of that name and version, or none |
| Plugins.PluginRepository.GetByID | internal/repository/plugin_repo.go:45-56 | the first plugin with the id, or none |
| Plugins.PluginRepository.Create | internal/repository/plugin_repo.go:19-28 | every stored plugin stays where it was, and the new one is added last and found under its id, if that was free, with its scope filled in |
| Plugins.PluginService.EnablePlugin | internal/service/plugin.go:30-41 | enables exactly a known plugin that is loaded or disabled |
| Plugins.PluginService.DisablePlugin | internal/service/plugin.go:42-53 | disables exactly a known plugin that is enabled |
| Plugins.ObjectionInFields | internal/service/plugin.go:63-73 | the objection to a plugin: unknown, of another scope, or not enabled |
| Plugins.PluginService.CheckExecutable | internal/service/plugin.go:63-73 | for one id, its first objection in the order unknown, out of scope, not enabled, or the plugin |
| Plugins.PluginService.ValidatePluginsExecutableInScope | internal/service/plugin.go:58-76 | succeeds if and only if no plugin is unknown, out of scope or not enabled, with the plugins in order; otherwise reports the first objection |
| Plugins.PluginService.UpsertFromManifest | internal/service/plugin.go:83-104 | a known name and version keeps its id; Enabled, Disabled, Loaded and Discovered stay, Unset, Removed and Error become Loaded; a new one is loaded under a fresh id; no other plugin changes |
| Registry.RegistryService.ReloadPlugins | internal/service/registry.go:25-69 | the two loops do the reload; created is the store's growth, created + updated the number of valid manifests, removed the number of live plugins without one |
| Registry.RegistryService.RemoveUnseen | internal/service/registry.go:59-67 | the second loop removes exactly the live plugins whose manifests were not seen |
| Registry.ReloadSynchronizes | internal/service/registry.go:25-69 | afterwards a plugin is live if and only if a valid manifest for its name and version is there; ids and names stay unique; of those that were there and stay live, Enabled, Disabled, Loaded and Discovered keep their status, and Unset, Removed and Error become Loaded; new ones are loaded |
| Registry.ReloadInFields | internal/service/registry.go:25-69 | plugin by plugin: each becomes what its last manifest says, or Removed without one, or stays removed; the new ones are those of manifests without a plugin, once each |
| Registry.SecondReloadChangesNothing | internal/service/registry.go:25-69 | reloading the same directory again creates, removes and changes nothing |
| Registry.ScanShape | internal/service/registry.go:32-58 | after the first loop every plugin is as the last manifest for it says, and every manifest has its plugin |
| Registry.SwitchKeepsStored | internal/service/plugin.go:30-53 | enabling and disabling keep the store as a reload needs it |
| Utf8.EncodeInBits | internal/security/sanitize.go:21 | the bytes of a rune in bits, one to four of them by its size |
| Utf8.StartsRuneIff | internal/security/sanitize.go:19-20 | bytes start with a rune if and only if they start with an encoding; if not, one byte counts as U+FFFD |
| Utf8.DecodeOfEncodeAll | internal/security/sanitize.go:19-22 | decoding what was encoded gives the runes back |
| Utf8.ValidIff | internal/security/sanitize.go:19-30 | decoding and encoding again gives the same bytes if and only if they were valid |
| Utf8.ValidCut | internal/security/sanitize.go:29-31 | a cut of encoded runes is valid only at the end of a rune |
| Utf8.CutIsValid | internal/security/sanitize.go:29-31 | and at the end of any rune it is |
| Sanitize.MatchIsControlSequence | internal/security/sanitize.go:9 | the greedy match finds a control sequence, in the 7-bit form of section 5.4 of ECMA-48, if and only if one starts there, and there is only one |
| Sanitize.ControlSequenceInBytes | internal/security/sanitize.go:9 | a control sequence in bytes: ESC [, any of 0x30 to 0x3F, any of 0x20 to 0x2F, one of 0x40 to 0x7E |
| Sanitize.SequenceIsStripped | internal/security/sanitize.go:17 | one at the start is removed as a whole, whatever follows |
| Sanitize.OtherIsKept | internal/security/sanitize.go:17 | where none starts, one byte is kept |
| Sanitize.TextsAreLeft | internal/security/sanitize.go:17 | of text and control sequences in any order, all the text is left and nothing else |
| Sanitize.FilterKeepsOrder | internal/security/sanitize.go:19-22 | runes from 0x20 on, tab, CR and LF are kept in order, the others dropped |
| Sanitize.PreviewOfPieces | internal/security/sanitize.go:13-35 | control sequences between texts make no difference to any preview |
| Sanitize.PreviewIsLongest | internal/security/sanitize.go:23-33 | any whole-rune beginning of what there is to show that is within the bound is a beginning of the preview |
| Sanitize.SanitizePreview | internal/security/sanitize.go:13-35 | the longest whole-rune prefix within the bound of the input without such sequences, decoded anew, without control characters below 0x20 but tab, CR and LF |
| Sanitize.PreviewIsUnique | internal/security/sanitize.go:13-35 | an input and a bound have one preview |
| Sanitize.PreviewIsSafe | internal/security/sanitize.go:13-35 | it is valid UTF-8 (section 3 of RFC 3629) within the bound, holds no control character below 0x20 other than tab, CR and LF, and nowhere a 7-bit control sequence |
| Sanitize.LaterControlsStayIff | internal/security/sanitize.go:19-22 | DEL or a rune in U+0080 to U+009F is in the preview if and only if it is among the runes that fit, and without a bound if and only if the 7-bit sequences leave it in the input |
| Sanitize.EightBitSequenceStays | internal/security/sanitize.go:9-22 | an input that is its own preview and holds DEL and a control sequence in its 8-bit form |
| Sanitize.PreviewIsIdempotent | internal/security/sanitize.go:13-35 | sanitizing a preview gives it back |
| Sanitize.SafeTextIsKept | internal/security/sanitize.go:13-35 | exactly the texts that are valid and hold no control character below 0x20 other than tab, CR and LF come back unchanged without a bound |
| Sanitize.StripAloneIsNotIdempotent | internal/security/sanitize.go:17 | the single removal pass alone can put a control sequence together |
| LimitedBuffers.LimitedBuffer.Write | internal/service/runtime_process.go:259-276 | claims all; a full buffer stays and notes it; a write past the limit is cut there and noted; any other is appended |
| LimitedBuffers.BufferHoldsPrefix | internal/service/runtime_process.go:246-279 | after any writes it holds exactly the first `limit` bytes; exceeded if and only if there was more or an empty write found it full |

## Left out

- MoveToDLQ: no worker calls it, and it ends a row under a live lease.
- Columns that decide nothing: `last_error`, `heartbeat_at`, start, finish and update times, error texts, previews and output.
- The 32-bit width of `attempt_no`: attempt numbers are unbounded.
- Result row ids, which are taken to be fresh, and JSON encoding, which fails only as a failing statement would.
- Interleavings inside one SQL statement or one local service call; `LeasesAreDisjoint` covers overlapping LeaseNext calls.
- SameIdIsNeverExisting: is about one transaction on a store whose keys are unique; the test it contradicts sends the same event id twice, so there the transaction aborts.
- PollOnce: is one uninterrupted tick; what others do between its statements is in the runs of the queue's machine.
- The event log and the event bus of the local path, attempts listing, metrics and pagination.
- Webhook requests themselves: bodies, signatures, headers, URL checks and error texts; the state of `WebhookService` stays as it is between its own calls.
- Registry records and manifest hashes, failing plugin-store writes, and manifest field checks.
- Process and container launching, secrets, artifacts, cryptography, policy rules, HTTP, CLI, SDK and web pages.
- RunPlugins: what one plugin run does is a parameter; the fields it fills besides plugin, status and duration are not kept.
- Exactly-once results on the durable path, which the code does not provide.
