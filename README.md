# Task store with a sync outbox

A model of the two services at the heart of an offline-first task backend.

- **TaskService** is the record store. It creates, updates and soft-deletes rows of the `tasks`
  table. When a SyncService is wired in, each of these mutations also appends one entry to the
  `sync_queue` table, the outbox. Its three reads filter the table: a single live task, all live
  tasks, and all tasks whose status is pending or error.
- **SyncService** is the outbox and the reconciliation engine. `addToSyncQueue` appends an entry.
  `sync` drains the whole queue, oldest first, cuts it into batches of `batchSize` and processes
  them one after another. For each batch, `processBatch` reconciles every item with
  `updateSyncStatus`. It adds up synced and failed counts and an error list. A batch that throws
  counts all its items as failed, and the cycle goes on with the next batch.

How the project is laid out:

- `records.dfy` (`Records`): the task row and the rewrites of one row.
  - `NewTask` is the row `createTask` inserts.
  - `ApplyPatch` is the row `updateTask` writes.
  - `MarkDeleted` is the soft delete.
  - `MarkSynced` is the rewrite a successful sync applies.
- `outbox.dfy` (`Outbox`): the queue entry and the two queue operations, the append and the
  per-task deletion.
- `store.dfy` (`Store`): the database both services share, as the class `Database`.
  - `tasks` is a `map` keyed by task id.
  - `queue` is a `seq` in insertion order.
  - `nextId` is a fresh-id supply that stands in for `uuidv4`.
  - `Consistent` is the agreement between the outbox and the record store.
- `batcher.dfy` (`Batcher`): the partition of the drained queue into batches, as a function.
- `reconciler.dfy` (`Reconciler`): value-level definitions of `updateSyncStatus` (`Reconcile`),
  `processBatch` (`RunBatch`) and `sync` (`SyncCycle`), with their properties.
- `cycle_properties.dfy` (`CycleProperties`): what a whole sync cycle guarantees.
- `sync_service.dfy` (`SyncEngine`): the class `SyncService`. Its methods are the source's loops,
  and each is proved to compute exactly the `Reconciler` function above it.
- `task_service.dfy` (`TaskStore`): the reads as functions over the task map, and the class
  `TaskService` with the three mutators as methods.

Inputs that the source takes from outside become parameters:

- Every clock reading (`new Date()`, `CURRENT_TIMESTAMP`) is a `now: Time` argument. One sync
  cycle uses one reading.
- The remote exchange of a batch is stubbed in the source. The model makes its result an input,
  `outcome(i)` for the batch at position `i`:
  - `Delivered`: every item goes through.
  - `Interrupted(k, message)`: an exception inside `processBatch`'s try block after `k` items
    were reconciled. A transport or remote failure is `k == 0`.
  - `Crashed(message)`: an exception thrown out of `processBatch` before its try block (building
    the payload), which `sync` catches.

`src/types.ts` and `src/db/database.ts` are not part of this model. The columns of the two tables
are those the INSERT and UPDATE statements of the two services write.

## Model

| member | source | states |
|---|---|---|
| Records.NewTask | src/services/taskService.ts:14-23 | A created row is not completed, not deleted, pending, has `createdAt == updatedAt == now`, no server id and no sync time; a missing title or description becomes "" |
| Records.OrEmpty | src/services/taskService.ts:16-17 | An absent optional string becomes "", a present one is kept |
| Records.ApplyPatch | src/services/taskService.ts:54-77 | The written row takes each supplied field, else the stored one; it becomes pending at `now`; `id`, `isDeleted`, `createdAt`, `serverId` and `lastSyncedAt` are unchanged |
| Records.ApplyPatchIdempotent | src/services/taskService.ts:54-59 | A derived fact about the merge, not a promise the source makes: patching twice with the same fields equals patching once at the later time |
| Records.MarkDeleted | src/services/taskService.ts:92-97 | The soft-deleted row is flagged deleted, pending, stamped `now`, and nothing else changes |
| Records.MarkSynced | src/services/syncService.ts:128-132 | The reconciled row is synced with `lastSyncedAt == now`; the server id is replaced only when one is supplied (COALESCE); nothing else changes |
| Outbox.NewEntry | src/services/syncService.ts:26-31 | A new entry has the given id, task, operation and snapshot, `createdAt == now`, `retryCount == 0` and no error |
| Outbox.Without | src/services/syncService.ts:133 | The per-task delete never lengthens the queue; `WithoutMembers`, `WithoutWithout`, `WithoutNothing` and `WithoutAll` characterise what is left |
| Outbox.WithoutMembers | src/services/syncService.ts:133 | After deleting the entries of some tasks, an entry remains iff it was there and its task is not one of them |
| Outbox.WithoutWithout | src/services/syncService.ts:133 | Deleting the entries of the tasks in `a`, then those in `b`, equals deleting those in `a + b` at once |
| Outbox.WithoutNothing | src/services/syncService.ts:133 | Deleting the entries of tasks that have none leaves the queue as it was |
| Outbox.WithoutAll | src/services/syncService.ts:133 | Deleting the entries of every queued task empties the queue |
| Store.MutationKeepsConsistent | src/services/taskService.ts:41-43 | A pending row write plus one appended entry for that task keeps the outbox consistent with the record store |
| Store.Database.FreshId | src/services/syncService.ts:23 | The fresh id is used by no stored task and no queued entry, and the supply advances |
| Batcher.PartitionShape | src/services/syncService.ts:45-49 | The batches concatenate back to the drained list in order; none is empty or longer than `batchSize`; all but the last are exactly `batchSize` long |
| Batcher.Partition | src/services/syncService.ts:46-49 | There are no more batches than items, and no batch at all exactly when the list is empty |
| Batcher.PartitionStep | src/services/syncService.ts:47-48 | The partition from offset `i` is the slice `[i, min(i + size, n))` followed by the partition from its end |
| Batcher.TwentyFiveInTens | src/services/syncService.ts:45-49 | With the default batch size 10, 25 items make three batches of 10, 10 and 5, in order |
| Reconciler.Reconcile | src/services/syncService.ts:122-137 | No row appears or disappears, the queue never grows, and an error status leaves the queue untouched; `ReconcileEffect` states the full new tables and `ReconcileIdempotent` and `ReconcileKeepsConsistent` its properties |
| Reconciler.ReconcileEffect | src/services/syncService.ts:122-137 | On `Synced` only the task's row changes: synced, `lastSyncedAt == now`, server id by COALESCE; exactly its entries leave the queue. Otherwise only that row's status changes and the queue is untouched, `retryCount` included. No row appears or disappears |
| Reconciler.ReconcileIdempotent | src/services/syncService.ts:128-133 | Reconciling a task as synced twice equals reconciling it once, at the later time |
| Reconciler.ReconcileKeepsConsistent | src/services/syncService.ts:122-137 | Reconciling as synced or as error keeps a consistent outbox consistent |
| Reconciler.ReconcileItems | src/services/syncService.ts:103-106 | Reconciling a run of items in order keeps the set of rows and never lengthens the queue; `ReconcileItemsQueue` and `ReconcileItemsTasks` state exactly what changes |
| Reconciler.ReconcileItemsQueue | src/services/syncService.ts:103-106 | Reconciling a run of items deletes exactly the entries of their tasks and keeps the others in order |
| Reconciler.ReconcileItemsTasks | src/services/syncService.ts:103-106 | Reconciling a run of items marks exactly their tasks' rows synced and leaves every other row as it was |
| Reconciler.Reached | src/services/syncService.ts:103-106 | The number of items reconciled before an exception is at most the batch size: all of them when delivered, none on a crash |
| Reconciler.ErrorText | src/services/syncService.ts:63 | The error text is never empty: the exception's message, or "Unknown error" when it has none |
| Reconciler.FailAll | src/services/syncService.ts:108-116 | The inner catch produces one error per item of the batch |
| Reconciler.FailAllEntries | src/services/syncService.ts:108-115 | The error at position `i` names the task of item `i`, with the shared message |
| Reconciler.BatchReply | src/services/syncService.ts:75-120 | Only a crash escapes `processBatch`. Otherwise the reconciled items count as synced; if the try block threw, the whole batch counts as failed with one error per item, else nothing fails |
| Reconciler.RunBatch | src/services/syncService.ts:75-120 | `processBatch` throws iff the batch crashes, and then the tables are untouched; no row appears or disappears; the new tables are the reconciled `Reached` prefix and the reply is `BatchReply` |
| Reconciler.Absorb | src/services/syncService.ts:56-64 | The totals only grow and the earlier errors stay as a prefix; a thrown batch adds its full length to the failed count and nothing to the synced count; one error per failed item is preserved |
| Reconciler.CrashLikeTransportFailure | src/services/syncService.ts:55-65 | A derived fact about the two catch blocks, not a promise the source makes: a batch that throws out of `processBatch` is counted exactly like one whose exchange fails before any item, and the tables end the same |
| Reconciler.RunBatches | src/services/syncService.ts:54-66 | Over any sequence of batches the error list has one entry per failed item |
| Reconciler.RunBatchesQueue | src/services/syncService.ts:54-66 | After the batches, the queue has lost exactly the entries of the tasks reconciled as synced, the others kept in order |
| Reconciler.RunBatchesTasks | src/services/syncService.ts:54-66 | After the batches, exactly the rows of the tasks reconciled as synced are marked synced at `now`; no row appears or disappears |
| Reconciler.SyncCycle | src/services/syncService.ts:34-73 | In every path `errors` has one entry per failed item and `success` iff nothing failed; an empty queue gives `(true, 0, 0, [])` and no state change |
| CycleProperties.AllDeliveredRun | src/services/syncService.ts:54-66 | When every batch is delivered, every drained entry counts as synced, nothing fails, and the synced tasks are exactly the drained ones |
| CycleProperties.CycleAllDelivered | src/services/syncService.ts:40-72 | A cycle in which nothing throws reports every drained entry as synced and none as failed; the queue ends empty, and every task that had an entry is synced at `now` |
| CycleProperties.SecondCycleIsEmpty | src/services/syncService.ts:40-43 | After a cycle in which nothing throws, the next cycle finds an empty queue and changes nothing |
| CycleProperties.RunBatchesCounts | src/services/syncService.ts:54-66 | Synced plus failed is at least the number of drained entries, and equal to it when no batch is interrupted midway |
| CycleProperties.CycleCounts | src/services/syncService.ts:34-73 | The cycle's totals cover the drained queue, exactly so when no batch is interrupted midway |
| CycleProperties.CycleKeepsConsistent | src/services/syncService.ts:34-73 | A sync cycle keeps a consistent outbox consistent, whatever each batch meets |
| CycleProperties.ThrownBatch | src/services/syncService.ts:60-65 | A batch that throws out of `processBatch` leaves both tables alone and adds its full length to `failed_items` and one error per item; the totals of the earlier batches stay |
| CycleProperties.TwoBatches | src/services/syncService.ts:45-49 | More than one batch's worth but at most two makes exactly two batches |
| CycleProperties.DeliveredThenFailed | src/services/syncService.ts:54-66 | A delivered batch followed by one that fails as a whole: the first counts as synced, the second as failed |
| CycleProperties.PartialFailureIsolation | src/services/syncService.ts:54-72 | With two batches, the first delivered and the second failing as a whole: the first batch counts as synced and its tasks leave the queue; the second counts as failed, its entries stay unless their task also had an entry in the first batch (the delete is per task), and `success` is false |
| SyncEngine.AppendFailures | src/services/syncService.ts:62-64 | The `forEach` appends one error per item, in order, to the errors so far |
| SyncEngine.MakeBatches | src/services/syncService.ts:46-49 | The batching loop builds exactly `Partition(items, batchSize)` |
| SyncEngine.Account | src/services/syncService.ts:56-64 | Adding one batch's reply to the totals, or counting the whole batch as failed when it threw, is `Absorb` |
| SyncEngine.SyncService.AddToSyncQueue | src/services/syncService.ts:18-32 | Exactly one entry is appended, with a fresh id, the given task, operation and snapshot, no retries and no error; existing entries and the tasks table are untouched |
| SyncEngine.SyncService.UpdateSyncStatus | src/services/syncService.ts:122-137 | The new tables are `Reconcile` of the old ones |
| SyncEngine.SyncService.ReconcileBatch | src/services/syncService.ts:96-106 | The try-block loop reconciles the first `Reached` items, in order, and reports whether it threw |
| SyncEngine.SyncService.ProcessBatch | src/services/syncService.ts:75-120 | The new tables reconcile the first `Reached` items of the batch, and the reply is `BatchReply` |
| SyncEngine.SyncService.Sync | src/services/syncService.ts:34-73 | The new tables and the result are `SyncCycle` of the old tables |
| TaskStore.GetTask | src/services/taskService.ts:125-151 | A row is found iff it exists and is not soft-deleted, and then it is returned as stored |
| TaskStore.GetAllTasks | src/services/taskService.ts:153-174 | Exactly the rows with `isDeleted` false, as stored |
| TaskStore.GetTasksNeedingSync | src/services/taskService.ts:176-195 | Exactly the rows whose status is pending or error, soft-deleted ones included |
| TaskStore.LookupAgreesWithListing | src/services/taskService.ts:125-174 | `getTask` finds a row exactly when `getAllTasks` lists it, and both give the same row |
| TaskStore.DeletedIsHidden | src/services/taskService.ts:86-135 | After a soft delete, `getTask` and `getAllTasks` no longer see the row, so a second delete returns false, but the row still needs syncing |
| TaskStore.QueuedTasksNeedSync | src/services/taskService.ts:176-182 | With a consistent outbox, every queued task needs syncing and every pending task is queued |
| TaskStore.DrainedTasksSynced | src/services/taskService.ts:176-182 | From any starting state, consistent or not: after a cycle in which nothing throws, no task that had an entry needs syncing, and no new task does |
| TaskStore.TaskService.CreateTask | src/services/taskService.ts:10-46 | A fresh row `NewTask` is added and nothing else in the table changes; with a sync service exactly one `Create` entry carrying the row is appended, without one the queue is unchanged; consistency is kept when both the row write and the queue insert succeed |
| TaskStore.TaskService.UpdateTask | src/services/taskService.ts:48-84 | An absent or soft-deleted id gives `None` and changes nothing; otherwise the row becomes `ApplyPatch` of the stored one and, with a sync service, exactly one `Update` entry carrying it is appended; consistency is kept when both the row write and the queue insert succeed |
| TaskStore.TaskService.DeleteTask | src/services/taskService.ts:86-123 | `true` iff the id is live; then the row stays, soft-deleted and pending, hidden from `getTask` and listed as needing sync, and with a sync service exactly one `Delete` entry carrying it is appended, and consistency is kept when both the row write and the queue insert succeed; otherwise nothing changes |

## Left out

- The HTTP routes, their status codes and the `title` check in `src/routes/tasks.ts`; the routes
  are not part of this model.
- `checkConnectivity` and the status query in `src/routes/sync.ts`. The first is not defined in the
  service; the second reads a `status` column the queue does not have.
- The SHA-256 checksum and the JSON serialisation of snapshots. They are foreign library calls, so
  an entry's `data` is the task value itself.
- The remote POST, `apiUrl` and axios. They are network I/O, and each batch's outcome is an input.
- SQL execution. The statements are modelled by their effect on the map and the sequence.
- Raw timestamps, `toISOString` and the one-second resolution of `CURRENT_TIMESTAMP`. The queue is
  drained in insertion order. This assumes `ORDER BY created_at` agrees with it; ties within one
  second have no specified order in the source.
- `SYNC_BATCH_SIZE` parsing. `Sync` and `SyncCycle` take `batchSize >= 1` as a precondition. A
  value that parses to `NaN` gives one empty batch in the source, so a non-empty queue is reported
  as a success that syncs nothing and changes nothing; 0 or a negative size never ends the
  batching loop.
- Async/await. Every call is taken as sequential and atomic, so a failure between the two
  statements of `updateSyncStatus` is not modelled.
- TaskStore.TaskService.CreateTask: the row INSERT and the queue insert are two statements with no
  transaction. If the queue insert fails, the new row stays pending without a queue entry and the
  outbox is no longer consistent. The model takes both statements as succeeding, so consistency is
  kept only on that path.
- TaskStore.TaskService.UpdateTask: the same holds for the row UPDATE followed by the queue insert.
- TaskStore.TaskService.DeleteTask: the same holds for the soft-delete UPDATE followed by the queue
  insert.
- The `taskService` field of SyncService. The service never uses it, and keeping it would make the
  two modules depend on each other.
- SyncEngine.SyncService.Sync: a whole cycle uses one clock reading. The source reads the clock
  once per reconciled item. Its error list also loses the operation and timestamp that the errors
  passed through from `processBatch` carry at runtime, as described for `ProcessBatch` below.
- SyncEngine.SyncService.ProcessBatch: the inner catch's errors also carry the operation and a
  timestamp. The declared return type of `sync` has only the task id and the message. At runtime,
  though, `sync` passes the inner catch's four-field errors through unchanged, and the route sends
  them to the client. The model keeps only the task id and the message, so those two fields are
  dropped from `ProcessBatch`, `SyncCycle` and `Sync` alike. The errors of the outer catch have
  only the two fields.
- TaskStore.TaskService.UpdateTask: a patch holds only title, description and completed. The
  source spreads any caller-supplied field into the returned object, and the UPDATE writes none of
  the others.
- TaskStore.GetAllTasks: returns a map keyed by id. The SQL has no ORDER BY, so the source's
  list order is unspecified.
- TaskStore.GetTasksNeedingSync: returns a map keyed by id, for the same reason.
- `retry_count` and `error_message` are written only by `addToSyncQueue`. Nothing in the two
  services updates them, and the model keeps them as written.
- `null` versus `undefined` for `server_id` and `last_synced_at`. Both are `None`.
