/**
 * The reconciler and the sync cycle as functions on the two tables: `updateSyncStatus` for one
 * task, `processBatch` for one batch given what the remote exchange did, and `sync` for the whole
 * drained queue cut into batches. The SyncService methods are proved to compute exactly these.
 */
module Reconciler {
  import opened Wrappers
  import opened Records
  import opened Outbox
  import opened Store
  import opened Batcher

  /**
   * `updateSyncStatus(taskId, status, serverData)`. On `Synced` the task row is marked synced at
   * `now`, keeping its server id unless a new one is supplied, and every queue entry of the task is
   * deleted. On any other status only that row's status changes and the queue is left alone.
   * An id with no row leaves the tasks table unchanged (the UPDATE matches nothing).
   */
  function Reconcile(t: Tables, taskId: TaskId, status: SyncStatus, serverId: Option<ServerId>, now: Time): (r: Tables)
    ensures r.tasks.Keys == t.tasks.Keys
    ensures |r.queue| <= |t.queue|
    ensures status != Synced ==> r.queue == t.queue
  {
    if status == Synced then
      var tasks := if taskId in t.tasks then t.tasks[taskId := MarkSynced(t.tasks[taskId], serverId, now)] else t.tasks;
      Tables(tasks, Without(t.queue, {taskId}))
    else
      var tasks := if taskId in t.tasks then t.tasks[taskId := t.tasks[taskId].(syncStatus := status)] else t.tasks;
      Tables(tasks, t.queue)
  }

  /**
   * The effect of `Reconcile`: no row appears or disappears, only the task's row changes; on
   * `Synced` it is marked synced and exactly the task's entries leave the queue; otherwise only
   * the status changes and the queue is untouched.
   */
  lemma ReconcileEffect(t: Tables, taskId: TaskId, status: SyncStatus, serverId: Option<ServerId>, now: Time)
    ensures var r := Reconcile(t, taskId, status, serverId, now);
            && r.tasks.Keys == t.tasks.Keys
            && (forall id :: id in t.tasks && id != taskId ==> r.tasks[id] == t.tasks[id])
            && (taskId in t.tasks ==> r.tasks[taskId].syncStatus == status)
            && (status == Synced ==> forall e :: e in r.queue <==> e in t.queue && e.taskId != taskId)
            && (status == Synced && taskId in t.tasks ==> r.tasks[taskId] == MarkSynced(t.tasks[taskId], serverId, now))
            && (status != Synced ==> r.queue == t.queue)
            && (status != Synced && taskId in t.tasks ==> r.tasks[taskId] == t.tasks[taskId].(syncStatus := status))
  {
    WithoutMembers(t.queue, {taskId});
  }

  /** Reconciling a task as synced twice is reconciling it once, at the later time. */
  lemma ReconcileIdempotent(t: Tables, taskId: TaskId, serverId: Option<ServerId>, first: Time, second: Time)
    ensures Reconcile(Reconcile(t, taskId, Synced, serverId, first), taskId, Synced, serverId, second)
         == Reconcile(t, taskId, Synced, serverId, second)
  {
    WithoutWithout(t.queue, {taskId}, {taskId});
    assert {taskId} + {taskId} == {taskId};
  }

  /** Reconciling as synced or as error keeps the outbox consistent with the record store. */
  lemma ReconcileKeepsConsistent(t: Tables, taskId: TaskId, status: SyncStatus, serverId: Option<ServerId>, now: Time)
    requires Consistent(t) && status != Pending
    ensures Consistent(Reconcile(t, taskId, status, serverId, now))
  {
    var r := Reconcile(t, taskId, status, serverId, now);
    ReconcileEffect(t, taskId, status, serverId, now);
    forall id | id in r.tasks && r.tasks[id].syncStatus == Pending
      ensures id in TaskIdsOf(r.queue)
    {
      assert id != taskId || taskId !in t.tasks;
      var e :| e in t.queue && e.taskId == id;
      assert e in r.queue;
    }
  }

  /** The loop of `processBatch` over `items`: each item's task reconciled as synced, in order. */
  function ReconcileItems(t: Tables, items: seq<QueueEntry>, now: Time): (r: Tables)
    ensures r.tasks.Keys == t.tasks.Keys
    ensures |r.queue| <= |t.queue|
    decreases |items|
  {
    if items == [] then t
    else
      var n := |items| - 1;
      Reconcile(ReconcileItems(t, items[..n], now), items[n].taskId, Synced, None, now)
  }

  /** Reconciling a run of items deletes exactly the queue entries of their tasks, keeping the others in order. */
  lemma {:induction false} ReconcileItemsQueue(t: Tables, items: seq<QueueEntry>, now: Time)
    ensures ReconcileItems(t, items, now).queue == Without(t.queue, TaskIdsOf(items))
    decreases |items|
  {
    if items == [] {
      assert TaskIdsOf(items) == {};
      WithoutNothing(t.queue, {});
    } else {
      var n := |items| - 1;
      var x := items[n].taskId;
      var r0 := ReconcileItems(t, items[..n], now);
      ReconcileItemsQueue(t, items[..n], now);
      assert ReconcileItems(t, items, now).queue == Without(r0.queue, {x});
      WithoutWithout(t.queue, TaskIdsOf(items[..n]), {x});
      assert items == items[..n] + [items[n]];
      TaskIdsOfConcat(items[..n], [items[n]]);
      assert TaskIdsOf([items[n]]) == {x};
    }
  }

  /** Reconciling a run of items marks exactly their tasks' rows synced and leaves every other row alone. */
  lemma {:induction false} ReconcileItemsTasks(t: Tables, items: seq<QueueEntry>, now: Time)
    ensures var r := ReconcileItems(t, items, now);
            && r.tasks.Keys == t.tasks.Keys
            && forall id :: id in t.tasks ==>
                 r.tasks[id] == if id in TaskIdsOf(items) then MarkSynced(t.tasks[id], None, now) else t.tasks[id]
    decreases |items|
  {
    if items != [] {
      var n := |items| - 1;
      var x := items[n].taskId;
      ReconcileItemsTasks(t, items[..n], now);
      assert items == items[..n] + [items[n]];
      TaskIdsOfConcat(items[..n], [items[n]]);
      assert TaskIdsOf([items[n]]) == {x};
      var r0 := ReconcileItems(t, items[..n], now);
      var r := Reconcile(r0, x, Synced, None, now);
      forall id | id in t.tasks
        ensures r.tasks[id] == if id in TaskIdsOf(items) then MarkSynced(t.tasks[id], None, now) else t.tasks[id]
      {
        if id == x {
          assert r.tasks[id] == MarkSynced(r0.tasks[id], None, now);
        } else {
          assert r.tasks[id] == r0.tasks[id];
        }
      }
    }
  }

  /** One more item reconciled: the fold over `items[..j + 1]` extends the fold over `items[..j]`. */
  lemma ReconcileItemsStep(t: Tables, items: seq<QueueEntry>, j: nat, now: Time)
    requires j < |items|
    ensures ReconcileItems(t, items[..j + 1], now) == Reconcile(ReconcileItems(t, items[..j], now), items[j].taskId, Synced, None, now)
  {
    assert items[..j + 1][..j] == items[..j];
  }

  /**
   * What one batch's exchange with the remote did: every item went through, an exception was thrown
   * inside `processBatch`'s try block after `reconciled` items had been reconciled (a transport or
   * remote failure is `reconciled == 0`), or `processBatch` itself threw before sending (building the
   * payload), which `sync` catches.
   */
  datatype BatchOutcome =
    | Delivered
    | Interrupted(reconciled: nat, message: string)
    | Crashed(message: string)

  /** How many items of the batch are reconciled before the exception, if any. */
  function Reached(b: seq<QueueEntry>, o: BatchOutcome): (k: nat)
    ensures k <= |b|
    ensures o.Delivered? ==> k == |b|
    ensures o.Crashed? ==> k == 0
  {
    match o
    case Delivered => |b|
    case Interrupted(n, _) => if n < |b| then n else |b|
    case Crashed(_) => 0
  }

  datatype SyncError = SyncError(taskId: TaskId, error: string)

  /** Synced count, failed count and error list, for one batch or accumulated over several. */
  datatype Tally = Tally(synced: nat, failed: nat, errors: seq<SyncError>)

  /** The message reported for a failed item: the exception's message, or "Unknown error" when it has none. */
  function ErrorText(message: string): (s: string)
    ensures s != ""
    ensures message != "" ==> s == message
  {
    if message == "" then "Unknown error" else message
  }

  /** One error per item of the batch, all with the same message, in batch order. */
  function FailAll(items: seq<QueueEntry>, message: string): (r: seq<SyncError>)
    ensures |r| == |items|
    decreases |items|
  {
    if items == [] then [] else FailAll(items[..|items| - 1], message) + [SyncError(items[|items| - 1].taskId, message)]
  }

  /** The error at position `i` names the task of the batch's item `i`, with the shared message. */
  lemma {:induction false} FailAllEntries(items: seq<QueueEntry>, message: string)
    ensures forall i :: 0 <= i < |items| ==> FailAll(items, message)[i] == SyncError(items[i].taskId, message)
    decreases |items|
  {
    if items != [] {
      var n := |items| - 1;
      FailAllEntries(items[..n], message);
    }
  }

  /**
   * What `processBatch` reports for one batch: only a crash escapes it (`Err`); otherwise the items
   * reconciled count as synced and, when the try block threw, every item of the batch counts as
   * failed, with one error each.
   */
  function BatchReply(b: seq<QueueEntry>, o: BatchOutcome): (r: Result<Tally>)
    ensures r.Err? <==> o.Crashed?
    ensures o.Crashed? ==> r == Err(o.message)
    ensures r.Ok? ==> r.value.synced == Reached(b, o)
    ensures r.Ok? ==> r.value.failed == if o.Interrupted? && o.reconciled < |b| then |b| else 0
    ensures r.Ok? ==> |r.value.errors| == r.value.failed
  {
    match o
    case Crashed(m) => Err(m)
    case Interrupted(k, m) =>
      if k < |b| then Ok(Tally(k, |b|, FailAll(b, ErrorText(m)))) else Ok(Tally(|b|, 0, []))
    case Delivered => Ok(Tally(|b|, 0, []))
  }

  /** The tables after one batch and what `processBatch` returned (`Err` when it threw). */
  datatype BatchRun = BatchRun(tables: Tables, reply: Result<Tally>)

  /**
   * `processBatch(b)`: the first `Reached(b, o)` items are reconciled; an exception inside the try
   * block fails the whole batch (even the items already reconciled), one thrown out of it reaches
   * the caller untouched.
   */
  function RunBatch(t: Tables, b: seq<QueueEntry>, o: BatchOutcome, now: Time): (r: BatchRun)
    ensures r.reply.Err? <==> o.Crashed?
    ensures o.Crashed? ==> r.tables == t
    ensures r.tables.tasks.Keys == t.tasks.Keys
  {
    BatchRun(ReconcileItems(t, b[..Reached(b, o)], now), BatchReply(b, o))
  }

  /** How `sync` adds one batch's reply to its totals; a thrown batch counts every item as failed. */
  function Absorb(acc: Tally, b: seq<QueueEntry>, reply: Result<Tally>): (r: Tally)
    ensures r.synced >= acc.synced && r.failed >= acc.failed
    ensures |r.errors| >= |acc.errors| && r.errors[..|acc.errors|] == acc.errors
    ensures reply.Err? ==> r.synced == acc.synced && r.failed == acc.failed + |b|
    ensures |acc.errors| == acc.failed && (reply.Ok? ==> |reply.value.errors| == reply.value.failed)
            ==> |r.errors| == r.failed
  {
    match reply
    case Ok(x) => Tally(acc.synced + x.synced, acc.failed + x.failed, acc.errors + x.errors)
    case Err(m) => Tally(acc.synced, acc.failed + |b|, acc.errors + FailAll(b, ErrorText(m)))
  }

  /** A batch that crashes before sending is reported exactly like one whose transport fails at once. */
  lemma CrashLikeTransportFailure(t: Tables, acc: Tally, b: seq<QueueEntry>, m: string, now: Time)
    ensures RunBatch(t, b, Crashed(m), now).tables == RunBatch(t, b, Interrupted(0, m), now).tables
    ensures Absorb(acc, b, RunBatch(t, b, Crashed(m), now).reply)
         == Absorb(acc, b, RunBatch(t, b, Interrupted(0, m), now).reply)
  {
    if b == [] {
      assert FailAll(b, ErrorText(m)) == [];
    }
  }

  /** The tasks whose rows the batches reconcile as synced. */
  function SyncedIds(bs: seq<seq<QueueEntry>>, outcome: nat -> BatchOutcome): set<TaskId>
    decreases |bs|
  {
    if bs == [] then {}
    else
      var n := |bs| - 1;
      SyncedIds(bs[..n], outcome) + TaskIdsOf(bs[n][..Reached(bs[n], outcome(n))])
  }

  /** The tables and the totals after a sync cycle has processed some batches. */
  datatype Cycle = Cycle(tables: Tables, tally: Tally)

  /**
   * The loop of `sync` over the batches, batch `i` meeting `outcome(i)`: the error list has one
   * entry per failed item.
   */
  function RunBatches(t: Tables, bs: seq<seq<QueueEntry>>, outcome: nat -> BatchOutcome, now: Time): (r: Cycle)
    ensures |r.tally.errors| == r.tally.failed
    decreases |bs|
  {
    if bs == [] then Cycle(t, Tally(0, 0, []))
    else
      var n := |bs| - 1;
      var before := RunBatches(t, bs[..n], outcome, now);
      var run := RunBatch(before.tables, bs[n], outcome(n), now);
      Cycle(run.tables, Absorb(before.tally, bs[n], run.reply))
  }

  /** After the batches, the queue has lost exactly the entries of the tasks reconciled as synced, the others kept in order. */
  lemma {:induction false} RunBatchesQueue(t: Tables, bs: seq<seq<QueueEntry>>, outcome: nat -> BatchOutcome, now: Time)
    ensures RunBatches(t, bs, outcome, now).tables.queue == Without(t.queue, SyncedIds(bs, outcome))
    decreases |bs|
  {
    if bs == [] {
      WithoutNothing(t.queue, {});
    } else {
      var n := |bs| - 1;
      RunBatchesQueue(t, bs[..n], outcome, now);
      var before := RunBatches(t, bs[..n], outcome, now);
      var done := bs[n][..Reached(bs[n], outcome(n))];
      ReconcileItemsQueue(before.tables, done, now);
      WithoutWithout(t.queue, SyncedIds(bs[..n], outcome), TaskIdsOf(done));
    }
  }

  /** After the batches, the rows of the tasks reconciled as synced, and only those, are marked synced. */
  lemma {:induction false} RunBatchesTasks(t: Tables, bs: seq<seq<QueueEntry>>, outcome: nat -> BatchOutcome, now: Time)
    ensures var r := RunBatches(t, bs, outcome, now).tables;
            && r.tasks.Keys == t.tasks.Keys
            && forall id :: id in t.tasks ==>
                 r.tasks[id] == if id in SyncedIds(bs, outcome) then MarkSynced(t.tasks[id], None, now) else t.tasks[id]
    decreases |bs|
  {
    if bs != [] {
      var n := |bs| - 1;
      RunBatchesTasks(t, bs[..n], outcome, now);
      var before := RunBatches(t, bs[..n], outcome, now);
      var done := bs[n][..Reached(bs[n], outcome(n))];
      ReconcileItemsTasks(before.tables, done, now);
    }
  }

  /** One more batch processed: the fold over `bs[..k + 1]` extends the fold over `bs[..k]`. */
  lemma RunBatchesStep(t: Tables, bs: seq<seq<QueueEntry>>, k: nat, outcome: nat -> BatchOutcome, now: Time)
    requires k < |bs|
    ensures var before := RunBatches(t, bs[..k], outcome, now);
            var run := RunBatch(before.tables, bs[k], outcome(k), now);
            RunBatches(t, bs[..k + 1], outcome, now) == Cycle(run.tables, Absorb(before.tally, bs[k], run.reply))
  {
    assert bs[..k + 1][..k] == bs[..k];
  }

  datatype SyncResult = SyncResult(success: bool, syncedItems: nat, failedItems: nat, errors: seq<SyncError>)

  datatype CycleResult = CycleResult(tables: Tables, result: SyncResult)

  /**
   * `sync()`: an empty queue returns at once; otherwise the queue, oldest first, is cut into batches
   * of `batchSize` and run batch after batch. In every path the error list has one entry per failed
   * item and `success` means nothing failed.
   */
  function SyncCycle(t: Tables, batchSize: nat, outcome: nat -> BatchOutcome, now: Time): (r: CycleResult)
    requires batchSize >= 1
    ensures |r.result.errors| == r.result.failedItems
    ensures r.result.success <==> r.result.failedItems == 0
    ensures t.queue == [] ==> r == CycleResult(t, SyncResult(true, 0, 0, []))
  {
    if |t.queue| == 0 then CycleResult(t, SyncResult(true, 0, 0, []))
    else
      var c := RunBatches(t, Partition(t.queue, batchSize), outcome, now);
      CycleResult(c.tables, SyncResult(c.tally.failed == 0, c.tally.synced, c.tally.failed, c.tally.errors))
  }
}
