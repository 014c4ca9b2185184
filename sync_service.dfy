/**
 * SyncService: appends to the outbox, and runs a sync cycle that drains the outbox, cuts it into
 * batches and reconciles each batch's items against the record store. The remote exchange is not
 * performed; what happened to each batch is given by the caller as `outcome`.
 */
module SyncEngine {
  import opened Wrappers
  import opened Records
  import opened Outbox
  import opened Store
  import opened Batcher
  import opened Reconciler

  /** The catch block's walk over a batch: one error per item, with the same message, appended in order. */
  method AppendFailures(errors: seq<SyncError>, items: seq<QueueEntry>, message: string) returns (r: seq<SyncError>)
    ensures r == errors + FailAll(items, message)
  {
    r := errors;
    var k := 0;
    while k < |items|
      invariant 0 <= k <= |items|
      invariant r == errors + FailAll(items[..k], message)
    {
      assert items[..k + 1][..k] == items[..k];
      r := r + [SyncError(items[k].taskId, message)];
      k := k + 1;
    }
    assert items[..k] == items;
  }

  /**
   * The batching loop of `sync`: from offset 0, in steps of `batchSize`, push the next slice of at most
   * `batchSize` items.
   */
  method MakeBatches<T>(allItems: seq<T>, batchSize: nat) returns (batches: seq<seq<T>>)
    requires batchSize >= 1
    ensures batches == Partition(allItems, batchSize)
  {
    batches := [];
    var i: nat := 0;
    assert Suffix(allItems, 0) == allItems;
    while i < |allItems|
      invariant batches + Partition(Suffix(allItems, i), batchSize) == Partition(allItems, batchSize)
      decreases |allItems| - i
    {
      PartitionAdvance(allItems, batchSize, i, batches);
      batches := batches + [Slice(allItems, i, batchSize)];
      i := i + batchSize;
    }
    assert Suffix(allItems, i) == [];
  }

  /**
   * What `sync` does with one batch's reply: adds its counts and errors to the totals, or, when
   * `processBatch` threw, counts every item of the batch as failed with the exception's message.
   */
  method Account(synced: nat, failed: nat, errors: seq<SyncError>, batch: seq<QueueEntry>, reply: Result<Tally>)
    returns (synced': nat, failed': nat, errors': seq<SyncError>)
    ensures Tally(synced', failed', errors') == Absorb(Tally(synced, failed, errors), batch, reply)
  {
    match reply {
      case Ok(tally) =>
        synced' := synced + tally.synced;
        failed' := failed + tally.failed;
        errors' := errors + tally.errors;
      case Err(message) =>
        synced' := synced;
        failed' := failed + |batch|;
        errors' := AppendFailures(errors, batch, ErrorText(message));
    }
  }

  class SyncService {
    const db: Database
    /** The remote base address; the exchange with it is not modelled. */
    const apiUrl: string

    constructor (db: Database, apiUrl: string)
      ensures this.db == db && this.apiUrl == apiUrl
    {
      this.db := db;
      this.apiUrl := apiUrl;
    }

    /** Appends one entry for the task at the end of the queue; the tasks table is not touched. */
    method AddToSyncQueue(taskId: TaskId, op: Operation, data: Task, now: Time)
      requires db.Valid()
      modifies db
      ensures db.Valid() && db.tasks == old(db.tasks)
      ensures EnqueuedOnce(old(db.queue), db.queue, taskId, op, data, now)
    {
      var id := db.FreshId();
      db.queue := db.queue + [NewEntry(id, taskId, op, data, now)];
    }

    /** Applies one item's outcome to the task row and, on success, trims the task's queue entries. */
    method UpdateSyncStatus(taskId: TaskId, status: SyncStatus, serverId: Option<ServerId>, now: Time)
      requires db.Valid()
      modifies db
      ensures db.Valid() && db.nextId == old(db.nextId)
      ensures Tables(db.tasks, db.queue) == Reconcile(old(Tables(db.tasks, db.queue)), taskId, status, serverId, now)
    {
      if status == Synced {
        if taskId in db.tasks {
          db.tasks := db.tasks[taskId := MarkSynced(db.tasks[taskId], serverId, now)];
        }
        WithoutMembers(db.queue, {taskId});
        db.queue := Without(db.queue, {taskId});
      } else {
        if taskId in db.tasks {
          db.tasks := db.tasks[taskId := db.tasks[taskId].(syncStatus := status)];
        }
      }
    }

    /**
     * The try block of `processBatch`: reconciles the batch's items one by one as synced until they
     * are all done or the exchange throws, which happens after `outcome.reconciled` of them.
     */
    method ReconcileBatch(items: seq<QueueEntry>, outcome: BatchOutcome, now: Time) returns (synced: nat, threw: bool)
      requires db.Valid() && !outcome.Crashed?
      modifies db
      ensures db.Valid() && db.nextId == old(db.nextId)
      ensures synced == Reached(items, outcome)
      ensures threw <==> outcome.Interrupted? && outcome.reconciled < |items|
      ensures Tables(db.tasks, db.queue) == ReconcileItems(old(Tables(db.tasks, db.queue)), items[..synced], now)
    {
      ghost var start := Tables(db.tasks, db.queue);
      synced, threw := 0, false;
      while synced < |items|
        invariant synced <= |items| && !threw
        invariant outcome.Interrupted? ==> synced <= outcome.reconciled
        invariant db.Valid() && db.nextId == old(db.nextId)
        invariant Tables(db.tasks, db.queue) == ReconcileItems(start, items[..synced], now)
      {
        if outcome.Interrupted? && outcome.reconciled == synced {
          threw := true;
          return;
        }
        ReconcileItemsStep(start, items, synced, now);
        UpdateSyncStatus(items[synced].taskId, Synced, None, now);
        synced := synced + 1;
      }
    }

    /**
     * `processBatch`: the try block, then, if it threw, every item of the batch failed with the
     * exception's message. `Err` is the exception that escapes before anything is sent.
     */
    method ProcessBatch(items: seq<QueueEntry>, outcome: BatchOutcome, now: Time) returns (reply: Result<Tally>)
      requires db.Valid()
      modifies db
      ensures db.Valid() && db.nextId == old(db.nextId)
      ensures Tables(db.tasks, db.queue) == ReconcileItems(old(Tables(db.tasks, db.queue)), items[..Reached(items, outcome)], now)
      ensures reply == BatchReply(items, outcome)
    {
      if outcome.Crashed? {
        assert items[..0] == [];
        return Err(outcome.message);
      }
      var synced, threw := ReconcileBatch(items, outcome, now);
      var failed: nat, errors: seq<SyncError> := 0, [];
      if threw {
        errors := AppendFailures(errors, items, ErrorText(outcome.message));
        failed := failed + |items|;
        assert errors == FailAll(items, ErrorText(outcome.message));
        assert BatchReply(items, outcome) == Ok(Tally(synced, |items|, errors));
      } else {
        assert BatchReply(items, outcome) == Ok(Tally(synced, 0, []));
      }
      reply := Ok(Tally(synced, failed, errors));
    }

    /**
     * One sync cycle over the whole queue, oldest entry first, in batches of `batchSize`, the batch
     * at position `i` meeting `outcome(i)`; a batch that throws fails all its items and the cycle
     * goes on with the next batch.
     */
    method Sync(batchSize: nat, outcome: nat -> BatchOutcome, now: Time) returns (result: SyncResult)
      requires db.Valid() && batchSize >= 1
      modifies db
      ensures db.Valid() && db.nextId == old(db.nextId)
      ensures CycleResult(Tables(db.tasks, db.queue), result) == SyncCycle(old(Tables(db.tasks, db.queue)), batchSize, outcome, now)
    {
      var allItems := db.queue;
      if |allItems| == 0 {
        return SyncResult(true, 0, 0, []);
      }

      var batches := MakeBatches(allItems, batchSize);

      ghost var start := Tables(db.tasks, db.queue);
      var syncedCount: nat, failedCount: nat, errors: seq<SyncError> := 0, 0, [];
      var k := 0;
      while k < |batches|
        invariant 0 <= k <= |batches|
        invariant db.Valid() && db.nextId == old(db.nextId)
        invariant Tables(db.tasks, db.queue) == RunBatches(start, batches[..k], outcome, now).tables
        invariant Tally(syncedCount, failedCount, errors) == RunBatches(start, batches[..k], outcome, now).tally
      {
        var batch := batches[k];
        RunBatchesStep(start, batches, k, outcome, now);
        var reply := ProcessBatch(batch, outcome(k), now);
        syncedCount, failedCount, errors := Account(syncedCount, failedCount, errors, batch, reply);
        k := k + 1;
      }
      assert batches[..k] == batches;
      ghost var c := RunBatches(start, batches, outcome, now);
      assert Tables(db.tasks, db.queue) == c.tables;
      assert Tally(syncedCount, failedCount, errors) == c.tally;
      result := SyncResult(failedCount == 0, syncedCount, failedCount, errors);
      assert SyncCycle(start, batchSize, outcome, now) == CycleResult(c.tables, result);
    }
  }
}
