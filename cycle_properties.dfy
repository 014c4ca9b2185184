/** What a sync cycle guarantees, stated over the reconciler's functions. */
module CycleProperties {
  import opened Wrappers
  import opened Records
  import opened Outbox
  import opened Store
  import opened Batcher
  import opened Reconciler

  /** When every batch is delivered, every drained entry is reconciled and nothing fails. */
  lemma {:induction false} AllDeliveredRun(t: Tables, bs: seq<seq<QueueEntry>>, outcome: nat -> BatchOutcome, now: Time)
    requires forall i :: 0 <= i < |bs| ==> outcome(i).Delivered?
    ensures SyncedIds(bs, outcome) == TaskIdsOf(Flatten(bs))
    ensures RunBatches(t, bs, outcome, now).tally == Tally(|Flatten(bs)|, 0, [])
    decreases |bs|
  {
    if bs != [] {
      var n := |bs| - 1;
      AllDeliveredRun(t, bs[..n], outcome, now);
      assert bs[n][..Reached(bs[n], outcome(n))] == bs[n];
      TaskIdsOfConcat(Flatten(bs[..n]), bs[n]);
    }
  }

  /**
   * A cycle in which no batch throws: every drained entry counts as synced, nothing fails, the
   * queue ends empty and every task that had an entry is synced at `now`.
   */
  lemma CycleAllDelivered(t: Tables, batchSize: nat, outcome: nat -> BatchOutcome, now: Time)
    requires batchSize >= 1
    requires forall i :: outcome(i).Delivered?
    ensures var r := SyncCycle(t, batchSize, outcome, now);
            && r.result == SyncResult(true, |t.queue|, 0, [])
            && r.tables.queue == []
            && forall e :: e in t.queue && e.taskId in t.tasks ==>
                 && e.taskId in r.tables.tasks
                 && r.tables.tasks[e.taskId].syncStatus == Synced
                 && r.tables.tasks[e.taskId].lastSyncedAt == Some(now)
  {
    if t.queue != [] {
      var bs := Partition(t.queue, batchSize);
      PartitionShape(t.queue, batchSize);
      AllDeliveredRun(t, bs, outcome, now);
      RunBatchesQueue(t, bs, outcome, now);
      RunBatchesTasks(t, bs, outcome, now);
      WithoutAll(t.queue, SyncedIds(bs, outcome));
    }
  }

  /** After a cycle in which no batch throws, a second cycle finds nothing to do. */
  lemma SecondCycleIsEmpty(t: Tables, batchSize: nat, outcome: nat -> BatchOutcome, first: Time, second: Time)
    requires batchSize >= 1
    requires forall i :: outcome(i).Delivered?
    ensures var after := SyncCycle(t, batchSize, outcome, first).tables;
            SyncCycle(after, batchSize, outcome, second) == CycleResult(after, SyncResult(true, 0, 0, []))
  {
    CycleAllDelivered(t, batchSize, outcome, first);
  }

  /** Is any batch interrupted after some of its items were already reconciled? */
  ghost predicate NoMidwayFailure(bs: seq<seq<QueueEntry>>, outcome: nat -> BatchOutcome)
  {
    forall i :: 0 <= i < |bs| && outcome(i).Interrupted? ==> outcome(i).reconciled == 0 || outcome(i).reconciled >= |bs[i]|
  }

  /**
   * Every drained entry is counted at least once. It is counted exactly once unless a batch is
   * interrupted midway: its reconciled items then count as synced and again as failed.
   */
  lemma {:induction false} RunBatchesCounts(t: Tables, bs: seq<seq<QueueEntry>>, outcome: nat -> BatchOutcome, now: Time)
    ensures var c := RunBatches(t, bs, outcome, now).tally;
            c.synced + c.failed >= |Flatten(bs)|
    ensures NoMidwayFailure(bs, outcome) ==>
              var c := RunBatches(t, bs, outcome, now).tally;
              c.synced + c.failed == |Flatten(bs)|
    decreases |bs|
  {
    if bs != [] {
      var n := |bs| - 1;
      RunBatchesCounts(t, bs[..n], outcome, now);
      assert NoMidwayFailure(bs, outcome) ==> NoMidwayFailure(bs[..n], outcome);
    }
  }

  /** The cycle's totals cover the drained queue, exactly when no batch is interrupted midway. */
  lemma CycleCounts(t: Tables, batchSize: nat, outcome: nat -> BatchOutcome, now: Time)
    requires batchSize >= 1
    ensures var r := SyncCycle(t, batchSize, outcome, now).result;
            r.syncedItems + r.failedItems >= |t.queue|
    ensures NoMidwayFailure(Partition(t.queue, batchSize), outcome) ==>
              var r := SyncCycle(t, batchSize, outcome, now).result;
              r.syncedItems + r.failedItems == |t.queue|
  {
    PartitionShape(t.queue, batchSize);
    RunBatchesCounts(t, Partition(t.queue, batchSize), outcome, now);
  }

  /** A sync cycle keeps the outbox consistent with the record store, whatever the batches meet. */
  lemma CycleKeepsConsistent(t: Tables, batchSize: nat, outcome: nat -> BatchOutcome, now: Time)
    requires batchSize >= 1 && Consistent(t)
    ensures Consistent(SyncCycle(t, batchSize, outcome, now).tables)
  {
    if t.queue != [] {
      var bs := Partition(t.queue, batchSize);
      var ids := SyncedIds(bs, outcome);
      WithoutMembers(t.queue, ids);
      RunBatchesQueue(t, bs, outcome, now);
      RunBatchesTasks(t, bs, outcome, now);
      var r := SyncCycle(t, batchSize, outcome, now).tables;
      forall id | id in r.tasks && r.tasks[id].syncStatus == Pending
        ensures id in TaskIdsOf(r.queue)
      {
        assert id !in ids;
        var e :| e in t.queue && e.taskId == id;
        assert e in r.queue;
      }
    }
  }

  /**
   * A batch that throws out of `processBatch` leaves both tables alone and counts every one of its
   * items as failed, with one error each; the cycle then goes on with the next batch.
   */
  lemma ThrownBatch(t: Tables, bs: seq<seq<QueueEntry>>, b: seq<QueueEntry>, outcome: nat -> BatchOutcome, now: Time)
    requires outcome(|bs|).Crashed?
    ensures var before := RunBatches(t, bs, outcome, now);
            var after := RunBatches(t, bs + [b], outcome, now);
            && after.tables == before.tables
            && after.tally.synced == before.tally.synced
            && after.tally.failed == before.tally.failed + |b|
            && after.tally.errors == before.tally.errors + FailAll(b, ErrorText(outcome(|bs|).message))
  {
    assert (bs + [b])[..|bs|] == bs;
    assert b[..0] == [];
  }

  /** Does the batch fail as a whole, before any of its items is reconciled? */
  predicate FailsOutright(o: BatchOutcome) {
    o.Crashed? || (o.Interrupted? && o.reconciled == 0)
  }

  /** More than one batch's worth but at most two: exactly two batches. */
  lemma TwoBatches<T>(q: seq<T>, size: nat)
    requires size >= 1 && size < |q| <= 2 * size
    ensures Partition(q, size) == [q[..size], q[size..]]
  {
    PartitionStep(q, size, 0);
    PartitionStep(q, size, size);
    assert q[0..] == q && q[0..size] == q[..size];
    assert q[size..|q|] == q[size..];
    var rest: seq<T> := q[|q|..];
    assert rest == [];
    assert Partition(rest, size) == [];
  }

  /** Two non-empty batches, the first delivered and the second failing outright. */
  lemma DeliveredThenFailed(t: Tables, b0: seq<QueueEntry>, b1: seq<QueueEntry>, outcome: nat -> BatchOutcome, now: Time)
    requires b0 != [] && b1 != []
    requires outcome(0).Delivered? && FailsOutright(outcome(1))
    ensures SyncedIds([b0, b1], outcome) == TaskIdsOf(b0)
    ensures var c := RunBatches(t, [b0, b1], outcome, now).tally;
            c.synced == |b0| && c.failed == |b1|
  {
    var bs := [b0, b1];
    assert bs[..1] == [b0];
    assert [b0][..0] == [];
    assert SyncedIds([b0][..0], outcome) == {};
    assert SyncedIds([b0], outcome) == TaskIdsOf(b0);
    assert b0[..Reached(b0, outcome(0))] == b0;
    assert b1[..Reached(b1, outcome(1))] == [];
    var empty := RunBatches(t, [b0][..0], outcome, now);
    assert empty == Cycle(t, Tally(0, 0, []));
    var r0 := RunBatch(t, b0, outcome(0), now);
    assert r0.reply == Ok(Tally(|b0|, 0, []));
    var c0 := RunBatches(t, [b0], outcome, now);
    assert c0.tally == Absorb(empty.tally, b0, r0.reply);
  }

  /**
   * Two batches, the first delivered and the second failing as a whole: the first batch's items
   * count as synced and its tasks' entries leave the queue; the second's count as failed and its
   * entries stay, unless their task was also in the first batch.
   */
  lemma PartialFailureIsolation(t: Tables, batchSize: nat, outcome: nat -> BatchOutcome, now: Time)
    requires batchSize >= 1 && batchSize < |t.queue| <= 2 * batchSize
    requires outcome(0).Delivered? && FailsOutright(outcome(1))
    ensures var r := SyncCycle(t, batchSize, outcome, now);
            && r.result.syncedItems == batchSize
            && r.result.failedItems == |t.queue| - batchSize
            && !r.result.success
            && r.tables.queue == Without(t.queue, TaskIdsOf(t.queue[..batchSize]))
  {
    var q := t.queue;
    TwoBatches(q, batchSize);
    DeliveredThenFailed(t, q[..batchSize], q[batchSize..], outcome, now);
    RunBatchesQueue(t, [q[..batchSize], q[batchSize..]], outcome, now);
  }
}
