/**
 * The outbox (the `sync_queue` table): an insertion-ordered log of queued mutations, the append
 * `addToSyncQueue` performs and the per-task deletion a successful reconciliation performs.
 */
module Outbox {
  import opened Wrappers
  import opened Records

  /** Queue-entry identifiers come from the same fresh-id supply as task identifiers. */
  type EntryId = nat

  datatype Operation = Create | Update | Delete

  /** One queued mutation; `data` is the snapshot of the task row at enqueue time. */
  datatype QueueEntry = QueueEntry(
    id: EntryId,
    taskId: TaskId,
    operation: Operation,
    data: Task,
    createdAt: Time,
    retryCount: nat,
    errorMessage: Option<string>)

  /** The row `addToSyncQueue` inserts: no retries yet and no error. */
  function NewEntry(id: EntryId, taskId: TaskId, op: Operation, data: Task, now: Time): (e: QueueEntry)
    ensures e.id == id && e.taskId == taskId && e.operation == op && e.data == data && e.createdAt == now
    ensures e.retryCount == 0 && e.errorMessage.None?
  {
    QueueEntry(id, taskId, op, data, now, 0, None)
  }

  function EntryIds(q: seq<QueueEntry>): set<EntryId> {
    set e | e in q :: e.id
  }

  function TaskIdsOf(q: seq<QueueEntry>): set<TaskId> {
    set e | e in q :: e.taskId
  }

  /**
   * `after` is `before` with exactly one entry appended: a fresh id, the given task, operation and
   * snapshot, `retryCount` 0 and no error; nothing existing is touched and nothing is de-duplicated.
   */
  ghost predicate EnqueuedOnce(before: seq<QueueEntry>, after: seq<QueueEntry>,
                               taskId: TaskId, op: Operation, data: Task, now: Time)
  {
    && |after| == |before| + 1
    && after[..|before|] == before
    && after[|before|].id !in EntryIds(before)
    && after[|before|] == NewEntry(after[|before|].id, taskId, op, data, now)
  }

  /** The queue after `DELETE FROM sync_queue WHERE task_id IN ids`: the other entries, in their order. */
  function Without(q: seq<QueueEntry>, ids: set<TaskId>): (r: seq<QueueEntry>)
    ensures |r| <= |q|
  {
    if q == [] then []
    else if q[0].taskId in ids then Without(q[1..], ids)
    else [q[0]] + Without(q[1..], ids)
  }

  /** What is left is exactly the entries of the other tasks, so no entry of a deleted task remains. */
  lemma {:induction false} WithoutMembers(q: seq<QueueEntry>, ids: set<TaskId>)
    ensures forall e :: e in Without(q, ids) <==> e in q && e.taskId !in ids
    ensures TaskIdsOf(Without(q, ids)) !! ids
  {
    if q != [] {
      WithoutMembers(q[1..], ids);
      assert q == [q[0]] + q[1..];
      assert forall e :: e in q <==> e == q[0] || e in q[1..];
    }
  }

  /** Deleting the rows of `a` and then those of `b` is deleting the rows of both. */
  lemma {:induction false} WithoutWithout(q: seq<QueueEntry>, a: set<TaskId>, b: set<TaskId>)
    ensures Without(Without(q, a), b) == Without(q, a + b)
  {
    if q != [] {
      WithoutWithout(q[1..], a, b);
      if q[0].taskId !in a {
        assert ([q[0]] + Without(q[1..], a))[1..] == Without(q[1..], a);
      }
    }
  }

  /** Deleting nothing leaves the queue as it was. */
  lemma {:induction false} WithoutNothing(q: seq<QueueEntry>, ids: set<TaskId>)
    requires TaskIdsOf(q) !! ids
    ensures Without(q, ids) == q
  {
    if q != [] {
      assert q[0] in q;
      assert TaskIdsOf(q[1..]) <= TaskIdsOf(q) by {
        forall e | e in q[1..] ensures e in q { }
      }
      WithoutNothing(q[1..], ids);
      assert [q[0]] + q[1..] == q;
    }
  }

  /** Deleting the rows of every task in the queue empties it. */
  lemma WithoutAll(q: seq<QueueEntry>, ids: set<TaskId>)
    requires TaskIdsOf(q) <= ids
    ensures Without(q, ids) == []
  {
    var r := Without(q, ids);
    WithoutMembers(q, ids);
    assert forall e :: e in r ==> e.taskId in TaskIdsOf(q);
  }

  lemma TaskIdsOfConcat(a: seq<QueueEntry>, b: seq<QueueEntry>)
    ensures TaskIdsOf(a + b) == TaskIdsOf(a) + TaskIdsOf(b)
  {
    assert forall e :: e in a + b <==> e in a || e in b;
  }
}
