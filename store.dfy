/**
 * The database both services share: the `tasks` table as a map keyed by task id, the `sync_queue`
 * table as an insertion-ordered sequence, and the fresh-id supply that stands in for uuidv4.
 */
module Store {
  import opened Records
  import opened Outbox

  /** The contents of both tables at one moment. */
  datatype Tables = Tables(tasks: map<TaskId, Task>, queue: seq<QueueEntry>)

  /**
   * The outbox agrees with the record store: a queued entry belongs to a stored task that is not
   * synced, and a pending task has at least one queued entry. Every mutation keeps this when the
   * record store has a sync service wired in, and every reconciliation keeps it.
   */
  ghost predicate Consistent(t: Tables) {
    && (forall e :: e in t.queue ==> e.taskId in t.tasks && t.tasks[e.taskId].syncStatus != Synced)
    && (forall id :: id in t.tasks && t.tasks[id].syncStatus == Pending ==> id in TaskIdsOf(t.queue))
  }

  /** A row write of a pending task together with one outbox entry for it keeps the two tables consistent. */
  lemma MutationKeepsConsistent(t: Tables, task: Task, e: QueueEntry)
    requires Consistent(t)
    requires task.syncStatus == Pending && e.taskId == task.id
    ensures Consistent(Tables(t.tasks[task.id := task], t.queue + [e]))
  {
    var q := t.queue + [e];
    assert e in q;
    forall id | id in t.tasks && t.tasks[id].syncStatus == Pending && id != task.id
      ensures id in TaskIdsOf(q)
    {
      var x :| x in t.queue && x.taskId == id;
      assert x in q;
    }
  }

  class Database {
    var tasks: map<TaskId, Task>
    var queue: seq<QueueEntry>
    /** The next identifier the id supply hands out; every id in use is below it. */
    var nextId: nat

    ghost predicate Valid()
      reads this
    {
      && (forall id :: id in tasks ==> tasks[id].id == id && id < nextId)
      && (forall e :: e in queue ==> e.id < nextId)
    }

    constructor ()
      ensures Valid() && tasks == map[] && queue == [] && nextId == 0
    {
      tasks, queue, nextId := map[], [], 0;
    }

    /** A fresh identifier: neither a stored task nor a queued entry uses it. */
    method FreshId() returns (id: nat)
      requires Valid()
      modifies this`nextId
      ensures Valid() && id == old(nextId) && nextId == id + 1
      ensures id !in tasks && id !in EntryIds(queue)
    {
      id := nextId;
      nextId := nextId + 1;
    }
  }
}
