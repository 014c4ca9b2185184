/**
 * TaskService: the record store. The three reads are filters over the `tasks` table; create,
 * update and soft delete rewrite one row and, when a SyncService is wired in, append one outbox
 * entry carrying the row as written.
 */
module TaskStore {
  import opened Wrappers
  import opened Records
  import opened Outbox
  import opened Store
  import opened Reconciler
  import opened SyncEngine
  import Batcher
  import CycleProperties

  /** `getTask(id)`: the row with that id unless it is soft-deleted. */
  function GetTask(tasks: map<TaskId, Task>, id: TaskId): (r: Option<Task>)
    ensures r.Some? <==> id in tasks && !tasks[id].isDeleted
    ensures r.Some? ==> r.value == tasks[id]
  {
    if id in tasks && !tasks[id].isDeleted then Some(tasks[id]) else None
  }

  /** `getAllTasks()`: exactly the rows that are not soft-deleted, unchanged. */
  function GetAllTasks(tasks: map<TaskId, Task>): (r: map<TaskId, Task>)
    ensures forall id :: id in r <==> id in tasks && !tasks[id].isDeleted
    ensures forall id :: id in r ==> r[id] == tasks[id]
  {
    map id | id in tasks && !tasks[id].isDeleted :: tasks[id]
  }

  /** `getTasksNeedingSync()`: exactly the rows whose status is pending or error, soft-deleted ones included. */
  function GetTasksNeedingSync(tasks: map<TaskId, Task>): (r: map<TaskId, Task>)
    ensures forall id :: id in r <==> id in tasks && tasks[id].syncStatus in {Pending, Error}
    ensures forall id :: id in r ==> r[id] == tasks[id]
  {
    map id | id in tasks && tasks[id].syncStatus != Synced :: tasks[id]
  }

  /** A single lookup agrees with the listing: `getTask` finds a row exactly when `getAllTasks` lists it. */
  lemma LookupAgreesWithListing(tasks: map<TaskId, Task>, id: TaskId)
    ensures GetTask(tasks, id).Some? <==> id in GetAllTasks(tasks)
    ensures GetTask(tasks, id).Some? ==> GetTask(tasks, id).value == GetAllTasks(tasks)[id]
  {
  }

  /**
   * A soft-deleted row is hidden from both reads of live tasks, so a second delete or an update of
   * it finds nothing, yet it still waits to be synced.
   */
  lemma DeletedIsHidden(tasks: map<TaskId, Task>, id: TaskId, now: Time)
    requires id in tasks
    ensures var after := tasks[id := MarkDeleted(tasks[id], now)];
            && GetTask(after, id).None?
            && id !in GetAllTasks(after)
            && id in GetTasksNeedingSync(after)
  {
  }

  /** When the outbox is consistent, every queued task is one that needs syncing, and every pending task is queued. */
  lemma QueuedTasksNeedSync(t: Tables)
    requires Consistent(t)
    ensures TaskIdsOf(t.queue) <= GetTasksNeedingSync(t.tasks).Keys
    ensures forall id :: id in GetTasksNeedingSync(t.tasks) && t.tasks[id].syncStatus == Pending ==> id in TaskIdsOf(t.queue)
  {
    forall id | id in TaskIdsOf(t.queue)
      ensures id in GetTasksNeedingSync(t.tasks)
    {
      var e :| e in t.queue && e.taskId == id;
    }
  }

  /**
   * After a sync cycle in which no batch throws, no task that was queued needs syncing any more,
   * whatever state the cycle starts from: an entry whose task has no row leaves no row behind.
   */
  lemma DrainedTasksSynced(t: Tables, batchSize: nat, outcome: nat -> BatchOutcome, now: Time)
    requires batchSize >= 1
    requires forall i :: outcome(i).Delivered?
    ensures var after := SyncCycle(t, batchSize, outcome, now).tables;
            && TaskIdsOf(t.queue) !! GetTasksNeedingSync(after.tasks).Keys
            && GetTasksNeedingSync(after.tasks).Keys <= GetTasksNeedingSync(t.tasks).Keys
  {
    var after := SyncCycle(t, batchSize, outcome, now).tables;
    if t.queue != [] {
      var bs := Batcher.Partition(t.queue, batchSize);
      RunBatchesTasks(t, bs, outcome, now);
      assert after.tasks.Keys == t.tasks.Keys;
      CycleProperties.CycleAllDelivered(t, batchSize, outcome, now);
      forall id | id in TaskIdsOf(t.queue)
        ensures id !in GetTasksNeedingSync(after.tasks)
      {
        var e :| e in t.queue && e.taskId == id;
      }
    }
  }

  class TaskService {
    const db: Database
    /** Optional, to break the construction cycle between the two services. */
    const syncService: SyncService?

    constructor (db: Database, syncService: SyncService?)
      ensures this.db == db && this.syncService == syncService
    {
      this.db := db;
      this.syncService := syncService;
    }

    /** A wired-in sync service writes to the same database. */
    predicate Wired() {
      syncService != null ==> syncService.db == db
    }

    /**
     * `createTask`: a fresh row built from the caller's title and description, then, with a sync
     * service, one `Create` entry carrying that row.
     */
    method CreateTask(fields: TaskFields, now: Time) returns (task: Task)
      requires db.Valid() && Wired()
      modifies db
      ensures db.Valid()
      ensures task == NewTask(task.id, fields, now)
      ensures task.id !in old(db.tasks) && db.tasks == old(db.tasks)[task.id := task]
      ensures syncService != null ==> EnqueuedOnce(old(db.queue), db.queue, task.id, Create, task, now)
      ensures syncService == null ==> db.queue == old(db.queue)
      ensures syncService != null && old(Consistent(Tables(db.tasks, db.queue))) ==> Consistent(Tables(db.tasks, db.queue))
    {
      ghost var before := Tables(db.tasks, db.queue);
      var id := db.FreshId();
      task := NewTask(id, fields, now);
      db.tasks := db.tasks[id := task];
      if syncService != null {
        syncService.AddToSyncQueue(id, Create, task, now);
        assert db.queue == before.queue + [db.queue[|before.queue|]];
        if Consistent(before) {
          MutationKeepsConsistent(before, task, db.queue[|before.queue|]);
        }
      }
    }

    /**
     * `updateTask`: nothing happens for an absent or soft-deleted id; otherwise the supplied fields
     * are merged over the row, which becomes pending, then, with a sync service, one `Update` entry
     * carrying the merged row.
     */
    method UpdateTask(id: TaskId, fields: TaskFields, now: Time) returns (r: Option<Task>)
      requires db.Valid() && Wired()
      modifies db
      ensures db.Valid()
      ensures r.Some? <==> GetTask(old(db.tasks), id).Some?
      ensures r.None? ==> db.tasks == old(db.tasks) && db.queue == old(db.queue) && db.nextId == old(db.nextId)
      ensures r.Some? ==> r.value == ApplyPatch(old(db.tasks)[id], fields, now) && db.tasks == old(db.tasks)[id := r.value]
      ensures r.Some? && syncService != null ==> EnqueuedOnce(old(db.queue), db.queue, id, Update, r.value, now)
      ensures syncService == null ==> db.queue == old(db.queue)
      ensures syncService != null && old(Consistent(Tables(db.tasks, db.queue))) ==> Consistent(Tables(db.tasks, db.queue))
    {
      var existing := GetTask(db.tasks, id);
      if existing.None? {
        return None;
      }
      ghost var before := Tables(db.tasks, db.queue);
      var updated := ApplyPatch(existing.value, fields, now);
      db.tasks := db.tasks[id := updated];
      if syncService != null {
        syncService.AddToSyncQueue(id, Update, updated, now);
        assert db.queue == before.queue + [db.queue[|before.queue|]];
        if Consistent(before) {
          MutationKeepsConsistent(before, updated, db.queue[|before.queue|]);
        }
      }
      r := Some(updated);
    }

    /**
     * `deleteTask`: `false` for an absent or already soft-deleted id; otherwise the row stays,
     * flagged deleted and pending, then, with a sync service, one `Delete` entry carrying it.
     */
    method DeleteTask(id: TaskId, now: Time) returns (ok: bool)
      requires db.Valid() && Wired()
      modifies db
      ensures db.Valid()
      ensures ok <==> GetTask(old(db.tasks), id).Some?
      ensures !ok ==> db.tasks == old(db.tasks) && db.queue == old(db.queue) && db.nextId == old(db.nextId)
      ensures ok ==> db.tasks == old(db.tasks)[id := MarkDeleted(old(db.tasks)[id], now)]
      ensures ok ==> GetTask(db.tasks, id).None? && id in GetTasksNeedingSync(db.tasks)
      ensures ok && syncService != null ==> EnqueuedOnce(old(db.queue), db.queue, id, Delete, db.tasks[id], now)
      ensures syncService == null ==> db.queue == old(db.queue)
      ensures syncService != null && old(Consistent(Tables(db.tasks, db.queue))) ==> Consistent(Tables(db.tasks, db.queue))
    {
      var existing := GetTask(db.tasks, id);
      if existing.None? {
        return false;
      }
      ghost var before := Tables(db.tasks, db.queue);
      var deleted := MarkDeleted(existing.value, now);
      db.tasks := db.tasks[id := deleted];
      if syncService != null {
        syncService.AddToSyncQueue(id, Delete, deleted, now);
        assert db.queue == before.queue + [db.queue[|before.queue|]];
        if Consistent(before) {
          MutationKeepsConsistent(before, deleted, db.queue[|before.queue|]);
        }
      }
      ok := true;
    }
  }
}
