/**
 * The task record (the `tasks` table row) and the three ways the record store rewrites one:
 * create, partial update and soft delete, plus the rewrite a successful sync applies.
 */
module Records {
  import opened Wrappers

  /** Task identifiers come from a fresh-id supply standing in for uuidv4. */
  type TaskId = nat
  /** An abstract clock reading (the source's ISO timestamps). */
  type Time = nat
  type ServerId = string

  datatype SyncStatus = Pending | Synced | Error

  datatype Task = Task(
    id: TaskId,
    title: string,
    description: string,
    completed: bool,
    createdAt: Time,
    updatedAt: Time,
    isDeleted: bool,
    syncStatus: SyncStatus,
    serverId: Option<ServerId>,
    lastSyncedAt: Option<Time>)

  /** The caller-supplied part of a task (a `Partial<Task>`): `None` is an absent key. */
  datatype TaskFields = TaskFields(title: Option<string>, description: Option<string>, completed: Option<bool>)

  /** A caller-supplied optional string with "" as the fallback: an absent (or empty) value becomes "". */
  function OrEmpty(s: Option<string>): (r: string)
    ensures s.None? ==> r == ""
    ensures s.Some? ==> r == s.value
  {
    match s
    case None => ""
    case Some(v) => v
  }

  /** The row `createTask` inserts: no validation, only title and description are taken from the caller. */
  function NewTask(id: TaskId, fields: TaskFields, now: Time): (t: Task)
    ensures t.id == id && t.title == OrEmpty(fields.title) && t.description == OrEmpty(fields.description)
    ensures !t.completed && !t.isDeleted && t.syncStatus == Pending
    ensures t.createdAt == t.updatedAt == now
    ensures t.serverId.None? && t.lastSyncedAt.None?
  {
    Task(id, OrEmpty(fields.title), OrEmpty(fields.description), false, now, now, false, Pending, None, None)
  }

  /**
   * The row `updateTask` writes: the supplied fields merged over the stored ones, a fresh `updatedAt`
   * and status pending. The UPDATE statement writes no other column.
   */
  function ApplyPatch(t: Task, fields: TaskFields, now: Time): (u: Task)
    ensures u.title == (if fields.title.Some? then fields.title.value else t.title)
    ensures u.description == (if fields.description.Some? then fields.description.value else t.description)
    ensures u.completed == (if fields.completed.Some? then fields.completed.value else t.completed)
    ensures u.updatedAt == now && u.syncStatus == Pending
    ensures u.id == t.id && u.isDeleted == t.isDeleted && u.createdAt == t.createdAt
    ensures u.serverId == t.serverId && u.lastSyncedAt == t.lastSyncedAt
  {
    t.(title := if fields.title.Some? then fields.title.value else t.title,
       description := if fields.description.Some? then fields.description.value else t.description,
       completed := if fields.completed.Some? then fields.completed.value else t.completed,
       updatedAt := now,
       syncStatus := Pending)
  }

  /** Patching twice with the same fields is patching once, at the later time. */
  lemma ApplyPatchIdempotent(t: Task, fields: TaskFields, first: Time, second: Time)
    ensures ApplyPatch(ApplyPatch(t, fields, first), fields, second) == ApplyPatch(t, fields, second)
  {
  }

  /** The row `deleteTask` writes: the row stays, flagged deleted and pending. */
  function MarkDeleted(t: Task, now: Time): (u: Task)
    ensures u.isDeleted && u.syncStatus == Pending && u.updatedAt == now
    ensures u.(isDeleted := t.isDeleted, syncStatus := t.syncStatus, updatedAt := t.updatedAt) == t
  {
    t.(isDeleted := true, syncStatus := Pending, updatedAt := now)
  }

  /**
   * The row a successful reconciliation writes: status synced, `lastSyncedAt` now, and the server id
   * replaced only when one is supplied (SQL COALESCE).
   */
  function MarkSynced(t: Task, serverId: Option<ServerId>, now: Time): (u: Task)
    ensures u.syncStatus == Synced && u.lastSyncedAt == Some(now)
    ensures serverId.None? ==> u.serverId == t.serverId
    ensures serverId.Some? ==> u.serverId == serverId
    ensures u.(syncStatus := t.syncStatus, lastSyncedAt := t.lastSyncedAt, serverId := t.serverId) == t
  {
    t.(syncStatus := Synced, lastSyncedAt := Some(now), serverId := if serverId.Some? then serverId else t.serverId)
  }
}
