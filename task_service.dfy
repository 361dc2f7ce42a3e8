/**
 * The task service over the store: sequential ids, a page of at most 100 tasks, create with
 * timestamps, lookup, update of the submitted fields and delete, each acting on the first task
 * with the requested id. A miss is answered with a message, never an exception.
 */
module TaskService {
  import opened Outcomes
  import opened Records
  import opened Seqs
  import opened Db
  import Board

  const TaskCreated := "Task created successfully"
  const TaskNotFound := "Task not found"
  const TaskUpdated := "Task updated successfully"
  const TaskUpdateFailed := "Failed to update task"
  const TaskDeleted := "Task deleted successfully"
  const TaskDeleteFailed := "Failed to delete task"

  /** The document `create_task` stores: the body's fields, the id and both timestamps `now`. */
  function NewTask(body: TaskCreate, id: int, now: int): Task
  {
    Task(id, body.title, body.description, body.priority.Label(), body.status.Label(),
         AssigneeText(body.assignedTo), body.dueDate, None, None, None, now, now, None)
  }

  /** The `$set` of `update_task`: every field of the body and `updated_at`. */
  function Patched(t: Task, body: TaskCreate, now: int): Task
  {
    t.(title := body.title, description := body.description,
       priority := body.priority.Label(), status := body.status.Label(),
       assignedTo := AssigneeText(body.assignedTo), dueDate := body.dueDate, updatedAt := now)
  }

  /** A table whose ids are pairwise different and whose tasks sit in existing columns. */
  predicate Valid(columns: seq<Column>, tasks: seq<Task>)
  {
    Distinct(TaskIds(tasks)) && Board.TasksPlaced(columns, tasks)
  }

  /** `get_tasks`: the first 100 tasks in store order. */
  method GetTasks(db: Database) returns (r: seq<Task>)
    ensures |r| == if |db.tasks| < 100 then |db.tasks| else 100
    ensures r == db.tasks[..|r|]
  {
    r := Limit(db.tasks, 100);
  }

  /** `create_task`: the next id, both timestamps `now`, appended; no column, creator or owner. */
  method CreateTask(db: Database, body: TaskCreate, now: int) returns (r: Reply<Task>)
    modifies db`tasks
    ensures var t := NewTask(body, NextId(TaskIds(old(db.tasks))), now);
      && db.tasks == old(db.tasks) + [t]
      && r == WithMessage(t, TaskCreated)
  {
    var id := NextId(TaskIds(db.tasks));
    var task := NewTask(body, id, now);
    db.tasks := db.tasks + [task];
    return WithMessage(task, TaskCreated);
  }

  /** `get_task`: the first task with that id, or the not-found message. Changes nothing. */
  method GetTask(db: Database, id: int) returns (r: Reply<Task>)
    ensures r.MessageOnly? <==> forall k :: 0 <= k < |db.tasks| ==> db.tasks[k].id != id
    ensures r.MessageOnly? ==> r.message == TaskNotFound
    ensures !r.WithMessage?
    ensures r.Document? ==> exists i :: (0 <= i < |db.tasks| && db.tasks[i] == r.doc && r.doc.id == id
      && forall k :: 0 <= k < i ==> db.tasks[k].id != id)
  {
    Board.FirstTaskWithId(db.tasks, id);
    var found := FirstIndex(TaskIds(db.tasks), id);
    if found.None? {
      return MessageOnly(TaskNotFound);
    }
    return Document(db.tasks[found.value]);
  }

  /** Position `i` holds the first task with `id`: where `update_one({"id": id})` lands. */
  predicate IsFirstWithId(tasks: seq<Task>, i: int, id: int)
  {
    0 <= i < |tasks| && tasks[i].id == id && forall k :: 0 <= k < i ==> tasks[k].id != id
  }

  /**
   * `update_task` on a table: the reply and the table after it. `modified_count` is 0 when no
   * task has the id or when the `$set` leaves the first one as it was.
   */
  function UpdateTaskStep(tasks: seq<Task>, id: int, body: TaskCreate, now: int): (Reply<Task>, seq<Task>)
  {
    match FirstIndex(TaskIds(tasks), id)
    case None => (MessageOnly(TaskUpdateFailed), tasks)
    case Some(i) =>
      var patched := Patched(tasks[i], body, now);
      if patched == tasks[i] then (MessageOnly(TaskUpdateFailed), tasks)
      else (WithMessage(patched, TaskUpdated), tasks[i := patched])
  }

  /**
   * An update succeeds exactly when some task has the id and the `$set` changes the first
   * such task; then only that task is replaced, by its patched form, which is also the reply.
   * Otherwise the answer is the failure message and the table is unchanged.
   */
  lemma UpdateTaskEffect(tasks: seq<Task>, id: int, body: TaskCreate, now: int)
    ensures var step := UpdateTaskStep(tasks, id, body, now);
      && !step.0.Document?
      && (step.0.WithMessage? <==> exists i :: IsFirstWithId(tasks, i, id) && Patched(tasks[i], body, now) != tasks[i])
      && (step.0.MessageOnly? ==> step.0.message == TaskUpdateFailed && step.1 == tasks)
      && (step.0.WithMessage? ==> (step.0.message == TaskUpdated &&
            exists i :: IsFirstWithId(tasks, i, id) && step.0.doc == Patched(tasks[i], body, now)
              && step.1 == tasks[i := step.0.doc]))
  {
    Board.FirstTaskWithId(tasks, id);
    var found := FirstIndex(TaskIds(tasks), id);
    if found.Some? {
      forall i | IsFirstWithId(tasks, i, id) ensures i == found.value {
      }
    }
  }

  /**
   * `update_task`: the first task with that id gets the body's fields and `updated_at := now`,
   * keeping its id, `created_at` and `column_id`; the reply is the re-fetched document.
   */
  method UpdateTask(db: Database, id: int, body: TaskCreate, now: int) returns (r: Reply<Task>)
    modifies db`tasks
    ensures (r, db.tasks) == UpdateTaskStep(old(db.tasks), id, body, now)
  {
    var found := FirstIndex(TaskIds(db.tasks), id);
    if found.None? {
      return MessageOnly(TaskUpdateFailed);
    }
    var i := found.value;
    var updated := Patched(db.tasks[i], body, now);
    if updated == db.tasks[i] {
      return MessageOnly(TaskUpdateFailed);
    }
    ghost var before := db.tasks;
    db.tasks := db.tasks[i := updated];
    assert TaskIds(db.tasks) == TaskIds(before);
    var refetched := FirstIndex(TaskIds(db.tasks), id);
    return WithMessage(db.tasks[refetched.value], TaskUpdated);
  }

  /** `delete_task`: removes the first task with that id, or answers the failure message. */
  method DeleteTask(db: Database, id: int) returns (r: Reply<Task>)
    modifies db`tasks
    ensures r.MessageOnly?
    ensures r.message == TaskDeleteFailed <==> forall k :: 0 <= k < |old(db.tasks)| ==> old(db.tasks)[k].id != id
    ensures r.message == TaskDeleteFailed ==> db.tasks == old(db.tasks)
    ensures r.message != TaskDeleteFailed ==> (r.message == TaskDeleted &&
      exists i :: 0 <= i < |old(db.tasks)| && old(db.tasks)[i].id == id
        && (forall k :: 0 <= k < i ==> old(db.tasks)[k].id != id)
        && db.tasks == RemoveAt(old(db.tasks), i))
  {
    Board.FirstTaskWithId(db.tasks, id);
    var found := FirstIndex(TaskIds(db.tasks), id);
    if found.None? {
      return MessageOnly(TaskDeleteFailed);
    }
    db.tasks := RemoveAt(db.tasks, found.value);
    return MessageOnly(TaskDeleted);
  }

  // ---------------------------------------------------------------- the invariant is kept

  /** The id of a created task is new, and it sits in no column, so the table stays valid. */
  lemma CreateKeepsValid(columns: seq<Column>, tasks: seq<Task>, body: TaskCreate, now: int)
    requires Valid(columns, tasks)
    ensures Valid(columns, tasks + [NewTask(body, NextId(TaskIds(tasks)), now)])
  {
    var t := NewTask(body, NextId(TaskIds(tasks)), now);
    TaskIdsAppend(tasks, t);
    DistinctAppend(TaskIds(tasks), t.id);
    var r := tasks + [t];
    forall i | 0 <= i < |r| && r[i].columnId.Some? ensures r[i].columnId in ColumnIds(columns) {
      assert r[i] == tasks[i];
    }
  }

  /** An update keeps every id, `created_at` and `column_id`, so the table stays valid. */
  lemma UpdateKeepsValid(columns: seq<Column>, tasks: seq<Task>, i: nat, body: TaskCreate, now: int)
    requires i < |tasks| && Valid(columns, tasks)
    ensures var t := Patched(tasks[i], body, now);
      && t.id == tasks[i].id && t.createdAt == tasks[i].createdAt && t.columnId == tasks[i].columnId
      && Valid(columns, tasks[i := t])
  {
    var r := tasks[i := Patched(tasks[i], body, now)];
    assert TaskIds(r) == TaskIds(tasks) by {
      assert forall k :: 0 <= k < |r| ==> r[k].id == tasks[k].id;
    }
    assert forall k :: 0 <= k < |r| ==> r[k].columnId == tasks[k].columnId;
  }

  lemma DeleteKeepsValid(columns: seq<Column>, tasks: seq<Task>, i: nat)
    requires i < |tasks| && Valid(columns, tasks)
    ensures Valid(columns, RemoveAt(tasks, i))
  {
    TaskIdsRemoveAt(tasks, i);
    DistinctRemoveAt(TaskIds(tasks), i);
    var r := RemoveAt(tasks, i);
    forall k | 0 <= k < |r| && r[k].columnId.Some? ensures r[k].columnId in ColumnIds(columns) {
      assert r[k] == tasks[if k < i then k else k + 1];
    }
  }

  /** On an empty table, three creates number the tasks 1, 2 and 3. */
  method SequentialNumbering(body: TaskCreate, now: int) returns (ids: seq<int>)
    ensures ids == [1, 2, 3]
  {
    var db := new Database([], [], []);
    var first := CreateTask(db, body, now);
    var second := CreateTask(db, body, now);
    var third := CreateTask(db, body, now);
    ids := TaskIds(db.tasks);
  }
}
