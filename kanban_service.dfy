/**
 * The Kanban service over the store: each method reads and writes the column and task
 * collections in place and is proved to perform the matching step of `Board`.
 */
module KanbanService {
  import opened Outcomes
  import opened Records
  import opened Seqs
  import opened Board
  import opened Db

  /** `get_columns`: the listing, then one task query per listed column. Changes nothing. */
  method GetColumns(db: Database) returns (r: Outcome<seq<Column>>)
    ensures r == ListColumns(db.columns, db.tasks)
  {
    var columns := Listed(db.columns);
    r := JoinedColumns(columns, db.tasks);
  }

  /** The loop of `get_columns`: stops at the first column without an id. */
  method JoinedColumns(columns: seq<Column>, tasks: seq<Task>) returns (r: Outcome<seq<Column>>)
    ensures r == JoinTasks(columns, tasks)
  {
    var result: seq<Column> := [];
    var i := 0;
    while i < |columns|
      invariant 0 <= i <= |columns|
      invariant forall k :: 0 <= k < i ==> columns[k].id.Some?
      invariant |result| == i
      invariant forall k :: 0 <= k < i ==> result[k] == columns[k].(tasks := ColumnTasks(tasks, columns[k].id.value))
    {
      match columns[i].id {
        case None =>
          assert columns[i].id.None?;
          return Raised(KeyError("id"));
        case Some(id) =>
          result := result + [columns[i].(tasks := ColumnTasks(tasks, id))];
      }
      i := i + 1;
    }
    assert result == seq(|columns|, k requires 0 <= k < |columns| => columns[k].(tasks := ColumnTasks(tasks, columns[k].id.value)));
    return Returned(result);
  }

  /** `create_column`: allocates the next id and inserts the new column. */
  method CreateColumn(db: Database, body: ColumnCreate, now: int) returns (r: Outcome<Reply<Column>>)
    modifies db`columns
    ensures Step(r, db.columns, db.tasks) == CreateColumnStep(old(db.columns), old(db.tasks), body, now)
  {
    var next := NextColumnId(db.columns);
    match next {
      case Raised(e) =>
        return Raised(e);
      case Returned(id) =>
        var column := Column(Some(id), body.title, body.order, [], Some(now), Some(now));
        db.columns := db.columns + [column];
        return Returned(WithMessage(column, ColumnCreated));
    }
  }

  /** `update_column`: find, `$set` title, order and `updated_at`, then fetch the column again. */
  method UpdateColumn(db: Database, id: int, body: ColumnCreate, now: int) returns (r: Outcome<Reply<Column>>)
    modifies db`columns
    ensures Step(r, db.columns, db.tasks) == UpdateColumnStep(old(db.columns), old(db.tasks), id, body, now)
  {
    var existing := FirstIndex(ColumnIds(db.columns), Some(id));
    if existing.None? {
      return Raised(ValueError(ColumnNotFound(id)));
    }
    var i := existing.value;
    var updated := db.columns[i].(title := body.title, order := body.order, updatedAt := Some(now));
    if updated == db.columns[i] {
      return Raised(ValueError(ColumnUpdateFailed));
    }
    ghost var before := db.columns;
    db.columns := db.columns[i := updated];
    assert ColumnIds(db.columns) == ColumnIds(before);
    var refetched := FirstIndex(ColumnIds(db.columns), Some(id));
    return Returned(WithMessage(db.columns[refetched.value], ColumnUpdated));
  }

  /** `delete_column`: find, count the column's tasks, then delete the first column with that id. */
  method DeleteColumn(db: Database, id: int) returns (r: Outcome<Reply<Column>>)
    modifies db`columns
    ensures Step(r, db.columns, db.tasks) == DeleteColumnStep(old(db.columns), old(db.tasks), id)
  {
    var existing := FirstIndex(ColumnIds(db.columns), Some(id));
    if existing.None? {
      return Raised(ValueError(ColumnNotFound(id)));
    }
    var tasksCount := |TasksIn(db.tasks, id)|;
    assert tasksCount > 0 <==> HasTasks(db.tasks, id) by {
      if tasksCount > 0 {
        assert TasksIn(db.tasks, id)[0] in TasksIn(db.tasks, id);
      }
    }
    if tasksCount > 0 {
      return Raised(ValueError(ColumnHasTasks));
    }
    db.columns := RemoveAt(db.columns, existing.value);
    return Returned(MessageOnly(ColumnDeleted));
  }

  /** `move_task`: find the task, find the column, `$set` the task's `column_id`, fetch the task again. */
  method MoveTask(db: Database, taskId: int, newColumnId: int) returns (r: Outcome<Reply<Task>>)
    modifies db`tasks
    ensures Step(r, db.columns, db.tasks) == MoveTaskStep(old(db.columns), old(db.tasks), taskId, newColumnId)
  {
    var task := FirstIndex(TaskIds(db.tasks), taskId);
    if task.None? {
      return Raised(ValueError(TaskNotFound(taskId)));
    }
    var column := FirstIndex(ColumnIds(db.columns), Some(newColumnId));
    if column.None? {
      return Raised(ValueError(ColumnNotFound(newColumnId)));
    }
    var i := task.value;
    var moved := db.tasks[i].(columnId := Some(newColumnId));
    if moved == db.tasks[i] {
      return Raised(ValueError(TaskMoveFailed));
    }
    ghost var before := db.tasks;
    db.tasks := db.tasks[i := moved];
    assert TaskIds(db.tasks) == TaskIds(before);
    var refetched := FirstIndex(TaskIds(db.tasks), taskId);
    return Returned(WithMessage(db.tasks[refetched.value], TaskMoved));
  }
}
