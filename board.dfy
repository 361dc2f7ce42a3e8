/**
 * The Kanban board as values: the column and task collections, the id rule for columns, the
 * ordered listing joined with tasks, and one step function per operation of the Kanban
 * service. Each step gives the service's outcome together with both collections afterwards;
 * the methods of `KanbanService` are proved to perform exactly these steps.
 */
module Board {
  import opened Text
  import opened Outcomes
  import opened Records
  import opened Seqs

  // ---------------------------------------------------------------- column ids

  /** The ids carried by the columns that have one, in store order. */
  function PresentIds(columns: seq<Column>): (ids: seq<int>)
    ensures forall k :: 0 <= k < |columns| && columns[k].id.Some? ==> columns[k].id.value in ids
    ensures forall x :: x in ids ==> Some(x) in ColumnIds(columns)
    ensures |ids| == 0 <==> forall k :: 0 <= k < |columns| ==> columns[k].id.None?
  {
    if |columns| == 0 then []
    else
      var rest := PresentIds(columns[1..]);
      assert forall k :: 1 <= k < |columns| ==> columns[1..][k - 1] == columns[k];
      assert forall x :: x in ColumnIds(columns[1..]) ==> x in ColumnIds(columns) by {
        forall x | x in ColumnIds(columns[1..]) ensures x in ColumnIds(columns) {
          var k :| 0 <= k < |columns[1..]| && ColumnIds(columns[1..])[k] == x;
          assert ColumnIds(columns)[k + 1] == x;
        }
      }
      match columns[0].id
      case Some(id) =>
        assert ColumnIds(columns)[0] == Some(id);
        [id] + rest
      case None => rest
  }

  /**
   * `get_next_column_id`: the first document of a descending sort on `id` puts the columns
   * lacking the field last, so the answer is one more than the largest present id; 1 on an
   * empty collection; and `KeyError("id")` when columns exist but none carries an id.
   */
  function NextColumnId(columns: seq<Column>): (r: Outcome<int>)
    ensures |columns| == 0 ==> r == Returned(1)
    ensures r.Raised? <==> |columns| > 0 && forall k :: 0 <= k < |columns| ==> columns[k].id.None?
    ensures r.Raised? ==> r.error == KeyError("id")
    ensures r.Returned? ==> forall k :: 0 <= k < |columns| && columns[k].id.Some? ==> columns[k].id.value < r.value
    ensures r.Returned? && |columns| > 0 ==> Some(r.value - 1) in ColumnIds(columns)
    ensures r.Returned? ==> Some(r.value) !in ColumnIds(columns)
  {
    var ids := PresentIds(columns);
    if |columns| == 0 then Returned(1)
    else if |ids| == 0 then Raised(KeyError("id"))
    else
      AboveEveryPresentId(columns);
      Returned(NextId(ids))
  }

  /** One more than the largest present id exceeds every column's id and follows one of them. */
  lemma AboveEveryPresentId(columns: seq<Column>)
    requires |PresentIds(columns)| > 0
    ensures forall k :: 0 <= k < |columns| && columns[k].id.Some? ==> columns[k].id.value < NextId(PresentIds(columns))
    ensures Some(NextId(PresentIds(columns)) - 1) in ColumnIds(columns)
  {
    var ids := PresentIds(columns);
    var next := NextId(ids);
    forall k | 0 <= k < |columns| && columns[k].id.Some? ensures columns[k].id.value < next {
      var j :| 0 <= j < |ids| && ids[j] == columns[k].id.value;
    }
    assert next - 1 in ids;
  }

  // ---------------------------------------------------------------- the listing

  predicate SortedByOrder(s: seq<Column>)
  {
    forall i, j :: 0 <= i < j < |s| ==> s[i].order <= s[j].order
  }

  /** `c` placed before the first column of `s` whose order is not smaller. */
  function InsertByOrder(c: Column, s: seq<Column>): (r: seq<Column>)
    requires SortedByOrder(s)
    ensures SortedByOrder(r)
    ensures multiset(r) == multiset(s) + multiset{c}
  {
    if |s| == 0 then [c]
    else if c.order <= s[0].order then [c] + s
    else
      var rest := InsertByOrder(c, s[1..]);
      assert s == [s[0]] + s[1..];
      assert forall k :: 0 <= k < |s[1..]| ==> s[0].order <= s[1..][k].order by {
        forall k | 0 <= k < |s[1..]| ensures s[0].order <= s[1..][k].order {
          assert s[1..][k] == s[k + 1];
        }
      }
      LowerBoundCarries(rest, s[1..], c, s[0].order);
      [s[0]] + rest
  }

  /** Every element of `r` is `c` or drawn from `s`, so a lower bound on `c` and on `s` holds in `r`. */
  lemma LowerBoundCarries(r: seq<Column>, s: seq<Column>, c: Column, lo: int)
    requires multiset(r) == multiset(s) + multiset{c}
    requires lo <= c.order && forall k :: 0 <= k < |s| ==> lo <= s[k].order
    ensures forall k :: 0 <= k < |r| ==> lo <= r[k].order
  {
    forall k | 0 <= k < |r| ensures lo <= r[k].order {
      assert r[k] in multiset(r);
      if r[k] != c {
        assert r[k] in multiset(s);
        var j :| 0 <= j < |s| && s[j] == r[k];
      }
    }
  }

  /** The `sort("order", 1)` of the column query, as an insertion sort. */
  function SortByOrder(s: seq<Column>): (r: seq<Column>)
    ensures SortedByOrder(r)
    ensures multiset(r) == multiset(s)
  {
    if |s| == 0 then []
    else
      assert s == [s[0]] + s[1..];
      InsertByOrder(s[0], SortByOrder(s[1..]))
  }

  /** The columns `get_columns` lists: sorted by order, then cut at 100. */
  function Listed(columns: seq<Column>): (r: seq<Column>)
    ensures |r| == if |columns| < 100 then |columns| else 100
    ensures SortedByOrder(r)
    ensures multiset(r) <= multiset(columns)
    ensures |columns| <= 100 ==> multiset(r) == multiset(columns)
    ensures forall c, k :: c in multiset(columns) - multiset(r) && 0 <= k < |r| ==> r[k].order <= c.order
  {
    var sorted := SortByOrder(columns);
    assert |sorted| == |columns| by {
      assert |multiset(sorted)| == |multiset(columns)|;
    }
    var r := Limit(sorted, 100);
    SortedPrefix(sorted, |r|);
    r
  }

  /** A prefix of a sorted sequence is sorted, and no element left out has a smaller order. */
  lemma SortedPrefix(s: seq<Column>, n: nat)
    requires SortedByOrder(s) && n <= |s|
    ensures SortedByOrder(s[..n])
    ensures multiset(s[..n]) <= multiset(s)
    ensures forall c, k :: c in multiset(s) - multiset(s[..n]) && 0 <= k < n ==> s[k].order <= c.order
  {
    var r, rest := s[..n], s[n..];
    assert s == r + rest;
    assert multiset(s) == multiset(r) + multiset(rest);
    forall c, k | c in multiset(s) - multiset(r) && 0 <= k < n
      ensures s[k].order <= c.order
    {
      assert c in multiset(rest);
      var j :| 0 <= j < |rest| && rest[j] == c;
      assert s[n + j] == c;
    }
  }

  /** The stored tasks whose `column_id` is `id`, in store order. */
  function TasksIn(tasks: seq<Task>, id: int): (r: seq<Task>)
    ensures |r| <= |tasks|
    ensures forall t :: t in r <==> t in tasks && t.columnId == Some(id)
  {
    if |tasks| == 0 then []
    else
      assert tasks == [tasks[0]] + tasks[1..];
      if tasks[0].columnId == Some(id) then [tasks[0]] + TasksIn(tasks[1..], id)
      else TasksIn(tasks[1..], id)
  }

  /** The `tasks` shown in a listed column: its own tasks, at most 100 of them. */
  function ColumnTasks(tasks: seq<Task>, id: int): (r: seq<Task>)
    ensures |r| <= 100
    ensures forall t :: t in r ==> t in tasks && t.columnId == Some(id)
    ensures |TasksIn(tasks, id)| <= 100 ==> forall t :: t in tasks && t.columnId == Some(id) ==> t in r
  {
    Limit(TasksIn(tasks, id), 100)
  }

  /**
   * The loop of `get_columns` over the listed columns: each gets its own tasks in place of
   * `tasks`; reading `column["id"]` on a column that lacks it raises `KeyError("id")`.
   */
  function JoinTasks(listed: seq<Column>, tasks: seq<Task>): (r: Outcome<seq<Column>>)
    ensures r.Raised? <==> exists k :: 0 <= k < |listed| && listed[k].id.None?
    ensures r.Raised? ==> r.error == KeyError("id")
    ensures r.Returned? ==> |r.value| == |listed|
    ensures r.Returned? ==> forall k :: 0 <= k < |r.value| ==>
      r.value[k].id.Some? && r.value[k] == listed[k].(tasks := ColumnTasks(tasks, r.value[k].id.value))
  {
    if exists k :: 0 <= k < |listed| && listed[k].id.None? then Raised(KeyError("id"))
    else Returned(seq(|listed|, k requires 0 <= k < |listed| => listed[k].(tasks := ColumnTasks(tasks, listed[k].id.value))))
  }

  /** `get_columns`: the listed columns joined with their tasks. */
  function ListColumns(columns: seq<Column>, tasks: seq<Task>): Outcome<seq<Column>>
  {
    JoinTasks(Listed(columns), tasks)
  }

  /** The listing comes back in non-decreasing order, and every shown task belongs to its column. */
  lemma ListingOrderedAndJoined(columns: seq<Column>, tasks: seq<Task>)
    requires ListColumns(columns, tasks).Returned?
    ensures var cols := ListColumns(columns, tasks).value;
      && |cols| <= 100
      && SortedByOrder(cols)
      && forall k, t :: 0 <= k < |cols| && t in cols[k].tasks ==> t in tasks && t.columnId == cols[k].id
  {
    var listed := Listed(columns);
    var cols := JoinTasks(listed, tasks).value;
    assert forall k :: 0 <= k < |cols| ==> cols[k].order == listed[k].order;
  }

  // ---------------------------------------------------------------- board invariants

  /** No two columns carry the same id. */
  predicate UniqueColumnIds(columns: seq<Column>)
  {
    forall i, j :: 0 <= i < j < |columns| && columns[i].id.Some? ==> columns[i].id != columns[j].id
  }

  /** Every task placed in a column names a column that exists. */
  predicate TasksPlaced(columns: seq<Column>, tasks: seq<Task>)
  {
    forall i :: 0 <= i < |tasks| && tasks[i].columnId.Some? ==> tasks[i].columnId in ColumnIds(columns)
  }

  predicate Valid(columns: seq<Column>, tasks: seq<Task>)
  {
    UniqueColumnIds(columns) && TasksPlaced(columns, tasks)
  }

  // ---------------------------------------------------------------- the steps

  /** What an operation answers, with the column and task collections after it. */
  datatype Step<T> = Step(outcome: Outcome<T>, columns: seq<Column>, tasks: seq<Task>)

  function ColumnNotFound(id: int): string
  {
    "Columna con id " + IntToString(id) + " no encontrada"
  }

  function TaskNotFound(id: int): string
  {
    "Tarea con id " + IntToString(id) + " no encontrada"
  }

  const ColumnUpdateFailed := "Error al actualizar la columna"
  const ColumnHasTasks := "No se puede eliminar una columna que contiene tareas"
  const TaskMoveFailed := "Error al mover la tarea"
  const ColumnCreated := "Column created successfully"
  const ColumnUpdated := "Column updated successfully"
  const ColumnDeleted := "Column deleted successfully"
  const TaskMoved := "Task moved successfully"

  /** `create_column`: the body, the next id, both timestamps `now` and no tasks, appended. */
  function CreateColumnStep(columns: seq<Column>, tasks: seq<Task>, body: ColumnCreate, now: int): Step<Reply<Column>>
  {
    match NextColumnId(columns)
    case Raised(e) => Step(Raised(e), columns, tasks)
    case Returned(id) =>
      var c := Column(Some(id), body.title, body.order, [], Some(now), Some(now));
      Step(Returned(WithMessage(c, ColumnCreated)), columns + [c], tasks)
  }

  /**
   * `update_column`: the first column with that id gets the body's title and order and
   * `updated_at := now`; a missing id, or a `$set` that changes nothing, raises.
   */
  function UpdateColumnStep(columns: seq<Column>, tasks: seq<Task>, id: int, body: ColumnCreate, now: int): Step<Reply<Column>>
  {
    match FirstIndex(ColumnIds(columns), Some(id))
    case None => Step(Raised(ValueError(ColumnNotFound(id))), columns, tasks)
    case Some(i) =>
      var c := columns[i].(title := body.title, order := body.order, updatedAt := Some(now));
      if c == columns[i] then Step(Raised(ValueError(ColumnUpdateFailed)), columns, tasks)
      else Step(Returned(WithMessage(c, ColumnUpdated)), columns[i := c], tasks)
  }

  /** Whether some task has `column_id == id`: `count_documents` is positive. */
  predicate HasTasks(tasks: seq<Task>, id: int)
  {
    exists t :: t in tasks && t.columnId == Some(id)
  }

  /** `delete_column`: existence first, then emptiness, then the first column with that id goes. */
  function DeleteColumnStep(columns: seq<Column>, tasks: seq<Task>, id: int): Step<Reply<Column>>
  {
    match FirstIndex(ColumnIds(columns), Some(id))
    case None => Step(Raised(ValueError(ColumnNotFound(id))), columns, tasks)
    case Some(i) =>
      if HasTasks(tasks, id) then Step(Raised(ValueError(ColumnHasTasks)), columns, tasks)
      else Step(Returned(MessageOnly(ColumnDeleted)), RemoveAt(columns, i), tasks)
  }

  /**
   * `move_task`: the task must exist, then the target column; then only the task's
   * `column_id` is set, and a task already in that column makes the update a no-op, which raises.
   */
  function MoveTaskStep(columns: seq<Column>, tasks: seq<Task>, taskId: int, newColumnId: int): Step<Reply<Task>>
  {
    match FirstIndex(TaskIds(tasks), taskId)
    case None => Step(Raised(ValueError(TaskNotFound(taskId))), columns, tasks)
    case Some(i) =>
      if Some(newColumnId) !in ColumnIds(columns) then Step(Raised(ValueError(ColumnNotFound(newColumnId))), columns, tasks)
      else
        var t := tasks[i].(columnId := Some(newColumnId));
        if t == tasks[i] then Step(Raised(ValueError(TaskMoveFailed)), columns, tasks)
        else Step(Returned(WithMessage(t, TaskMoved)), columns, tasks[i := t])
  }

  // ---------------------------------------------------------------- what the steps do

  /**
   * Creating a column never touches the tasks. It fails exactly when columns exist and none
   * carries an id, with `KeyError("id")` and nothing changed; otherwise exactly one column is
   * appended, with an id no column had, the body's title and order, no tasks and
   * `created_at == updated_at == now`. Duplicate titles and orders are not checked.
   */
  lemma CreateColumnEffect(columns: seq<Column>, tasks: seq<Task>, body: ColumnCreate, now: int)
    ensures var s := CreateColumnStep(columns, tasks, body, now);
      && s.tasks == tasks
      && (s.outcome.Raised? <==> |columns| > 0 && forall k :: 0 <= k < |columns| ==> columns[k].id.None?)
      && (s.outcome.Raised? ==> s.outcome.error == KeyError("id") && s.columns == columns)
      && (s.outcome.Returned? ==>
            && |s.columns| == |columns| + 1
            && s.columns[..|columns|] == columns
            && var c := s.columns[|columns|];
            && s.outcome.value == WithMessage(c, ColumnCreated)
            && c.id.Some? && c !in columns && c.id !in ColumnIds(columns)
            && c.title == body.title && c.order == body.order && c.tasks == []
            && c.createdAt == c.updatedAt == Some(now))
  {
    var s := CreateColumnStep(columns, tasks, body, now);
    if s.outcome.Returned? {
      var c := s.columns[|columns|];
      assert s.columns == columns + [c];
    }
  }

  /** The first column with `id`, if any: where `find_one({"id": id})` lands. */
  lemma FirstColumnWithId(columns: seq<Column>, id: int)
    ensures var r := FirstIndex(ColumnIds(columns), Some(id));
      && (r.None? <==> forall k :: 0 <= k < |columns| ==> columns[k].id != Some(id))
      && (r.Some? ==> (r.value < |columns| && columns[r.value].id == Some(id)
            && forall k :: 0 <= k < r.value ==> columns[k].id != Some(id)))
  {
    var ids := ColumnIds(columns);
    var r := FirstIndex(ids, Some(id));
    if r.None? {
      forall k | 0 <= k < |columns| ensures columns[k].id != Some(id) {
        assert ids[k] == columns[k].id;
      }
    } else {
      forall k | 0 <= k < r.value ensures columns[k].id != Some(id) {
        assert ids[..r.value][k] == columns[k].id;
      }
    }
  }

  /**
   * Updating a column never touches the tasks. On a missing id it raises the not-found
   * message and changes nothing; otherwise the first column with that id, and only it, gets
   * the new title, order and `updated_at`, keeping its id, `created_at` and tasks, unless
   * those already held, in which case it raises and changes nothing. The update succeeds
   * exactly when that column exists and the `$set` changes it.
   */
  lemma UpdateColumnEffect(columns: seq<Column>, tasks: seq<Task>, id: int, body: ColumnCreate, now: int)
    ensures var s := UpdateColumnStep(columns, tasks, id, body, now);
      && s.tasks == tasks
      && ((forall k :: 0 <= k < |columns| ==> columns[k].id != Some(id)) ==>
            s.outcome == Raised(ValueError(ColumnNotFound(id))) && s.columns == columns)
      && (s.outcome.Raised? ==> s.columns == columns)
      && (s.outcome.Returned? <==>
            exists i :: 0 <= i < |columns| && columns[i].id == Some(id)
              && (forall k :: 0 <= k < i ==> columns[k].id != Some(id))
              && columns[i].(title := body.title, order := body.order, updatedAt := Some(now)) != columns[i])
      && (s.outcome.Returned? ==>
            exists i :: 0 <= i < |columns| && columns[i].id == Some(id)
              && (forall k :: 0 <= k < i ==> columns[k].id != Some(id))
              && var c := s.columns[i];
              && s.columns == columns[i := c]
              && s.outcome.value == WithMessage(c, ColumnUpdated)
              && c.id == columns[i].id && c.createdAt == columns[i].createdAt && c.tasks == columns[i].tasks
              && c.title == body.title && c.order == body.order && c.updatedAt == Some(now))
  {
    FirstColumnWithId(columns, id);
    var s := UpdateColumnStep(columns, tasks, id, body, now);
    var r := FirstIndex(ColumnIds(columns), Some(id));
    if r.Some? {
      var i := r.value;
      var c := columns[i].(title := body.title, order := body.order, updatedAt := Some(now));
      assert s.outcome.Returned? <==> c != columns[i];
      if s.outcome.Returned? {
        assert s.columns[i].id == columns[i].id;
      }
      forall j | 0 <= j < |columns| && columns[j].id == Some(id) && (forall k :: 0 <= k < j ==> columns[k].id != Some(id))
        ensures j == i
      {
      }
    }
  }

  /** A column is reported unchanged exactly when it already had that title, order and `updated_at`. */
  lemma UpdateColumnNoOp(columns: seq<Column>, tasks: seq<Task>, id: int, body: ColumnCreate, now: int, i: nat)
    requires i < |columns| && columns[i].id == Some(id)
    requires forall k :: 0 <= k < i ==> columns[k].id != Some(id)
    ensures UpdateColumnStep(columns, tasks, id, body, now).outcome == Raised(ValueError(ColumnUpdateFailed))
      <==> columns[i].title == body.title && columns[i].order == body.order && columns[i].updatedAt == Some(now)
  {
    FirstColumnWithId(columns, id);
    assert FirstIndex(ColumnIds(columns), Some(id)) == Some(i);
    assert ColumnNotFound(id) != ColumnUpdateFailed by {
      assert ColumnNotFound(id)[0] == 'C' && ColumnUpdateFailed[0] == 'E';
    }
  }

  /**
   * Deleting a column never touches the tasks. A missing id is reported before any "has
   * tasks" check; a column that still has tasks stays; otherwise exactly the first column
   * with that id is removed and, when ids are unique, none with that id remains.
   */
  lemma DeleteColumnEffect(columns: seq<Column>, tasks: seq<Task>, id: int)
    ensures var s := DeleteColumnStep(columns, tasks, id);
      && s.tasks == tasks
      && ((forall k :: 0 <= k < |columns| ==> columns[k].id != Some(id)) ==>
            s.outcome == Raised(ValueError(ColumnNotFound(id))) && s.columns == columns)
      && ((exists k :: 0 <= k < |columns| && columns[k].id == Some(id)) && HasTasks(tasks, id) ==>
            s.outcome == Raised(ValueError(ColumnHasTasks)) && s.columns == columns)
      && (s.outcome.Raised? ==> s.columns == columns)
      && (s.outcome.Returned? <==> (exists k :: 0 <= k < |columns| && columns[k].id == Some(id)) && !HasTasks(tasks, id))
      && (s.outcome.Returned? ==>
            && s.outcome.value == MessageOnly(ColumnDeleted)
            && exists i :: 0 <= i < |columns| && columns[i].id == Some(id)
                 && (forall k :: 0 <= k < i ==> columns[k].id != Some(id))
                 && s.columns == RemoveAt(columns, i))
      && (s.outcome.Returned? && UniqueColumnIds(columns) ==>
            forall k :: 0 <= k < |s.columns| ==> s.columns[k].id != Some(id))
  {
    FirstColumnWithId(columns, id);
    var s := DeleteColumnStep(columns, tasks, id);
    if s.outcome.Returned? && UniqueColumnIds(columns) {
      var i := FirstIndex(ColumnIds(columns), Some(id)).value;
      forall k | 0 <= k < |s.columns| ensures s.columns[k].id != Some(id) {
        if k >= i {
          assert s.columns[k] == columns[k + 1];
        }
      }
    }
  }

  /** The first task with `id`: where `find_one({"id": id})` and `update_one` land. */
  lemma FirstTaskWithId(tasks: seq<Task>, id: int)
    ensures var r := FirstIndex(TaskIds(tasks), id);
      && (r.None? <==> forall k :: 0 <= k < |tasks| ==> tasks[k].id != id)
      && (r.Some? ==> (r.value < |tasks| && tasks[r.value].id == id
            && forall k :: 0 <= k < r.value ==> tasks[k].id != id))
  {
    var ids := TaskIds(tasks);
    var r := FirstIndex(ids, id);
    if r.None? {
      forall k | 0 <= k < |tasks| ensures tasks[k].id != id {
        assert ids[k] == tasks[k].id;
      }
    } else {
      forall k | 0 <= k < r.value ensures tasks[k].id != id {
        assert ids[..r.value][k] == tasks[k].id;
      }
    }
  }

  /** `Some(id) in ColumnIds(columns)` says some column carries `id`. */
  lemma ColumnIdsMember(columns: seq<Column>, id: int)
    ensures Some(id) in ColumnIds(columns) <==> exists k :: 0 <= k < |columns| && columns[k].id == Some(id)
  {
    if Some(id) in ColumnIds(columns) {
      var k :| 0 <= k < |columns| && ColumnIds(columns)[k] == Some(id);
    }
    if exists k :: 0 <= k < |columns| && columns[k].id == Some(id) {
      var k :| 0 <= k < |columns| && columns[k].id == Some(id);
      assert ColumnIds(columns)[k] == Some(id);
    }
  }

  /**
   * Moving a task never touches the columns. A missing task is reported before a missing
   * column; a task already in the target column raises; otherwise only the first task with
   * that id changes, and only in its `column_id` (its `updated_at` is kept).
   */
  lemma MoveTaskEffect(columns: seq<Column>, tasks: seq<Task>, taskId: int, newColumnId: int)
    ensures var s := MoveTaskStep(columns, tasks, taskId, newColumnId);
      && s.columns == columns
      && ((forall k :: 0 <= k < |tasks| ==> tasks[k].id != taskId) ==>
            s.outcome == Raised(ValueError(TaskNotFound(taskId))))
      && ((exists k :: 0 <= k < |tasks| && tasks[k].id == taskId)
            && (forall k :: 0 <= k < |columns| ==> columns[k].id != Some(newColumnId)) ==>
            s.outcome == Raised(ValueError(ColumnNotFound(newColumnId))))
      && (s.outcome.Raised? ==> s.tasks == tasks)
      && (s.outcome.Returned? ==>
            exists i :: 0 <= i < |tasks| && tasks[i].id == taskId
              && (forall k :: 0 <= k < i ==> tasks[k].id != taskId)
              && tasks[i].columnId != Some(newColumnId)
              && s.tasks == tasks[i := tasks[i].(columnId := Some(newColumnId))]
              && s.outcome.value == WithMessage(s.tasks[i], TaskMoved))
  {
    FirstTaskWithId(tasks, taskId);
    ColumnIdsMember(columns, newColumnId);
  }

  /** A task that exists, into a column that exists, fails only when it is already there. */
  lemma MoveTaskNoOp(columns: seq<Column>, tasks: seq<Task>, taskId: int, newColumnId: int, i: nat)
    requires i < |tasks| && tasks[i].id == taskId
    requires forall k :: 0 <= k < i ==> tasks[k].id != taskId
    requires exists k :: 0 <= k < |columns| && columns[k].id == Some(newColumnId)
    ensures MoveTaskStep(columns, tasks, taskId, newColumnId).outcome.Raised?
      <==> tasks[i].columnId == Some(newColumnId)
  {
    FirstTaskWithId(tasks, taskId);
    ColumnIdsMember(columns, newColumnId);
    assert FirstIndex(TaskIds(tasks), taskId) == Some(i);
  }

  // ---------------------------------------------------------------- the invariants are kept

  lemma CreateColumnKeepsValid(columns: seq<Column>, tasks: seq<Task>, body: ColumnCreate, now: int)
    requires Valid(columns, tasks)
    ensures var s := CreateColumnStep(columns, tasks, body, now); Valid(s.columns, s.tasks)
  {
    var s := CreateColumnStep(columns, tasks, body, now);
    CreateColumnEffect(columns, tasks, body, now);
    if s.outcome.Returned? {
      var c := s.columns[|columns|];
      assert s.columns == columns + [c];
      forall i, j | 0 <= i < j < |s.columns| && s.columns[i].id.Some? ensures s.columns[i].id != s.columns[j].id {
        if j == |columns| {
          assert ColumnIds(columns)[i] == s.columns[i].id;
        }
      }
      forall i | 0 <= i < |tasks| && tasks[i].columnId.Some? ensures tasks[i].columnId in ColumnIds(s.columns) {
        var k :| 0 <= k < |columns| && ColumnIds(columns)[k] == tasks[i].columnId;
        assert ColumnIds(s.columns)[k] == tasks[i].columnId;
      }
    }
  }

  lemma UpdateColumnKeepsValid(columns: seq<Column>, tasks: seq<Task>, id: int, body: ColumnCreate, now: int)
    requires Valid(columns, tasks)
    ensures var s := UpdateColumnStep(columns, tasks, id, body, now); Valid(s.columns, s.tasks)
  {
    var s := UpdateColumnStep(columns, tasks, id, body, now);
    UpdateColumnEffect(columns, tasks, id, body, now);
    if s.outcome.Returned? {
      assert ColumnIds(s.columns) == ColumnIds(columns) by {
        assert forall k :: 0 <= k < |columns| ==> s.columns[k].id == columns[k].id;
      }
    }
  }

  lemma DeleteColumnKeepsValid(columns: seq<Column>, tasks: seq<Task>, id: int)
    requires Valid(columns, tasks)
    ensures var s := DeleteColumnStep(columns, tasks, id); Valid(s.columns, s.tasks)
  {
    var s := DeleteColumnStep(columns, tasks, id);
    DeleteColumnEffect(columns, tasks, id);
    if s.outcome.Returned? {
      var i :| 0 <= i < |columns| && columns[i].id == Some(id)
        && (forall k :: 0 <= k < i ==> columns[k].id != Some(id))
        && s.columns == RemoveAt(columns, i);
      RemoveKeepsUnique(columns, i);
      RemoveKeepsPlaced(columns, tasks, i);
    }
  }

  lemma RemoveKeepsUnique(columns: seq<Column>, i: nat)
    requires i < |columns| && UniqueColumnIds(columns)
    ensures UniqueColumnIds(RemoveAt(columns, i))
  {
    var r := RemoveAt(columns, i);
    forall a, b | 0 <= a < b < |r| && r[a].id.Some? ensures r[a].id != r[b].id {
      var a', b' := if a < i then a else a + 1, if b < i then b else b + 1;
      assert r[a] == columns[a'] && r[b] == columns[b'];
    }
  }

  /** Removing a column that no task names keeps every task placed. */
  lemma RemoveKeepsPlaced(columns: seq<Column>, tasks: seq<Task>, i: nat)
    requires i < |columns| && columns[i].id.Some? && TasksPlaced(columns, tasks)
    requires UniqueColumnIds(columns)
    requires !HasTasks(tasks, columns[i].id.value)
    ensures TasksPlaced(RemoveAt(columns, i), tasks)
  {
    var r := RemoveAt(columns, i);
    forall n | 0 <= n < |tasks| && tasks[n].columnId.Some? ensures tasks[n].columnId in ColumnIds(r) {
      var k :| 0 <= k < |columns| && ColumnIds(columns)[k] == tasks[n].columnId;
      assert tasks[n] in tasks;
      var k' := if k < i then k else k - 1;
      assert ColumnIds(r)[k'] == tasks[n].columnId;
    }
  }

  lemma MoveTaskKeepsValid(columns: seq<Column>, tasks: seq<Task>, taskId: int, newColumnId: int)
    requires Valid(columns, tasks)
    ensures var s := MoveTaskStep(columns, tasks, taskId, newColumnId); Valid(s.columns, s.tasks)
  {
  }
}
