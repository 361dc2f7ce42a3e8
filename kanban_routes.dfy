/**
 * The Kanban routes: the admin gate of the three column-changing handlers and the mapping of
 * what the service raises to a status. The gate raises its 403 inside the handler's `try`,
 * so it reaches the caller through the `except HTTPException: raise` clause.
 */
module KanbanRoutes {
  import opened Outcomes
  import opened Records
  import opened Board

  const Admin := "admin"
  const CreateForbidden := "Solo los administradores pueden crear columnas"
  const UpdateForbidden := "Solo los administradores pueden actualizar columnas"
  const DeleteForbidden := "Solo los administradores pueden eliminar columnas"

  /**
   * The `except` clauses of a handler: an `HTTPException` is re-raised as it is, a
   * `ValueError` takes `valueErrorStatus` when the handler has such a clause, and anything
   * else becomes 500 with `str(e)` as detail. A returned value is sent with `okStatus`.
   * In Python a Pydantic `ValidationError` is a `ValueError`; no Kanban service raises one,
   * so the separate constructor here never meets a handler's `except ValueError` clause.
   */
  function Respond<T>(valueErrorStatus: Option<int>, okStatus: int, o: Outcome<T>): (r: Response<T>)
    ensures o.Returned? <==> r.Success?
    ensures o.Returned? ==> r == Success(okStatus, o.value)
    ensures o.Raised? && o.error.HttpException? ==> r == Failure(o.error.status, o.error.detail)
    ensures o.Raised? && o.error.ValueError? && valueErrorStatus.Some? ==> r == Failure(valueErrorStatus.value, o.error.message)
    ensures o.Raised? && (o.error.KeyError? || (o.error.ValueError? && valueErrorStatus.None?)) ==> r == Failure(500, Str(o.error))
    ensures o.Raised? && !o.error.HttpException? && !o.error.ValueError? ==> r == Failure(500, Str(o.error))
  {
    match o
    case Returned(v) => Success(okStatus, v)
    case Raised(HttpException(status, detail)) => Failure(status, detail)
    case Raised(ValueError(message)) =>
      if valueErrorStatus.Some? then Failure(valueErrorStatus.value, message) else Failure(500, Str(o.error))
    case Raised(e) => Failure(500, Str(e))
  }

  /** A handler's answer with the column and task collections after it. */
  datatype Handled<T> = Handled(response: Response<T>, columns: seq<Column>, tasks: seq<Task>)

  /** What an admin-only handler does: a non-admin's request raises 403 before the service runs. */
  function Gated<T>(caller: CurrentUser, forbidden: string, valueErrorStatus: Option<int>, okStatus: int, s: Step<T>,
                    columns: seq<Column>, tasks: seq<Task>): Handled<T>
  {
    if caller.role != Admin then Handled(Respond(valueErrorStatus, okStatus, Raised(HttpException(403, forbidden))), columns, tasks)
    else Handled(Respond(valueErrorStatus, okStatus, s.outcome), s.columns, s.tasks)
  }

  /** What the server answers when a handler's result fails its `response_model`. */
  const ResponseInvalid := "Internal Server Error"

  /**
   * Whether a listed task passes the task model of the listing's `response_model`:
   * `priority` and `status` must be labels of the two enums, and `assigned_to` a string.
   */
  predicate ShowableTask(t: Task)
  {
    && t.priority in {Priority.Low.Label(), Priority.Medium.Label(), Priority.High.Label()}
    && t.status in {Status.Pending.Label(), Status.InProgress.Label(), Status.Completed.Label()}
    && t.assignedTo.AssigneeText?
  }

  /** Whether every task shown in a listing passes the task model. */
  predicate ShowableListing(cols: seq<Column>)
  {
    forall k, j :: 0 <= k < |cols| && 0 <= j < |cols[k].tasks| ==> ShowableTask(cols[k].tasks[j])
  }

  /**
   * `GET /kanban/columns`: any authenticated caller; errors become 500. A listing that
   * comes back is then validated against `list[KanbanColumn]`, outside the handler's `try`,
   * and a task that fails it turns the answer into a bare 500.
   */
  function GetColumnsRoute(caller: CurrentUser, columns: seq<Column>, tasks: seq<Task>): Response<seq<Column>>
  {
    ListingResponse(ListColumns(columns, tasks))
  }

  /** The handler's answer for a listing outcome, then the `response_model` check. */
  function ListingResponse(o: Outcome<seq<Column>>): Response<seq<Column>>
  {
    var r := Respond(None, 200, o);
    if r.Success? && !ShowableListing(r.body) then Failure(500, ResponseInvalid) else r
  }

  /** `POST /kanban/columns`: admins only, 201 on success, every service error 500. */
  function CreateColumnRoute(caller: CurrentUser, columns: seq<Column>, tasks: seq<Task>, body: ColumnCreate, now: int): Handled<Reply<Column>>
  {
    Gated(caller, CreateForbidden, None, 201, CreateColumnStep(columns, tasks, body, now), columns, tasks)
  }

  /** `PUT /kanban/columns/{column_id}`: admins only, `ValueError` is 404. */
  function UpdateColumnRoute(caller: CurrentUser, columns: seq<Column>, tasks: seq<Task>, id: int, body: ColumnCreate, now: int): Handled<Reply<Column>>
  {
    Gated(caller, UpdateForbidden, Some(404), 200, UpdateColumnStep(columns, tasks, id, body, now), columns, tasks)
  }

  /** `DELETE /kanban/columns/{column_id}`: admins only, `ValueError` is 400. */
  function DeleteColumnRoute(caller: CurrentUser, columns: seq<Column>, tasks: seq<Task>, id: int): Handled<Reply<Column>>
  {
    Gated(caller, DeleteForbidden, Some(400), 200, DeleteColumnStep(columns, tasks, id), columns, tasks)
  }

  /** `POST /kanban/tasks/{task_id}/move`: any authenticated caller, `ValueError` is 404. */
  function MoveTaskRoute(caller: CurrentUser, columns: seq<Column>, tasks: seq<Task>, taskId: int, newColumnId: int): Handled<Reply<Task>>
  {
    var s := MoveTaskStep(columns, tasks, taskId, newColumnId);
    Handled(Respond(Some(404), 200, s.outcome), s.columns, s.tasks)
  }

  // ---------------------------------------------------------------- what the routes answer

  /** A non-admin gets 403 from each column-changing route and nothing changes. */
  lemma NonAdminForbidden(caller: CurrentUser, columns: seq<Column>, tasks: seq<Task>, id: int, body: ColumnCreate, now: int)
    requires caller.role != "admin"
    ensures CreateColumnRoute(caller, columns, tasks, body, now) == Handled(Failure(403, CreateForbidden), columns, tasks)
    ensures UpdateColumnRoute(caller, columns, tasks, id, body, now) == Handled(Failure(403, UpdateForbidden), columns, tasks)
    ensures DeleteColumnRoute(caller, columns, tasks, id) == Handled(Failure(403, DeleteForbidden), columns, tasks)
  {
  }

  /**
   * For an admin, creating a column answers 201 with the new column, or 500 with `'id'`
   * when columns exist and none has an id; the collections are what the service leaves.
   */
  lemma CreateColumnRouteAnswers(caller: CurrentUser, columns: seq<Column>, tasks: seq<Task>, body: ColumnCreate, now: int)
    requires caller.role == "admin"
    ensures var h := CreateColumnRoute(caller, columns, tasks, body, now);
      var s := CreateColumnStep(columns, tasks, body, now);
      && h.columns == s.columns && h.tasks == tasks
      && (h.response.Success? ==> h.response.status == 201 && h.response.body == s.outcome.value)
      && (h.response.Failure? <==> |columns| > 0 && forall k :: 0 <= k < |columns| ==> columns[k].id.None?)
      && (h.response.Failure? ==> h.response == Failure(500, "'id'"))
  {
    CreateColumnEffect(columns, tasks, body, now);
  }

  /**
   * For an admin, updating a column answers 200 with the updated column exactly when that
   * column exists and the `$set` changes it, or 404 with the
   * not-found message for a missing id and with "Error al actualizar la columna" for a no-op;
   * a failure leaves both collections as they were.
   */
  lemma UpdateColumnRouteAnswers(caller: CurrentUser, columns: seq<Column>, tasks: seq<Task>, id: int, body: ColumnCreate, now: int)
    requires caller.role == "admin"
    ensures var h := UpdateColumnRoute(caller, columns, tasks, id, body, now);
      var s := UpdateColumnStep(columns, tasks, id, body, now);
      && (h.response.Success? <==>
            exists i :: 0 <= i < |columns| && columns[i].id == Some(id)
              && (forall k :: 0 <= k < i ==> columns[k].id != Some(id))
              && columns[i].(title := body.title, order := body.order, updatedAt := Some(now)) != columns[i])
      && (h.response.Success? ==> h.response.status == 200 && h.response.body == s.outcome.value && h.columns == s.columns)
      && (h.response.Failure? ==> (h.response.status == 404 && h.columns == columns && h.tasks == tasks
            && (h.response.detail == ColumnNotFound(id) || h.response.detail == ColumnUpdateFailed)))
      && ((forall k :: 0 <= k < |columns| ==> columns[k].id != Some(id)) ==>
            h.response == Failure(404, ColumnNotFound(id)))
  {
    UpdateColumnEffect(columns, tasks, id, body, now);
  }

  /**
   * For an admin, deleting a column answers 200, or 400 both for a missing column and for a
   * column that still has tasks; a failure leaves both collections as they were.
   */
  lemma DeleteColumnRouteAnswers(caller: CurrentUser, columns: seq<Column>, tasks: seq<Task>, id: int)
    requires caller.role == "admin"
    ensures var h := DeleteColumnRoute(caller, columns, tasks, id);
      && (h.response.Success? ==> h.response == Success(200, MessageOnly(ColumnDeleted)))
      && (h.response.Failure? ==> h.response.status == 400 && h.columns == columns && h.tasks == tasks)
      && ((forall k :: 0 <= k < |columns| ==> columns[k].id != Some(id)) ==>
            h.response == Failure(400, ColumnNotFound(id)))
      && ((exists k :: 0 <= k < |columns| && columns[k].id == Some(id)) && HasTasks(tasks, id) ==>
            h.response == Failure(400, ColumnHasTasks))
  {
    DeleteColumnEffect(columns, tasks, id);
  }

  /** Whoever asks, moving a task answers 200 or 404, and a 404 leaves both collections as they were. */
  lemma MoveTaskRouteAnswers(caller: CurrentUser, columns: seq<Column>, tasks: seq<Task>, taskId: int, newColumnId: int)
    ensures var h := MoveTaskRoute(caller, columns, tasks, taskId, newColumnId);
      && (h.response.Success? ==> h.response.status == 200)
      && (h.response.Failure? ==> h.response.status == 404 && h.columns == columns && h.tasks == tasks)
      && ((forall k :: 0 <= k < |tasks| ==> tasks[k].id != taskId) ==>
            h.response == Failure(404, TaskNotFound(taskId)))
  {
    MoveTaskEffect(columns, tasks, taskId, newColumnId);
  }

  /** Whether every task a listing would show under `listed` passes the task model. */
  predicate ShowableTasksOf(listed: seq<Column>, tasks: seq<Task>)
  {
    forall k, t :: 0 <= k < |listed| && listed[k].id.Some? && t in ColumnTasks(tasks, listed[k].id.value) ==> ShowableTask(t)
  }

  /** A joined listing passes validation exactly when the tasks it shows for its columns do. */
  lemma JoinedShowable(listed: seq<Column>, tasks: seq<Task>)
    requires JoinTasks(listed, tasks).Returned?
    ensures ShowableListing(JoinTasks(listed, tasks).value) <==> ShowableTasksOf(listed, tasks)
  {
    var cols := JoinTasks(listed, tasks).value;
    if ShowableListing(cols) {
      forall k, t | 0 <= k < |listed| && listed[k].id.Some? && t in ColumnTasks(tasks, listed[k].id.value)
        ensures ShowableTask(t)
      {
        assert cols[k].tasks == ColumnTasks(tasks, listed[k].id.value);
        var j :| 0 <= j < |cols[k].tasks| && cols[k].tasks[j] == t;
      }
    } else {
      var k, j :| 0 <= k < |cols| && 0 <= j < |cols[k].tasks| && !ShowableTask(cols[k].tasks[j]);
      assert cols[k].tasks[j] in ColumnTasks(tasks, listed[k].id.value);
    }
  }

  /** What the listing route answers for the columns `listed`, joined with `tasks`. */
  lemma JoinedAnswers(listed: seq<Column>, tasks: seq<Task>)
    ensures var r := ListingResponse(JoinTasks(listed, tasks));
      var idless := exists k :: 0 <= k < |listed| && listed[k].id.None?;
      && (r.Success? <==> !idless && ShowableTasksOf(listed, tasks))
      && (r.Success? ==> r.status == 200 && Returned(r.body) == JoinTasks(listed, tasks))
      && (idless ==> r == Failure(500, "'id'"))
      && (!idless && !ShowableTasksOf(listed, tasks) ==> r == Failure(500, ResponseInvalid))
  {
    var o := JoinTasks(listed, tasks);
    if o.Raised? {
      assert o.error == KeyError("id");
      assert Str(o.error) == "'id'";
    } else {
      JoinedShowable(listed, tasks);
    }
  }

  /**
   * Whoever asks, listing answers 200 with the joined listing exactly when every listed
   * column has an id and every task shown passes the task model; 500 with `'id'` when a
   * listed column lacks an id; otherwise a bare 500.
   */
  lemma GetColumnsRouteAnswers(caller: CurrentUser, columns: seq<Column>, tasks: seq<Task>)
    ensures var r := GetColumnsRoute(caller, columns, tasks);
      var listed := Listed(columns);
      var idless := exists k :: 0 <= k < |listed| && listed[k].id.None?;
      && (r.Success? <==> !idless && ShowableTasksOf(listed, tasks))
      && (r.Success? ==> r.status == 200 && Returned(r.body) == ListColumns(columns, tasks))
      && (idless ==> r == Failure(500, "'id'"))
      && (!idless && !ShowableTasksOf(listed, tasks) ==> r == Failure(500, ResponseInvalid))
  {
    JoinedAnswers(Listed(columns), tasks);
  }

  /**
   * On a board of at most 100 columns that all carry ids, one task that fails the task model
   * and sits in a column with at most 100 tasks makes the listing a bare 500.
   */
  lemma UnshowableTaskFails(caller: CurrentUser, columns: seq<Column>, tasks: seq<Task>, c: nat, t: nat)
    requires |columns| <= 100 && forall k :: 0 <= k < |columns| ==> columns[k].id.Some?
    requires c < |columns| && t < |tasks| && tasks[t].columnId == columns[c].id
    requires |TasksIn(tasks, columns[c].id.value)| <= 100
    requires !ShowableTask(tasks[t])
    ensures GetColumnsRoute(caller, columns, tasks) == Failure(500, ResponseInvalid)
  {
    var listed := Listed(columns);
    var id := columns[c].id.value;
    assert !exists k :: 0 <= k < |listed| && listed[k].id.None? by {
      forall k | 0 <= k < |listed| ensures listed[k].id.Some? {
        assert listed[k] in multiset(columns);
      }
    }
    assert columns[c] in multiset(listed);
    var k :| 0 <= k < |listed| && listed[k] == columns[c];
    assert tasks[t] in ColumnTasks(tasks, id);
    assert !ShowableTasksOf(listed, tasks);
    GetColumnsRouteAnswers(caller, columns, tasks);
  }
}
