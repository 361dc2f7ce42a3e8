/**
 * The Kanban seed run at application start-up: when the column collection is empty, four
 * columns are inserted. They carry a title, an order and an empty task list, but no `id`, no
 * `created_at` and no `updated_at`, so every service operation that looks a column up by id
 * finds none, and the listing and the id counter raise `KeyError("id")`.
 */
module InitKanban {
  import opened Outcomes
  import opened Records
  import opened Seqs
  import opened Db
  import opened Board
  import KanbanRoutes
  import InitDatabase

  /** The four default columns of `init_kanban_columns`, in insertion order. */
  function KanbanDefaultColumns(): seq<Column>
  {
    [Column(None, "Por Hacer", 1, [], None, None),
     Column(None, "En Progreso", 2, [], None, None),
     Column(None, "En Revisión", 3, [], None, None),
     Column(None, "Completado", 4, [], None, None)]
  }

  /** `init_kanban_columns`: inserts the defaults when the collection holds no column. */
  method InitKanbanColumns(db: Database)
    modifies db`columns
    ensures db.columns == InitDatabase.Seeded(old(db.columns), KanbanDefaultColumns())
  {
    if |db.columns| > 0 {
      return;
    }
    db.columns := db.columns + KanbanDefaultColumns();
  }

  /** A second start-up leaves the columns the first one left. */
  method InitKanbanTwice(db: Database)
    modifies db`columns
    ensures db.columns == InitDatabase.Seeded(old(db.columns), KanbanDefaultColumns())
  {
    InitKanbanColumns(db);
    InitKanbanColumns(db);
  }

  /** A board with columns none of which carries an id. */
  predicate Idless(columns: seq<Column>)
  {
    |columns| > 0 && forall k :: 0 <= k < |columns| ==> columns[k].id.None?
  }

  /** The seeded columns have orders 1 to 4, no tasks and no id. */
  lemma KanbanSeedShape()
    ensures var columns := KanbanDefaultColumns();
      && |columns| == 4 && Idless(columns) && SortedByOrder(columns)
      && forall k :: 0 <= k < 4 ==> columns[k].order == k + 1 && columns[k].tasks == []
  {
  }

  /** On an id-less board no column id is ever found, whatever id is asked for. */
  lemma IdlessFindsNothing(columns: seq<Column>, id: int)
    requires Idless(columns)
    ensures FirstIndex(ColumnIds(columns), Some(id)).None?
    ensures Some(id) !in ColumnIds(columns)
  {
    FirstColumnWithId(columns, id);
  }

  /**
   * On an id-less board creating a column raises `KeyError("id")`, updating and deleting a
   * column raise "not found", and moving an existing task raises "not found" for the target
   * column; nothing changes in any case.
   */
  lemma IdlessRefusesChanges(columns: seq<Column>, tasks: seq<Task>, id: int, body: ColumnCreate, now: int, taskId: int)
    requires Idless(columns)
    ensures CreateColumnStep(columns, tasks, body, now) == Step(Raised(KeyError("id")), columns, tasks)
    ensures UpdateColumnStep(columns, tasks, id, body, now) == Step(Raised(ValueError(ColumnNotFound(id))), columns, tasks)
    ensures DeleteColumnStep(columns, tasks, id) == Step(Raised(ValueError(ColumnNotFound(id))), columns, tasks)
    ensures (exists k :: 0 <= k < |tasks| && tasks[k].id == taskId) ==>
      MoveTaskStep(columns, tasks, taskId, id) == Step(Raised(ValueError(ColumnNotFound(id))), columns, tasks)
  {
    CreateColumnEffect(columns, tasks, body, now);
    IdlessFindsNothing(columns, id);
    FirstTaskWithId(tasks, taskId);
  }

  /** On an id-less board the listing raises `KeyError("id")`. */
  lemma IdlessListingFails(columns: seq<Column>, tasks: seq<Task>)
    requires Idless(columns)
    ensures ListColumns(columns, tasks) == Raised(KeyError("id"))
  {
    var listed := Listed(columns);
    assert listed[0] in multiset(columns);
    var k :| 0 <= k < |columns| && columns[k] == listed[0];
  }

  /** On an id-less board every caller gets 500 with `'id'` from the listing. */
  lemma IdlessListingAnswers(caller: CurrentUser, columns: seq<Column>, tasks: seq<Task>)
    requires Idless(columns)
    ensures KanbanRoutes.GetColumnsRoute(caller, columns, tasks) == Failure(500, "'id'")
  {
    IdlessListingFails(columns, tasks);
    KanbanRoutes.GetColumnsRouteAnswers(caller, columns, tasks);
  }

  /**
   * On an id-less board an admin gets 500 with `'id'` from creating a column, 404 from
   * updating one and 400 from deleting one, and the collections stay as they were.
   */
  lemma IdlessAdminAnswers(caller: CurrentUser, columns: seq<Column>, tasks: seq<Task>, id: int, body: ColumnCreate, now: int)
    requires Idless(columns) && caller.role == "admin"
    ensures KanbanRoutes.CreateColumnRoute(caller, columns, tasks, body, now) == KanbanRoutes.Handled(Failure(500, "'id'"), columns, tasks)
    ensures KanbanRoutes.UpdateColumnRoute(caller, columns, tasks, id, body, now) == KanbanRoutes.Handled(Failure(404, ColumnNotFound(id)), columns, tasks)
    ensures KanbanRoutes.DeleteColumnRoute(caller, columns, tasks, id) == KanbanRoutes.Handled(Failure(400, ColumnNotFound(id)), columns, tasks)
  {
    IdlessRefusesChanges(columns, tasks, id, body, now, 0);
    assert Str(KeyError("id")) == "'id'";
  }

  /** Start-up on an empty collection leaves exactly such a board. */
  lemma SeededBoardIsIdless()
    ensures Idless(InitDatabase.Seeded([], KanbanDefaultColumns()))
  {
    KanbanSeedShape();
  }
}
