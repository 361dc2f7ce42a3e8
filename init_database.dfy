/**
 * The database seed: each collection is filled with its defaults only when it is empty. The
 * clock is read once as `now`; the admin's bcrypt hash and the `_id` the store gives the admin
 * are parameters.
 */
module InitDatabase {
  import opened Outcomes
  import opened Records
  import opened Seqs
  import opened Db
  import Board
  import TaskService
  import Statistics
  import KanbanRoutes

  const SecondsPerDay := 86400

  /** The default administrator: id 1, role "admin", active. */
  function AdminUser(key: string, passwordHash: string, now: int): User
  {
    User(key, 1, "admin", "admin@example.com", "+1234567890", passwordHash, Some("admin"), Some(true), now, now)
  }

  /** The four default columns, ids 1 to 4, each with `order == id` and no tasks. */
  function DefaultColumns(now: int): seq<Column>
  {
    [Column(Some(1), "Por Hacer", 1, [], Some(now), Some(now)),
     Column(Some(2), "En Progreso", 2, [], Some(now), Some(now)),
     Column(Some(3), "En Revisión", 3, [], Some(now), Some(now)),
     Column(Some(4), "Completado", 4, [], Some(now), Some(now))]
  }

  /** The two sample tasks, in columns 1 and 2, created by and assigned to user 1. */
  function SampleTasks(now: int): seq<Task>
  {
    [Task(1, "Configurar el proyecto", "Configurar el entorno de desarrollo y las dependencias",
          "alta", "pendiente", AssigneeNumber(1), now + 7 * SecondsPerDay,
          Some(1), Some(1), None, now, now, None),
     Task(2, "Implementar autenticación", "Implementar el sistema de autenticación con JWT",
          "alta", "en_progreso", AssigneeNumber(1), now + 14 * SecondsPerDay,
          Some(2), Some(1), None, now, now, None)]
  }

  /** A collection after its count-guarded insert: the defaults when empty, untouched otherwise. */
  function Seeded<T>(current: seq<T>, defaults: seq<T>): seq<T>
  {
    if |current| == 0 then defaults else current
  }

  /** `init_database`: three count-guarded inserts, users, then columns, then tasks. */
  method InitDatabase(db: Database, adminKey: string, passwordHash: string, now: int)
    modifies db
    ensures db.users == Seeded(old(db.users), [AdminUser(adminKey, passwordHash, now)])
    ensures db.columns == Seeded(old(db.columns), DefaultColumns(now))
    ensures db.tasks == Seeded(old(db.tasks), SampleTasks(now))
  {
    if |db.users| == 0 {
      db.users := db.users + [AdminUser(adminKey, passwordHash, now)];
    }
    if |db.columns| == 0 {
      db.columns := db.columns + DefaultColumns(now);
    }
    if |db.tasks| == 0 {
      db.tasks := db.tasks + SampleTasks(now);
    }
  }

  /** A second run, at any time and with any hash, changes nothing. */
  lemma SeedingIsIdempotent<T>(current: seq<T>, first: seq<T>, second: seq<T>)
    requires |first| > 0
    ensures Seeded(Seeded(current, first), second) == Seeded(current, first)
    ensures |current| > 0 ==> Seeded(current, second) == current
  {
  }

  /** Running `init_database` twice leaves what the first run left. */
  method InitDatabaseTwice(db: Database, adminKey: string, passwordHash: string, now: int, later: int)
    modifies db
    ensures db.users == Seeded(old(db.users), [AdminUser(adminKey, passwordHash, now)])
    ensures db.columns == Seeded(old(db.columns), DefaultColumns(now))
    ensures db.tasks == Seeded(old(db.tasks), SampleTasks(now))
  {
    InitDatabase(db, adminKey, passwordHash, now);
    InitDatabase(db, adminKey, passwordHash, later);
  }

  /** The seeded board is valid: column ids are unique and each sample task names a seeded column. */
  lemma SeededBoardValid(now: int)
    ensures Board.Valid(DefaultColumns(now), SampleTasks(now))
  {
    var columns, tasks := DefaultColumns(now), SampleTasks(now);
    assert ColumnIds(columns)[0] == tasks[0].columnId && ColumnIds(columns)[1] == tasks[1].columnId;
  }

  /** The sample task ids are distinct, so the seeded task table is valid too. */
  lemma SeededTasksValid(now: int)
    ensures TaskService.Valid(DefaultColumns(now), SampleTasks(now))
  {
    SeededBoardValid(now);
    assert TaskIds(SampleTasks(now)) == [1, 2];
  }

  /** Four columns numbered 1 to 4 in order leave 5 as the next column id. */
  lemma NumberedColumnsNextId(columns: seq<Column>)
    requires |columns| == 4 && forall k :: 0 <= k < 4 ==> columns[k].id == Some(k + 1)
    ensures Board.NextColumnId(columns) == Returned(5)
  {
    var next := Board.NextColumnId(columns);
    assert columns[0].id.Some?;
    NumberedColumnsBound(columns, next.value);
  }

  /** Above ids 1 to 4 and one more than one of them: the bound is 5. */
  lemma NumberedColumnsBound(columns: seq<Column>, next: int)
    requires |columns| == 4 && forall k :: 0 <= k < 4 ==> columns[k].id == Some(k + 1)
    requires forall k :: 0 <= k < |columns| && columns[k].id.Some? ==> columns[k].id.value < next
    requires Some(next - 1) in ColumnIds(columns)
    ensures next == 5
  {
    assert columns[3].id.value < next;
    var k :| 0 <= k < |columns| && ColumnIds(columns)[k] == Some(next - 1);
    assert ColumnIds(columns)[k] == columns[k].id;
  }

  /** After seeding, the next column id is 5. */
  lemma SeededNextColumnId(now: int)
    ensures Board.NextColumnId(DefaultColumns(now)) == Returned(5)
  {
    NumberedColumnsNextId(DefaultColumns(now));
  }

  /** After seeding, the next task id is 3. */
  lemma SeededNextTaskId(now: int)
    ensures NextId(TaskIds(SampleTasks(now))) == 3
  {
    var ids := TaskIds(SampleTasks(now));
    assert ids == [1, 2];
    assert ids[1] < NextId(ids);
  }

  /** The seeded admin is seeded as such: id 1, role "admin", `is_active` true. */
  lemma AdminIsAdmin(key: string, passwordHash: string, now: int)
    ensures var u := AdminUser(key, passwordHash, now);
      u.id == 1 && u.role == Some("admin") && u.isActive == Some(true) && u.createdAt == u.updatedAt
  {
  }

  /** The sample tasks carry the Spanish labels the statistics count: one "pendiente", one "en_progreso", both "alta". */
  lemma SampleTasksCounted(now: int)
    ensures Statistics.Count(SampleTasks(now), Statistics.PriorityField, Statistics.Alta) == 2
    ensures Statistics.Count(SampleTasks(now), Statistics.StatusField, Statistics.Pendiente) == 1
    ensures Statistics.Count(SampleTasks(now), Statistics.StatusField, Statistics.EnProgreso) == 1
  {
    var tasks := SampleTasks(now);
    assert tasks[1..] == [tasks[1]] && tasks[1..][1..] == [];
  }

  /**
   * On the store seeded from empty collections, listing the board answers a bare 500 to
   * every caller: the sample tasks carry "alta" and a numeric `assigned_to`, which the task
   * model of the listing's `response_model` refuses.
   */
  lemma SeededListingAnswers(caller: CurrentUser, now: int)
    ensures KanbanRoutes.GetColumnsRoute(caller, Seeded([], DefaultColumns(now)), Seeded([], SampleTasks(now)))
      == Failure(500, KanbanRoutes.ResponseInvalid)
  {
    var columns, tasks := DefaultColumns(now), SampleTasks(now);
    forall k | 0 <= k < |columns| ensures columns[k].id.Some? {
    }
    assert tasks[0].columnId == columns[0].id;
    KanbanRoutes.UnshowableTaskFails(caller, columns, tasks, 0, 0);
  }
}
