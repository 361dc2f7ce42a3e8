# Task backend core, modelled in Dafny

This project models the logic of a FastAPI/MongoDB task-management backend. It covers:

- the per-user **statistics aggregator**;
- the **Kanban board service** (column ids, an ordered listing joined with tasks, column
  create/update/delete, task moves);
- the **task and user services**;
- the **access and error-mapping rules** of the Kanban and statistics routes;
- the two **seed scripts**.

The document store is one `Db.Database` object whose `users`, `tasks` and `columns` fields are
sequences in natural (insertion) order. `find_one({"id": x})`, `update_one` and `delete_one`
act on the first document with that id. An update that `$set`s the values a document already
holds reports `modified_count == 0`; the model treats that as a failed update.

Modules, in dependency order:

- `Text`: the decimal strings of integers, used for `str(id)`.
- `Outcomes`: `Option`, the raised exceptions (`ValueError`, `KeyError`, `HTTPException`) with
  their `str(e)`, `Outcome` (returned or raised) and an HTTP `Response`.
- `Seqs`: first index, maximum and the shared "max id + 1, or 1" numbering rule, a page cut
  (`to_list(length=n)`), distinct ids, removal at an index, and list comprehension.
- `Records`: the documents: tasks, columns, users, the request bodies, the token's principal and
  the service replies.
- `Db`: the store.
- `Statistics`: the aggregator as a pure record function `StatisticsOf`. Beside it is the method
  `CalculateUserStatistics`, whose `while true` streak loop is proved to compute that record.
- `Board`: the Kanban logic as pure steps. Each step gives the outcome and the column and task
  collections after it. The module also holds the two board invariants: unique column ids, and
  every placed task naming an existing column.
- `KanbanService`: the service methods over the store. Each is proved to perform its `Board`
  step.
- `TaskService`, `UserService`: the CRUD methods over the store.
- `KanbanRoutes`, `StatisticsRoutes`: the handlers as functions from the caller, the store and
  the service outcome to a status and a body.
- `InitDatabase`, `InitKanban`: the count-guarded seeds.

Timestamps are whole seconds; a calendar day is `t / 86400`. The clock is read once per
operation and passed in as `now` (and `today` for the streak). Ratios are exact `real`s.

Notes on what the code does:

- `move_task` sets only `column_id`; it does not refresh `updated_at`.
- Moving a task into the column it is already in is a failed update, so it raises "Error al
  mover la tarea" (404 at the route). It is not an allowed no-op.
- Users' email and username are not checked for uniqueness. `create_user` stores the password
  as given and writes no `role` and no `is_active`.
- `delete_column` raises a `ValueError` for a missing column too, with its own message, so that
  case is also a 400.
- The score's comment says 0–100 (`services/statistics_service.py:63`). With the code's weights
  it never exceeds 80.
- The statistics count Spanish labels ("completada", "alta", …), while tasks stored through the
  API carry the English enum values. Such tasks fall into no bucket.
- The statistics select tasks by a `user_id` field, which no writer in the model sets.
- `calculate_user_statistics` first calls `ObjectId(user_id)`, which raises unless `user_id` is
  24 hex digits. It ends by building `UserStatistics(user_id=user_id, ...)`, whose `user_id`
  field is an `int` (`models/model_statistics.py:6`). That raises unless the 24 digits are all
  decimal. Neither statistics route catches these exceptions, so each answers a bare 500:
  - a non-admin asking for their own record passes the guard only with `str(id)`, and for any
    id below 10^23 that string is refused;
  - the `/all` batch fails as soon as one user's `str(_id)` contains a hex letter.
- Application start-up runs only `init_kanban_columns`, whose columns have no `id`. On such a
  board the listing and column creation raise `KeyError("id")` (500 `'id'`). Update, delete and
  move all answer "not found".
- The listing route declares `response_model=list[KanbanColumn]`, and the columns' tasks must
  pass the task model: English enum labels and a string `assigned_to`. The sample tasks of
  `init_database` carry "alta", "pendiente"/"en_progreso" and a numeric `assigned_to`, so on
  that seeded board every listing answers a bare 500.

## Model

| member | source | states |
|---|---|---|
| Seqs.NextId | services/service_task.py:11-16 | 1 for an empty table; otherwise one more than an existing id, above every id, so it is fresh |
| Board.NextColumnId | services/service_kanban.py:16-21 | 1 with no columns; `KeyError("id")` exactly when columns exist and none has an id; otherwise one more than a present id, above all of them and not in use |
| Board.InsertByOrder | services/service_kanban.py:29 | inserting into a list sorted by `order` keeps it sorted and adds exactly that column (multiset) |
| Board.SortByOrder | services/service_kanban.py:29 | the `sort("order", 1)` result is sorted and a permutation of the columns |
| Board.Listed | services/service_kanban.py:29 | at most 100 columns, sorted, drawn from the stored ones (all of them when there are at most 100); no column left out has a smaller `order` than a listed one |
| Board.TasksIn | services/service_kanban.py:33 | exactly the stored tasks whose `column_id` is the column's id |
| Board.ColumnTasks | services/service_kanban.py:33-34 | at most 100 tasks, each a stored task of that column, and all of them when it has at most 100 |
| Board.JoinTasks | services/service_kanban.py:32-37 | raises `KeyError("id")` exactly when a listed column lacks an id; otherwise each listed column, in order, with its own tasks |
| Board.ListingOrderedAndJoined | services/service_kanban.py:26-37 | a returned listing has at most 100 columns, in non-decreasing order, and every shown task is a stored task of its column |
| KanbanService.GetColumns | services/service_kanban.py:26-37 | the method returns the listing `Board.ListColumns` defines and changes nothing |
| KanbanService.JoinedColumns | services/service_kanban.py:32-37 | the per-column loop computes `Board.JoinTasks`, stopping at the first column without an id |
| Board.CreateColumnEffect | services/service_kanban.py:42-59 | tasks untouched; fails (`KeyError("id")`, nothing changed) exactly when columns exist and none has an id; otherwise appends exactly one column with a fresh id, the body's title and order, no tasks and `created_at == updated_at`; no duplicate check on title or order |
| KanbanService.CreateColumn | services/service_kanban.py:42-59 | the method performs `Board.CreateColumnStep` on the store |
| Board.FirstColumnWithId | services/service_kanban.py:70 | the first-match index is absent exactly when no column has the id, and otherwise names the first column carrying it |
| Board.UpdateColumnEffect | services/service_kanban.py:67-87 | tasks untouched; a missing id raises the not-found message and changes nothing; success exactly when the first column with that id exists and the `$set` changes it; a success changes only that column: new title, order and `updated_at`, same id, `created_at` and tasks |
| Board.UpdateColumnNoOp | services/service_kanban.py:83-87 | the update fails with "Error al actualizar la columna" exactly when the column already had that title, order and `updated_at` |
| KanbanService.UpdateColumn | services/service_kanban.py:67-87 | the method performs `Board.UpdateColumnStep` on the store |
| Board.DeleteColumnEffect | services/service_kanban.py:95-112 | tasks untouched; the not-found check comes before the has-tasks check; a column with tasks stays; success exactly when the column exists and has no tasks, and then only the first column with that id is removed (none with that id remains when ids are unique) |
| KanbanService.DeleteColumn | services/service_kanban.py:95-112 | the method performs `Board.DeleteColumnStep` on the store |
| Board.FirstTaskWithId | services/service_kanban.py:123 | the first-match index is absent exactly when no task has the id, and otherwise names the first task carrying it |
| Board.ColumnIdsMember | services/service_kanban.py:128-130 | the target-column lookup succeeds exactly when some column carries that id |
| Board.MoveTaskEffect | services/service_kanban.py:120-143 | columns untouched; a missing task is reported before a missing column; failures change nothing; a success changes only that task's `column_id`, keeping `updated_at` |
| Board.MoveTaskNoOp | services/service_kanban.py:134-143 | an existing task moved to an existing column fails exactly when it already sits there |
| KanbanService.MoveTask | services/service_kanban.py:120-143 | the method performs `Board.MoveTaskStep` on the store |
| Board.CreateColumnKeepsValid | services/service_kanban.py:42-59 | creating a column preserves unique column ids and placed tasks |
| Board.UpdateColumnKeepsValid | services/service_kanban.py:67-87 | updating a column preserves both board invariants |
| Board.DeleteColumnKeepsValid | services/service_kanban.py:95-112 | the has-tasks guard makes deletion preserve both board invariants |
| Board.MoveTaskKeepsValid | services/service_kanban.py:120-143 | moving a task only into an existing column preserves both board invariants |
| TaskService.GetTasks | services/service_task.py:18-20 | the first 100 tasks (all of them when fewer) in store order |
| TaskService.CreateTask | services/service_task.py:22-34 | appends exactly one task with the next id, the body's fields, `created_at == updated_at == now` and no column, creator or owner; answers it with "Task created successfully" |
| TaskService.GetTask | services/service_task.py:36-40 | "Task not found" exactly when no task has the id; otherwise the first task with it; changes nothing |
| TaskService.UpdateTaskEffect | services/service_task.py:42-55 | success exactly when a task has the id and the `$set` changes the first such task; then only that task is replaced by its patched form (the body's fields and `updated_at`, same id and `created_at`), which is the reply; otherwise "Failed to update task" and nothing changed |
| TaskService.UpdateTask | services/service_task.py:42-55 | the method performs `TaskService.UpdateTaskStep` on the store |
| TaskService.DeleteTask | services/service_task.py:57-61 | "Failed to delete task" and nothing changed exactly when no task has the id; otherwise only the first matching task is removed |
| TaskService.CreateKeepsValid | services/service_task.py:22-34 | a created task keeps task ids distinct and every placed task in an existing column |
| TaskService.UpdateKeepsValid | services/service_task.py:42-55 | an update keeps id, `created_at` and `column_id`, hence validity |
| TaskService.DeleteKeepsValid | services/service_task.py:57-61 | a deletion keeps task ids distinct and tasks placed |
| TaskService.SequentialNumbering | services/service_task.py:11-34 | three creates on an empty table are numbered 1, 2, 3 |
| UserService.FirstUserWithId | services/service_user.py:60 | the first-match index is absent exactly when no user has the id, and otherwise names the first user carrying it |
| UserService.GetUsers | services/service_user.py:26-34 | the first 100 users (all of them when fewer) in store order |
| UserService.CreateUser | services/service_user.py:36-55 | appends exactly one user with the next id, the body's fields as given, `created_at == updated_at == now`, no role and no `is_active`; answers "User created successfully" |
| UserService.GetUser | services/service_user.py:57-68 | "User not found" exactly when no user has the id; otherwise the first user with it; changes nothing |
| UserService.UpdateUserEffect | services/service_user.py:70-89 | success exactly when a user has the id and the `$set` changes the first such user; then only that user is replaced by its patched form (username, email, phone, password and `updated_at`), which is the reply; otherwise "Failed to update user" and nothing changed |
| UserService.UpdateUser | services/service_user.py:70-89 | the method performs `UserService.UpdateUserStep` on the store |
| UserService.DeleteUser | services/service_user.py:91-102 | "User not found" and nothing changed exactly when no user has the id; otherwise only the first matching user is removed |
| UserService.CreateKeepsIdsDistinct | services/service_user.py:36-55 | a created user gets an id no user had |
| UserService.UpdateKeepsIdsDistinct | services/service_user.py:70-89 | an update keeps id, `created_at`, `role` and `is_active`, so ids stay distinct |
| UserService.DeleteKeepsIdsDistinct | services/service_user.py:91-102 | a deletion keeps user ids distinct |
| UserService.DuplicateEmailsAccepted | services/service_user.py:36-55 | two creates with the same email and username both succeed, with ids 1 and 2 |
| Statistics.UserTasks | services/statistics_service.py:14 | exactly the stored tasks filed under the user's key |
| Statistics.Count | services/statistics_service.py:18 | at most the number of tasks; 0 exactly when no task carries the label; the total exactly when all do |
| Statistics.CountAppend | services/statistics_service.py:18 | the count over a concatenation is the sum of the counts, and one task counts 1 exactly when it carries the label, which fixes the count of every list |
| Statistics.ThreeBucketsBounded | services/statistics_service.py:36-47 | three different labels never count a task twice, so a bucket map sums to at most the total |
| Statistics.Buckets | services/statistics_service.py:36-47 | each bucket map has exactly its three labels as keys, zero counts included |
| Statistics.Durations | services/statistics_service.py:22-30 | at most one entry per task, each the completion time in seconds of some completed task with `completed_at`; empty exactly when there is none |
| Statistics.DurationsAppend | services/statistics_service.py:22-30 | the durations of a concatenation are those of its parts, in order |
| Statistics.DurationsOfOne | services/statistics_service.py:22-30 | one task contributes its completion time exactly when it is completed with `completed_at`, so there is one entry per such task |
| Statistics.SumAppend | services/statistics_service.py:27-30 | the total time of a concatenation is the sum of the parts' totals |
| Statistics.HoursTimesCount | services/statistics_service.py:31 | the mean in hours, times 3600 and the number of timed tasks, is their total time in seconds |
| Statistics.LastActivity | services/statistics_service.py:50 | `now` with no tasks; otherwise at least every `updated_at` and equal to one of them |
| Statistics.StreakWindow | services/statistics_service.py:53-61 | every day of the streak had an update, the day before it had none, and the streak is bounded by the tasks updated by then |
| Statistics.StreakIsWindow | services/statistics_service.py:53-61 | an active window of `k` days preceded by an inactive day is the streak |
| Statistics.StreakCharacterized | services/statistics_service.py:53-61 | streak `== k` exactly when days `today-k+1..today` were active and `today-k` was not; the streak is at most the number of tasks |
| Statistics.ScoreClosedForm | services/statistics_service.py:64-67 | the weighted score equals `(60·completed + 20·alta + 12·media + 8·baja) / total` |
| Statistics.ScoreRange | services/statistics_service.py:64-69 | with consistent counts the score lies in [0, 80] |
| Statistics.StatisticsCounts | services/statistics_service.py:17-19 | the record carries the user id; completed + pending == total; completed equals the "completada" bucket |
| Statistics.StatisticsBuckets | services/statistics_service.py:36-47 | both maps have all three keys and each sums to at most the total |
| Statistics.NoTasksStatistics | services/statistics_service.py:26-69 | with no tasks every count is 0, the mean is 0.0, both maps are zero-filled, the last activity is `now`, the streak is 0 and the score 0.0 |
| Statistics.StatisticsAverage | services/statistics_service.py:22-33 | the mean is 0.0 when no completed task has `completed_at`; otherwise, when each such time lies in [lo, hi] seconds, the mean lies in [lo/3600, hi/3600] hours |
| Statistics.StatisticsMean | services/statistics_service.py:21-33 | the record's mean is 0.0 exactly when no completed task has `completed_at`, and otherwise their total time over their number, over 3600 |
| Statistics.MeanExample | services/statistics_service.py:21-33 | two completed tasks that took one and two hours give a mean of 1.5 hours |
| Statistics.StatisticsStreak | services/statistics_service.py:53-61 | the record's streak is `k` exactly for the active window of length `k` ending today, and at most the total |
| Statistics.StatisticsScore | services/statistics_service.py:64-69 | the record's score is 0.0 without tasks and always in [0, 80] |
| Statistics.ApiLabelledTasksCountNothing | services/statistics_service.py:18-47 | tasks carrying the English enum labels fall into no bucket: nothing completed, all buckets 0, mean 0.0, score 0.0 |
| Statistics.WorkedExample | services/statistics_service.py:17-67 | one completed "alta" and one pending "baja" task give 2 total, 1 completed, 1 pending and a score of 44 |
| Statistics.UserStatisticsOutcome | services/statistics_service.py:10-82 | `InvalidId` unless `user_id` is 24 hex digits; then a `ValidationError` on `user_id` unless they are all decimal; otherwise the record of the user's tasks whose `user_id` is the digits' value |
| Statistics.ShortDecimalRejected | services/statistics_service.py:14 | `str(n)` of any number below 10^23, negative ones included, is not accepted by `ObjectId` |
| Statistics.CalculateUserStatistics | services/statistics_service.py:10-82 | the method, with the `ObjectId` check first, the streak loop and the final `int` check, returns exactly `UserStatisticsOutcome` and changes nothing |
| KanbanRoutes.Respond | routes/routes_kanban.py:63-69 | success exactly when the service returned; an `HTTPException` passes unchanged, a `ValueError` takes the handler's status when it has one, anything else is 500 with `str(e)` |
| KanbanRoutes.NonAdminForbidden | routes/routes_kanban.py:95-203 | a non-admin gets 403 with the handler's message from create, update and delete, and nothing changes |
| KanbanRoutes.CreateColumnRouteAnswers | routes/routes_kanban.py:95-111 | for an admin: 201 with the created column, or 500 `'id'` exactly when columns exist and none has an id |
| KanbanRoutes.UpdateColumnRouteAnswers | routes/routes_kanban.py:137-162 | for an admin: 200 with the updated column exactly when the column exists and the `$set` changes it; otherwise 404 with the not-found or no-op message and nothing changed; a missing id is 404 not-found |
| KanbanRoutes.DeleteColumnRouteAnswers | routes/routes_kanban.py:182-203 | for an admin: 200 "Column deleted successfully", or 400 for both a missing column and one with tasks, nothing changed |
| KanbanRoutes.MoveTaskRouteAnswers | routes/routes_kanban.py:228-247 | for anyone: 200, or 404 with nothing changed; a missing task is 404 with its not-found message |
| KanbanRoutes.JoinedShowable | routes/routes_kanban.py:19-22 | a joined listing passes the `list[KanbanColumn]` response model exactly when every task it shows for its columns has enum labels for `priority` and `status` and a string `assigned_to` (models/model_task.py:7-22) |
| KanbanRoutes.JoinedAnswers | routes/routes_kanban.py:19-69 | for listed columns: 200 exactly when all have ids and every shown task passes the task model; 500 `'id'` for an id-less column; otherwise the bare 500 of response validation |
| KanbanRoutes.GetColumnsRouteAnswers | routes/routes_kanban.py:19-69 | for anyone: 200 with the listing exactly when every listed column has an id and every shown task passes the task model; 500 `'id'` when a listed column has no id; otherwise a bare 500 "Internal Server Error" |
| KanbanRoutes.UnshowableTaskFails | routes/routes_kanban.py:19-22 | on a board of at most 100 columns with ids, one shown task with a Spanish label or a numeric `assigned_to` makes the listing a bare 500 |
| StatisticsRoutes.WhoMayView | routes/statistics_route.py:20-24 | refused exactly when `str(id)` differs and the role is not admin; the owner and any admin may always look |
| StatisticsRoutes.OneOwnerPerUserId | routes/statistics_route.py:20 | two non-admins with different ids never may both see the same statistics |
| StatisticsRoutes.UserStatisticsRoute | routes/statistics_route.py:14-27 | 403 with its message when the guard refuses; a bare 500 when the guard passes and the id is refused; 200 exactly when both pass, with `StatisticsOf` of that user's tasks as the body |
| StatisticsRoutes.OwnRequestFails | routes/statistics_route.py:20-26 | a non-admin with an id below 10^23 never gets a 200: their own `str(id)` ends in a 500 |
| StatisticsRoutes.AllStatistics | routes/statistics_route.py:42-43 | one record per enumerated user, in order, each carrying that user's `_id` read as an `int` |
| StatisticsRoutes.AllStatisticsRoute | routes/statistics_route.py:29-44 | 403 with its message for any role but admin; for an admin a bare 500 when some key is refused, and otherwise 200 with every user's record |
| StatisticsRoutes.LetterInKeyFailsBatch | routes/statistics_route.py:42-43 | one store key with a hex letter makes the admin's batch answer 500 |
| StatisticsRoutes.BatchMatchesSingle | routes/statistics_route.py:26-43 | when the batch succeeds, the record an admin gets for a user is the one a single request returns; when that request fails, the whole batch is a 500 |
| StatisticsRoutes.GetAllStatistics | routes/statistics_route.py:29-44 | the handler, with its per-user loop, returns `AllStatisticsRoute` |
| StatisticsRoutes.StatisticsPerUser | routes/statistics_route.py:43 | the per-user loop builds exactly the batch comprehension when every key is accepted, and otherwise stops with the exception of the first refused key |
| InitDatabase.InitDatabase | scripts/init_database.py:8-109 | each collection gets its defaults only when empty; a non-empty one is left as it was |
| InitDatabase.SeedingIsIdempotent | scripts/init_database.py:12-103 | a second guarded seed changes nothing |
| InitDatabase.InitDatabaseTwice | scripts/init_database.py:8-109 | two runs leave what the first left |
| InitDatabase.SeededBoardValid | scripts/init_database.py:30-103 | the seeded columns have unique ids and both sample tasks name a seeded column |
| InitDatabase.SeededTasksValid | scripts/init_database.py:71-103 | the sample task ids are distinct, so the seeded task table is valid |
| InitDatabase.NumberedColumnsNextId | services/service_kanban.py:16-21 | four columns numbered 1 to 4 make 5 the next column id |
| InitDatabase.SeededNextColumnId | scripts/init_database.py:30-68 | after seeding, the next column id is 5 |
| InitDatabase.SeededNextTaskId | scripts/init_database.py:71-103 | after seeding, the next task id is 3 |
| InitDatabase.AdminIsAdmin | scripts/init_database.py:15-26 | the seeded user has id 1, role admin, `is_active` true |
| InitDatabase.SeededListingAnswers | scripts/init_database.py:74-100 | on the store seeded from empty collections, every caller's listing of the board answers a bare 500, since the sample tasks fail the task model |
| InitDatabase.SampleTasksCounted | scripts/init_database.py:74-101 | the sample tasks carry the Spanish labels: two "alta", one "pendiente", one "en_progreso" |
| InitKanban.InitKanbanColumns | scripts/init_kanban.py:6-44 | the four default columns are inserted only when the collection is empty |
| InitKanban.InitKanbanTwice | scripts/init_kanban.py:10-13 | a second run changes nothing |
| InitKanban.KanbanSeedShape | scripts/init_kanban.py:16-37 | four columns, without ids, with orders 1 to 4 in sequence and no tasks |
| InitKanban.IdlessFindsNothing | scripts/init_kanban.py:16-37 | on a board whose columns have no id, no column lookup by id ever matches |
| InitKanban.IdlessRefusesChanges | services/service_kanban.py:16-143 | on such a board create raises `KeyError("id")`; update, delete and the move of an existing task raise "not found"; nothing changes |
| InitKanban.IdlessListingFails | services/service_kanban.py:26-37 | on such a board the listing raises `KeyError("id")` |
| InitKanban.IdlessListingAnswers | routes/routes_kanban.py:59-69 | on such a board every caller's listing answers 500 `'id'` |
| InitKanban.IdlessAdminAnswers | routes/routes_kanban.py:95-203 | on such a board an admin gets 500 `'id'` from create, 404 from update and 400 from delete, with nothing changed |
| InitKanban.SeededBoardIsIdless | scripts/init_kanban.py:10-40 | start-up on an empty collection leaves exactly such a board |
| Text.NatToStringInjective | routes/statistics_route.py:20 | different numbers have different decimal strings |
| Text.DecimalValueOfNatToString | models/model_statistics.py:6 | reading a number's decimal string back as an `int` gives the number |
| Text.NatToStringShort | routes/statistics_route.py:20 | a number below 10^k has at most k digits |

## Left out

- The MongoDB/Motor connection: the store is an in-memory object. Every `find`,
  `insert`, `update` and `delete` becomes a direct read or write of a sequence.
- ObjectId values. `ObjectId(user_id)` is modelled as the check that the string is 24 hex
  digits, and the task query as a comparison of key strings. Two consequences:
  - a 24-character string with whitespace between hex pairs, which `bytes.fromhex` also reads,
    counts as refused;
  - the case-insensitive match of ObjectIds is not modelled. This changes no answer, because a
    key with a hex letter is refused by the `int` field anyway.
- The texts of `InvalidId` and `ValidationError`: `str()` of them is approximated. The repr
  escaping and Pydantic's trailing details are not modelled. Neither text reaches the client,
  which gets FastAPI's "Internal Server Error".
- `async`/`await` and the races between a check and the write after it (existence checks,
  has-tasks checks, `max(id) + 1` allocation). The model runs one request at a time.
- The clock: every `datetime.now()` of one operation is the same `now`. The seeds' separate
  reads and `today` are parameters.
- JWT decoding, bcrypt hashing (the admin's hash is a parameter) and the OAuth2 scheme.
- Logging, `serialize_doc`'s `_id` stringification, FastAPI decorators, OpenAPI examples and
  the pass-through task and user routers.
- Pydantic validation of the request bodies: the `models/` classes appear only as record shapes.
  Of the response models, only the listing's check of its tasks is modelled; the statistics
  record is built already valid.
  Of the `UserStatistics` fields only `user_id` is validated; the other values always fit their
  types.
- The "Failed to create task/user" and "Error al crear la columna" branches. `insert_one`
  always yields an `_id`, so these cannot be reached.
- The "Error al eliminar la columna" branch. The column was found just before, so
  `deleted_count` is 1.
- The order among columns with equal `order`: the store leaves it unspecified. The model uses a
  stable insertion sort, so its results are one of the store's admissible orders.
- Floating point: ratios are exact rationals, and no rounding of the mean or the score is
  modelled.
- Statistics.AverageHours: its own contract states only the empty case. Its value is stated by
  `Statistics.HoursTimesCount` and, for the record, by `Statistics.StatisticsMean`.
