/**
 * The documents of the three collections and the request bodies that create them.
 * Timestamps are whole seconds; a field a document may lack is an `Option`.
 */
module Records {
  import opened Outcomes

  /** The `Priority` enum of the task model; the stored value is its label. */
  datatype Priority = Low | Medium | High {
    function Label(): string
    {
      match this
      case Low => "low"
      case Medium => "medium"
      case High => "high"
    }
  }

  /** The `Status` enum of the task model; the stored value is its label. */
  datatype Status = Pending | InProgress | Completed {
    function Label(): string
    {
      match this
      case Pending => "pending"
      case InProgress => "in_progress"
      case Completed => "completed"
    }
  }

  /** `assigned_to` is a string when written through `TaskCreate` and a number in the seed data. */
  datatype Assignee = AssigneeText(text: string) | AssigneeNumber(number: int)

  /** The body of a create or update task request. */
  datatype TaskCreate = TaskCreate(
    title: string, description: string, priority: Priority,
    assignedTo: string, dueDate: int, status: Status)

  /**
   * A document of the task collection. `priority` and `status` are kept as the stored strings:
   * what the statistics count is an exact match on them. `userRef` is the `user_id` field the
   * statistics filter on; `completedAt` is `completed_at`.
   */
  datatype Task = Task(
    id: int, title: string, description: string,
    priority: string, status: string,
    assignedTo: Assignee, dueDate: int,
    columnId: Option<int>, createdBy: Option<int>, userRef: Option<string>,
    createdAt: int, updatedAt: int, completedAt: Option<int>)

  /** The body of a create or update column request. */
  datatype ColumnCreate = ColumnCreate(title: string, order: int)

  /** A document of the column collection; the seeded columns of the Kanban script have no `id`. */
  datatype Column = Column(
    id: Option<int>, title: string, order: int, tasks: seq<Task>,
    createdAt: Option<int>, updatedAt: Option<int>)

  /** The body of a create or update user request. */
  datatype UserCreate = UserCreate(username: string, email: string, phone: string, password: string)

  /**
   * A document of the user collection. `key` is the store's own `_id`, distinct from the
   * sequential `id`; `role` and `isActive` are absent on users written through `UserCreate`.
   */
  datatype User = User(
    key: string, id: int, username: string, email: string, phone: string, password: string,
    role: Option<string>, isActive: Option<bool>, createdAt: int, updatedAt: int)

  /** The principal decoded from the bearer token. */
  datatype CurrentUser = CurrentUser(id: int, email: string, username: string, role: string, isActive: bool)

  /** What a service hands back: the document, the document with a message, or a message alone. */
  datatype Reply<T> = Document(doc: T) | WithMessage(doc: T, message: string) | MessageOnly(message: string)

  function TaskIds(tasks: seq<Task>): seq<int>
  {
    seq(|tasks|, i requires 0 <= i < |tasks| => tasks[i].id)
  }

  function UserIds(users: seq<User>): seq<int>
  {
    seq(|users|, i requires 0 <= i < |users| => users[i].id)
  }

  function ColumnIds(columns: seq<Column>): seq<Option<int>>
  {
    seq(|columns|, i requires 0 <= i < |columns| => columns[i].id)
  }

  lemma TaskIdsAppend(tasks: seq<Task>, t: Task)
    ensures TaskIds(tasks + [t]) == TaskIds(tasks) + [t.id]
  {
  }

  lemma TaskIdsRemoveAt(tasks: seq<Task>, i: nat)
    requires i < |tasks|
    ensures TaskIds(tasks[..i] + tasks[i + 1..]) == TaskIds(tasks)[..i] + TaskIds(tasks)[i + 1..]
  {
  }

  lemma UserIdsAppend(users: seq<User>, u: User)
    ensures UserIds(users + [u]) == UserIds(users) + [u.id]
  {
  }

  lemma UserIdsRemoveAt(users: seq<User>, i: nat)
    requires i < |users|
    ensures UserIds(users[..i] + users[i + 1..]) == UserIds(users)[..i] + UserIds(users)[i + 1..]
  {
  }
}
