/**
 * The statistics routes: a user's statistics are shown to that user (by the decimal string of
 * the token's numeric id) and to admins; the batch over all users is for admins only. Neither
 * route catches the exceptions of `calculate_user_statistics`, which FastAPI turns into a 500.
 */
module StatisticsRoutes {
  import opened Text
  import opened Outcomes
  import opened Records
  import opened Statistics
  import opened Db
  import opened Seqs

  const Admin := "admin"
  const UserForbidden := "No tienes permiso para ver estas estadísticas"
  const AllForbidden := "Solo los administradores pueden ver todas las estadísticas"

  /** The guard of `get_user_statistics`: refused when the id differs and the caller is not an admin. */
  predicate MayViewStatistics(caller: CurrentUser, userId: string)
  {
    !(IntToString(caller.id) != userId && caller.role != Admin)
  }

  /** Owners, by their decimal id, and admins, for any id, may look; nobody else. */
  lemma WhoMayView(caller: CurrentUser, userId: string)
    ensures IntToString(caller.id) == userId ==> MayViewStatistics(caller, userId)
    ensures caller.role == "admin" ==> MayViewStatistics(caller, userId)
    ensures !MayViewStatistics(caller, userId) <==> IntToString(caller.id) != userId && caller.role != "admin"
  {
  }

  /**
   * Two non-admin callers with different ids never may both look at the same statistics: the
   * decimal strings of different numbers differ.
   */
  lemma OneOwnerPerUserId(a: CurrentUser, b: CurrentUser, userId: string)
    requires a.role != "admin" && b.role != "admin" && a.id != b.id
    ensures !(MayViewStatistics(a, userId) && MayViewStatistics(b, userId))
  {
    if IntToString(a.id) == userId && IntToString(b.id) == userId {
      IntToStringInjective(a.id, b.id);
    }
  }

  /** What FastAPI answers for an exception the handler does not catch. */
  const InternalServerError := "Internal Server Error"

  /**
   * `GET /statistics/user/{user_id}`: 403 for others; otherwise the outcome of
   * `calculate_user_statistics`, whose exceptions nothing catches, so they become a bare 500.
   */
  function UserStatisticsRoute(caller: CurrentUser, userId: string, tasks: seq<Task>, now: int, today: int): (r: Response<UserStatistics>)
    ensures !MayViewStatistics(caller, userId) ==> r == Failure(403, UserForbidden)
    ensures MayViewStatistics(caller, userId) && !AcceptedUserId(userId) ==> r == Failure(500, InternalServerError)
    ensures r.Success? <==> MayViewStatistics(caller, userId) && AcceptedUserId(userId)
    ensures r.Success? ==> (r.status == 200
      && r.body == StatisticsOf(UserTasks(tasks, userId), DecimalValue(userId), now, today))
  {
    if !MayViewStatistics(caller, userId) then Failure(403, UserForbidden)
    else
      match UserStatisticsOutcome(tasks, userId, now, today)
      case Returned(stats) => Success(200, stats)
      case Raised(_) => Failure(500, InternalServerError)
  }

  /**
   * A non-admin asking for their own statistics passes the guard only with `str(id)`, which for
   * any id below `10^23` is no ObjectId string, so the request always ends in a 500.
   */
  lemma OwnRequestFails(caller: CurrentUser, tasks: seq<Task>, now: int, today: int)
    requires caller.role != "admin" && caller.id < Pow10(23)
    ensures UserStatisticsRoute(caller, IntToString(caller.id), tasks, now, today) == Failure(500, InternalServerError)
    ensures forall userId :: UserStatisticsRoute(caller, userId, tasks, now, today).Failure?
  {
    ShortDecimalRejected(caller.id);
  }

  /** The record of one user, from the tasks filed under its store key, with that key read as `int`. */
  function RecordOf(tasks: seq<Task>, now: int, today: int): User -> UserStatistics
  {
    (u: User) => StatisticsOf(UserTasks(tasks, u.key), DecimalValue(u.key), now, today)
  }

  /** For an accepted key, the record `calculate_user_statistics` returns is the user's `RecordOf`. */
  lemma RecordIsOutcome(tasks: seq<Task>, u: User, now: int, today: int)
    requires AcceptedUserId(u.key)
    ensures UserStatisticsOutcome(tasks, u.key, now, today) == Returned(RecordOf(tasks, now, today)(u))
  {
  }

  /** One record per user, in enumeration order, each computed from the user's `_id` alone. */
  function AllStatistics(users: seq<User>, tasks: seq<Task>, now: int, today: int): (r: seq<UserStatistics>)
    ensures |r| == |users|
    ensures forall i :: 0 <= i < |r| ==> r[i].userId == DecimalValue(users[i].key)
  {
    Mapped(RecordOf(tasks, now, today), users)
  }

  /** Every user's `str(_id)` passes both `ObjectId` and the `int` field. */
  predicate AllKeysAccepted(users: seq<User>)
  {
    forall i :: 0 <= i < |users| ==> AcceptedUserId(users[i].key)
  }

  lemma KeysAcceptedSnoc(users: seq<User>, i: nat)
    requires i < |users| && AllKeysAccepted(users[..i]) && AcceptedUserId(users[i].key)
    ensures AllKeysAccepted(users[..i + 1])
  {
    assert forall k :: 0 <= k < i ==> users[..i + 1][k] == users[..i][k];
  }

  /**
   * `GET /statistics/all`: 403 for any role but admin; otherwise a bare 500 as soon as one
   * user's key is refused, and every user's record when none is.
   */
  function AllStatisticsRoute(caller: CurrentUser, users: seq<User>, tasks: seq<Task>, now: int, today: int): (r: Response<seq<UserStatistics>>)
    ensures caller.role != "admin" ==> r == Failure(403, AllForbidden)
    ensures caller.role == "admin" && !AllKeysAccepted(users) ==> r == Failure(500, InternalServerError)
    ensures r.Success? <==> caller.role == "admin" && AllKeysAccepted(users)
    ensures r.Success? ==> r.status == 200 && r.body == AllStatistics(users, tasks, now, today)
  {
    if caller.role != Admin then Failure(403, AllForbidden)
    else if !AllKeysAccepted(users) then Failure(500, InternalServerError)
    else Success(200, AllStatistics(users, tasks, now, today))
  }

  /**
   * A store key holding a hex letter, as the `str()` of almost every ObjectId does, makes the
   * whole batch answer 500.
   */
  lemma LetterInKeyFailsBatch(caller: CurrentUser, users: seq<User>, tasks: seq<Task>, now: int, today: int, i: nat, k: nat)
    requires caller.role == "admin" && i < |users| && k < |users[i].key| && 'a' <= users[i].key[k] <= 'f'
    ensures AllStatisticsRoute(caller, users, tasks, now, today) == Failure(500, InternalServerError)
  {
    assert !AcceptedUserId(users[i].key);
  }

  /** When the batch succeeds, the record an admin gets for a user is the one a single request returns. */
  lemma BatchMatchesSingle(caller: CurrentUser, users: seq<User>, tasks: seq<Task>, now: int, today: int, i: nat)
    requires caller.role == "admin" && i < |users|
    ensures var all := AllStatisticsRoute(caller, users, tasks, now, today);
      var one := UserStatisticsRoute(caller, users[i].key, tasks, now, today);
      && (all.Success? ==> one.Success? && |all.body| == |users| && all.body[i] == one.body)
      && (!one.Success? ==> all == Failure(500, InternalServerError))
  {
  }

  /** `get_all_statistics`: the admin gate, then one aggregation per user in store order. Changes nothing. */
  method GetAllStatistics(db: Database, caller: CurrentUser, now: int, today: int) returns (r: Response<seq<UserStatistics>>)
    ensures r == AllStatisticsRoute(caller, db.users, db.tasks, now, today)
  {
    if caller.role != Admin {
      return Failure(403, AllForbidden);
    }
    var result := StatisticsPerUser(db, db.users, now, today);
    if result.Raised? {
      return Failure(500, InternalServerError);
    }
    return Success(200, result.value);
  }

  /** The comprehension over the enumerated users; it stops at the first user whose key is refused. */
  method StatisticsPerUser(db: Database, users: seq<User>, now: int, today: int) returns (r: Outcome<seq<UserStatistics>>)
    ensures r.Returned? <==> AllKeysAccepted(users)
    ensures r.Returned? ==> r.value == AllStatistics(users, db.tasks, now, today)
    ensures r.Raised? ==> exists i :: (0 <= i < |users| && AllKeysAccepted(users[..i])
      && UserStatisticsOutcome(db.tasks, users[i].key, now, today) == Raised(r.error))
  {
    var result := [];
    var i := 0;
    while i < |users|
      invariant 0 <= i <= |users|
      invariant AllKeysAccepted(users[..i])
      invariant result == AllStatistics(users[..i], db.tasks, now, today)
    {
      var stats := CalculateUserStatistics(db, users[i].key, now, today);
      if stats.Raised? {
        return Raised(stats.error);
      }
      RecordIsOutcome(db.tasks, users[i], now, today);
      MappedSnoc(RecordOf(db.tasks, now, today), users, i);
      KeysAcceptedSnoc(users, i);
      result := result + [stats.value];
      i := i + 1;
    }
    assert users[..i] == users;
    return Returned(result);
  }
}
