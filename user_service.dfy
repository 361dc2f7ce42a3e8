/**
 * The user service over the store: sequential ids, a page of at most 100 users, create with
 * timestamps, lookup, update of the submitted fields and delete, each acting on the first user
 * with the requested id. Email and username are not checked for uniqueness, and the password
 * is stored as given.
 */
module UserService {
  import opened Outcomes
  import opened Records
  import opened Seqs
  import opened Db

  const UserCreated := "User created successfully"
  const UserNotFound := "User not found"
  const UserUpdated := "User updated successfully"
  const UserUpdateFailed := "Failed to update user"
  const UserDeleted := "User deleted successfully"

  /**
   * The document `create_user` stores: the body's fields, the id and both timestamps `now`;
   * `key` is the `_id` the store assigns. No `role` and no `is_active` are written.
   */
  function NewUser(body: UserCreate, key: string, id: int, now: int): User
  {
    User(key, id, body.username, body.email, body.phone, body.password, None, None, now, now)
  }

  /** The `$set` of `update_user`: the four fields of the body and `updated_at`. */
  function Patched(u: User, body: UserCreate, now: int): User
  {
    u.(username := body.username, email := body.email, phone := body.phone,
       password := body.password, updatedAt := now)
  }

  /** The first user with `id`: where `find_one({"id": id})`, `update_one` and `delete_one` land. */
  lemma FirstUserWithId(users: seq<User>, id: int)
    ensures var r := FirstIndex(UserIds(users), id);
      && (r.None? <==> forall k :: 0 <= k < |users| ==> users[k].id != id)
      && (r.Some? ==> (r.value < |users| && users[r.value].id == id
            && forall k :: 0 <= k < r.value ==> users[k].id != id))
  {
    var ids := UserIds(users);
    var r := FirstIndex(ids, id);
    if r.None? {
      forall k | 0 <= k < |users| ensures users[k].id != id {
        assert ids[k] == users[k].id;
      }
    } else {
      forall k | 0 <= k < r.value ensures users[k].id != id {
        assert ids[..r.value][k] == users[k].id;
      }
    }
  }

  /** `get_users`: the first 100 users in store order. */
  method GetUsers(db: Database) returns (r: seq<User>)
    ensures |r| == if |db.users| < 100 then |db.users| else 100
    ensures r == db.users[..|r|]
  {
    r := Limit(db.users, 100);
  }

  /** `create_user`: the next id, both timestamps `now`, appended whatever the other users hold. */
  method CreateUser(db: Database, body: UserCreate, key: string, now: int) returns (r: Reply<User>)
    modifies db`users
    ensures var u := NewUser(body, key, NextId(UserIds(old(db.users))), now);
      && db.users == old(db.users) + [u]
      && r == WithMessage(u, UserCreated)
  {
    var id := NextId(UserIds(db.users));
    var user := NewUser(body, key, id, now);
    db.users := db.users + [user];
    return WithMessage(user, UserCreated);
  }

  /** `get_user`: the first user with that id, or the not-found message. Changes nothing. */
  method GetUser(db: Database, id: int) returns (r: Reply<User>)
    ensures r.MessageOnly? <==> forall k :: 0 <= k < |db.users| ==> db.users[k].id != id
    ensures r.MessageOnly? ==> r.message == UserNotFound
    ensures !r.WithMessage?
    ensures r.Document? ==> exists i :: (0 <= i < |db.users| && db.users[i] == r.doc && r.doc.id == id
      && forall k :: 0 <= k < i ==> db.users[k].id != id)
  {
    FirstUserWithId(db.users, id);
    var found := FirstIndex(UserIds(db.users), id);
    if found.None? {
      return MessageOnly(UserNotFound);
    }
    return Document(db.users[found.value]);
  }

  /** Position `i` holds the first user with `id`: where `update_one({"id": id})` lands. */
  predicate IsFirstWithId(users: seq<User>, i: int, id: int)
  {
    0 <= i < |users| && users[i].id == id && forall k :: 0 <= k < i ==> users[k].id != id
  }

  /**
   * `update_user` on a table: the reply and the table after it. `modified_count` is 0 when no
   * user has the id or when the `$set` leaves the first one as it was.
   */
  function UpdateUserStep(users: seq<User>, id: int, body: UserCreate, now: int): (Reply<User>, seq<User>)
  {
    match FirstIndex(UserIds(users), id)
    case None => (MessageOnly(UserUpdateFailed), users)
    case Some(i) =>
      var patched := Patched(users[i], body, now);
      if patched == users[i] then (MessageOnly(UserUpdateFailed), users)
      else (WithMessage(patched, UserUpdated), users[i := patched])
  }

  /**
   * An update succeeds exactly when some user has the id and the `$set` changes the first
   * such user; then only that user is replaced, by its patched form, which is also the reply.
   * Otherwise the answer is the failure message and the table is unchanged.
   */
  lemma UpdateUserEffect(users: seq<User>, id: int, body: UserCreate, now: int)
    ensures var step := UpdateUserStep(users, id, body, now);
      && !step.0.Document?
      && (step.0.WithMessage? <==> exists i :: IsFirstWithId(users, i, id) && Patched(users[i], body, now) != users[i])
      && (step.0.MessageOnly? ==> step.0.message == UserUpdateFailed && step.1 == users)
      && (step.0.WithMessage? ==> (step.0.message == UserUpdated &&
            exists i :: IsFirstWithId(users, i, id) && step.0.doc == Patched(users[i], body, now)
              && step.1 == users[i := step.0.doc]))
  {
    FirstUserWithId(users, id);
    var found := FirstIndex(UserIds(users), id);
    if found.Some? {
      forall i | IsFirstWithId(users, i, id) ensures i == found.value {
      }
    }
  }

  /**
   * `update_user`: the first user with that id gets the body's fields and `updated_at := now`,
   * keeping id, `created_at`, `role` and `is_active`; the reply is the re-fetched document.
   */
  method UpdateUser(db: Database, id: int, body: UserCreate, now: int) returns (r: Reply<User>)
    modifies db`users
    ensures (r, db.users) == UpdateUserStep(old(db.users), id, body, now)
  {
    var found := FirstIndex(UserIds(db.users), id);
    if found.None? {
      return MessageOnly(UserUpdateFailed);
    }
    var i := found.value;
    var updated := Patched(db.users[i], body, now);
    if updated == db.users[i] {
      return MessageOnly(UserUpdateFailed);
    }
    ghost var before := db.users;
    db.users := db.users[i := updated];
    assert UserIds(db.users) == UserIds(before);
    var refetched := FirstIndex(UserIds(db.users), id);
    return WithMessage(db.users[refetched.value], UserUpdated);
  }

  /** `delete_user`: removes the first user with that id, or answers "User not found". */
  method DeleteUser(db: Database, id: int) returns (r: Reply<User>)
    modifies db`users
    ensures r.MessageOnly?
    ensures r.message == UserNotFound <==> forall k :: 0 <= k < |old(db.users)| ==> old(db.users)[k].id != id
    ensures r.message == UserNotFound ==> db.users == old(db.users)
    ensures r.message != UserNotFound ==> (r.message == UserDeleted &&
      exists i :: 0 <= i < |old(db.users)| && old(db.users)[i].id == id
        && (forall k :: 0 <= k < i ==> old(db.users)[k].id != id)
        && db.users == RemoveAt(old(db.users), i))
  {
    FirstUserWithId(db.users, id);
    var found := FirstIndex(UserIds(db.users), id);
    if found.None? {
      return MessageOnly(UserNotFound);
    }
    db.users := RemoveAt(db.users, found.value);
    return MessageOnly(UserDeleted);
  }

  // ---------------------------------------------------------------- the invariant is kept

  /** A created user gets an id no user had, so distinct ids stay distinct. */
  lemma CreateKeepsIdsDistinct(users: seq<User>, body: UserCreate, key: string, now: int)
    requires Distinct(UserIds(users))
    ensures Distinct(UserIds(users + [NewUser(body, key, NextId(UserIds(users)), now)]))
  {
    var u := NewUser(body, key, NextId(UserIds(users)), now);
    UserIdsAppend(users, u);
    DistinctAppend(UserIds(users), u.id);
  }

  /** An update keeps the user's id, `created_at`, `role` and `is_active`, so ids stay distinct. */
  lemma UpdateKeepsIdsDistinct(users: seq<User>, i: nat, body: UserCreate, now: int)
    requires i < |users| && Distinct(UserIds(users))
    ensures var u := Patched(users[i], body, now);
      && u.id == users[i].id && u.createdAt == users[i].createdAt
      && u.role == users[i].role && u.isActive == users[i].isActive
      && Distinct(UserIds(users[i := u]))
  {
    var r := users[i := Patched(users[i], body, now)];
    assert UserIds(r) == UserIds(users) by {
      assert forall k :: 0 <= k < |r| ==> r[k].id == users[k].id;
    }
  }

  lemma DeleteKeepsIdsDistinct(users: seq<User>, i: nat)
    requires i < |users| && Distinct(UserIds(users))
    ensures Distinct(UserIds(RemoveAt(users, i)))
  {
    UserIdsRemoveAt(users, i);
    DistinctRemoveAt(UserIds(users), i);
  }

  /** Two creates with the same email and username both succeed, with ids 1 and 2. */
  method DuplicateEmailsAccepted(body: UserCreate, now: int) returns (users: seq<User>)
    ensures |users| == 2 && users[0].email == users[1].email && users[0].username == users[1].username
    ensures users[0].id == 1 && users[1].id == 2
  {
    var db := new Database([], [], []);
    var first := CreateUser(db, body, "a", now);
    var second := CreateUser(db, body, "b", now);
    users := db.users;
  }
}
