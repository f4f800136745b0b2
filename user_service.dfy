/** Creating, reading, listing, updating and deleting users. */
module UserService {
  import opened Wrappers
  import opened Errors
  import opened Models
  import opened Schemas
  import opened Database
  import opened Crypto

  const UserAlreadyExist := HttpException(Status409Conflict, "User already exist")
  const UserNotFound := HttpException(Status404NotFound, "User not found")

  /** Some stored user already has this username. */
  predicate UsernameTaken(users: map<Uuid, User>, username: string) {
    exists k :: k in users && users[k].username == Some(username)
  }

  /** The row `User(**user_data)` builds, stamped with the moment of the insert. */
  function NewUser(user: UserRegister, id: Uuid, hashedPassword: string, now: Time): User {
    User(id, Some(user.username), user.isActive, user.fullName, hashedPassword, now)
  }

  /**
   * `create_user_object`: 409 when the username is taken; otherwise one new
   * row whose fields come from the payload and whose `hashed_password` is
   * the hash of the password, which itself is not stored. The new id stands
   * for `uuid4()`; a collision would break the primary key at commit.
   */
  method CreateUserObject(session: Session, user: UserRegister, pwd: PasswordContext, newId: Uuid, now: Time)
    returns (r: Result<User, Error>)
    requires session.Valid() && ValidUserRegister(user)
    modifies session
    ensures session.Valid()
    ensures session.posts == old(session.posts) && session.postRows == old(session.postRows)
    ensures session.comments == old(session.comments)
    ensures UsernameTaken(old(session.users), user.username) ==> r == Err(UserAlreadyExist)
    ensures !UsernameTaken(old(session.users), user.username) && newId in old(session.users) ==> r == Err(IntegrityError)
    ensures r.Err? ==> session.users == old(session.users) && session.userRows == old(session.userRows)
    ensures r.Ok? <==> !UsernameTaken(old(session.users), user.username) && newId !in old(session.users)
    ensures r.Ok? ==>
      && r.value.id == newId
      && r.value.username == Some(user.username)
      && r.value.isActive == user.isActive
      && r.value.fullName == user.fullName
      && r.value.hashedPassword == pwd.hash(user.password)
      && r.value.createdAt == now
      && session.users == old(session.users)[newId := r.value]
      && session.userRows == old(session.userRows) + [newId]
  {
    if UsernameTaken(session.users, user.username) {
      return Err(UserAlreadyExist);
    }
    var hashed := pwd.hash(user.password);
    var dbUser := NewUser(user, newId, hashed, now);
    if newId in session.users {
      return Err(IntegrityError);
    }
    session.users := session.users[newId := dbUser];
    session.userRows := session.userRows + [newId];
    r := Ok(dbUser);
  }

  /**
   * `create_user_object` with the `created_at` default as models.py:15
   * declares it: `datetime.now(timezone.utc)` is evaluated once, when the
   * class body runs, so every new row carries that one import-time instant
   * whatever the clock reads at the insert.
   */
  method CreateUserObjectAsWritten(session: Session, user: UserRegister, pwd: PasswordContext, newId: Uuid, now: Time)
    returns (r: Result<User, Error>)
    requires session.Valid() && ValidUserRegister(user)
    modifies session
    ensures session.Valid()
    ensures session.posts == old(session.posts) && session.postRows == old(session.postRows)
    ensures session.comments == old(session.comments)
    ensures UsernameTaken(old(session.users), user.username) ==> r == Err(UserAlreadyExist)
    ensures !UsernameTaken(old(session.users), user.username) && newId in old(session.users) ==> r == Err(IntegrityError)
    ensures r.Err? ==> session.users == old(session.users) && session.userRows == old(session.userRows)
    ensures r.Ok? <==> !UsernameTaken(old(session.users), user.username) && newId !in old(session.users)
    ensures r.Ok? ==>
      && r.value == NewUser(user, newId, pwd.hash(user.password), session.createdAtDefault)
      && session.users == old(session.users)[newId := r.value]
      && session.userRows == old(session.userRows) + [newId]
  {
    if UsernameTaken(session.users, user.username) {
      return Err(UserAlreadyExist);
    }
    var dbUser := NewUser(user, newId, pwd.hash(user.password), session.createdAtDefault);
    if newId in session.users {
      return Err(IntegrityError);
    }
    session.users := session.users[newId := dbUser];
    session.userRows := session.userRows + [newId];
    r := Ok(dbUser);
  }

  /**
   * As written, two users registered in one process at different instants
   * get the same `created_at`: the instant models.py was imported.
   */
  method AsWrittenCreatedAtIgnoresClock(pwd: PasswordContext, u1: UserRegister, u2: UserRegister, id1: Uuid, id2: Uuid,
                                        importTime: Time, t1: Time, t2: Time)
    returns (first: Result<User, Error>, second: Result<User, Error>)
    requires ValidUserRegister(u1) && ValidUserRegister(u2)
    requires u1.username != u2.username && id1 != id2 && t1 != t2
    ensures first.Ok? && second.Ok?
    ensures first.value.createdAt == importTime && second.value.createdAt == importTime
  {
    var session := new Session(importTime);
    first := CreateUserObjectAsWritten(session, u1, pwd, id1, t1);
    assert session.users == map[id1 := first.value];
    second := CreateUserObjectAsWritten(session, u2, pwd, id2, t2);
  }

  /** With the corrected per-insert default, the same two registrations are stamped with their own instants. */
  method CreatedAtFollowsClock(pwd: PasswordContext, u1: UserRegister, u2: UserRegister, id1: Uuid, id2: Uuid,
                               importTime: Time, t1: Time, t2: Time)
    returns (first: Result<User, Error>, second: Result<User, Error>)
    requires ValidUserRegister(u1) && ValidUserRegister(u2)
    requires u1.username != u2.username && id1 != id2 && t1 != t2
    ensures first.Ok? && second.Ok?
    ensures first.value.createdAt == t1 && second.value.createdAt == t2
    ensures first.value.createdAt != second.value.createdAt
  {
    var session := new Session(importTime);
    first := CreateUserObject(session, u1, pwd, id1, t1);
    assert session.users == map[id1 := first.value];
    second := CreateUserObject(session, u2, pwd, id2, t2);
  }

  /** `read_user`: 404 exactly when no user has this id, otherwise that user. */
  function ReadUser(session: Session, userId: Uuid): (r: Result<User, Error>)
    reads session
    ensures r.Err? <==> userId !in session.users
    ensures r.Err? ==> r.error == UserNotFound
    ensures r.Ok? ==> r.value == session.users[userId]
  {
    if userId !in session.users then Err(UserNotFound) else Ok(session.users[userId])
  }

  /** `read_users_from_db`: one page of the users table, in row order. */
  function ReadUsersFromDb(session: Session, offset: int, limit: int): (r: Result<seq<User>, Error>)
    reads session
    requires session.Valid()
    ensures r.Err? <==> !FitsInt64(offset) || !FitsInt64(limit)
    ensures r.Err? ==> r.error == OverflowError
    ensures r.Ok? && limit >= 0 ==> |r.value| <= limit
    ensures r.Ok? ==> |r.value| == |Window(session.userRows, offset, limit)|
    ensures r.Ok? ==> forall i :: 0 <= i < |r.value| ==> r.value[i] == session.users[Window(session.userRows, offset, limit)[i]]
    ensures r.Ok? ==> forall u :: u in r.value ==> u in session.users.Values
  {
    if !FitsInt64(offset) || !FitsInt64(limit) then Err(OverflowError)
    else Ok(RowsOf(session.users, Window(session.userRows, offset, limit)))
  }

  /** Some post is owned by this user. */
  predicate OwnsPosts(posts: map<Uuid, Post>, userId: Uuid) {
    exists k :: k in posts && posts[k].ownerId == userId
  }

  /**
   * `delete_user`: 404 when absent. Deleting a user who owns posts makes the
   * ORM set those posts' `owner_id` to NULL, which the NOT NULL column
   * refuses at commit. Otherwise exactly that user is removed.
   */
  method DeleteUser(session: Session, userId: Uuid) returns (r: Outcome<Error>)
    requires session.Valid()
    modifies session
    ensures session.Valid()
    ensures session.posts == old(session.posts) && session.postRows == old(session.postRows)
    ensures session.comments == old(session.comments)
    ensures userId !in old(session.users) ==> r == Fail(UserNotFound)
    ensures userId in old(session.users) && OwnsPosts(old(session.posts), userId) ==> r == Fail(IntegrityError)
    ensures r.Fail? ==> session.users == old(session.users) && session.userRows == old(session.userRows)
    ensures r.Pass? <==> userId in old(session.users) && !OwnsPosts(old(session.posts), userId)
    ensures r.Pass? ==>
      && session.users == old(session.users) - {userId}
      && session.userRows == Remove(old(session.userRows), userId)
  {
    if userId !in session.users {
      return Fail(UserNotFound);
    }
    if OwnsPosts(session.posts, userId) {
      return Fail(IntegrityError);
    }
    session.users := session.users - {userId};
    session.userRows := Remove(session.userRows, userId);
    r := Pass;
  }

  /** `setattr(db_user, field, value)` for one dumped item. */
  function SetUserAttr(u: User, a: UserAttr): User {
    match a
    case Username(v) => u.(username := v)
    case IsActive(b) => u.(isActive := b)
    case FullName(v) => u.(fullName := v)
  }

  /** The user with the payload's set fields overwritten and every other field kept. */
  function PatchedUser(u: User, update: UserUpdate): User {
    User(
      u.id,
      if update.username.Set? then update.username.value else u.username,
      if update.isActive.Set? then update.isActive.value else u.isActive,
      if update.fullName.Set? then update.fullName.value else u.fullName,
      u.hashedPassword,
      u.createdAt)
  }

  /** Setting one more attribute is patching with a payload that has one more field set. */
  lemma PatchedUserWith(u: User, update: UserUpdate, a: UserAttr)
    ensures PatchedUser(u, WithUserAttr(update, a)) == SetUserAttr(PatchedUser(u, update), a)
  {
  }

  /** Patching twice with the same payload is patching once. */
  lemma PatchedUserIdempotent(u: User, update: UserUpdate)
    ensures PatchedUser(PatchedUser(u, update), update) == PatchedUser(u, update)
  {
  }

  /** A payload with nothing set leaves the user as it was. */
  lemma PatchedUserNoChanges(u: User)
    ensures PatchedUser(u, NoUserChanges) == u
  {
  }

  /**
   * The `for field, value in updated_data.items(): setattr(...)` loop over
   * `model_dump(exclude_unset=True)`: exactly the set fields are written.
   */
  method ApplyUserUpdate(dbUser: User, user: UserUpdate) returns (current: User)
    ensures current == PatchedUser(dbUser, user)
    ensures current.id == dbUser.id && current.hashedPassword == dbUser.hashedPassword
    ensures current.createdAt == dbUser.createdAt
    ensures current.username == if user.username.Set? then user.username.value else dbUser.username
    ensures current.isActive == if user.isActive.Set? then user.isActive.value else dbUser.isActive
    ensures current.fullName == if user.fullName.Set? then user.fullName.value else dbUser.fullName
  {
    var updatedData := UserUpdateItems(user);
    current := dbUser;
    for i := 0 to |updatedData|
      invariant current == PatchedUser(dbUser, UserUpdateOf(updatedData[..i]))
    {
      PatchedUserStep(dbUser, updatedData, i);
      current := SetUserAttr(current, updatedData[i]);
    }
    assert updatedData[..|updatedData|] == updatedData;
    UserUpdateItemsRoundTrip(user);
  }

  /** One turn of the setattr loop: the first `i + 1` items patch as the first `i` followed by item `i`. */
  lemma PatchedUserStep(u: User, items: seq<UserAttr>, i: nat)
    requires i < |items|
    ensures PatchedUser(u, UserUpdateOf(items[..i + 1])) == SetUserAttr(PatchedUser(u, UserUpdateOf(items[..i])), items[i])
  {
    assert items[..i + 1] == items[..i] + [items[i]];
    UserUpdateOfSnoc(items[..i], items[i]);
    PatchedUserWith(u, UserUpdateOf(items[..i]), items[i]);
  }

  /** What the users table accepts at commit for the row `u`: a username, held by no other row. */
  predicate UserCommits(users: map<Uuid, User>, u: User) {
    u.username.Some? && forall k :: k in users && k != u.id ==> users[k].username != u.username
  }

  /**
   * `update_user`: 404 when absent; otherwise the fields the payload set are
   * written one by one. The service does no username check of its own: a
   * duplicate or null username is refused by the table's constraints at
   * commit, and then nothing is stored.
   */
  method UpdateUser(session: Session, userId: Uuid, user: UserUpdate) returns (r: Result<User, Error>)
    requires session.Valid() && ValidUserUpdate(user)
    modifies session
    ensures session.Valid()
    ensures session.userRows == old(session.userRows)
    ensures session.posts == old(session.posts) && session.postRows == old(session.postRows)
    ensures session.comments == old(session.comments)
    ensures userId !in old(session.users) ==> r == Err(UserNotFound)
    ensures userId in old(session.users) ==>
      var patched := PatchedUser(old(session.users)[userId], user);
      r == if UserCommits(old(session.users), patched) then Ok(patched) else Err(IntegrityError)
    ensures r.Err? ==> session.users == old(session.users)
    ensures r.Err? && r.error.HttpException? ==> r.error == UserNotFound
    ensures r.Ok? ==> session.users == old(session.users)[userId := r.value]
  {
    if userId !in session.users {
      return Err(UserNotFound);
    }
    var dbUser := session.users[userId];
    var current := ApplyUserUpdate(dbUser, user);
    if !UserCommits(session.users, current) {
      return Err(IntegrityError);
    }
    session.users := session.users[userId := current];
    r := Ok(current);
  }
}
