/**
 * The request payloads the services receive. pydantic validates them before
 * a service sees them, so their length bounds are predicates that callers
 * establish; `model_dump(exclude_unset=True)` is modelled by the *Items
 * functions, which list the explicitly set fields of an update payload.
 */
module Schemas {
  import opened Wrappers
  import opened Models

  /** A payload field that was either left unset or explicitly given a value (which may be null). */
  datatype Field<T> = Unset | Set(value: T)

  predicate WithinBound(s: Option<string>, bound: nat) {
    s.Some? ==> |s.value| <= bound
  }

  // ---------------------------------------------------------------- users

  /** UserRegister: the fields of UserBase plus the plaintext password. */
  datatype UserRegister = UserRegister(
    username: string,
    isActive: bool,
    fullName: Option<string>,
    password: string)

  const PasswordMinLength: nat := 8
  const PasswordMaxLength: nat := 40

  predicate ValidUserRegister(u: UserRegister) {
    && |u.username| <= UsernameMaxLength
    && WithinBound(u.fullName, FullNameMaxLength)
    && PasswordMinLength <= |u.password| <= PasswordMaxLength
  }

  /** UserUpdate: every field optional; `username` and `full_name` may be set to null. */
  datatype UserUpdate = UserUpdate(
    username: Field<Option<string>>,
    isActive: Field<bool>,
    fullName: Field<Option<string>>)

  const NoUserChanges := UserUpdate(Unset, Unset, Unset)

  predicate ValidUserUpdate(u: UserUpdate) {
    && (u.username.Set? ==> WithinBound(u.username.value, UsernameMaxLength))
    && (u.fullName.Set? ==> WithinBound(u.fullName.value, FullNameMaxLength))
  }

  /** One (field, value) item of a dumped UserUpdate. */
  datatype UserAttr =
    | Username(username: Option<string>)
    | IsActive(isActive: bool)
    | FullName(fullName: Option<string>)

  /** `model_dump(exclude_unset=True)`: the set fields, in declaration order. */
  function UserUpdateItems(u: UserUpdate): seq<UserAttr> {
    (if u.username.Set? then [Username(u.username.value)] else [])
    + (if u.isActive.Set? then [IsActive(u.isActive.value)] else [])
    + (if u.fullName.Set? then [FullName(u.fullName.value)] else [])
  }

  /** The payload `u` with one more field set. */
  function WithUserAttr(u: UserUpdate, a: UserAttr): UserUpdate {
    match a
    case Username(v) => u.(username := Set(v))
    case IsActive(b) => u.(isActive := Set(b))
    case FullName(v) => u.(fullName := Set(v))
  }

  /** The payload whose set fields are `items`; a later item overrides an earlier one. */
  function UserUpdateOf(items: seq<UserAttr>): UserUpdate {
    if items == [] then NoUserChanges
    else WithUserAttr(UserUpdateOf(items[..|items| - 1]), items[|items| - 1])
  }

  lemma UserUpdateOfSnoc(items: seq<UserAttr>, a: UserAttr)
    ensures UserUpdateOf(items + [a]) == WithUserAttr(UserUpdateOf(items), a)
  {
  }

  /** Dumping a payload loses nothing: its items rebuild exactly that payload. */
  lemma UserUpdateItemsRoundTrip(u: UserUpdate)
    ensures UserUpdateOf(UserUpdateItems(u)) == u
  {
    var a := if u.username.Set? then [Username(u.username.value)] else [];
    var b := if u.isActive.Set? then [IsActive(u.isActive.value)] else [];
    var c := if u.fullName.Set? then [FullName(u.fullName.value)] else [];
    var step1 := NoUserChanges.(username := u.username);
    var step2 := step1.(isActive := u.isActive);
    if u.username.Set? { UserUpdateOfSnoc([], a[0]); assert [] + a == a; }
    assert UserUpdateOf(a) == step1;
    if u.isActive.Set? { UserUpdateOfSnoc(a, b[0]); } else { assert a + b == a; }
    assert UserUpdateOf(a + b) == step2;
    if u.fullName.Set? { UserUpdateOfSnoc(a + b, c[0]); } else { assert a + b + c == a + b; }
    assert UserUpdateItems(u) == a + b + c;
  }

  // ---------------------------------------------------------------- posts

  /** PostCreate: a post's fields, including the client-supplied `created_at` and the owner. */
  datatype PostCreate = PostCreate(
    title: string,
    content: string,
    createdAt: Time,
    ownerId: Uuid)

  predicate ValidPostCreate(p: PostCreate) {
    |p.title| <= TitleMaxLength && |p.content| <= ContentMaxLength
  }

  /** PostUpdate: `title` and `content`, each optional and nullable. */
  datatype PostUpdate = PostUpdate(
    title: Field<Option<string>>,
    content: Field<Option<string>>)

  const NoPostChanges := PostUpdate(Unset, Unset)

  predicate ValidPostUpdate(p: PostUpdate) {
    && (p.title.Set? ==> WithinBound(p.title.value, TitleMaxLength))
    && (p.content.Set? ==> WithinBound(p.content.value, ContentMaxLength))
  }

  /** One (field, value) item of a dumped PostUpdate. */
  datatype PostAttr =
    | Title(title: Option<string>)
    | Content(content: Option<string>)

  /** `model_dump(exclude_unset=True)`: the set fields, in declaration order. */
  function PostUpdateItems(p: PostUpdate): seq<PostAttr> {
    (if p.title.Set? then [Title(p.title.value)] else [])
    + (if p.content.Set? then [Content(p.content.value)] else [])
  }

  function WithPostAttr(p: PostUpdate, a: PostAttr): PostUpdate {
    match a
    case Title(v) => p.(title := Set(v))
    case Content(v) => p.(content := Set(v))
  }

  function PostUpdateOf(items: seq<PostAttr>): PostUpdate {
    if items == [] then NoPostChanges
    else WithPostAttr(PostUpdateOf(items[..|items| - 1]), items[|items| - 1])
  }

  lemma PostUpdateOfSnoc(items: seq<PostAttr>, a: PostAttr)
    ensures PostUpdateOf(items + [a]) == WithPostAttr(PostUpdateOf(items), a)
  {
  }

  /** Dumping a payload loses nothing: its items rebuild exactly that payload. */
  lemma PostUpdateItemsRoundTrip(p: PostUpdate)
    ensures PostUpdateOf(PostUpdateItems(p)) == p
  {
  }

  // ---------------------------------------------------------------- comments

  /** CommentUpdate: the new content, which is required. */
  datatype CommentUpdate = CommentUpdate(content: string)

  predicate ValidCommentUpdate(c: CommentUpdate) {
    |c.content| <= ContentMaxLength
  }
}
