/** The rows of the three tables, as the ORM objects hold them. */
module Models {
  import opened Wrappers

  /** A 128-bit UUID. */
  newtype Uuid = x: int | 0 <= x < 0x1_0000_0000_0000_0000_0000_0000_0000_0000

  /** A UTC instant, in whole seconds since the epoch; durations are in seconds too. */
  type Time = int

  /** Column and schema length bounds. */
  const UsernameMaxLength: nat := 20
  const FullNameMaxLength: nat := 40
  const TitleMaxLength: nat := 40
  const ContentMaxLength: nat := 255

  /**
   * A users row. `username` is NOT NULL in the table, but the ORM object
   * can be given None before a commit, so it is an Option here.
   */
  datatype User = User(
    id: Uuid,
    username: Option<string>,
    isActive: bool,
    fullName: Option<string>,
    hashedPassword: string,
    createdAt: Time)

  /** A posts row; `title` and `content` are NOT NULL in the table. */
  datatype Post = Post(
    id: Uuid,
    title: Option<string>,
    content: Option<string>,
    createdAt: Time,
    updatedAt: Option<Time>,
    ownerId: Uuid)

  /** A comments row, with the fields its public schema exposes. */
  datatype Comment = Comment(
    id: Uuid,
    content: string,
    ownerId: Uuid,
    postId: Uuid,
    createdAt: Time,
    lastEdited: Option<Time>)

  /** A stored user: its NOT NULL column holds a value within the schema's bound. */
  predicate WellFormedUser(u: User) {
    u.username.Some? && |u.username.value| <= UsernameMaxLength
  }

  /** A stored post: its NOT NULL columns hold values within the schema's bounds. */
  predicate WellFormedPost(p: Post) {
    && p.title.Some? && |p.title.value| <= TitleMaxLength
    && p.content.Some? && |p.content.value| <= ContentMaxLength
  }
}
