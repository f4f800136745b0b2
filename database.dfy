/**
 * The relational store behind the SQLAlchemy session: one map per table,
 * keyed by primary key, and for the two tables that are listed page by
 * page the order in which a plain `SELECT` returns their rows (SQLite scans
 * a table in insertion order; an insert appends, a delete removes).
 */
module Database {
  import opened Wrappers
  import opened Models

  ghost predicate Distinct<T>(s: seq<T>) {
    forall i, j :: 0 <= i < j < |s| ==> s[i] != s[j]
  }

  /** `rows` lists every key in `keys` exactly once. */
  ghost predicate Lists(rows: seq<Uuid>, keys: set<Uuid>) {
    Distinct(rows) && forall k :: k in rows <==> k in keys
  }

  /** No two users share a username (models.py declares the column UNIQUE). */
  ghost predicate UsernamesUnique(users: map<Uuid, User>) {
    forall a, b :: a in users && b in users && users[a].username == users[b].username ==> a == b
  }

  /** The row order after deleting the row `x`: the other rows, in the same order. */
  function Remove(rows: seq<Uuid>, x: Uuid): (r: seq<Uuid>)
    ensures forall y :: y in r <==> y in rows && y != x
    ensures Distinct(rows) ==> Distinct(r)
    ensures |r| <= |rows| && (x in rows ==> |r| < |rows|)
    ensures x !in rows ==> r == rows
    ensures forall i :: 0 <= i < |rows| && rows[i] == x && Distinct(rows) ==> r == rows[..i] + rows[i + 1..]
  {
    if rows == [] then []
    else
      var tail := rows[1..];
      var rest := Remove(tail, x);
      DistinctSplit(rows);
      if rows[0] == x then
        assert rows[..0] + tail == tail;
        rest
      else
        DistinctCons(rows[0], rest);
        assert x !in rows ==> rows == [rows[0]] + tail;
        forall i | 0 < i < |rows| && rows[i] == x && Distinct(rows)
          ensures [rows[0]] + rest == rows[..i] + rows[i + 1..]
        {
          assert tail[i - 1] == x;
          SplitAfterHead(rows, i);
        }
        [rows[0]] + rest
  }

  /** A distinct list's head does not recur in its tail, which is distinct too. */
  lemma DistinctSplit(rows: seq<Uuid>)
    requires |rows| > 0
    ensures Distinct(rows) ==> rows[0] !in rows[1..] && Distinct(rows[1..])
  {
    assert forall j :: 0 <= j < |rows[1..]| ==> rows[1..][j] == rows[j + 1];
  }

  /** Putting a new key in front of a distinct list keeps it distinct. */
  lemma DistinctCons(h: Uuid, t: seq<Uuid>)
    ensures Distinct(t) && h !in t ==> Distinct([h] + t)
  {
    assert forall j :: 0 < j <= |t| ==> ([h] + t)[j] == t[j - 1];
  }

  /** Cutting out position `i > 0` of a sequence is cutting out position `i - 1` of its tail. */
  lemma SplitAfterHead(rows: seq<Uuid>, i: int)
    requires 0 < i < |rows|
    ensures rows[..i] + rows[i + 1..] == [rows[0]] + (rows[1..][..i - 1] + rows[1..][i..])
  {
    assert rows[..i] == [rows[0]] + rows[1..][..i - 1];
    assert rows[i + 1..] == rows[1..][i..];
  }

  /** Python's sqlite3 binds a query parameter as a signed 64-bit SQLite INTEGER or raises OverflowError. */
  predicate FitsInt64(x: int) {
    -0x8000_0000_0000_0000 <= x < 0x8000_0000_0000_0000
  }

  /** Where a query with OFFSET `offset` starts reading: SQLite reads a negative offset as 0. */
  function WindowStart(n: nat, offset: int): (lo: nat)
    ensures lo <= n
  {
    if offset < 0 then 0 else if offset > n then n else offset
  }

  /**
   * The rows a query with `OFFSET offset LIMIT limit` returns on SQLite:
   * a negative offset counts as zero and a negative limit sets no bound.
   */
  function Window<T>(rows: seq<T>, offset: int, limit: int): (w: seq<T>)
    ensures limit >= 0 ==> |w| <= limit
    ensures WindowStart(|rows|, offset) + |w| <= |rows|
    ensures w == rows[WindowStart(|rows|, offset)..WindowStart(|rows|, offset) + |w|]
    ensures limit < 0 ==> w == rows[WindowStart(|rows|, offset)..]
    ensures limit >= 0 && WindowStart(|rows|, offset) + limit <= |rows| ==> |w| == limit
    ensures limit >= 0 && WindowStart(|rows|, offset) + limit > |rows| ==> w == rows[WindowStart(|rows|, offset)..]
  {
    var lo := WindowStart(|rows|, offset);
    var hi := if limit < 0 || lo + limit > |rows| then |rows| else lo + limit;
    rows[lo..hi]
  }

  /** Two consecutive pages read the same rows as one page as long as both. */
  lemma PagesConcatenate<T>(rows: seq<T>, offset: nat, a: nat, b: nat)
    ensures Window(rows, offset, a) + Window(rows, offset + a, b) == Window(rows, offset, a + b)
  {
  }

  /** The records a list of primary keys names, in that order. */
  function RowsOf<K, V>(table: map<K, V>, ids: seq<K>): (r: seq<V>)
    requires forall k :: k in ids ==> k in table
    ensures |r| == |ids| && forall i :: 0 <= i < |ids| ==> r[i] == table[ids[i]]
  {
    seq(|ids|, i requires 0 <= i < |ids| => table[ids[i]])
  }

  /** The session: the committed contents of the users, posts and comments tables. */
  class Session {
    var users: map<Uuid, User>
    var userRows: seq<Uuid>
    var posts: map<Uuid, Post>
    var postRows: seq<Uuid>
    var comments: map<Uuid, Comment>

    /**
     * The instant the `User` class body ran when the process imported
     * models.py: the value its `created_at` column default holds from then on.
     */
    const createdAtDefault: Time

    /**
     * The table constraints: every row is stored under its own id, NOT NULL
     * columns hold values, usernames are unique, and every post's owner is
     * a user (the ORM refuses to delete a user who still owns posts).
     */
    ghost predicate Valid()
      reads this
    {
      && Lists(userRows, users.Keys)
      && Lists(postRows, posts.Keys)
      && (forall k :: k in users ==> users[k].id == k && WellFormedUser(users[k]))
      && UsernamesUnique(users)
      && (forall k :: k in posts ==> posts[k].id == k && WellFormedPost(posts[k]) && posts[k].ownerId in users)
      && (forall k :: k in comments ==> comments[k].id == k)
    }

    /** A freshly created database: `create_db_and_tables` on an empty file, in a process that imported models.py at `importTime`. */
    constructor (importTime: Time)
      ensures Valid()
      ensures users == map[] && userRows == [] && posts == map[] && postRows == [] && comments == map[]
      ensures createdAtDefault == importTime
    {
      createdAtDefault := importTime;
      users, userRows := map[], [];
      posts, postRows := map[], [];
      comments := map[];
    }
  }
}
