/** Creating, reading, listing, deleting and updating posts. */
module PostService {
  import opened Wrappers
  import opened Errors
  import opened Models
  import opened Schemas
  import opened Database

  const UserDoesNotExist := HttpException(Status404NotFound, "user does not exist")
  const PostNotFound := HttpException(Status404NotFound, "Post not found")
  const PostDoesNotExist := HttpException(Status404NotFound, "Post does not exist")

  /** The row `Post(**post.model_dump())` builds; `updated_at` starts empty. */
  function NewPost(post: PostCreate, id: Uuid): Post {
    Post(id, Some(post.title), Some(post.content), post.createdAt, None, post.ownerId)
  }

  /**
   * `create_post_object`: 404 when the owner is not a user; otherwise one
   * new row with the payload's fields. The new id stands for `uuid4()`; a
   * collision would break the primary key at commit.
   */
  method CreatePostObject(session: Session, post: PostCreate, newId: Uuid) returns (r: Result<Post, Error>)
    requires session.Valid() && ValidPostCreate(post)
    modifies session
    ensures session.Valid()
    ensures session.users == old(session.users) && session.userRows == old(session.userRows)
    ensures session.comments == old(session.comments)
    ensures post.ownerId !in old(session.users) ==> r == Err(UserDoesNotExist)
    ensures post.ownerId in old(session.users) && newId in old(session.posts) ==> r == Err(IntegrityError)
    ensures r.Err? ==> session.posts == old(session.posts) && session.postRows == old(session.postRows)
    ensures r.Ok? <==> post.ownerId in old(session.users) && newId !in old(session.posts)
    ensures r.Ok? ==>
      && r.value.id == newId
      && r.value.title == Some(post.title)
      && r.value.content == Some(post.content)
      && r.value.createdAt == post.createdAt
      && r.value.updatedAt == None
      && r.value.ownerId == post.ownerId
      && session.posts == old(session.posts)[newId := r.value]
      && session.postRows == old(session.postRows) + [newId]
  {
    if post.ownerId !in session.users {
      return Err(UserDoesNotExist);
    }
    var dbPost := NewPost(post, newId);
    if newId in session.posts {
      return Err(IntegrityError);
    }
    session.posts := session.posts[newId := dbPost];
    session.postRows := session.postRows + [newId];
    r := Ok(dbPost);
  }

  /** `get_post`: 404 exactly when no post has this id, otherwise that post. */
  function GetPost(session: Session, postId: Uuid): (r: Result<Post, Error>)
    reads session
    ensures r.Err? <==> postId !in session.posts
    ensures r.Err? ==> r.error == PostNotFound
    ensures r.Ok? ==> r.value == session.posts[postId]
  {
    if postId !in session.posts then Err(PostNotFound) else Ok(session.posts[postId])
  }

  /** `get_posts`: one page of the posts table, in row order. */
  function GetPosts(session: Session, offset: int, limit: int): (r: Result<seq<Post>, Error>)
    reads session
    requires session.Valid()
    ensures r.Err? <==> !FitsInt64(offset) || !FitsInt64(limit)
    ensures r.Err? ==> r.error == OverflowError
    ensures r.Ok? && limit >= 0 ==> |r.value| <= limit
    ensures r.Ok? ==> |r.value| == |Window(session.postRows, offset, limit)|
    ensures r.Ok? ==> forall i :: 0 <= i < |r.value| ==> r.value[i] == session.posts[Window(session.postRows, offset, limit)[i]]
    ensures r.Ok? ==> forall p :: p in r.value ==> p in session.posts.Values
  {
    if !FitsInt64(offset) || !FitsInt64(limit) then Err(OverflowError)
    else Ok(RowsOf(session.posts, Window(session.postRows, offset, limit)))
  }

  /** `delete_post`: 404 when absent; otherwise exactly that post is removed. */
  method DeletePost(session: Session, postId: Uuid) returns (r: Outcome<Error>)
    requires session.Valid()
    modifies session
    ensures session.Valid()
    ensures session.users == old(session.users) && session.userRows == old(session.userRows)
    ensures session.comments == old(session.comments)
    ensures r.Fail? <==> postId !in old(session.posts)
    ensures r.Fail? ==> r.error == PostDoesNotExist
    ensures r.Fail? ==> session.posts == old(session.posts) && session.postRows == old(session.postRows)
    ensures r.Pass? ==>
      && session.posts == old(session.posts) - {postId}
      && session.postRows == Remove(old(session.postRows), postId)
  {
    if postId !in session.posts {
      return Fail(PostDoesNotExist);
    }
    session.posts := session.posts - {postId};
    session.postRows := Remove(session.postRows, postId);
    r := Pass;
  }

  /** `setattr(db_post, field, value)` for one dumped item. */
  function SetPostAttr(p: Post, a: PostAttr): Post {
    match a
    case Title(v) => p.(title := v)
    case Content(v) => p.(content := v)
  }

  /** The post with the payload's set fields overwritten and every other field kept. */
  function PatchedPost(p: Post, update: PostUpdate): Post {
    p.(title := if update.title.Set? then update.title.value else p.title,
       content := if update.content.Set? then update.content.value else p.content)
  }

  lemma PatchedPostWith(p: Post, update: PostUpdate, a: PostAttr)
    ensures PatchedPost(p, WithPostAttr(update, a)) == SetPostAttr(PatchedPost(p, update), a)
  {
  }

  /**
   * The `setattr` loop over `model_dump(exclude_unset=True)`: exactly the
   * set fields are written.
   */
  method ApplyPostUpdate(dbPost: Post, post: PostUpdate) returns (current: Post)
    ensures current == PatchedPost(dbPost, post)
    ensures current.id == dbPost.id && current.ownerId == dbPost.ownerId
    ensures current.createdAt == dbPost.createdAt && current.updatedAt == dbPost.updatedAt
    ensures current.title == if post.title.Set? then post.title.value else dbPost.title
    ensures current.content == if post.content.Set? then post.content.value else dbPost.content
  {
    var updatedData := PostUpdateItems(post);
    current := dbPost;
    for i := 0 to |updatedData|
      invariant current == PatchedPost(dbPost, PostUpdateOf(updatedData[..i]))
    {
      PatchedPostStep(dbPost, updatedData, i);
      current := SetPostAttr(current, updatedData[i]);
    }
    assert updatedData[..|updatedData|] == updatedData;
    PostUpdateItemsRoundTrip(post);
  }

  /** One turn of the setattr loop: the first `i + 1` items patch as the first `i` followed by item `i`. */
  lemma PatchedPostStep(p: Post, items: seq<PostAttr>, i: nat)
    requires i < |items|
    ensures PatchedPost(p, PostUpdateOf(items[..i + 1])) == SetPostAttr(PatchedPost(p, PostUpdateOf(items[..i])), items[i])
  {
    assert items[..i + 1] == items[..i] + [items[i]];
    PostUpdateOfSnoc(items[..i], items[i]);
    PatchedPostWith(p, PostUpdateOf(items[..i]), items[i]);
  }

  /**
   * The existence guard of `update_post` as written: `if not post` tests the
   * payload, a pydantic model that is always truthy, so it never fires.
   */
  function UpdatePostGuardAsWritten(dbPost: Option<Post>, post: PostUpdate): (r: Option<Error>)
  {
    None
  }

  /** The guard as evidently intended: `if not db_post`, 404 exactly when no row was found. */
  function UpdatePostGuard(dbPost: Option<Post>): (r: Option<Error>)
    ensures r.Some? <==> dbPost.None?
    ensures r.Some? ==> r.value == PostDoesNotExist
  {
    if dbPost.None? then Some(PostDoesNotExist) else None
  }

  /**
   * An absent id gets past the guard as written, so `setattr` is then
   * applied to None, while the intended guard reports 404.
   */
  lemma AsWrittenGuardMissesAbsentPost(post: PostUpdate)
    ensures UpdatePostGuardAsWritten(None, post) == None
    ensures UpdatePostGuard(None) == Some(PostDoesNotExist)
  {
  }

  /** What the posts table accepts at commit: both NOT NULL columns hold values. */
  predicate PostCommits(p: Post) {
    p.title.Some? && p.content.Some?
  }

  /**
   * `update_post`, with the existence guard corrected: 404 when absent;
   * otherwise the set fields are written, `updated_at` becomes `now`, and a
   * null title or content is refused at commit.
   */
  method UpdatePost(session: Session, postId: Uuid, post: PostUpdate, now: Time) returns (r: Result<Post, Error>)
    requires session.Valid() && ValidPostUpdate(post)
    modifies session
    ensures session.Valid()
    ensures session.users == old(session.users) && session.userRows == old(session.userRows)
    ensures session.postRows == old(session.postRows) && session.comments == old(session.comments)
    ensures postId !in old(session.posts) ==> r == Err(PostDoesNotExist)
    ensures postId in old(session.posts) ==>
      var patched := PatchedPost(old(session.posts)[postId], post).(updatedAt := Some(now));
      r == if PostCommits(patched) then Ok(patched) else Err(IntegrityError)
    ensures r.Err? ==> session.posts == old(session.posts)
    ensures r.Ok? ==> session.posts == old(session.posts)[postId := r.value]
  {
    var dbPost := if postId in session.posts then Some(session.posts[postId]) else None;
    var notFound := UpdatePostGuard(dbPost);
    if notFound.Some? {
      return Err(notFound.value);
    }
    var current := ApplyPostUpdate(dbPost.value, post);
    current := current.(updatedAt := Some(now));
    if !PostCommits(current) {
      return Err(IntegrityError);
    }
    session.posts := session.posts[postId := current];
    r := Ok(current);
  }
}
