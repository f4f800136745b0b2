/** Reading, editing and deleting comments; only a comment's owner may change it. */
module CommentService {
  import opened Wrappers
  import opened Errors
  import opened Models
  import opened Schemas
  import opened Database

  const CommentNotFound := HttpException(Status404NotFound, "comment not found")
  const CannotChangeComment := HttpException(Status403Forbidden, "cannot change comment with a different user")
  const CannotDeleteComment := HttpException(Status403Forbidden, "cannot delete comment with a different user")

  /** `get_comment`: 404 exactly when no comment has this id, otherwise that comment. */
  function GetComment(session: Session, commentId: Uuid): (r: Result<Comment, Error>)
    reads session
    ensures r.Err? <==> commentId !in session.comments
    ensures r.Err? ==> r.error == CommentNotFound
    ensures r.Ok? ==> r.value == session.comments[commentId]
  {
    if commentId !in session.comments then Err(CommentNotFound) else Ok(session.comments[commentId])
  }

  /** The comments of everyone but `ownerId` are the same in both tables. */
  ghost predicate OthersUntouched(before: map<Uuid, Comment>, after: map<Uuid, Comment>, ownerId: Uuid) {
    forall k :: k in before && before[k].ownerId != ownerId ==> k in after && after[k] == before[k]
  }

  /**
   * `update_comment`: 404 when absent, checked before 403 when the caller
   * does not own it; otherwise the content is replaced and `last_edited`
   * becomes `now`, and nothing else changes.
   */
  method UpdateComment(session: Session, commentId: Uuid, comment: CommentUpdate, ownerId: Uuid, now: Time)
    returns (r: Result<Comment, Error>)
    requires session.Valid() && ValidCommentUpdate(comment)
    modifies session
    ensures session.Valid()
    ensures session.users == old(session.users) && session.userRows == old(session.userRows)
    ensures session.posts == old(session.posts) && session.postRows == old(session.postRows)
    ensures commentId !in old(session.comments) ==> r == Err(CommentNotFound)
    ensures commentId in old(session.comments) && old(session.comments)[commentId].ownerId != ownerId ==>
      r == Err(CannotChangeComment)
    ensures r.Err? ==> session.comments == old(session.comments)
    ensures r.Ok? <==> commentId in old(session.comments) && old(session.comments)[commentId].ownerId == ownerId
    ensures r.Ok? ==>
      && r.value == old(session.comments)[commentId].(content := comment.content, lastEdited := Some(now))
      && session.comments == old(session.comments)[commentId := r.value]
    ensures OthersUntouched(old(session.comments), session.comments, ownerId)
  {
    if commentId !in session.comments {
      return Err(CommentNotFound);
    }
    var dbComment := session.comments[commentId];
    if dbComment.ownerId != ownerId {
      return Err(CannotChangeComment);
    }
    dbComment := dbComment.(content := comment.content);
    dbComment := dbComment.(lastEdited := Some(now));
    session.comments := session.comments[commentId := dbComment];
    r := Ok(dbComment);
  }

  /**
   * `delete_comment`: 404 when absent, then 403 when the caller does not own
   * it, the table unchanged in both cases; otherwise exactly that comment
   * is removed.
   */
  method DeleteComment(session: Session, commentId: Uuid, ownerId: Uuid) returns (r: Outcome<Error>)
    requires session.Valid()
    modifies session
    ensures session.Valid()
    ensures session.users == old(session.users) && session.userRows == old(session.userRows)
    ensures session.posts == old(session.posts) && session.postRows == old(session.postRows)
    ensures commentId !in old(session.comments) ==> r == Fail(CommentNotFound)
    ensures commentId in old(session.comments) && old(session.comments)[commentId].ownerId != ownerId ==>
      r == Fail(CannotDeleteComment)
    ensures r.Fail? ==> session.comments == old(session.comments)
    ensures r.Pass? <==> commentId in old(session.comments) && old(session.comments)[commentId].ownerId == ownerId
    ensures r.Pass? ==> session.comments == old(session.comments) - {commentId}
    ensures OthersUntouched(old(session.comments), session.comments, ownerId)
  {
    if commentId !in session.comments {
      return Fail(CommentNotFound);
    }
    var dbComment := session.comments[commentId];
    if dbComment.ownerId != ownerId {
      return Fail(CannotDeleteComment);
    }
    session.comments := session.comments - {commentId};
    r := Pass;
  }
}
