/**
 * Client code that uses only the services' contracts: a registration, a
 * login, a token that resolves and then expires, and the comment
 * ownership rule.
 */
module Scenarios {
  import opened Wrappers
  import opened Errors
  import opened Models
  import opened Schemas
  import opened Database
  import opened Crypto
  import opened AuthenticationService
  import opened UserService
  import opened CommentService

  method RegisterLoginAndResolve(pwd: PasswordContext, jwt: JwtCodec, uuids: UuidCodec, aliceId: Uuid, bobId: Uuid, now: Time)
    requires VerifiesOwnHashes(pwd) && DecodesOwnTokens(jwt) && ParsesOwnFormat(uuids)
    requires aliceId != bobId
  {
    var session := new Session(now);
    var alice := UserRegister("alice", true, None, "correcthorse123");
    assert !UsernameTaken(session.users, "alice");
    var created := CreateUserObject(session, alice, pwd, aliceId, now);
    var u := created.value;

    AuthenticateRegisteredUser(session, pwd, aliceId, "correcthorse123");
    assert AuthenticateUser(session, pwd, "alice", "correcthorse123") == Some(u);

    assert UsernameTaken(session.users, "alice") by {
      assert session.users[aliceId].username == Some("alice");
    }
    var again := CreateUserObject(session, alice, pwd, bobId, now + 1);
    assert again == Err(UserAlreadyExist);

    var token := CreateAccessToken(jwt, DefaultSettings, map["sub" := Str(uuids.format(aliceId))], None, now);
    IssuedTokenResolves(jwt, DefaultSettings, uuids, session, aliceId, None, now, now + 60);
    assert CurrentUser(jwt, DefaultSettings, uuids, session, token, now + 60) == Ok(u);
    IssuedTokenExpires(jwt, DefaultSettings, uuids, session, map["sub" := Str(uuids.format(aliceId))], None, now, now + DefaultExpiry);
    assert CurrentUser(jwt, DefaultSettings, uuids, session, token, now + DefaultExpiry) == Err(CredentialsException);
  }

  method OnlyTheOwnerEditsAComment(ownerId: Uuid, otherId: Uuid, postId: Uuid, commentId: Uuid, now: Time)
    requires ownerId != otherId
  {
    var session := new Session(now);
    var c := Comment(commentId, "first", ownerId, postId, now, None);
    session.comments := map[commentId := c];

    var denied := UpdateComment(session, commentId, CommentUpdate("hijacked"), otherId, now + 1);
    assert denied == Err(CannotChangeComment) && session.comments[commentId] == c;

    var edited := UpdateComment(session, commentId, CommentUpdate("second"), ownerId, now + 2);
    assert edited.Ok? && session.comments[commentId].content == "second";
    assert session.comments[commentId].lastEdited == Some(now + 2);

    var kept := DeleteComment(session, commentId, otherId);
    assert kept == Fail(CannotDeleteComment) && commentId in session.comments;
    var gone := DeleteComment(session, commentId, ownerId);
    assert gone.Pass? && GetComment(session, commentId) == Err(CommentNotFound);
  }
}
