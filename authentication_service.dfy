/**
 * Credential checks, access-token issue and the resolution of a bearer
 * token to the current (active) user.
 */
module AuthenticationService {
  import opened Wrappers
  import opened Errors
  import opened Models
  import opened Database
  import opened Crypto

  /** The exception every token failure is reported as. */
  const CredentialsException := HttpException(Status401Unauthorized, "Could not validate credentials")
  const InactiveUserException := HttpException(Status400BadRequest, "Inactive user")

  /** `timedelta(minutes=15)`, the lifetime used when the caller gives no usable delta. */
  const DefaultExpiry: int := 15 * 60

  /** `get_user`: the user with this username, if any. */
  function GetUser(session: Session, username: string): (r: Option<User>)
    reads session
    requires session.Valid()
    ensures forall u :: r == Some(u) <==> u in session.users.Values && u.username == Some(username)
  {
    if exists k :: k in session.users && session.users[k].username == Some(username) then
      var k :| k in session.users && session.users[k].username == Some(username);
      Some(session.users[k])
    else
      None
  }

  /**
   * `authenticate_user`: the stored user when the username exists and the
   * password verifies against its hash; otherwise the one value None (the
   * source's `False`) whichever check failed, so a caller cannot tell the
   * two apart.
   */
  function AuthenticateUser(session: Session, pwd: PasswordContext, username: string, plainPassword: string): (r: Option<User>)
    reads session
    requires session.Valid()
    ensures GetUser(session, username).None? ==> r == None
    ensures GetUser(session, username).Some? && !pwd.verify(plainPassword, GetUser(session, username).value.hashedPassword) ==> r == None
    ensures forall u :: r == Some(u) <==>
      u in session.users.Values && u.username == Some(username) && pwd.verify(plainPassword, u.hashedPassword)
  {
    var user := GetUser(session, username);
    if user.None? then None
    else if !pwd.verify(plainPassword, user.value.hashedPassword) then None
    else user
  }

  /** Registered credentials authenticate: a stored user whose hash is that of `p` logs in with `p`. */
  lemma AuthenticateRegisteredUser(session: Session, pwd: PasswordContext, k: Uuid, p: string)
    requires session.Valid() && VerifiesOwnHashes(pwd)
    requires k in session.users && session.users[k].hashedPassword == pwd.hash(p)
    ensures AuthenticateUser(session, pwd, session.users[k].username.value, p) == Some(session.users[k])
  {
  }

  /** `if expires_delta:` — a zero timedelta is falsy, so it too gets the default. */
  function ExpiryDelta(expiresDelta: Option<int>): (d: int)
    ensures expiresDelta == None || expiresDelta == Some(0) ==> d == DefaultExpiry
    ensures expiresDelta.Some? && expiresDelta.value != 0 ==> d == expiresDelta.value
  {
    if expiresDelta.Some? && expiresDelta.value != 0 then expiresDelta.value else DefaultExpiry
  }

  /**
   * The payload `create_access_token` signs: a copy of the caller's data
   * with `exp` and `iat` set, overriding any the data already held.
   */
  function AccessClaims(data: Claims, expiresDelta: Option<int>, now: Time): (c: Claims)
    ensures c.Keys == data.Keys + {"exp", "iat"}
    ensures c["exp"] == Num(now + ExpiryDelta(expiresDelta)) && c["iat"] == Num(now)
    ensures forall k :: k in data && k != "exp" && k != "iat" ==> c[k] == data[k]
  {
    data["exp" := Num(now + ExpiryDelta(expiresDelta))]["iat" := Num(now)]
  }

  /**
   * `create_access_token`: builds the payload step by step and signs it.
   * `data` is a value, so the caller's dict cannot be changed.
   */
  method CreateAccessToken(jwt: JwtCodec, settings: Settings, data: Claims, expiresDelta: Option<int>, now: Time)
    returns (encoded: string)
    ensures encoded == jwt.encode(AccessClaims(data, expiresDelta, now), settings.jwtSecretKey, settings.jwtAlgorithm)
  {
    var toEncode := data;
    var expire;
    if expiresDelta.Some? && expiresDelta.value != 0 {
      expire := now + expiresDelta.value;
    } else {
      expire := now + DefaultExpiry;
    }
    var issuedAt := now;
    toEncode := toEncode["exp" := Num(expire)];
    toEncode := toEncode["iat" := Num(issuedAt)];
    encoded := jwt.encode(toEncode, settings.jwtSecretKey, settings.jwtAlgorithm);
  }

  /** `payload.get("sub")`, with a JSON null read as missing, as the `is None` test does. */
  function Subject(payload: Claims): (v: Option<ClaimValue>)
    ensures v.None? <==> "sub" !in payload || payload["sub"] == Null
    ensures v.Some? ==> v.value == payload["sub"]
  {
    if "sub" in payload && payload["sub"] != Null then Some(payload["sub"]) else None
  }

  /** The subject claim of `token` once it has been decoded, if decoding succeeds and the claim is there. */
  function TokenSubject(jwt: JwtCodec, settings: Settings, token: string, now: Time): Option<ClaimValue> {
    match jwt.decode(token, settings.jwtSecretKey, settings.jwtAlgorithm, now)
    case None => None
    case Some(payload) => Subject(payload)
  }

  /**
   * `get_current_user`: 401 when the token does not decode, has no subject
   * or names no user. A subject that is not a string fails TokenData's
   * validation, and a string that is not a UUID fails `UUID(...)`; neither
   * is an InvalidTokenError, so neither becomes a 401.
   */
  function GetCurrentUser(jwt: JwtCodec, settings: Settings, uuids: UuidCodec, session: Session, token: string, now: Time)
    : (r: Result<User, Error>)
    reads session
    requires session.Valid()
    ensures TokenSubject(jwt, settings, token, now).None? ==> r == Err(CredentialsException)
    ensures TokenSubject(jwt, settings, token, now).Some? && !TokenSubject(jwt, settings, token, now).value.Str? ==>
      r == Err(ValidationError)
    ensures forall s :: TokenSubject(jwt, settings, token, now) == Some(Str(s)) && uuids.parse(s).None? ==>
      r == Err(ValueError)
    ensures forall s, id :: TokenSubject(jwt, settings, token, now) == Some(Str(s)) && uuids.parse(s) == Some(id) ==>
      r == if id in session.users then Ok(session.users[id]) else Err(CredentialsException)
    ensures r.Ok? ==> r.value.id in session.users && session.users[r.value.id] == r.value
  {
    match jwt.decode(token, settings.jwtSecretKey, settings.jwtAlgorithm, now)
    case None => Err(CredentialsException)
    case Some(payload) =>
      var userId := Subject(payload);
      if userId.None? then Err(CredentialsException)
      else if !userId.value.Str? then Err(ValidationError)
      else
        match uuids.parse(userId.value.s)
        case None => Err(ValueError)
        case Some(id) =>
          if id in session.users then Ok(session.users[id]) else Err(CredentialsException)
  }

  /** `get_current_active_user`: 400 exactly when the user is inactive, else that same user. */
  function GetCurrentActiveUser(currentUser: User): (r: Result<User, Error>)
    ensures r.Err? <==> !currentUser.isActive
    ensures r.Err? ==> r.error == InactiveUserException
    ensures r.Ok? ==> r.value == currentUser
  {
    if !currentUser.isActive then Err(InactiveUserException) else Ok(currentUser)
  }

  /** `CurrentUser`: the dependency chain token -> user -> active user. */
  function CurrentUser(jwt: JwtCodec, settings: Settings, uuids: UuidCodec, session: Session, token: string, now: Time)
    : (r: Result<User, Error>)
    reads session
    requires session.Valid()
    ensures GetCurrentUser(jwt, settings, uuids, session, token, now).Err? ==> r == GetCurrentUser(jwt, settings, uuids, session, token, now)
    ensures r.Ok? ==> r == GetCurrentUser(jwt, settings, uuids, session, token, now) && r.value.isActive
    ensures forall u :: GetCurrentUser(jwt, settings, uuids, session, token, now) == Ok(u) && !u.isActive ==>
      r == Err(InactiveUserException)
    ensures forall u :: GetCurrentUser(jwt, settings, uuids, session, token, now) == Ok(u) && u.isActive ==>
      r == Ok(u)
  {
    var user := GetCurrentUser(jwt, settings, uuids, session, token, now);
    if user.Err? then user else GetCurrentActiveUser(user.value)
  }

  /** The token signed for `{"sub": str(id)}` at `issuedAt`. */
  function SubjectToken(jwt: JwtCodec, settings: Settings, uuids: UuidCodec, id: Uuid, expiresDelta: Option<int>, issuedAt: Time): string {
    jwt.encode(AccessClaims(map["sub" := Str(uuids.format(id))], expiresDelta, issuedAt), settings.jwtSecretKey, settings.jwtAlgorithm)
  }

  /** From the instant it is issued until it expires, the token issued for a user's id resolves to that user as long as the user exists. */
  lemma IssuedTokenResolves(jwt: JwtCodec, settings: Settings, uuids: UuidCodec, session: Session, id: Uuid,
                            expiresDelta: Option<int>, issuedAt: Time, now: Time)
    requires session.Valid() && DecodesOwnTokens(jwt) && ParsesOwnFormat(uuids)
    requires issuedAt <= now < issuedAt + ExpiryDelta(expiresDelta)
    ensures GetCurrentUser(jwt, settings, uuids, session, SubjectToken(jwt, settings, uuids, id, expiresDelta, issuedAt), now)
      == if id in session.users then Ok(session.users[id]) else Err(CredentialsException)
  {
    var c := AccessClaims(map["sub" := Str(uuids.format(id))], expiresDelta, issuedAt);
    assert c.Keys == {"sub", "exp", "iat"};
    assert NotExpired(c, now) && PassesOtherClaimChecks(c, now);
    DecodeOwnToken(jwt, c, settings.jwtSecretKey, settings.jwtAlgorithm, now);
    assert jwt.decode(jwt.encode(c, settings.jwtSecretKey, settings.jwtAlgorithm), settings.jwtSecretKey, settings.jwtAlgorithm, now) == Some(c);
  }

  /**
   * From its expiry on, a token this service issued is refused with 401,
   * whatever the caller's data carries besides a null `nbf` (on which PyJWT
   * raises TypeError before it looks at `exp`).
   */
  lemma IssuedTokenExpires(jwt: JwtCodec, settings: Settings, uuids: UuidCodec, session: Session, data: Claims,
                           expiresDelta: Option<int>, issuedAt: Time, now: Time)
    requires session.Valid() && DecodesOwnTokens(jwt)
    requires "nbf" in data ==> data["nbf"] != Null
    requires issuedAt + ExpiryDelta(expiresDelta) <= now
    ensures GetCurrentUser(jwt, settings, uuids, session,
      jwt.encode(AccessClaims(data, expiresDelta, issuedAt), settings.jwtSecretKey, settings.jwtAlgorithm), now)
      == Err(CredentialsException)
  {
    var c := AccessClaims(data, expiresDelta, issuedAt);
    assert ExpiredAt(c, now) && ReachesExpiryCheck(c);
    DecodeOwnToken(jwt, c, settings.jwtSecretKey, settings.jwtAlgorithm, now);
    assert jwt.decode(jwt.encode(c, settings.jwtSecretKey, settings.jwtAlgorithm), settings.jwtSecretKey, settings.jwtAlgorithm, now) == None;
  }
}
