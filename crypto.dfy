/**
 * The foreign libraries the authentication service calls, kept
 * uninterpreted as function values: passlib's bcrypt context, PyJWT and
 * Python's UUID parsing. What the model assumes of them is stated as
 * predicates that lemmas require.
 */
module Crypto {
  import opened Wrappers
  import opened Models

  /** `pwd_context`: bcrypt hashing and verification. */
  datatype PasswordContext = PasswordContext(
    hash: string -> string,
    verify: (string, string) -> bool)

  /** A password verifies against its own hash. */
  ghost predicate VerifiesOwnHashes(pwd: PasswordContext) {
    forall p :: pwd.verify(p, pwd.hash(p))
  }

  /** A JSON value in a token payload. */
  datatype ClaimValue = Null | Str(s: string) | Num(n: int)

  /** A token payload, the dict passed to `jwt.encode`. */
  type Claims = map<string, ClaimValue>

  /**
   * PyJWT: `encode(claims, key, algorithm)` signs a payload, and
   * `decode(token, key, algorithm, now)` yields the payload when the
   * signature verifies and the token is not expired at `now`.
   */
  datatype JwtCodec = JwtCodec(
    encode: (Claims, string, string) -> string,
    decode: (string, string, string, Time) -> Option<Claims>)

  /** PyJWT's expiry rule: a token with an `exp` claim is valid strictly before it. */
  predicate NotExpired(c: Claims, now: Time) {
    "exp" in c ==> c["exp"].Num? && now < c["exp"].n
  }

  /**
   * The other registered claims PyJWT checks without being asked: a payload
   * with no `aud` (no audience is passed to `decode`) and no `nbf`, whose
   * `iat`, if present, is an integer not later than `now`, and whose `sub`
   * and `jti`, if present, are strings (checked from PyJWT 2.10 on).
   */
  predicate PassesOtherClaimChecks(c: Claims, now: Time) {
    && "aud" !in c && "nbf" !in c
    && ("iat" in c ==> c["iat"].Num? && c["iat"].n <= now)
    && ("sub" in c ==> c["sub"].Str?)
    && ("jti" in c ==> c["jti"].Str?)
  }

  /**
   * PyJWT checks `iat` and `nbf` before `exp`, reading each with `int(...)`
   * and catching only ValueError: a JSON null there raises TypeError, which
   * is no InvalidTokenError, so such a payload never reaches the expiry check.
   */
  predicate ReachesExpiryCheck(c: Claims) {
    ("iat" in c ==> c["iat"] != Null) && ("nbf" in c ==> c["nbf"] != Null)
  }

  /** A payload whose integer `exp` is not later than `now`: PyJWT refuses it as expired. */
  predicate ExpiredAt(c: Claims, now: Time) {
    "exp" in c && c["exp"].Num? && c["exp"].n <= now
  }

  /**
   * Decoding a token this codec signed with the same key refuses it once its
   * integer `exp` has passed (when no null `iat` or `nbf` makes PyJWT raise
   * first), and gives back its payload while it carries no
   * `exp` or an integer one still in the future and passes the other claim
   * checks. Nothing is assumed of any other payload (an `exp` that is a
   * string of digits, say, which PyJWT reads with `int(...)`).
   */
  ghost predicate DecodesOwnTokens(jwt: JwtCodec) {
    forall c: Claims, key: string, alg: string, now: Time ::
      (ExpiredAt(c, now) && ReachesExpiryCheck(c) ==> jwt.decode(jwt.encode(c, key, alg), key, alg, now) == None) &&
      (NotExpired(c, now) && PassesOtherClaimChecks(c, now) ==> jwt.decode(jwt.encode(c, key, alg), key, alg, now) == Some(c))
  }

  /** `DecodesOwnTokens` at one payload, key, algorithm and instant. */
  lemma DecodeOwnToken(jwt: JwtCodec, c: Claims, key: string, alg: string, now: Time)
    requires DecodesOwnTokens(jwt)
    ensures ExpiredAt(c, now) && ReachesExpiryCheck(c) ==> jwt.decode(jwt.encode(c, key, alg), key, alg, now) == None
    ensures NotExpired(c, now) && PassesOtherClaimChecks(c, now) ==> jwt.decode(jwt.encode(c, key, alg), key, alg, now) == Some(c)
  {
  }

  /** `UUID(s)` parses a string, `str(u)` prints one. */
  datatype UuidCodec = UuidCodec(
    parse: string -> Option<Uuid>,
    format: Uuid -> string)

  ghost predicate ParsesOwnFormat(uuids: UuidCodec) {
    forall id :: uuids.parse(uuids.format(id)) == Some(id)
  }

  /** The settings the authentication service reads at import time. */
  datatype Settings = Settings(
    jwtSecretKey: string,
    jwtAlgorithm: string,
    accessTokenExpireMinutes: int)

  /** The defaults used when the environment sets nothing. */
  const DefaultSettings := Settings("defaultsecret", "HS256", 15)
}
