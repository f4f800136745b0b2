# mini-social-media backend services, modelled in Dafny

This project models the service layer of the mini-social-media FastAPI backend: the
authentication service (credential check, access-token issue, resolving a bearer token to
the current active user) and the user, post and comment services. Each service operation
either raises a specific error or makes a precise change to the committed contents of the
database session.

## Structure

- `wrappers.dfy` (`Wrappers`): `Option`, `Result`, `Outcome`.
- `errors.dfy` (`Errors`): `HttpException(status, detail)` for FastAPI's exceptions, and the
  Python exceptions that escape the services uncaught (`ValueError` from `UUID(...)`,
  pydantic's `ValidationError`, SQLAlchemy's `IntegrityError` when a commit breaks a
  constraint, sqlite3's `OverflowError` for a query integer outside 64 bits).
- `models.dfy` (`Models`): the `User`, `Post` and `Comment` rows; UUIDs are 128-bit integers,
  instants are whole seconds.
- `schemas.dfy` (`Schemas`): the pydantic payloads, their length bounds as predicates, and
  `model_dump(exclude_unset=True)` as the list of explicitly set fields.
- `database.dfy` (`Database`): class `Session` with one map per table, keyed by primary key,
  plus the row order of the users and posts tables; `Valid()` holds the table constraints.
  `Window` is SQLite's `OFFSET`/`LIMIT`.
- `crypto.dfy` (`Crypto`): bcrypt, PyJWT and UUID parsing as function values, with the
  properties the proofs assume of them stated as predicates.
- `authentication_service.dfy`, `user_service.dfy`, `post_service.dfy`,
  `comment_service.dfy`: one module per service file.
- `scenarios.dfy`: client code that registers a user, logs in, resolves and then outlives a
  token, and exercises the comment ownership rules, relying only on the contracts.

Modelling choices:

- Time is a parameter `now`. Fresh ids (`uuid4()`) are parameters too. A collision with an
  existing id is reported as the primary-key `IntegrityError` the commit would raise.
- The store constraints from `backend/models/models.py` are modelled at commit: `username`
  is NOT NULL and UNIQUE, and `title`, `content` and `owner_id` of a post are NOT NULL. A rejected
  commit stores nothing. SQLite enforces no foreign keys, so the only owner check on a post is
  the service's own.
- Deleting a user who owns posts fails. The `User.posts` relationship has no delete cascade,
  so SQLAlchemy sets those posts' `owner_id` to NULL at flush, and the NOT NULL column refuses
  it. This is why "every post's owner is a user" is part of `Session.Valid()`.
- The listing queries have no `ORDER BY`. The model reads rows in insertion order, which is
  how SQLite scans such a table. A negative offset counts as 0. A negative limit sets no
  bound, because the routers only cap `limit` from above (`le=100`). So "at most `limit` rows"
  holds only for `limit >= 0`. SQLite binds `OFFSET` and `LIMIT` as signed 64-bit integers,
  and Python's sqlite3 raises `OverflowError` for a value outside that range.
- backend/models/models.py declares no `Comment` table; the `Comment` row follows
  `CommentPublic`.
- The model follows the code's own behaviour, including where it is surprising:
  - A zero `expires_delta` is falsy, so the token gets the 15-minute default rather than
    expiring at once.
  - A `sub` that is not a UUID string raises `ValueError` from `UUID(...)` (line 68, outside
    the `try`) rather than a 401.
  - When `jwt.decode` hands back a payload whose `sub` is not a string, `TokenData`
    validation raises a pydantic error that `except InvalidTokenError` does not catch. PyJWT
    releases before 2.10 return such a payload. From 2.10 on, PyJWT refuses the token inside
    `decode`, which the model's `decode` returning `None` covers: the result is then 401.
  - No refresh-token code exists, so none is modelled.

## Model

| member | source | states |
|---|---|---|
| `Database.Session.constructor` | backend/database.py:15-16 | a new database has empty tables and satisfies every table constraint; it records the instant models.py was imported |
| `Database.Remove` | backend/services/user_service.py:67-68 | deleting a row leaves every other row in the same order (the list unchanged when the row was absent, the list with just that position cut out when the rows are distinct), no duplicates, and strictly fewer rows when it was there |
| `Database.Window` | backend/services/user_service.py:41-42 | an OFFSET/LIMIT query returns a contiguous run of rows starting at the clamped offset; at most `limit` rows when `limit >= 0`, exactly `limit` when enough rows remain, and the whole rest when the limit is negative (the callers read a window only for values inside SQLite's 64-bit range) |
| `Database.PagesConcatenate` | backend/services/post_service.py:26-28 | two consecutive pages hold exactly the rows of one page as long as both: paging skips and repeats nothing |
| `Schemas.UserUpdateItemsRoundTrip` | backend/services/user_service.py:75 | the dumped set fields of a user payload rebuild exactly that payload |
| `Schemas.PostUpdateItemsRoundTrip` | backend/services/post_service.py:43 | the dumped set fields of a post payload rebuild exactly that payload |
| `AuthenticationService.GetUser` | backend/services/authentication_service.py:35-38 | returns exactly the stored user with that username, or None when there is none |
| `AuthenticationService.AuthenticateUser` | backend/services/authentication_service.py:84-90 | None (the source's `False`) when the username is unknown and the same None when the password does not verify; otherwise exactly the stored user with that username, whose hash the password verifies |
| `AuthenticationService.AuthenticateRegisteredUser` | backend/services/authentication_service.py:78-90 | a stored user whose hash is `hash_password(p)` authenticates with `p`, given that bcrypt verifies its own hashes |
| `AuthenticationService.ExpiryDelta` | backend/services/authentication_service.py:42-45 | the lifetime is the given delta when it is non-zero, and 15 minutes when it is absent or zero |
| `AuthenticationService.AccessClaims` | backend/services/authentication_service.py:40-48 | the signed payload has the caller's keys plus `exp` and `iat`, `exp = now + delta`, `iat = now`, and every other claim the caller gave unchanged |
| `AuthenticationService.CreateAccessToken` | backend/services/authentication_service.py:40-50 | the token is the signature, under the configured key and algorithm, of exactly that payload |
| `AuthenticationService.Subject` | backend/services/authentication_service.py:61-62 | the subject is missing exactly when `sub` is absent or null |
| `AuthenticationService.GetCurrentUser` | backend/services/authentication_service.py:53-71 | 401 when decoding fails, `sub` is missing, or no user has that id; a validation error for a non-string `sub` and `ValueError` for a non-UUID one; otherwise exactly the stored user with that id |
| `AuthenticationService.GetCurrentActiveUser` | backend/services/authentication_service.py:73-76 | 400 "Inactive user" exactly when the user is inactive; otherwise that same user |
| `AuthenticationService.CurrentUser` | backend/services/authentication_service.py:92 | a token failure propagates unchanged; a resolved inactive user gives 400; a token that resolves to an active user gives exactly that user, and success happens only that way |
| `AuthenticationService.IssuedTokenResolves` | backend/services/authentication_service.py:40-71 | from the instant it is issued until it expires, the token issued for `{"sub": str(id)}` resolves to the user with that id, or gives 401 once that user is gone |
| `AuthenticationService.IssuedTokenExpires` | backend/services/authentication_service.py:42-66 | from `iat + delta` on (15 minutes by default), an issued token is refused with 401 whatever the caller's data carries, as long as that data has no null `nbf` |
| `UserService.CreateUserObjectAsWritten` | backend/models/models.py:15 | `create_user_object` with the column default as declared: the same outcomes as `CreateUserObject`, but a new row's `created_at` is the process's import-time instant whatever `now` is |
| `UserService.AsWrittenCreatedAtIgnoresClock` | backend/models/models.py:15 | two users registered in one process at different instants both get the import-time `created_at` |
| `UserService.CreatedAtFollowsClock` | backend/services/user_service.py:24-37 | with the corrected per-insert default, the same two registrations get `created_at` equal to their own instants, which differ |
| `UserService.CreateUserObject` | backend/services/user_service.py:24-37 | 409 with the store unchanged when the username is taken; otherwise one new user whose fields come from the payload, whose hash is `hash_password(password)`, no plaintext stored; usernames stay unique |
| `UserService.ReadUser` | backend/services/user_service.py:55-60 | 404 exactly when the id is absent; otherwise that stored user |
| `UserService.ReadUsersFromDb` | backend/services/user_service.py:39-43 | `OverflowError` exactly when the offset or the limit lies outside the signed 64-bit range; otherwise the users of one OFFSET/LIMIT window of the table, in row order, at most `limit` of them when `limit >= 0` |
| `UserService.DeleteUser` | backend/services/user_service.py:62-68 | 404 when absent; `IntegrityError` when the user still owns posts; both leave the store unchanged; otherwise exactly that user is removed and nothing else changes |
| `UserService.ApplyUserUpdate` | backend/services/user_service.py:75-77 | the setattr loop overwrites exactly the fields the payload set and keeps id, hash, creation time and every unset field |
| `UserService.PatchedUserWith` | backend/services/user_service.py:76-77 | one more setattr equals patching with a payload that has one more field set |
| `UserService.PatchedUserIdempotent` | backend/services/user_service.py:70-82 | applying the same update twice gives what applying it once does |
| `UserService.PatchedUserNoChanges` | backend/services/user_service.py:75-77 | an empty payload leaves the user unchanged |
| `UserService.UpdateUser` | backend/services/user_service.py:70-82 | 404 when absent; otherwise the patched user is stored, unless its username is null or held by another user, which the commit refuses (there is no 409 of its own); other users unchanged |
| `PostService.CreatePostObject` | backend/services/post_service.py:9-18 | 404 with the store unchanged when the owner is not a user; otherwise exactly one new post with the payload's fields and an existing owner |
| `PostService.GetPost` | backend/services/post_service.py:20-24 | 404 exactly when the post is absent; otherwise that post |
| `PostService.GetPosts` | backend/services/post_service.py:26-28 | `OverflowError` exactly when the offset or the limit lies outside the signed 64-bit range; otherwise the posts of one OFFSET/LIMIT window, in row order, at most `limit` of them when `limit >= 0` |
| `PostService.DeletePost` | backend/services/post_service.py:30-36 | 404 exactly when absent, with the store unchanged; otherwise exactly that post is removed |
| `PostService.PatchedPostWith` | backend/services/post_service.py:44-45 | one more setattr equals patching with a payload that has one more field set |
| `PostService.ApplyPostUpdate` | backend/services/post_service.py:43-45 | the setattr loop overwrites exactly the set fields and keeps id, owner and timestamps |
| `PostService.UpdatePostGuard` | backend/services/post_service.py:39-41 | the corrected guard reports 404 "Post does not exist" exactly when no row was found |
| `PostService.AsWrittenGuardMissesAbsentPost` | backend/services/post_service.py:39-41 | the guard as written lets an absent id through, where the corrected one reports 404 |
| `PostService.UpdatePost` | backend/services/post_service.py:38-52 | 404 when absent; otherwise the set fields are overwritten and `updated_at` becomes `now`; a null title or content is refused at commit; other posts unchanged |
| `CommentService.GetComment` | backend/services/comment_service.py:8-12 | 404 exactly when the comment is absent; otherwise that comment |
| `CommentService.UpdateComment` | backend/services/comment_service.py:14-28 | 404 before 403; both leave the store unchanged; for the owner, `content` is replaced and `last_edited = now` while owner, post and every other comment stay unchanged |
| `CommentService.DeleteComment` | backend/services/comment_service.py:30-39 | 404 on an absent id and 403 on a non-owner, store unchanged; otherwise exactly that comment is removed; no one else's comment changes |

## Findings

| source | as written | input that shows it | evidently intended | confidence | as-written member | corrected member |
|---|---|---|---|---|---|---|
| backend/services/post_service.py:40 | `if not post:` tests the payload, which as a pydantic model is always truthy | `update_post` with an id that has no row: the guard passes and `setattr(None, ...)` raises `AttributeError` | `if not db_post:` → 404 "Post does not exist" | high; not executed | `PostService.UpdatePostGuardAsWritten`, `PostService.AsWrittenGuardMissesAbsentPost` | `PostService.UpdatePostGuard`, used by `PostService.UpdatePost` |
| backend/models/models.py:15 | `default=datetime.now(timezone.utc)` is evaluated once, when the class is defined | two registrations at instants t1 ≠ t2 get the same `created_at` (the import time) | a callable default, stamping each row when it is inserted | high; not executed | `UserService.CreateUserObjectAsWritten`, `UserService.AsWrittenCreatedAtIgnoresClock` | `UserService.CreateUserObject`, with `UserService.CreatedAtFollowsClock` |

## Left out

- Refresh tokens, token rotation and logout: no backend code implements them.
- `read_user_including_counts`: it calls `get_likes_and_comments_count`, which
  user_service.py:7 imports from post_service.py, and post_service.py does not define it.
- Comment creation and the post-scoped comment routes: the router calls post-service
  functions that do not exist.
- The routers, FastAPI dependency injection, CORS, settings loading and engine/session
  plumbing. `session.refresh` and transactions are not modelled, and neither are concurrent
  requests.
- bcrypt, PyJWT and UUID parsing are function values. Their behaviour is assumed only where a
  lemma requires `VerifiesOwnHashes`, `DecodesOwnTokens` or `ParsesOwnFormat`. bcrypt's random
  salt is not modelled: `hash` is a function of the password alone.
- PyJWT's claim checks are not modelled one by one. `DecodesOwnTokens` states only two
  things of PyJWT:
  - A token whose `exp` is an integer not later than `now` is refused, provided no null `iat`
    or `nbf` makes PyJWT raise before it reaches `exp` (`ReachesExpiryCheck`).
  - A token comes back with its payload when it passes every check PyJWT makes. That needs no
    `exp` or an integer one in the future, no `aud` or `nbf`, an integer `iat` not later than
    `now`, and a string `sub` and `jti` (`PassesOtherClaimChecks`).
  Nothing is assumed of any other payload, for instance an `exp` that is a string of digits,
  which PyJWT reads with `int(...)`. So the issued-token lemmas cover the integer `exp` this
  service writes and no other.
- Exceptions from `jwt.decode` other than `InvalidTokenError` are not modelled. Such an
  exception escapes `get_current_user` instead of becoming a 401. One example is the
  `TypeError` from `int(None)` on a null `iat` or `nbf`. `decode` returns either a payload or
  `None`, and `DecodesOwnTokens` assumes nothing of those payloads.
- The `WWW-Authenticate: Bearer` header of the 401 credentials error: `HttpException` keeps
  only the status and the detail.
- Sub-second time and time zones: instants are whole UTC seconds.
- CreateAccessToken: `exp` and `iat` come from one instant `now`. The source reads the clock
  twice, so its `iat` can be a moment later than the instant `exp` was computed from.
- `ACCESS_TOKEN_EXPIRE_MINUTES` is read from settings but never used; the 15-minute default is
  the literal in `create_access_token`.
- What deleting a user or a post does to their comments: the comment table's declaration is
  not part of this model, so comments are left as they were.
- Length bounds are not enforced by SQLite. They hold because pydantic validates each payload
  before the service runs, which the services' `requires` clauses state. The `full_name`
  bound is not tracked in the store invariant.
