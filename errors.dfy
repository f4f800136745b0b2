/** The failures the services raise, told apart as a caller sees them. */
module Errors {

  const Status400BadRequest: nat := 400
  const Status401Unauthorized: nat := 401
  const Status403Forbidden: nat := 403
  const Status404NotFound: nat := 404
  const Status409Conflict: nat := 409

  datatype Error =
      /** FastAPI's HTTPException: a status code and its detail message. */
    | HttpException(status: nat, detail: string)
      /** UUID(...) was given a string that is not a UUID. */
    | ValueError
      /** pydantic refused to build a model from the given value. */
    | ValidationError
      /** The commit broke a table constraint (primary key, NOT NULL, UNIQUE). */
    | IntegrityError
      /** sqlite3 could not bind an integer outside SQLite's 64-bit range. */
    | OverflowError
}
