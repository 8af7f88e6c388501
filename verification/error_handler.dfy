/** The error-handling middleware of backend/middleware/errorHandler.js:
    every error a handler passes to `next(error)` becomes one status and one
    `error` text, and an unmatched route becomes a 404 that echoes the path. */
module ErrorHandler {
  import opened Common

  /** The fields of a thrown error the handler looks at. `code` is the
      PostgreSQL SQLSTATE of a database error; `name` is the error class
      name; `status` and `message` are the generic fallbacks. None stands
      for undefined; '' and 0 are still falsy. */
  datatype AppError = AppError(code: Option<string>, name: Option<string>, status: Option<nat>, message: Option<string>)

  /** A database error carrying only a SQLSTATE code. */
  function DbError(code: string): AppError {
    AppError(Some(code), None, None, None)
  }

  const UniqueViolation := "23505"
  const ForeignKeyViolation := "23503"
  const NotNullViolation := "23502"
  const CheckViolation := "23514"

  /** The reply for a database error with a truthy code: the switch on `err.code`. */
  function CodeReply(code: string): (r: Reply<()>)
    ensures r.Failure?
    ensures r.status == 409 <==> code == UniqueViolation
    ensures r.status == 400 <==> code in [ForeignKeyViolation, NotNullViolation, CheckViolation]
    ensures r.status == 500 <==> code !in [UniqueViolation, ForeignKeyViolation, NotNullViolation, CheckViolation]
    ensures code == UniqueViolation ==> r == Failure(409, "Duplicate entry")
    ensures code == ForeignKeyViolation ==> r == Failure(400, "Referenced record does not exist")
    ensures code == NotNullViolation ==> r == Failure(400, "Required field missing")
    ensures code == CheckViolation ==> r == Failure(400, "Invalid data")
    ensures r.status == 500 ==> r.error == "Database error"
  {
    if code == UniqueViolation then Failure(409, "Duplicate entry")
    else if code == ForeignKeyViolation then Failure(400, "Referenced record does not exist")
    else if code == NotNullViolation then Failure(400, "Required field missing")
    else if code == CheckViolation then Failure(400, "Invalid data")
    else Failure(500, "Database error")
  }

  /** errorHandler: a truthy code decides alone; then the JWT error names,
      then ValidationError; otherwise `err.status || 500` with
      `err.message || 'Internal server error'`. */
  function HandleError(err: AppError): (r: Reply<()>)
    ensures r.Failure?
    ensures Truthy(err.code) ==> r == CodeReply(err.code.value)
    ensures !Truthy(err.code) && err.name == Some("JsonWebTokenError") ==> r == Failure(401, "Invalid token")
    ensures !Truthy(err.code) && err.name == Some("TokenExpiredError") ==> r == Failure(401, "Token expired")
    ensures !Truthy(err.code) && err.name == Some("ValidationError") ==> r == Failure(400, "Validation error")
    ensures !Truthy(err.code) && err.name !in {Some("JsonWebTokenError"), Some("TokenExpiredError"), Some("ValidationError")} ==>
              r.status == (if TruthyInt(err.status) then err.status.value else 500) &&
              r.error == OrElse(err.message, "Internal server error")
  {
    if Truthy(err.code) then CodeReply(err.code.value)
    else if err.name == Some("JsonWebTokenError") then Failure(401, "Invalid token")
    else if err.name == Some("TokenExpiredError") then Failure(401, "Token expired")
    else if err.name == Some("ValidationError") then Failure(400, "Validation error")
    else
      Failure(if TruthyInt(err.status) then err.status.value else 500,
              OrElse(err.message, "Internal server error"))
  }

  /** Two errors with the same truthy code get the same reply, whatever
      their names, statuses and messages: the name rules are never reached. */
  lemma CodeDecidesAlone(e1: AppError, e2: AppError)
    requires Truthy(e1.code) && e1.code == e2.code
    ensures HandleError(e1) == HandleError(e2)
    ensures HandleError(e1).status in {400, 409, 500}
  {
  }

  /** A database error is never reported as an authentication failure. */
  lemma DbErrorsNeverUnauthorized(code: string)
    requires code != ""
    ensures HandleError(DbError(code)).status != 401
  {
  }

  /** The 404 body of `notFound`: a fixed text and the requested path. */
  datatype RouteMissing = RouteMissing(status: nat, error: string, path: string)

  function NotFound(originalUrl: string): (r: RouteMissing)
    ensures r.status == 404 && r.error == "Route not found" && r.path == originalUrl
  {
    RouteMissing(404, "Route not found", originalUrl)
  }
}
