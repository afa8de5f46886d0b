/**
 * The last-resort error middleware of BackEnd/middleware/errorHandler.js:
 * start from the error's own status and message, let each recognised kind
 * of error overwrite both in turn, and answer `{ success: false, error,
 * stack }`.
 */
module ErrorHandler {
  import opened Wrappers
  import Text

  /**
   * The parts of a thrown error the handler reads. `fieldMessages` holds the
   * messages of a ValidationError's `errors` object in its key order;
   * `duplicateKeys` the keys of a duplicate-key error's `keyValue`.
   */
  datatype AppError = AppError(
    name: string,
    message: Option<string>,
    statusCode: Option<int>,
    code: Option<int>,
    fieldMessages: seq<string>,
    duplicateKeys: seq<string>,
    stack: string)

  datatype ErrorResponse = ErrorResponse(status: int, success: bool, error: string, stack: Option<string>)

  const DuplicateCode := 11000
  const InvalidTokenMessage := "Invalid token. Please log in again."
  const SessionExpiredMessage := "Session expired. Please log in again."

  /** `err.statusCode || 500`: a missing or zero status falls back to 500. */
  function DefaultStatus(err: AppError): int {
    if err.statusCode.Some? && err.statusCode.value != 0 then err.statusCode.value else 500
  }

  /**
   * The handler. The four checks run one after another, so when several
   * apply the last one decides: an expired token wins over everything, a
   * malformed token over a duplicate key, a duplicate key over a failed
   * validation. The stack trace is sent only when NODE_ENV is
   * "development", and `success` is always false.
   */
  method HandleError(err: AppError, nodeEnv: Option<string>) returns (resp: ErrorResponse)
    ensures !resp.success
    ensures resp.stack == if nodeEnv == Some("development") then Some(err.stack) else None
    ensures err.name == "TokenExpiredError" ==> resp.status == 401 && resp.error == SessionExpiredMessage
    ensures err.name == "JsonWebTokenError" ==> resp.status == 401 && resp.error == InvalidTokenMessage
    ensures err.name !in {"TokenExpiredError", "JsonWebTokenError"} && err.code == Some(DuplicateCode) ==>
      resp.status == 400 && resp.error == "Duplicate field value entered: " + Text.Join(err.duplicateKeys, ",")
    ensures err.name == "ValidationError" && err.code != Some(DuplicateCode) ==>
      resp.status == 400 && resp.error == Text.Join(err.fieldMessages, ", ")
    ensures err.name !in {"ValidationError", "TokenExpiredError", "JsonWebTokenError"} && err.code != Some(DuplicateCode) ==>
      resp.status == DefaultStatus(err) && resp.error == Text.OrElse(err.message, "Internal Server Error")
  {
    var statusCode := DefaultStatus(err);
    var message := Text.OrElse(err.message, "Internal Server Error");
    if err.name == "ValidationError" {
      statusCode := 400;
      message := Text.Join(err.fieldMessages, ", ");
    }
    if err.code == Some(DuplicateCode) {
      statusCode := 400;
      message := "Duplicate field value entered: " + Text.Join(err.duplicateKeys, ",");
    }
    if err.name == "JsonWebTokenError" {
      statusCode := 401;
      message := InvalidTokenMessage;
    }
    if err.name == "TokenExpiredError" {
      statusCode := 401;
      message := SessionExpiredMessage;
    }
    resp := ErrorResponse(statusCode, false, message, if nodeEnv == Some("development") then Some(err.stack) else None);
  }
}
