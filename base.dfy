/**
 * Vocabulary shared by every part of the model: optional values, results,
 * bytes, and the server's Status (an error code plus a reason string).
 */
module Base {

  datatype Option<+T> = None | Some(value: T)

  datatype Result<+T, +E> = Ok(value: T) | Err(error: E)

  /** One octet of a wire buffer. */
  type byte = b: int | 0 <= b < 256

  /** The error categories that the resharding retry loop tests for. */
  datatype ErrorCategory =
    | RetriableError
    | CursorInvalidatedError
    | CancellationError
    | NotPrimaryError

  /**
   * The error codes the modelled code names. `Coded` stands for any other
   * code, carrying its number and the categories the error-code table
   * puts it in.
   */
  datatype ErrorCode =
    | OK
    | BadValue
    | InternalError
    | Interrupted
    | CallbackCanceled
    | ShutdownInProgress
    | ExceededTimeLimit
    | TransportSessionClosed
    | Coded(number: int, categories: set<ErrorCategory>)

  /**
   * The categories of each named code. The error-code table is defined
   * outside this model: only CallbackCanceled is given its category, and
   * the other named codes are assumed to have none.
   */
  function Categories(c: ErrorCode): set<ErrorCategory>
  {
    match c
    case Coded(_, cats) => cats
    case CallbackCanceled => {CancellationError}
    case _ => {}
  }

  datatype Status = Status(code: ErrorCode, reason: string) {
    predicate IsOK() { code == OK }
    predicate IsA(category: ErrorCategory) { category in Categories(code) }
  }

  /** `Status::OK()`. */
  const StatusOK: Status := Status(OK, "")
}
