/** The failure outcomes of the legacy session layer: the exception classes its
    operations raise, plus the generic I/O fault that store errors are turned into. */
module Exceptions {

  datatype SessionError =
    | InvalidCookie          // the cookie could not be decoded or its signature did not verify
    | UnknownSession         // no matching session (or user, or nickname) row
    | SessionExpired         // the session's validity window is over
    | SessionCreationFailed  // create was refused, or persisting the new rows failed
    | IOError                // any other fault raised by the store backend

  /** Either the value an operation returns or the exception it raises. */
  datatype Result<+T> = Success(value: T) | Failure(error: SessionError)
}
