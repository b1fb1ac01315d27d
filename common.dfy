/** Values shared by every part of the model: optional values, the errors the
    services raise (an HTTP status and a message), and results that carry
    either a value or such an error. */
module Common {

  datatype Option<+T> = None | Some(value: T)

  /** An error as the services raise it: `e.status` (or the Nest exception's
      status) and its message. Errors raised by the database engine itself
      carry no status and are answered with 500 by the error handlers. */
  datatype Error = Error(status: nat, message: string)

  datatype Result<+T> = Ok(value: T) | Err(error: Error)

  const INTERNAL_ERROR: nat := 500

  /** A JSON number arrives as a real; it is whole when it has no fractional
      part. */
  predicate IsWhole(x: real) {
    x.Floor as real == x
  }
}
