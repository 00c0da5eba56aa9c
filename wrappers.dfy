/** Failure-carrying values used in place of the ledger's exceptions. */
module Wrappers {

  /** A value that may be absent: an unknown price, a failed replay step. */
  datatype Option<+T> = None | Some(value: T)

  /** The result of an operation that produces a value or fails with an error. */
  datatype Result<+R, +E> = Success(value: R) | Failure(error: E)

  /** The result of an operation that only succeeds or fails with an error. */
  datatype Outcome<+E> = Pass | Fail(error: E)
}
