/** Option and Result datatypes used by the account-management model. */
module Wrappers {

  /** A value that may be absent: a key missing from a record, or a call that raised. */
  datatype Option<+T> = None | Some(value: T)

  /** The outcome of an operation that either produces a value or stops with an error. */
  datatype Result<+R, +E> = Success(value: R) | Failure(error: E)
}
