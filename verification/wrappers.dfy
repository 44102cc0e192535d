/** Failure-carrying values shared by the other modules. */
module Wrappers {

  /** An optional value: a field that may be unset, a fault that may be absent. */
  datatype Option<+T> = None | Some(value: T)

  /** The value of a call that either succeeds with a value or fails with an error. */
  datatype Result<+T, +E> = Success(value: T) | Failure(error: E)
}
