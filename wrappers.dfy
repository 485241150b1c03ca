/** Failure-carrying values shared by the modules of this model. */
module Wrappers {

  /** A value that may be absent; a Go `error` that may be nil is an `Option` of that error. */
  datatype Option<+T> = None | Some(value: T)

  /** Either a value or the error that prevented it, as Go's `(T, error)` return pairs. */
  datatype Result<+R, +E> = Success(value: R) | Failure(error: E)
}
