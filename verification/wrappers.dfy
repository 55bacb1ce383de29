/** Failure-carrying values shared by the rest of the model. */
module Wrappers {

  /** A value that may be missing: JavaScript's `null`/`undefined` results. */
  datatype Option<+T> = None | Some(value: T)

  /** Either a value or the exception that a JavaScript call would have thrown. */
  datatype Result<+R, +E> = Success(value: R) | Failure(error: E)
}
