/** Failure-carrying values shared by the pipeline modules. */
module Wrappers {

  /** A value that may be missing: the model's stand-in for a NaN cell. */
  datatype Option<+T> = None | Some(value: T)

  /** The outcome of a stage: a value, or the error it raised. */
  datatype Result<+R, +E> = Success(value: R) | Failure(error: E)
}
