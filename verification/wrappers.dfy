/** The `Option` and `Result` datatypes used across the model. */
module Wrappers {

  /** A value that may be absent (a JavaScript `null`, or a field a record does not carry). */
  datatype Option<+T> = None | Some(value: T)

  /** The outcome of a step that can throw: `Success` carries the value, `Failure` the error. */
  datatype Result<+R, +E> = Success(value: R) | Failure(error: E)
}
