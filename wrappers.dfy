/** Failure-carrying values shared by the modules of the model. */
module Wrappers {

  /** `undefined`-or-value, as the optional fields of a record and `Array.prototype.find` return it. */
  datatype Option<+T> = None | Some(value: T)

  /** The outcome of an operation that can throw: its value, or the error it raised. */
  datatype Result<+R, +E> = Success(value: R) | Failure(error: E)
}
