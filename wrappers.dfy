/** Failure-compatible wrappers shared by the modules of the map model. */
module Wrappers {

  /** `None` stands for JavaScript's `null`/`undefined` where the scripts use them as "no value". */
  datatype Option<+T> = None | Some(value: T)

  /** The outcome of an operation that may throw. */
  datatype Result<+T, +E> = Success(value: T) | Failure(error: E)
}
