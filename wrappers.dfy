/** Failure-carrying return values: the model's stand-in for C++ exceptions. */
module Wrappers {

  datatype Option<+T> = None | Some(value: T)

  /** The value of a call that either returns `value` or throws `error`. */
  datatype Result<+R, +E> = Success(value: R) | Failure(error: E)

  /** The value of a `void` call that either returns or throws `error`. */
  datatype Outcome<+E> = Pass | Fail(error: E)
}
