/** Failure-carrying results used by the model in place of the exceptions the
    classifier's entry points raise. */
module Wrappers {

  datatype Option<+T> = None | Some(value: T)

  datatype Result<+R, +E> = Success(value: R) | Failure(error: E)

  /** A result without a value: the call either went through or failed with `error`. */
  datatype Outcome<+E> = Pass | Fail(error: E)
}
