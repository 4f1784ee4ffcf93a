/** Option, Outcome and Result: the model's stand-ins for Python's `None`
    and for the exceptions the engine raises. */
module Wrappers {

  datatype Option<+T> = None | Some(value: T)

  /** The result of an operation that either completes or raises. */
  datatype Outcome<+E> = Pass | Fail(error: E)

  /** The result of an operation that returns a value or raises. */
  datatype Result<+R, +E> = Success(value: R) | Failure(error: E)
}
