/** Failure-carrying result types shared by the modules of this model. */
module Wrappers {

  /** Python's `None` or a present value. */
  datatype Option<T> = None | Some(value: T)

  /** A value, or the exception the Python code would raise instead. */
  datatype Result<T, E> = Success(value: T) | Failure(error: E)
}
