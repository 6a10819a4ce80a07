/** Option and Result, used for Python's `None` and for raised exceptions. */
module Wrappers {

  datatype Option<+T> = None | Some(value: T)

  /** The outcome of a Python call: the value it returns, or the exception it raises. */
  datatype Result<+T, +E> = Success(value: T) | Failure(error: E)
}
