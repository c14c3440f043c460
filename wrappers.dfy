/** Option and Result, the two failure-carrying datatypes the model uses. */
module Wrappers {

  /** A value that may be absent (Python's `None`). */
  datatype Option<T> = None | Some(value: T)

  /** The outcome of an operation that may fail with an error of type E. */
  datatype Result<T, E> = Ok(value: T) | Err(error: E)
}
