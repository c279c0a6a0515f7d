/** Failure-carrying values shared by every module of the model. */
module Wrappers {

  /** A value that may be absent: Python's `None` versus a value. */
  datatype Option<T> = None | Some(value: T)

  /** The outcome of an operation that may raise: a value or the exception it raises. */
  datatype Result<T, E> = Ok(value: T) | Err(error: E)

  /** An operation with no result that may raise. */
  datatype Outcome<E> = Pass | Fail(error: E)
}
