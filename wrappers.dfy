/** Failure-compatible wrappers used throughout the model. */
module Wrappers {

  /** A value that may be missing: a nullable column or a query that found nothing. */
  datatype Option<+T> = None | Some(value: T)

  /** The outcome of an operation that either returns a value or raises a typed error. */
  datatype Result<+T, +E> = Ok(value: T) | Err(error: E)
}
