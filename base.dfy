/** Failure-compatible wrappers shared by the other modules. */
module Base {
  /** A value that may be absent (Python's None, pandas' NaN). */
  datatype Option<+T> = None | Some(value: T)

  /** The outcome of an operation that can be refused with an error. */
  datatype Result<+T, +E> = Success(value: T) | Failure(error: E)
}
