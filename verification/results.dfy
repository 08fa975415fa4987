/** Failure-carrying datatypes used in place of Python's `None` and exceptions. */
module Results {

  /** A value that may be absent (Python's `None`). */
  datatype Option<+T> = None | Some(value: T)

  /** Either a successful value or the error an operation raised. */
  datatype Result<+T, +E> = Success(value: T) | Failure(error: E)
}
