/** Optional values and success/failure results shared by the scanner model. */
module Wrappers {

  /** A value that may be absent; the Python code uses `None` for this. */
  datatype Option<+T> = None | Some(value: T)

  /** The outcome of a step that can raise in the Python code. */
  datatype Result<+T, +E> = Success(value: T) | Failure(error: E)
}
