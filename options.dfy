/** Option and Result wrappers used across the model. */
module Options {

  /** A value that may be absent (C#'s null reference). */
  datatype Option<+T> = None | Some(value: T)

  /** The outcome of an operation that may fail with an error value. */
  datatype Result<+T, +E> = Success(value: T) | Failure(error: E)
}
