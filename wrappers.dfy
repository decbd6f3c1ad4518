/** Option and Result, used for the source's nullable values and its thrown exceptions. */
module Wrappers {

  /** A value that may be absent (a C# null or a Nullable<T> without a value). */
  datatype Option<+T> = None | Some(value: T)

  /** The value of an operation that either completes or throws. */
  datatype Result<+R, +E> = Success(value: R) | Failure(error: E)
}
