/** Option and Result: Java's `null` and thrown exceptions, made explicit. */
module Wrappers {
  datatype Option<+T> = None | Some(value: T)

  datatype Result<+R, +E> = Success(value: R) | Failure(error: E)
}
