/** Option and Result values used throughout the model in place of Ruby's nil and raised errors. */
module Wrappers {

  /** A value that may be absent; `None` stands for Ruby's `nil` and for SQL `NULL`. */
  datatype Option<+T> = None | Some(value: T)

  /** The outcome of an operation that can raise. */
  datatype Result<+R, +E> = Success(value: R) | Failure(error: E)
}
