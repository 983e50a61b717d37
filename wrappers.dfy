/** Option and Result values shared by the other modules. */
module Wrappers {

  /** A value that may be absent; in JavaScript terms, `undefined` or NaN. */
  datatype Option<+T> = None | Some(value: T)

  /** The outcome of an operation that resolves with a value or rejects with an error. */
  datatype Result<+T, +E> = Success(value: T) | Failure(error: E)
}
