/** Option and Result values: the model's `null` and its success-or-failure outcomes. */
module Wrappers {

  /** A value that may be absent; `None` stands for JavaScript's `null` and `undefined`. */
  datatype Option<+T> = None | Some(value: T)

  /** The outcome of an operation that may fail, as a rejected promise does. */
  datatype Result<+R, +E> = Success(value: R) | Failure(error: E)
}
