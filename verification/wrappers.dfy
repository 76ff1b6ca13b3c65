/** The two wrappers used throughout the model: an absent value
    (JavaScript `undefined`) and the outcome of an operation that can fail. */
module Wrappers {

  /** `None` stands for a value that is absent or `undefined`. */
  datatype Option<+T> = None | Some(value: T)

  /** The outcome of a call that either produces a value or reports an error. */
  datatype Result<+R, +E> = Success(value: R) | Failure(error: E)
}
