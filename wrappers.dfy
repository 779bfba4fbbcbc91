/** Failure-compatible wrappers used throughout the model: an absent JavaScript
    value (`null`/`undefined`) is `None`, a thrown error or an error response is
    `Failure`. */
module Wrappers {

  datatype Option<+T> = None | Some(value: T)

  datatype Result<+R, +E> = Success(value: R) | Failure(error: E)
}
