/** Failure-compatible wrappers used in place of JavaScript's `null` and thrown errors. */
module Wrappers {

  /** `None` plays the role of a `null` reference. */
  datatype Option<+T> = None | Some(value: T)

  /** `Failure` stands for a TypeError the JavaScript code would throw. */
  datatype Result<+T, +E> = Success(value: T) | Failure(error: E)
}
