/** Option and Result, the failure-carrying values used throughout the model. */
module Wrappers {

  datatype Option<+T> = None | Some(value: T)

  datatype Result<+R, +E> = Success(value: R) | Failure(error: E)

  /** JavaScript truthiness of a value that is either absent or a string:
      `undefined`, `null` and `''` are falsy, every other string is truthy. */
  predicate Truthy(s: Option<string>) {
    s.Some? && s.value != ""
  }
}
