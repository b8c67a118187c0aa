/** Optional values and error results used by the navigation model. */
module Wrappers {

  /** A value that may be absent, such as an unset `minDate` or `maxDate` prop. */
  datatype Option<+T> = None | Some(value: T)

  /** The outcome of an operation that can throw. */
  datatype Result<+R, +E> = Success(value: R) | Failure(error: E)
}
