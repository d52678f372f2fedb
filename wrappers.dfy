/** Optional values and failure-carrying results, used for JavaScript's
    `undefined` / optional properties and for operations that throw. */
module Wrappers {

  /** A value that may be absent (`undefined` in the source). */
  datatype Option<+T> = None | Some(value: T)

  /** The outcome of an operation that either returns a value or throws an
      error of type `E`. */
  datatype Result<+T, +E> = Ok(value: T) | Err(error: E)
}
