/** The optional value and the two-way service outcome used throughout the model. */
module Wrappers {

  /** A value that may be missing: TypeScript's `T | null` or `T | undefined`. */
  datatype Option<+T> = None | Some(value: T)

  /** The single settlement of a service call: its `next` value or its `error` value. */
  datatype Result<+T, +E> = Success(value: T) | Failure(error: E)
}
