/** Failure-carrying result types used for the source's exceptions and missing data. */
module Wrappers {

  /** A value that may be absent (a missing file, an undefined `i`, a non-list slot). */
  datatype Option<T> = None | Some(value: T)

  /** The outcome of an operation that raises in the source: `Failure` names the exception. */
  datatype Result<T> = Success(value: T) | Failure(error: string)
}
