/** Optional values and success-or-error results shared by the connector model. */
module Wrappers {

  /** A value that may be absent; stands for a Java reference that may be null. */
  datatype Option<T> = None | Some(value: T)

  /** The value of an operation that returns a value or throws. */
  datatype Result<T, E> = Success(value: T) | Failure(error: E)

  /** The value of a `void` operation that returns normally or throws. */
  datatype Outcome<E> = Pass | Fail(error: E)
}
