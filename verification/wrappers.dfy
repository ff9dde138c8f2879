/** Optional values and error-carrying results. The driver uses null handles
    where this model uses `Option`, and NTSTATUS failures where it uses `Result`. */
module Wrappers {

  /** A value that may be absent, such as a queue handle that may be null. */
  datatype Option<+T> = None | Some(value: T)

  /** Either a value or an error. */
  datatype Result<+T, +E> = Success(value: T) | Failure(error: E)
}
