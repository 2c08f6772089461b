/** Optional values and results with an error, as the engine's records and loaders use them. */
module Wrappers {

  /** An optional value: Python's `Optional[T]`, with `None` for Python's `None`. */
  datatype Option<+T> = None | Some(value: T)

  /** The outcome of an operation that may raise: `Failure` stands for the exception. */
  datatype Result<+T, +E> = Success(value: T) | Failure(error: E)
}
