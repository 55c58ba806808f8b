/** Optional values and results with an error, used for Go's nil pointers and
    for its (value, error) return pairs. */
module Wrappers {

  /** A possibly-absent value: `None` stands for Go's nil. */
  datatype Option<+T> = None | Some(value: T)

  /** The outcome of a constructor that validates its dependencies. */
  datatype Result<+T, +E> = Success(value: T) | Failure(error: E)
}
