/** Optional values and results, used where the Go code returns (value, ok) or (value, error). */
module Outcomes {
  datatype Option<+T> = None | Some(value: T)

  datatype Result<+T, +E> = Success(value: T) | Failure(error: E)
}
