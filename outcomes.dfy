/** Optional values and error-carrying results, used for Go's `(value, error)` returns. */
module Outcomes {

  datatype Option<+T> = None | Some(value: T)

  datatype Result<+T> = Success(value: T) | Failure(error: string)
}
