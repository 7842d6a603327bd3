/** Optional values and success-or-error results, used wherever the Go code
    returns a value together with an error or may have nothing to return. */
module Wrappers {

  datatype Option<+T> = None | Some(value: T)

  datatype Result<+T, +E> = Success(value: T) | Failure(error: E)
}
