/** Optional values and results with an error, used for the values the source
    leaves undefined or null and for the errors its handlers return. */
module Wrappers {

  datatype Option<+T> = None | Some(value: T)

  datatype Result<+T, +E> = Success(value: T) | Failure(error: E)
}
