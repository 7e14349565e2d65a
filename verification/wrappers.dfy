/** Optional values and fallible results, used for storage reads and for the
    handlers that throw on a missing item. */
module Wrappers {

  datatype Option<+T> = None | Some(value: T)

  datatype Result<+R, +E> = Success(value: R) | Failure(error: E)
}
