/** Optional values and results with an error branch, used where the
    client meets `null`/`undefined` or a rejected promise. */
module Wrappers {

  datatype Option<+T> = None | Some(value: T)

  datatype Result<+T, +E> = Success(value: T) | Failure(error: E)
}
