/** Optional values and results with an error, used for the nullable
    columns of the price table and for the HTTP errors of the backend. */
module Wrappers {

  datatype Option<+T> = None | Some(value: T)

  datatype Result<+R, +E> = Success(value: R) | Failure(error: E)
}
