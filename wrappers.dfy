/** Option and Result, used for SQL lookups that may return no row and for the
    ValueError exceptions the managers raise. */
module Wrappers {

  datatype Option<+T> = None | Some(value: T)

  datatype Result<+R, +E> = Success(value: R) | Failure(error: E)
}
