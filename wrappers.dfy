/** Option and Result, used for the empty-handle sentinel and for .NET exceptions
    that escape a conversion. */
module Wrappers {

  datatype Option<+T> = None | Some(value: T)

  datatype Result<+R, +E> = Success(value: R) | Failure(error: E)
}
