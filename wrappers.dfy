/** Option and Result, used for the optional stack context of an origin and
    for the error path of printing. */
module Wrappers {

  datatype Option<+T> = None | Some(value: T)

  datatype Result<+R, +E> = Success(value: R) | Failure(error: E)
}
