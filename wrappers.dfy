/** Option and Result: the two failure-carrying shapes the model uses for
    absent JSON fields and for operations that throw in the source. */
module Wrappers {

  datatype Option<+T> = None | Some(value: T)

  datatype Result<+R, +E> = Success(value: R) | Failure(error: E)
}
