/** Option and Result, the two failure-carrying datatypes the model uses for
    JavaScript's `undefined` results and for raised exceptions. */
module Wrappers {

  datatype Option<+T> = None | Some(value: T)

  datatype Result<+R, +E> = Success(value: R) | Failure(error: E)
}
