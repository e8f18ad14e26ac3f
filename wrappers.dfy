/** The two failure-carrying datatypes the rest of the model uses: an optional
    value (JavaScript's `undefined` versus a present value) and a result that
    is either a value or an error. */
module Wrappers {

  datatype Option<+T> = None | Some(value: T)

  datatype Result<+R, +E> = Success(value: R) | Failure(error: E)
}
