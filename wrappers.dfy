/** Option and Result, the two failure-carrying shapes the model uses for the source's
    `None` returns and its raised exceptions. */
module Wrappers {

  datatype Option<+T> = None | Some(value: T)

  datatype Result<+T, +E> = Success(value: T) | Failure(error: E)
}
