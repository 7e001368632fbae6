/** Option and Result, the two failure-carrying wrappers the model uses for
    Go's `value, ok` lookups, nil interface values and `value, err` returns. */
module Wrappers {

  datatype Option<+T> = None | Some(value: T)

  datatype Result<+R, +E> = Success(value: R) | Failure(error: E)
}
