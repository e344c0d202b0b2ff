/** The two failure-carrying wrappers the model uses: an optional value
    (an environment variable that may be unset) and a result that is either
    a value or the error a Python call would raise. */
module Wrappers {

  datatype Option<+T> = None | Some(value: T)

  datatype Result<+R, +E> = Success(value: R) | Failure(error: E)
}
