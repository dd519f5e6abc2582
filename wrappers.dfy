/** Option and Result values for the error paths of the pipeline (a raised
    exception becomes a Failure carrying what was raised). */
module Wrappers {

  datatype Option<+T> = None | Some(value: T)

  datatype Result<+T, +E> = Success(value: T) | Failure(error: E)
}
