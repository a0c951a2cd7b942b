/** Option and Result, used for the places where the Python code returns
    "nothing yet" (an empty dict) or raises an exception. */
module Wrappers {

  datatype Option<+T> = None | Some(value: T)

  datatype Result<+R, +E> = Success(value: R) | Failure(error: E)
}
