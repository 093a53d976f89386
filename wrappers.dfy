/** Option and Result, the two shapes in which the application reports "nothing found" and
    "the operation was refused with a message". */
module Wrappers {

  datatype Option<+T> = None | Some(value: T)

  datatype Result<+R, +E> = Success(value: R) | Failure(error: E)
}
