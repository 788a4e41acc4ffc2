/** Option and Result, the shapes used for lookups that may miss and for
    operations that may fail with a user-facing error. */
module Wrappers {

  datatype Option<+T> = None | Some(value: T)

  datatype Result<+R, +E> = Success(value: R) | Failure(error: E)
}
