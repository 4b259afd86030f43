/** Failure-carrying datatypes shared by the codec and the adapter.
    Errors are values here, never exceptions: every operation that can fail
    returns a Result, and an optional error slot is an Option. */
module Wrappers {

  datatype Option<+T> = None | Some(value: T)

  datatype Result<+R, +E> = Success(value: R) | Failure(error: E)
}
