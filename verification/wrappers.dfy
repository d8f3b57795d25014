/** Failure-carrying values shared by every module of the model.
    A Python exception that escapes a function becomes a `Failure`,
    a Python `None` result becomes `None`. */
module Wrappers {

  datatype Option<+T> = None | Some(value: T)

  datatype Result<+R, +E> = Success(value: R) | Failure(error: E)
}
