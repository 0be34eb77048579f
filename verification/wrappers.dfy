/** Option and Result, used for Python's `None` and for the exceptions the
    modelled code raises (`KeyError`, `ZeroDivisionError`). */
module Wrappers {

  datatype Option<+T> = None | Some(value: T)

  datatype Result<+R, +E> = Success(value: R) | Failure(error: E)

}
