/** Option and Result, used for the values the scripts return or raise. */
module Wrappers {

  datatype Option<+T> = None | Some(value: T)

  /** A value, or the error the Python code raises instead of returning. */
  datatype Result<+R, +E> = Success(value: R) | Failure(error: E)
}
