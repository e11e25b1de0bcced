/** Option and Result: the model's stand-ins for Python's `None` and for a raised
    validation error. */
module Wrappers {

  /** A value that may be absent, as `Product | None` is in the catalogue. */
  datatype Option<+T> = None | Some(value: T)

  /** Either a built value or the error that prevented building it. */
  datatype Result<+R, +E> = Success(value: R) | Failure(error: E)
}
