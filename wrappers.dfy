/** Optional values and results with an error, as the rest of the model uses them. */
module Wrappers {

  /** Python's `None` against a present value. */
  datatype Option<+T> = None | Some(value: T)

  /** The outcome of a Python operation that may raise. */
  datatype Result<+T, +E> = Ok(value: T) | Err(error: E)
}
