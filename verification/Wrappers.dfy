/** Stock datatypes shared by every module. */
module Wrappers {

  /** A nullable column or an optional argument. */
  datatype Option<+T> = None | Some(value: T)

  /** What a store method hands back: a value, or the error it threw. */
  datatype Result<+T, +E> = Ok(value: T) | Err(error: E)
}
