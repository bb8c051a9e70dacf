/** Option and Result, the two failure-carrying shapes the pipeline needs. */
module Wrappers {

  /** `None` stands for a missing or NaN cell. */
  datatype Option<+T> = None | Some(value: T)

  /** The outcome of a step that may raise. */
  datatype Result<+R, +E> = Ok(value: R) | Err(error: E)
}
