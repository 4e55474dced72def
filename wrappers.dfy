/** Option and Result values used for the pipeline's failure paths. */
module Wrappers {

  datatype Option<+T> = None | Some(value: T)

  /** A stage either completes with a value or fails with an error. */
  datatype Result<+R, +E> = Ok(value: R) | Err(error: E)
}
