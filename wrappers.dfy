/** Option and Result values for the error paths of the crawler. */
module Wrappers {
  datatype Option<+T> = None | Some(value: T)

  datatype Result<+T> = Ok(value: T) | Err(error: string)

  /** Outcome of a phase that either completes or raises. */
  datatype Outcome = Pass | Fail(error: string)
}
