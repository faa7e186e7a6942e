/** Failure-compatible wrappers shared by the analytics modules. */
module Common {

  /** A value that may be missing: pandas' NaN for an undefined statistic. */
  datatype Option<+T> = None | Some(value: T)

  /** The failure a caller-supplied argument raises when it names no supported choice. */
  datatype Error = InvalidParameter(parameter: string, given: string)

  datatype Result<+T> = Ok(value: T) | Err(error: Error)
}
