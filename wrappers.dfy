/** Failure-carrying values shared by the node model. */
module Wrappers {

  /** A value that may be missing, as a host call that reports a failed status does. */
  datatype Option<+T> = None | Some(value: T)

  /** Either a computed value or the reason it could not be computed. */
  datatype Result<+R, +E> = Ok(value: R) | Err(error: E)
}
