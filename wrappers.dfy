/** Failure-carrying values: pandas' missing value (NaN) and the exceptions of the pipeline. */
module Wrappers {

  /** A value that may be missing: `None` stands for pandas' NaN. */
  datatype Option<+T> = None | Some(value: T) {
    function GetOr(default: T): T {
      match this
      case Some(v) => v
      case None => default
    }
  }

  /** The outcome of a step that can raise. */
  datatype Result<+R, +E> = Ok(value: R) | Err(error: E)
}
