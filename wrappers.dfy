/** Option and Result: the null / undefined values and the thrown errors of
    the modelled code. */
module Wrappers {

  /** A value that may be absent: JavaScript `null`/`undefined`, Python `None`. */
  datatype Option<+T> = None | Some(value: T) {
    function GetOr(default: T): T {
      match this
      case Some(v) => v
      case None => default
    }
  }

  /** The outcome of an operation that may throw: `Ok` carries the value,
      `Err` the reason of the rejection. */
  datatype Result<+R, +E> = Ok(value: R) | Err(error: E)
}
