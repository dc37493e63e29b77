/** Optional values and results, standing for JavaScript's `undefined` fields and thrown errors. */
module Wrappers {

  /** A value that may be absent: `None` is a field that is `undefined` in the record. */
  datatype Option<+T> = None | Some(value: T) {

    /** `x || d` for a field whose present values are all truthy. */
    function GetOr(default: T): T {
      match this
      case Some(v) => v
      case None => default
    }
  }

  /** The outcome of a computation that may throw. */
  datatype Result<+T, +E> = Ok(value: T) | Err(error: E)
}
