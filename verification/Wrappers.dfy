/** Outcome types for the source's exceptions and absent values. */
module Wrappers {

  datatype Option<+T> = None | Some(value: T) {
    function GetOr(default: T): T {
      if Some? then value else default
    }
  }

  /** A Python function either returns a value or raises. */
  datatype Result<+T> = Ok(value: T) | Raised
}
