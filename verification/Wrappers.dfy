/** The two result shapes every other module uses. */
module Wrappers {

  /** A column or lookup that may hold nothing. */
  datatype Option<+T> = None | Some(value: T) {
    function GetOr(default: T): T {
      if Some? then value else default
    }
  }

  /** The outcome of an operation the program can refuse. */
  datatype Result<+T> = Ok(value: T) | Err(message: string)
}
