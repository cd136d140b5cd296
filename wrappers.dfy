/** Option and Result, and the exception kinds the modelled code raises. */
module Wrappers {

  datatype Option<+T> = None | Some(value: T)

  /** The Python exceptions the core raises on its error paths. */
  datatype Error =
    | KeyError            // empty path on the root holder, or no node for a path
    | IndexError          // `name` of the empty path
    | NotImplementedError // unsupported operand of `in`
    | AssertionError      // a failed `assert` in the source
    | SyntaxError         // a unit that does not parse

  datatype Result<+T> = Ok(value: T) | Err(error: Error)
}
