/** Small result types shared by every module. */
module Wrappers {

  datatype Option<+T> = None | Some(value: T)

  /** A handler's outcome: a wire value, or the JSON-RPC error code sent to the caller. */
  datatype Result<+T> = Ok(value: T) | Err(code: int)
}
