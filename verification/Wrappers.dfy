/** Option and Result, used wherever the program returns None or reports an error value. */
module Wrappers {
  datatype Option<+T> = None | Some(value: T)

  datatype Result<+T> = Ok(value: T) | Err(message: string)
}
