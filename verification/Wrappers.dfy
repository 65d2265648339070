/** Bytes, and optional values and results where the program returns `Option` or `Result`. */
module Wrappers {

  type Byte = b: int | 0 <= b < 0x100

  datatype Option<+T> = None | Some(value: T)

  datatype Result<+T, +E> = Ok(value: T) | Err(error: E)
}
