// The result shapes and the number ranges every module shares.
module Wrappers {
  datatype Option<+T> = None | Some(value: T)

  datatype Result<+T, +E> = Ok(value: T) | Err(error: E)

  type Byte = b: int | 0 <= b < 256

  const U64_MAX := 0xFFFF_FFFF_FFFF_FFFF
}
