/** Small value types used by every other module. */
module Wrappers {
  /** A value that may be absent: Python's `T | None`. */
  datatype Option<+T> = None | Some(value: T)

  /** A call that returned, or raised. */
  datatype Result<+T, +E> = Ok(value: T) | Err(error: E)

  /** One octet, as stored in a file. */
  type Byte = b: int | 0 <= b < 256

  type Bytes = seq<Byte>

  /** The ASCII line feed that ends every log record. */
  const LF: Byte := 10
}
