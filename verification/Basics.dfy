/** Small datatypes shared by every module. */
module Basics {

  /** A value that JavaScript would leave `undefined`. */
  datatype Option<+T> = None | Some(value: T)

  type Byte = b: nat | b < 256

  function Max(a: int, b: int): int {
    if a >= b then a else b
  }

  function Min(a: int, b: int): int {
    if a <= b then a else b
  }
}
