/** Bytes, and those with a meaning to more than one reader. */
module Bytes {
  type Byte = b: int | 0 <= b < 256

  const LF: Byte := 10
  const CR: Byte := 13
  const COLON: Byte := 58
}
