/** Bytes, and the little arithmetic several modules share. */
module Octets {
  type Byte = b: int | 0 <= b < 256

  function Least(a: nat, b: nat): nat { if a < b then a else b }
}
