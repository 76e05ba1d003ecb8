/** Shared value types. */
module Wrappers {
  datatype Option<+T> = None | Some(value: T) {
    function GetOr(default: T): T {
      match this
      case Some(v) => v
      case None => default
    }
  }

  newtype byte = x: int | 0 <= x < 256

  type Bytes = seq<byte>

  type UInt32 = n: nat | n < 0x1_0000_0000
}
