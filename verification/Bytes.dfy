module Bytes {
  /** A byte. */
  type byte = x: int | 0 <= x < 256

  /** The bytes `[at, at + |with_|)` replaced. */
  function Patch(bytes: seq<byte>, at: nat, with_: seq<byte>): seq<byte>
    requires at + |with_| <= |bytes|
  {
    bytes[..at] + with_ + bytes[at + |with_|..]
  }
}
