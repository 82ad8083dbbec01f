/**
  Primitive types of the DDC node registry: bytes, 32-byte public keys,
  20-byte cluster ids, opaque account ids, and the conversion of an
  unbounded byte vector into a length-bounded one (`BoundedVec::try_from`).
 */
module Primitives {
  import opened Wrappers

  /** An unsigned 8-bit integer (`u8`). */
  newtype Byte = x: int | 0 <= x < 256

  /** A 32-byte public key (`AccountId32`), the key type of both node kinds. */
  type Key32 = s: seq<Byte> | |s| == 32 witness seq(32, _ => 0 as Byte)

  /** A cluster id (`H160`): 20 bytes. */
  type ClusterId = s: seq<Byte> | |s| == 20 witness seq(20, _ => 0 as Byte)

  /** An account id; the registry only ever compares account ids for equality. */
  type AccountId = seq<Byte>

  /**
    `BoundedVec::<u8, B>::try_from(v)`: succeeds, keeping every byte, exactly
    when `v` has at most `bound` bytes.
   */
  function TryIntoBounded(v: seq<Byte>, bound: nat): (r: Option<seq<Byte>>)
    ensures r.Some? <==> |v| <= bound
    ensures r.Some? ==> r.value == v
  {
    if |v| <= bound then Some(v) else None
  }
}
