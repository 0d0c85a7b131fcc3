/** Bytes on the wire and the little-endian 16-bit fields of an LD07 frame. */
module Bytes {

  /** One octet, as a Python `bytes` element holds it. */
  type byte = x: int | 0 <= x < 256

  /** The largest value an unsigned 16-bit field (`struct` format `H`) can hold. */
  const MaxU16: int := 65535

  /** The value of an unsigned 16-bit field stored low byte first. */
  function U16Value(lo: byte, hi: byte): (v: nat)
    ensures v <= MaxU16
  {
    lo + 256 * hi
  }

  /** Packs `v` as `struct.pack("<H", v)` does: two bytes, low byte first.
      `struct.pack` refuses values outside 0..65535. */
  function U16Le(v: int): (r: seq<byte>)
    requires 0 <= v <= MaxU16
    ensures |r| == 2 && U16Value(r[0], r[1]) == v
  {
    [v % 256, v / 256]
  }

  /** Packing the value of two bytes gives back those two bytes. */
  lemma U16LeOfValue(lo: byte, hi: byte)
    ensures U16Le(U16Value(lo, hi)) == [lo, hi]
  {
  }
}
