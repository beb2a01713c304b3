/** Fixed-width integers, little-endian byte encodings and C strings. */
module Bytes {

  const TWO_32: int := 0x1_0000_0000
  const TWO_31: int := 0x8000_0000

  type byte = x: int | 0 <= x < 256
  type u32 = x: int | 0 <= x < 0x1_0000_0000
  type i32 = x: int | -0x8000_0000 <= x < 0x8000_0000

  /** A C string's contents: the bytes before its terminating NUL. */
  predicate NoNul(s: seq<byte>) {
    forall i :: 0 <= i < |s| ==> s[i] != 0
  }

  type CString = s: seq<byte> | NoNul(s)

  /** The four bytes of `v` in little-endian order (the layout of a
      uint32_t on the little-endian hosts the tool runs on). */
  function Le32(v: u32): (b: seq<byte>)
    ensures |b| == 4
  {
    [v % 256, (v / 256) % 256, (v / 65536) % 256, v / 16777216]
  }

  /** The uint32_t whose little-endian layout is `b`. */
  function FromLe32(b: seq<byte>): (v: u32)
    requires |b| == 4
  {
    b[0] as int + 256 * b[1] as int + 65536 * b[2] as int + 16777216 * b[3] as int
  }

  lemma FromLe32Le32(v: u32)
    ensures FromLe32(Le32(v)) == v
  {
    var b := Le32(v);
    var q1 := v / 256;
    var q2 := q1 / 256;
    assert v == b[0] + 256 * q1;
    assert q1 == b[1] + 256 * q2;
    assert q2 == b[2] as int + 256 * b[3] as int by {
      assert v / 65536 == q2;
      assert v / 16777216 == q2 / 256;
    }
  }

  lemma Le32FromLe32(b: seq<byte>)
    requires |b| == 4
    ensures Le32(FromLe32(b)) == b
  {
    var v := FromLe32(b);
    var b0, b1, b2, b3 := b[0] as int, b[1] as int, b[2] as int, b[3] as int;
    var hi := b1 + 256 * b2 + 65536 * b3;
    assert v == b0 + 256 * hi;
    assert v % 256 == b0 && v / 256 == hi;
    var hi2 := b2 + 256 * b3;
    assert hi == b1 + 256 * hi2;
    assert v / 65536 == hi2 by {
      assert v == (b0 + 256 * b1) + 65536 * hi2;
    }
    assert v / 16777216 == b3 by {
      assert v == (b0 + 256 * b1 + 65536 * b2) + 16777216 * b3;
    }
  }

  /** Two's-complement bit pattern of an int32_t. */
  function I32Bits(x: i32): (v: u32) {
    if x < 0 then x + TWO_32 else x
  }

  /** The int32_t with bit pattern `v`. */
  function I32FromBits(v: u32): (x: i32) {
    if v < TWO_31 then v else v - TWO_32
  }

  lemma I32BitsRoundTrip(x: i32, v: u32)
    ensures I32FromBits(I32Bits(x)) == x
    ensures I32Bits(I32FromBits(v)) == v
  {
  }

  /** A conversion of a size_t to int32_t as the target compiler performs it:
      the value is reduced modulo 2^32 into the int32_t range. */
  function SizeToI32(n: nat): (r: i32)
    ensures r % TWO_32 == n % TWO_32
    ensures n < TWO_31 ==> r == n
  {
    I32FromBits(n % TWO_32)
  }

  /** memcpy(dst + at, src, |src|). */
  method CopyInto(dst: array<byte>, at: nat, src: seq<byte>)
    requires at + |src| <= dst.Length
    modifies dst
    ensures forall k :: 0 <= k < dst.Length ==>
              dst[k] == if at <= k < at + |src| then src[k - at] else old(dst[k])
  {
    var i := 0;
    while i < |src|
      invariant 0 <= i <= |src|
      invariant forall k :: 0 <= k < dst.Length ==>
                  dst[k] == if at <= k < at + i then src[k - at] else old(dst[k])
    {
      dst[at + i] := src[i];
      i := i + 1;
    }
  }
}
