/** The vector instructions the M300 packer and deinterleaver use, as functions on lanes. */
module Simd {
  import opened Arithmetic
  import opened M300Protocol

  type i16 = x: int | -0x8000 <= x < 0x8000

  /** The two's complement bits of a 16-bit lane. */
  function U16(x: i16): nat {
    if x < 0 then x + 0x1_0000 else x
  }

  function I16(x: nat): i16
    requires x < 0x1_0000
  {
    if x < 0x8000 then x else x - 0x1_0000
  }

  function Saturate16(x: int): i16 {
    if x > 0x7fff then 0x7fff else if x < -0x8000 then -0x8000 else x
  }

  function Clamp(x: real): real {
    if x < -1.0 then -1.0 else if x > 1.0 then 1.0 else x
  }

  /** _MM_SHUFFLE, and the source lane it selects for destination lane k. */
  function MmShuffle(z: nat, y: nat, x: nat, w: nat): nat {
    z * 64 + y * 16 + x * 4 + w
  }

  function Selected(imm: nat, k: nat): nat
    requires k < 4
  {
    (match k case 0 => imm case 1 => imm / 4 case 2 => imm / 16 case _ => imm / 64) % 4
  }

  /** _mm_packs_epi32: two vectors of four 32-bit lanes to eight saturated 16-bit lanes. */
  function Packs32(low: seq<int>, high: seq<int>): (r: seq<i16>)
    requires |low| == |high| == 4
    ensures |r| == 8
  {
    [Saturate16(low[0]), Saturate16(low[1]), Saturate16(low[2]), Saturate16(low[3]),
     Saturate16(high[0]), Saturate16(high[1]), Saturate16(high[2]), Saturate16(high[3])]
  }

  /** _mm_shufflelo_epi16 and _mm_shufflehi_epi16. */
  function ShuffleLow16(a: seq<i16>, imm: nat): (r: seq<i16>)
    requires |a| == 8
    ensures |r| == 8
  {
    [a[Selected(imm, 0)], a[Selected(imm, 1)], a[Selected(imm, 2)], a[Selected(imm, 3)]] + a[4..]
  }

  function ShuffleHigh16(a: seq<i16>, imm: nat): (r: seq<i16>)
    requires |a| == 8
    ensures |r| == 8
  {
    a[..4] + [a[4 + Selected(imm, 0)], a[4 + Selected(imm, 1)], a[4 + Selected(imm, 2)], a[4 + Selected(imm, 3)]]
  }

  /** Eight 16-bit lanes read as four 32-bit lanes. */
  function As32(a: seq<i16>): (r: seq<word>)
    requires |a| == 8
    ensures |r| == 4
  {
    [U16(a[0]) + 0x1_0000 * U16(a[1]), U16(a[2]) + 0x1_0000 * U16(a[3]),
     U16(a[4]) + 0x1_0000 * U16(a[5]), U16(a[6]) + 0x1_0000 * U16(a[7])]
  }

  /** _mm_unpacklo_epi32, _mm_unpackhi_epi32, _mm_unpacklo_epi64, _mm_shuffle_epi32. */
  function UnpackLow32(a: seq<word>, b: seq<word>): seq<word>
    requires |a| == |b| == 4
  {
    [a[0], b[0], a[1], b[1]]
  }

  function UnpackHigh32(a: seq<word>, b: seq<word>): seq<word>
    requires |a| == |b| == 4
  {
    [a[2], b[2], a[3], b[3]]
  }

  function UnpackLow64(a: seq<word>, b: seq<word>): seq<word>
    requires |a| == |b| == 4
  {
    [a[0], a[1], b[0], b[1]]
  }

  function Shuffle32(a: seq<word>, imm: nat): seq<word>
    requires |a| == 4
  {
    [a[Selected(imm, 0)], a[Selected(imm, 1)], a[Selected(imm, 2)], a[Selected(imm, 3)]]
  }
}
