/** Bytes, little-endian 32-bit words and bits inside bytes: the on-disk encodings
    shared by the log header, the indirect blocks and the free bitmap. */
module Bytes {

  type byte = x: int | 0 <= x < 256

  const UINT32: nat := 0x1_0000_0000

  /** Block size in bytes (kernel/fs.h). */
  const BSIZE: nat := 1024

  type Block = b: seq<byte> | |b| == BSIZE witness seq(BSIZE, _ => 0)

  function ZeroBlock(): Block
  {
    seq(BSIZE, _ => 0)
  }

  /** The unsigned 32-bit word stored at byte offset `at`. */
  function Le32(b: seq<byte>, at: nat): (v: nat)
    requires at + 4 <= |b|
    ensures v < UINT32
  {
    var b0: int, b1: int, b2: int, b3: int := b[at], b[at + 1], b[at + 2], b[at + 3];
    b0 + 0x100 * b1 + 0x1_0000 * b2 + 0x100_0000 * b3
  }

  /** Stores the low 32 bits of `v` at byte offset `at` and leaves every other byte alone. */
  function PutLe32(b: seq<byte>, at: nat, v: nat): (r: seq<byte>)
    requires at + 4 <= |b|
    ensures |r| == |b|
    ensures v < UINT32 ==> Le32(r, at) == v
    ensures forall k | 0 <= k < |b| && !(at <= k < at + 4) :: r[k] == b[k]
  {
    var v1, v2, v3 := v / 0x100, v / 0x100 / 0x100, v / 0x100 / 0x100 / 0x100;
    b[at := v % 0x100][at + 1 := v1 % 0x100][at + 2 := v2 % 0x100][at + 3 := v3 % 0x100]
  }

  /** Bit `k` of `x`, bit 0 being the least significant one. */
  predicate Bit(x: nat, k: nat)
  {
    if k == 0 then x % 2 == 1 else Bit(x / 2, k - 1)
  }

  /** `x | (1 << k)`. */
  function SetBit(x: nat, k: nat): (r: nat)
    ensures forall j: nat :: Bit(r, j) == (j == k || Bit(x, j))
  {
    if k == 0 then
      x / 2 * 2 + 1
    else
      var r := 2 * SetBit(x / 2, k - 1) + x % 2;
      assert r / 2 == SetBit(x / 2, k - 1) && r % 2 == x % 2;
      r
  }

  /** `x & ~(1 << k)`. */
  function ClearBit(x: nat, k: nat): (r: nat)
    ensures r <= x
    ensures forall j: nat :: Bit(r, j) == (j != k && Bit(x, j))
  {
    if k == 0 then
      x / 2 * 2
    else
      var r := 2 * ClearBit(x / 2, k - 1) + x % 2;
      assert r / 2 == ClearBit(x / 2, k - 1) && r % 2 == x % 2;
      r
  }

  /** Setting one of the eight bits of a byte gives a byte again. */
  lemma SetBitByte(x: nat, k: nat)
    requires x < 256 && k < 8
    ensures SetBit(x, k) < 256
  {
    SetBitBound(x, k, 8);
  }

  lemma {:induction false} SetBitBound(x: nat, k: nat, w: nat)
    requires k < w && x < Pow2(w)
    ensures SetBit(x, k) < Pow2(w)
  {
    if k > 0 {
      SetBitBound(x / 2, k - 1, w - 1);
    }
  }

  function Pow2(n: nat): nat
  {
    if n == 0 then 1 else 2 * Pow2(n - 1)
  }
}
