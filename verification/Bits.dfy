/**
 Bytes of process data. A byte is its eight bits, bit 0 first, so that the bit loops of the
 runtime (`*q |= bitmask`, `*q &= 0xff - bitmask`, `*m & bitmask`) set, clear and test bit j.
 */
module Bits {

  type Byte = b: seq<bool> | |b| == 8 witness seq(8, _ => false)

  const ZERO: Byte := [false, false, false, false, false, false, false, false]

  /** Unsigned 32-bit values. */
  type Word = n: int | 0 <= n < 0x1_0000_0000

  /** A process image as its sequence of bits, from bit 0 of byte 0. */
  function View(data: seq<Byte>): (bits: seq<bool>)
    ensures |bits| == 8 * |data|
  {
    seq(8 * |data|, k requires 0 <= k < 8 * |data| => data[k / 8][k % 8])
  }

  /** Bit j of byte i is bit 8 * i + j of the image. */
  lemma ViewAt(data: seq<Byte>, i: nat, j: nat)
    requires i < |data| && j < 8
    ensures View(data)[8 * i + j] == data[i][j]
  {
    assert (8 * i + j) / 8 == i && (8 * i + j) % 8 == j;
  }

  /** An image is determined by its bits. */
  lemma {:induction false} ViewSame(a: seq<Byte>, b: seq<Byte>)
    requires View(a) == View(b)
    ensures a == b
  {
    assert |a| == |b|;
    forall i | 0 <= i < |a|
      ensures a[i] == b[i]
    {
      forall j | 0 <= j < 8
        ensures a[i][j] == b[i][j]
      {
        ViewAt(a, i, j);
        ViewAt(b, i, j);
      }
    }
  }

  /** The bits selected by mask come from src, the others from dest. */
  function MergeBits(dest: seq<bool>, src: seq<bool>, mask: seq<bool>): (r: seq<bool>)
    requires |dest| == |src| == |mask|
    ensures |r| == |dest|
  {
    seq(|dest|, k requires 0 <= k < |dest| => if mask[k] then src[k] else dest[k])
  }

  /** A byte every bit of which is the merged bit. */
  predicate MergedByte(r: Byte, dest: Byte, src: Byte, mask: Byte) {
    forall j | 0 <= j < 8 :: r[j] == if mask[j] then src[j] else dest[j]
  }

  lemma ViewMerged(after: seq<Byte>, dest: seq<Byte>, src: seq<Byte>, mask: seq<Byte>)
    requires |after| == |dest| == |src| == |mask|
    requires forall i | 0 <= i < |after| :: MergedByte(after[i], dest[i], src[i], mask[i])
    ensures View(after) == MergeBits(View(dest), View(src), View(mask))
  {}

  /** Bit n of a value. */
  predicate BitOf(v: nat, n: nat)
    decreases n
  {
    if n == 0 then v % 2 == 1 else BitOf(v / 2, n - 1)
  }

  /** The low n bits of a value, lowest first. */
  function ValueBits(v: nat, n: nat): (bits: seq<bool>)
    ensures |bits| == n
  {
    seq(n, i requires 0 <= i < n => BitOf(v, i))
  }

  function FromBits(bits: seq<bool>): nat {
    if bits == [] then 0 else (if bits[0] then 1 else 0) + 2 * FromBits(bits[1..])
  }

  function Pow2(n: nat): nat {
    if n == 0 then 1 else 2 * Pow2(n - 1)
  }

  /** The bits of a value read back as the value, up to its width. */
  lemma {:induction false} ReadBack(v: nat, n: nat)
    requires v < Pow2(n)
    ensures FromBits(ValueBits(v, n)) == v
    decreases n
  {
    if n > 0 {
      ReadBack(v / 2, n - 1);
      assert ValueBits(v, n)[1..] == ValueBits(v / 2, n - 1);
    }
  }
}
