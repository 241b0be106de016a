/**
 * The library's own test scenarios and worked examples of block counting
 * and out-of-range access, stated for every block variant.
 */
module Scenarios {
  import Blocks
  import opened BitSets

  /** `zeros(n) | ones(n)` reads one at every index below `n`. */
  lemma UnionOfZerosAndOnes(k: Blocks.Kind, n: nat)
    ensures forall i :: 0 <= i < n ==> GetBit(k, BitOr(k, Zeros(k, n), Ones(k, n)), i) == Ok(true)
  {
    forall i | 0 <= i < n
      ensures GetBit(k, BitOr(k, Zeros(k, n), Ones(k, n)), i) == Ok(true)
    {
      GetOnes(k, n, i);
      GetUnion(k, Zeros(k, n), Ones(k, n), i);
    }
  }

  /**
   * Two zero sets of `n` bits, one with bit `a` set and one with bit `b` set:
   * both sets succeed, and their union reads one exactly at `a` and `b`.
   */
  lemma UnionOfTwoBits(k: Blocks.Kind, n: nat, a: nat, b: nat)
    requires a < n && b < n
    ensures SetBit(k, Zeros(k, n), a).Ok? && SetBit(k, Zeros(k, n), b).Ok?
    ensures forall i :: 0 <= i < n ==>
      GetBit(k, BitOr(k, SetBit(k, Zeros(k, n), a).value, SetBit(k, Zeros(k, n), b).value), i)
        == Ok(i == a || i == b)
  {
    var z := Zeros(k, n);
    var p, r := SetBit(k, z, a).value, SetBit(k, z, b).value;
    forall i | 0 <= i < n
      ensures GetBit(k, BitOr(k, p, r), i) == Ok(i == a || i == b)
    {
      GetZeros(k, n, i);
      GetAfterSet(k, z, a, i);
      GetAfterSet(k, z, b, i);
      GetUnion(k, p, r, i);
    }
  }

  /** The test sizes: 1000 bits, bits 20 and 600. */
  lemma UnionOfTwoBitsAtThousand(k: Blocks.Kind)
    ensures forall i :: 0 <= i < 1000 ==>
      GetBit(k, BitOr(k, SetBit(k, Zeros(k, 1000), 20).value, SetBit(k, Zeros(k, 1000), 600).value), i)
        == Ok(i == 20 || i == 600)
  {
    UnionOfTwoBits(k, 1000, 20, 600);
  }

  /** Block counts: none for no bits, no extra block for an exact multiple, one more for a remainder. */
  lemma RequiredBlocksExamples()
    ensures RequiredBlocks(Blocks.Usize, 0) == 0
    ensures RequiredBlocks(Blocks.Usize, 64) == 1
    ensures RequiredBlocks(Blocks.Usize, 65) == 2
    ensures RequiredBlocks(Blocks.Usize, 1000) == 16
    ensures RequiredBlocks(Blocks.SimdU64x4, 256) == 1
    ensures RequiredBlocks(Blocks.SimdU64x4, 257) == 2
    ensures RequiredBlocks(Blocks.WideU64x4, 1000) == 4
  {
  }

  /**
   * A 1000-bit set of word blocks holds 1024 bits: index 1010 lies in the
   * tail and reads as its block does, index 1024 panics.
   */
  lemma TailAndOutOfRange()
    ensures GetBit(Blocks.Usize, Ones(Blocks.Usize, 1000), 1010) == Ok(true)
    ensures GetBit(Blocks.Usize, Zeros(Blocks.Usize, 1000), 1010) == Ok(false)
    ensures GetBit(Blocks.Usize, Zeros(Blocks.Usize, 1000), 1024) == Panic(1024)
    ensures SetBit(Blocks.Usize, Zeros(Blocks.Usize, 1000), 1024) == Panic(1024)
  {
    GetOnes(Blocks.Usize, 1000, 1010);
    GetZeros(Blocks.Usize, 1000, 1010);
    GetZeros(Blocks.Usize, 1000, 1024);
    SetPanicsLikeGet(Blocks.Usize, Zeros(Blocks.Usize, 1000), 1024);
  }

  /** `ones(64) | zeros(128)` over words: the first block reads one, the second zero. */
  lemma UnionOfUnequalLengths()
    ensures forall i :: 0 <= i < 128 ==>
      GetBit(Blocks.Usize, BitOr(Blocks.Usize, Ones(Blocks.Usize, 64), Zeros(Blocks.Usize, 128)), i) == Ok(i < 64)
  {
    forall i | 0 <= i < 128
      ensures GetBit(Blocks.Usize, BitOr(Blocks.Usize, Ones(Blocks.Usize, 64), Zeros(Blocks.Usize, 128)), i) == Ok(i < 64)
    {
      GetOnes(Blocks.Usize, 64, i);
      GetZeros(Blocks.Usize, 128, i);
      GetUnion(Blocks.Usize, Ones(Blocks.Usize, 64), Zeros(Blocks.Usize, 128), i);
    }
  }
}
