/**
 * Four 64-bit lanes, the shape shared by both 256-bit vector blocks.
 * A block-local index is split by `div_rem(idx, 64)` into a lane and a bit
 * within that lane; only that lane is read or written.
 */
module Lanes {
  import Word
  import Index

  /** Bits per lane. */
  const LaneWidth: nat := 64

  /** Lanes per block. */
  const LaneCount: nat := 4

  /** Bits per block, `64 * 4`. */
  const Size: nat := LaneWidth * LaneCount

  /** `[u64; 4]`: the lanes of one vector block, lane 0 first. */
  type LaneArray = a: seq<bv64> | |a| == LaneCount witness [0, 0, 0, 0]

  /** Every lane holds `x` (`splat(x)`). */
  function Splat(x: bv64): (a: LaneArray)
    ensures forall lane :: 0 <= lane < LaneCount ==> a[lane] == x
  {
    [x, x, x, x]
  }

  /** `splat(0)`: every bit reads zero. */
  function Zeros(): (a: LaneArray)
    ensures forall i :: 0 <= i < Size ==> !Get(a, i)
  {
    Splat(Word.Zeros())
  }

  /** `splat(u64::MAX)`: every bit reads one. */
  function Ones(): (a: LaneArray)
    ensures forall i :: 0 <= i < Size ==> Get(a, i)
  {
    Splat(Word.Ones())
  }

  /** Bit `idx` of `a`: `idx` is split into (lane, bit) by `DivRem(idx, 64)`, and that bit of that lane is read. */
  function Get(a: LaneArray, idx: nat): bool
    requires idx < Size
  {
    var (lane, bit) := Index.DivRem(idx, LaneWidth);
    Word.Get(a[lane], bit)
  }

  /** The lanes are laid out lane 0 first: bit `bit` of lane `lane` is block bit `lane * 64 + bit`. */
  lemma LaneLayout(a: LaneArray, lane: nat, bit: nat)
    requires lane < LaneCount && bit < LaneWidth
    ensures Get(a, lane * LaneWidth + bit) == Word.Get(a[lane], bit)
  {
    Index.DivRemUnique(lane * LaneWidth + bit, LaneWidth, lane, bit);
  }

  /**
   * `a` with bit `bit` of lane `lane` set, where (lane, bit) is
   * `DivRem(idx, 64)`: every other lane is kept bit for bit, and bit `idx`
   * of the block now reads one.
   */
  function Set(a: LaneArray, idx: nat): (r: LaneArray)
    requires idx < Size
    ensures forall lane :: 0 <= lane < LaneCount && lane != idx / LaneWidth ==> r[lane] == a[lane]
    ensures forall j :: 0 <= j < Size ==> Get(r, j) == (j == idx || Get(a, j))
  {
    var (lane, bit) := Index.DivRem(idx, LaneWidth);
    var r := a[lane := Word.Set(a[lane], bit)];
    forall j | 0 <= j < Size
      ensures Get(r, j) == (j == idx || Get(a, j))
    {
      var (l, b) := Index.DivRem(j, LaneWidth);
      if l == lane && b != bit {
        Index.DivRemUnique(j, LaneWidth, lane, b);
      }
    }
    r
  }

  /** Lane-wise OR: each bit is the OR of the operands' bits. */
  function Or(a: LaneArray, b: LaneArray): (r: LaneArray)
    ensures forall i :: 0 <= i < Size ==> Get(r, i) == (Get(a, i) || Get(b, i))
  {
    var r := seq(LaneCount, lane requires 0 <= lane < LaneCount => Word.Or(a[lane], b[lane]));
    forall i | 0 <= i < Size
      ensures Get(r, i) == (Get(a, i) || Get(b, i))
    {
      var (lane, bit) := Index.DivRem(i, LaneWidth);
      assert r[lane] == Word.Or(a[lane], b[lane]);
    }
    r
  }

  /** Lane-wise OR is commutative. */
  lemma OrCommutes(a: LaneArray, b: LaneArray)
    ensures Or(a, b) == Or(b, a)
  {
    forall lane | 0 <= lane < LaneCount {
      Word.OrCommutes(a[lane], b[lane]);
    }
  }
}
