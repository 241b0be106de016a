/**
 * The portable-library 256-bit block (`wide::u64x4`). Its lanes cannot be
 * indexed in place: a lane is changed by copying the block out to an array
 * (`to_array`), updating the array, and building a new block from it (`from`).
 */
module Wide {
  import Word
  import Lanes

  /** A `wide::u64x4` value: four 64-bit lanes held as one opaque vector. */
  datatype U64x4 = U64x4(x0: bv64, x1: bv64, x2: bv64, x3: bv64)

  /** `to_array`: the lanes as a `[u64; 4]`, lane 0 first. */
  function ToArray(v: U64x4): Lanes.LaneArray {
    [v.x0, v.x1, v.x2, v.x3]
  }

  /** `From<[u64; 4]>`: the block whose lanes are the array's. */
  function FromArray(a: Lanes.LaneArray): U64x4 {
    U64x4(a[0], a[1], a[2], a[3])
  }

  /**
   * Copying a block out to an array and back gives the same block. Both round
   * trips hold by construction of the four-lane encoding; they record that
   * `to_array` and `from` are inverse, which the extract-modify-reinsert path
   * of `Set` relies on.
   */
  lemma FromToArray(v: U64x4)
    ensures FromArray(ToArray(v)) == v
  {
  }

  /** Building a block from an array and copying it out gives the same array. */
  lemma ToFromArray(a: Lanes.LaneArray)
    ensures ToArray(FromArray(a)) == a
  {
  }

  /** `Self::MIN`: every bit reads zero. */
  function Zeros(): (v: U64x4)
    ensures forall i :: 0 <= i < Lanes.Size ==> !Get(v, i)
  {
    ToFromArray(Lanes.Zeros());
    FromArray(Lanes.Zeros())
  }

  /** `Self::MAX`: every bit reads one. */
  function Ones(): (v: U64x4)
    ensures forall i :: 0 <= i < Lanes.Size ==> Get(v, i)
  {
    ToFromArray(Lanes.Ones());
    FromArray(Lanes.Ones())
  }

  /** Bit `idx` of `v`: `v` is copied out to an array and the array's bit is read, as `Lanes.Get` reads it. */
  function Get(v: U64x4, idx: nat): bool
    requires idx < Lanes.Size
  {
    Lanes.Get(ToArray(v), idx)
  }

  /**
   * The lanes are laid out lane 0 first: bit `lane * 64 + bit` of `v` is bit
   * `bit` of lane `lane` of the copied-out array.
   */
  lemma LaneLayout(v: U64x4, lane: nat, bit: nat)
    requires lane < Lanes.LaneCount && bit < Lanes.LaneWidth
    ensures Get(v, lane * Lanes.LaneWidth + bit) == Word.Get(ToArray(v)[lane], bit)
  {
    Lanes.LaneLayout(ToArray(v), lane, bit);
  }

  /**
   * Extract, modify, reinsert: `Lanes.Set` applied to `ToArray(v)`, then
   * `FromArray`. The lanes other than `idx / 64` come back bit for bit, and
   * bit `idx` of the block now reads one.
   */
  function Set(v: U64x4, idx: nat): (r: U64x4)
    requires idx < Lanes.Size
    ensures forall lane :: 0 <= lane < Lanes.LaneCount && lane != idx / Lanes.LaneWidth ==>
      ToArray(r)[lane] == ToArray(v)[lane]
    ensures forall j :: 0 <= j < Lanes.Size ==> Get(r, j) == (j == idx || Get(v, j))
  {
    var arr' := Lanes.Set(ToArray(v), idx);
    ToFromArray(arr');
    FromArray(arr')
  }

  /** Lane-wise OR: each bit is the OR of the operands' bits. */
  function Or(a: U64x4, b: U64x4): (r: U64x4)
    ensures forall i :: 0 <= i < Lanes.Size ==> Get(r, i) == (Get(a, i) || Get(b, i))
  {
    var arr := Lanes.Or(ToArray(a), ToArray(b));
    ToFromArray(arr);
    FromArray(arr)
  }

  /** Lane-wise OR is commutative. */
  lemma OrCommutes(a: U64x4, b: U64x4)
    ensures Or(a, b) == Or(b, a)
  {
    Lanes.OrCommutes(ToArray(a), ToArray(b));
  }
}
