/**
 * The `Block` contract: a fixed-width run of bits with an all-zero and an
 * all-one value, single-bit set and get, and bitwise OR. Each variant of the
 * library is one constructor; `Kind` names the variant a bit set is built
 * from, playing the part of the type parameter `B`.
 */
module Blocks {
  import Word
  import Lanes
  import Wide
  import BitSeq

  /** The `Block` implementations: `usize`, `std::simd::u64x4`, `wide::u64x4`. */
  datatype Kind = Usize | SimdU64x4 | WideU64x4

  /** A block of one of the three variants. */
  datatype Block =
    | UsizeBlock(word: bv64)
    | SimdBlock(lanes: Lanes.LaneArray)
    | WideBlock(vector: Wide.U64x4)

  /** The variant a block belongs to. */
  function KindOf(b: Block): Kind {
    match b
    case UsizeBlock(_) => Usize
    case SimdBlock(_) => SimdU64x4
    case WideBlock(_) => WideU64x4
  }

  /** `Block::SIZE`: a positive multiple of the word width. */
  function Size(k: Kind): (s: nat)
    ensures 0 < s && s % Word.PointerWidth == 0
  {
    match k
    case Usize => Word.PointerWidth
    case SimdU64x4 => Lanes.Size
    case WideU64x4 => Lanes.Size
  }

  /** `Block::get`: bit `idx` of the block. */
  function Get(b: Block, idx: nat): bool
    requires idx < Size(KindOf(b))
  {
    match b
    case UsizeBlock(w) => Word.Get(w, idx)
    case SimdBlock(a) => Lanes.Get(a, idx)
    case WideBlock(v) => Wide.Get(v, idx)
  }

  /** The block read as `Size` bits, bit 0 first. */
  function Bits(b: Block): (bits: seq<bool>)
    ensures |bits| == Size(KindOf(b))
  {
    seq(Size(KindOf(b)), i requires 0 <= i < Size(KindOf(b)) => Get(b, i))
  }

  /** `Block::zeros`: every bit reads zero. */
  function Zeros(k: Kind): (b: Block)
    ensures KindOf(b) == k
    ensures Bits(b) == BitSeq.Fill(Size(k), false)
  {
    var b := match k
      case Usize => UsizeBlock(Word.Zeros())
      case SimdU64x4 => SimdBlock(Lanes.Zeros())
      case WideU64x4 => WideBlock(Wide.Zeros());
    BitsFromGet(b, BitSeq.Fill(Size(k), false));
    b
  }

  /** `Block::ones`: every bit reads one. */
  function Ones(k: Kind): (b: Block)
    ensures KindOf(b) == k
    ensures Bits(b) == BitSeq.Fill(Size(k), true)
  {
    var b := match k
      case Usize => UsizeBlock(Word.Ones())
      case SimdU64x4 => SimdBlock(Lanes.Ones())
      case WideU64x4 => WideBlock(Wide.Ones());
    BitsFromGet(b, BitSeq.Fill(Size(k), true));
    b
  }

  /** `Block::set`: bit `idx` becomes one and every other bit is kept. */
  function Set(b: Block, idx: nat): (r: Block)
    requires idx < Size(KindOf(b))
    ensures KindOf(r) == KindOf(b)
    ensures Bits(r) == Bits(b)[idx := true]
  {
    var r := match b
      case UsizeBlock(w) => UsizeBlock(Word.Set(w, idx))
      case SimdBlock(a) => SimdBlock(Lanes.Set(a, idx))
      case WideBlock(v) => WideBlock(Wide.Set(v, idx));
    BitsFromGet(r, Bits(b)[idx := true]);
    r
  }

  /**
   * The trait's `set`/`get` contract: after `set(idx)`, `get(j)` reads one
   * exactly when `j == idx` or `get(j)` read one before.
   */
  lemma GetAfterSet(b: Block, idx: nat, j: nat)
    requires idx < Size(KindOf(b)) && j < Size(KindOf(b))
    ensures Get(Set(b, idx), j) == (j == idx || Get(b, j))
  {
    assert Bits(Set(b, idx))[j] == Bits(b)[idx := true][j];
  }

  /** `BitOr` on two blocks of one variant: each bit is the OR of the operands' bits. */
  function Or(a: Block, b: Block): (r: Block)
    requires KindOf(a) == KindOf(b)
    ensures KindOf(r) == KindOf(a)
    ensures Bits(r) == BitSeq.Or(Bits(a), Bits(b))
  {
    var r := match (a, b)
      case (UsizeBlock(x), UsizeBlock(y)) => UsizeBlock(Word.Or(x, y))
      case (SimdBlock(x), SimdBlock(y)) => SimdBlock(Lanes.Or(x, y))
      case (WideBlock(x), WideBlock(y)) => WideBlock(Wide.Or(x, y));
    forall i | 0 <= i < Size(KindOf(a))
      ensures Get(r, i) == (Get(a, i) || Get(b, i))
    {
    }
    BitsFromGet(r, BitSeq.Or(Bits(a), Bits(b)));
    r
  }

  /** A block's bit sequence is determined by what `Get` reads at each position. */
  lemma BitsFromGet(b: Block, bits: seq<bool>)
    requires |bits| == Size(KindOf(b))
    requires forall i :: 0 <= i < |bits| ==> Get(b, i) == bits[i]
    ensures Bits(b) == bits
  {
  }

  /** Block OR is commutative. */
  lemma OrCommutes(a: Block, b: Block)
    requires KindOf(a) == KindOf(b)
    ensures Or(a, b) == Or(b, a)
  {
    match (a, b)
    case (UsizeBlock(x), UsizeBlock(y)) => Word.OrCommutes(x, y);
    case (SimdBlock(x), SimdBlock(y)) => Lanes.OrCommutes(x, y);
    case (WideBlock(x), WideBlock(y)) => Wide.OrCommutes(x, y);
  }
}
