/**
 * `BitSet<B>`: a bit vector stored as a sequence of blocks. Block `q` holds
 * the global indices `q * SIZE .. (q + 1) * SIZE`; the logical length is
 * always a whole number of blocks and is not stored. `Kind` stands for the
 * type parameter `B` and is passed to every operation.
 */
module BitSets {
  import Index
  import BitSeq
  import opened Blocks

  /** A bit set: its blocks in index order. */
  datatype BitSet = BitSet(data: seq<Block>)

  /** The result of an operation that panics on an out-of-range index. */
  datatype Outcome<T> = Ok(value: T) | Panic(index: nat)

  /** Every block is of variant `k` (what `Vec<B>` guarantees). */
  predicate OfKind(k: Kind, blocks: seq<Block>) {
    forall i :: 0 <= i < |blocks| ==> KindOf(blocks[i]) == k
  }

  /** Each block read as its `SIZE` bits. */
  function Chunks(k: Kind, blocks: seq<Block>): (chunks: seq<seq<bool>>)
    requires OfKind(k, blocks)
    ensures |chunks| == |blocks| && BitSeq.Uniform(chunks, Size(k))
    ensures forall i :: 0 <= i < |blocks| ==> chunks[i] == Bits(blocks[i])
  {
    seq(|blocks|, i requires 0 <= i < |blocks| => Bits(blocks[i]))
  }

  /** The blocks' bits laid end to end: block 0's bits first. */
  function Flatten(k: Kind, blocks: seq<Block>): (bits: seq<bool>)
    requires OfKind(k, blocks)
    ensures |bits| == |blocks| * Size(k)
  {
    BitSeq.Concat(Chunks(k, blocks), Size(k))
  }

  /** The logical bit vector a bit set stands for, `|data| * SIZE` bits long. */
  function View(k: Kind, s: BitSet): (bits: seq<bool>)
    requires OfKind(k, s.data)
  {
    Flatten(k, s.data)
  }

  /** Bit `b` of block `q` sits at position `q * SIZE + b` of the flattened blocks. */
  lemma FlattenAt(k: Kind, blocks: seq<Block>, q: nat, b: nat)
    requires OfKind(k, blocks)
    requires q < |blocks| && b < Size(k)
    ensures q * Size(k) + b < |blocks| * Size(k)
    ensures Flatten(k, blocks)[q * Size(k) + b] == Get(blocks[q], b)
  {
    BitSeq.ConcatAt(Chunks(k, blocks), Size(k), q, b);
  }

  /** `required_blocks`: the number of blocks that hold `n` bits, ⌈n / SIZE⌉. */
  function RequiredBlocks(k: Kind, n: nat): (r: nat)
    ensures n <= r * Size(k) < n + Size(k)
  {
    var (blocks, rem) := Index.DivRem(n, Size(k));
    blocks + if rem > 0 then 1 else 0
  }

  /** No smaller number of blocks holds `n` bits. */
  lemma RequiredBlocksLeast(k: Kind, n: nat, m: nat)
    requires n <= m * Size(k)
    ensures RequiredBlocks(k, n) <= m
  {
    var r := RequiredBlocks(k, n);
    if m < r {
      Index.MulMonotone(m + 1, r, Size(k));
    }
  }

  /** `BitSet::zeros(n)`: `required_blocks(n)` all-zero blocks, so every bit, tail included, reads zero. */
  function Zeros(k: Kind, n: nat): (s: BitSet)
    ensures |s.data| == RequiredBlocks(k, n)
    ensures OfKind(k, s.data)
    ensures View(k, s) == BitSeq.Fill(|s.data| * Size(k), false)
  {
    var s := BitSet(seq(RequiredBlocks(k, n), _ => Blocks.Zeros(k)));
    BitSeq.ConcatFill(Chunks(k, s.data), Size(k), false);
    s
  }

  /** `BitSet::ones(n)`: `required_blocks(n)` all-one blocks, so every bit, tail included, reads one. */
  function Ones(k: Kind, n: nat): (s: BitSet)
    ensures |s.data| == RequiredBlocks(k, n)
    ensures OfKind(k, s.data)
    ensures View(k, s) == BitSeq.Fill(|s.data| * Size(k), true)
  {
    var s := BitSet(seq(RequiredBlocks(k, n), _ => Blocks.Ones(k)));
    BitSeq.ConcatFill(Chunks(k, s.data), Size(k), true);
    s
  }

  /** `From<Vec<B>>`: the bit set over the given blocks; block `q` holds bits `q * SIZE ..`. */
  function FromBlocks(k: Kind, data: seq<Block>): (s: BitSet)
    requires OfKind(k, data)
    ensures OfKind(k, s.data) && |View(k, s)| == |data| * Size(k)
    ensures forall q, b :: 0 <= q < |data| && 0 <= b < Size(k) ==>
      q * Size(k) + b < |data| * Size(k) && View(k, s)[q * Size(k) + b] == Get(data[q], b)
  {
    forall q, b | 0 <= q < |data| && 0 <= b < Size(k)
      ensures q * Size(k) + b < |data| * Size(k) && Flatten(k, data)[q * Size(k) + b] == Get(data[q], b)
    {
      FlattenAt(k, data, q, b);
    }
    BitSet(data)
  }

  /**
   * `BitSet::get`: splits `idx` into (block, bit) and reads that bit of that
   * block; an index past the last block panics.
   */
  function GetBit(k: Kind, s: BitSet, idx: nat): (r: Outcome<bool>)
    requires OfKind(k, s.data)
    ensures r.Panic? <==> |View(k, s)| <= idx
    ensures r.Panic? ==> r.index == idx
    ensures r.Ok? ==> r.value == View(k, s)[idx]
  {
    var (blockIdx, bitIdx) := Index.DivRem(idx, Size(k));
    Index.SplitInRange(blockIdx, bitIdx, Size(k), |s.data|);
    if blockIdx < |s.data| then
      FlattenAt(k, s.data, blockIdx, bitIdx);
      Ok(Get(s.data[blockIdx], bitIdx))
    else
      Panic(idx)
  }

  /**
   * `BitSet::set`: splits `idx` into (block, bit) and sets that bit of that
   * block; every other bit and the number of blocks are kept. An index past
   * the last block panics; the set never grows.
   */
  function SetBit(k: Kind, s: BitSet, idx: nat): (r: Outcome<BitSet>)
    requires OfKind(k, s.data)
    ensures r.Panic? <==> |View(k, s)| <= idx
    ensures r.Panic? ==> r.index == idx
    ensures r.Ok? ==> |r.value.data| == |s.data| && OfKind(k, r.value.data)
    ensures r.Ok? ==> View(k, r.value) == View(k, s)[idx := true]
  {
    var (blockIdx, bitIdx) := Index.DivRem(idx, Size(k));
    Index.SplitInRange(blockIdx, bitIdx, Size(k), |s.data|);
    if blockIdx < |s.data| then
      var data := s.data[blockIdx := Set(s.data[blockIdx], bitIdx)];
      FlattenSet(k, s.data, blockIdx, bitIdx);
      Ok(BitSet(data))
    else
      Panic(idx)
  }

  /** Setting bit `b` of block `q` sets bit `q * SIZE + b` of the flattened blocks and nothing else. */
  lemma FlattenSet(k: Kind, blocks: seq<Block>, q: nat, b: nat)
    requires OfKind(k, blocks)
    requires q < |blocks| && b < Size(k)
    ensures OfKind(k, blocks[q := Set(blocks[q], b)])
    ensures q * Size(k) + b < |blocks| * Size(k)
    ensures Flatten(k, blocks[q := Set(blocks[q], b)]) == Flatten(k, blocks)[q * Size(k) + b := true]
  {
    var chunks := Chunks(k, blocks);
    assert Chunks(k, blocks[q := Set(blocks[q], b)]) == chunks[q := chunks[q][b := true]];
    BitSeq.ConcatSet(chunks, Size(k), q, b);
  }

  /**
   * `zip_longest` over two block sequences: paired blocks are OR-ed and the
   * unmatched tail of the longer sequence is passed through.
   */
  function ZipLongest(k: Kind, a: seq<Block>, b: seq<Block>): (r: seq<Block>)
    requires OfKind(k, a) && OfKind(k, b)
    ensures |r| == if |a| >= |b| then |a| else |b|
    ensures OfKind(k, r)
    ensures forall i :: 0 <= i < |a| && 0 <= i < |b| ==> r[i] == Or(a[i], b[i])
    ensures forall i :: |b| <= i < |a| ==> r[i] == a[i]
    ensures forall i :: |a| <= i < |b| ==> r[i] == b[i]
  {
    if |a| == 0 then b
    else if |b| == 0 then a
    else [Or(a[0], b[0])] + ZipLongest(k, a[1..], b[1..])
  }

  /**
   * `BitSet::union`: as many blocks as the longer operand; within both
   * operands each bit is the OR of theirs, and past the shorter operand the
   * longer operand's bits are passed through.
   */
  function Union(k: Kind, x: BitSet, y: BitSet): (r: BitSet)
    requires OfKind(k, x.data) && OfKind(k, y.data)
    ensures |r.data| == if |x.data| >= |y.data| then |x.data| else |y.data|
    ensures OfKind(k, r.data)
    ensures View(k, r) == BitSeq.Or(View(k, x), View(k, y))
  {
    var r := BitSet(ZipLongest(k, x.data, y.data));
    FlattenZip(k, x.data, y.data);
    r
  }

  /** The flattened zip-longest of two block sequences is the union of their flattened bits. */
  lemma FlattenZip(k: Kind, a: seq<Block>, b: seq<Block>)
    requires OfKind(k, a) && OfKind(k, b)
    ensures Flatten(k, ZipLongest(k, a, b)) == BitSeq.Or(Flatten(k, a), Flatten(k, b))
  {
    BitSeq.ConcatOr(Chunks(k, ZipLongest(k, a, b)), Chunks(k, a), Chunks(k, b), Size(k));
  }

  /** `impl BitOr for BitSet`: `x | y` is `x.union(y)`. */
  function BitOr(k: Kind, x: BitSet, y: BitSet): (r: BitSet)
    requires OfKind(k, x.data) && OfKind(k, y.data)
    ensures r == Union(k, x, y)
    ensures View(k, r) == BitSeq.Or(View(k, x), View(k, y))
  {
    Union(k, x, y)
  }

  /**
   * Set/get round trip with frame: once `set(idx)` returns, `get(idx)` reads
   * one and `get(j)` for every other `j` reads, or panics, as before.
   */
  lemma GetAfterSet(k: Kind, s: BitSet, idx: nat, j: nat)
    requires OfKind(k, s.data)
    requires SetBit(k, s, idx).Ok?
    ensures GetBit(k, SetBit(k, s, idx).value, j) == if j == idx then Ok(true) else GetBit(k, s, j)
  {
  }

  /** `set` and `get` accept the same indices: each panics exactly when the other does. */
  lemma SetPanicsLikeGet(k: Kind, s: BitSet, idx: nat)
    requires OfKind(k, s.data)
    ensures SetBit(k, s, idx).Panic? <==> GetBit(k, s, idx).Panic?
  {
  }

  /**
   * `get` on a union: an index inside either operand reads the OR of what the
   * operands read there (an operand too short to hold it counting as zero);
   * an index past both operands panics.
   */
  lemma GetUnion(k: Kind, x: BitSet, y: BitSet, j: nat)
    requires OfKind(k, x.data) && OfKind(k, y.data)
    ensures GetBit(k, Union(k, x, y), j) ==
      if GetBit(k, x, j).Panic? && GetBit(k, y, j).Panic? then Panic(j)
      else Ok(GetBit(k, x, j) == Ok(true) || GetBit(k, y, j) == Ok(true))
  {
  }

  /** `zip_longest` with OR-ed pairs gives the same blocks in either operand order. */
  lemma {:induction false} ZipLongestCommutes(k: Kind, a: seq<Block>, b: seq<Block>)
    requires OfKind(k, a) && OfKind(k, b)
    ensures ZipLongest(k, a, b) == ZipLongest(k, b, a)
  {
    if |a| > 0 && |b| > 0 {
      Blocks.OrCommutes(a[0], b[0]);
      ZipLongestCommutes(k, a[1..], b[1..]);
    }
  }

  /** Union is commutative, block for block; that `get` agrees on every index is a corollary. */
  lemma UnionCommutes(k: Kind, x: BitSet, y: BitSet)
    requires OfKind(k, x.data) && OfKind(k, y.data)
    ensures Union(k, x, y) == Union(k, y, x)
    ensures forall j :: GetBit(k, Union(k, x, y), j) == GetBit(k, Union(k, y, x), j)
  {
    ZipLongestCommutes(k, x.data, y.data);
  }

  /** A union with no more zero blocks than `x` has reads exactly as `x` does. */
  lemma UnionZeros(k: Kind, x: BitSet, n: nat)
    requires OfKind(k, x.data)
    requires RequiredBlocks(k, n) <= |x.data|
    ensures |Union(k, x, Zeros(k, n)).data| == |x.data|
    ensures View(k, Union(k, x, Zeros(k, n))) == View(k, x)
  {
    var z := Zeros(k, n);
    Index.MulMonotone(|z.data|, |x.data|, Size(k));
    BitSeq.OrZerosRight(View(k, x), |z.data| * Size(k));
  }

  /** `get` on `zeros(n)` reads zero at every index of its blocks, tail included, and panics past them. */
  lemma GetZeros(k: Kind, n: nat, j: nat)
    ensures GetBit(k, Zeros(k, n), j) ==
      if j < RequiredBlocks(k, n) * Size(k) then Ok(false) else Panic(j)
  {
  }

  /** `get` on `ones(n)` reads one at every index of its blocks, tail included, and panics past them. */
  lemma GetOnes(k: Kind, n: nat, j: nat)
    ensures GetBit(k, Ones(k, n), j) ==
      if j < RequiredBlocks(k, n) * Size(k) then Ok(true) else Panic(j)
  {
  }

  /** `get` on a bit set built from blocks reads bit `b` of block `q` at index `q * SIZE + b`. */
  lemma GetFromBlocks(k: Kind, data: seq<Block>, q: nat, b: nat)
    requires OfKind(k, data)
    requires q < |data| && b < Size(k)
    ensures GetBit(k, FromBlocks(k, data), q * Size(k) + b) == Ok(Get(data[q], b))
  {
  }
}
