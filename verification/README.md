# simd-playground bit set, modelled in Dafny

This project models `src/lib.rs` of simd-playground. `BitSet<B>` is a
fixed-capacity bit vector. It is stored as a `Vec<B>` of blocks, and `B`
implements the `Block` trait. Three block types implement it:

- a machine word (`usize`), addressed by shift-and-mask;
- `std::simd::u64x4`;
- `wide::u64x4`.

The two 256-bit vector types split a block-local index into a lane and a
bit by `div_rem(idx, 64)`. On top of the blocks, the bit set offers
`required_blocks`, `zeros`, `ones`, `set`, `get`, `union`, the `|` operator
and construction from a `Vec<B>`.

Modules, one per component of the library:

- `Index`: `div_rem` and the arithmetic of splitting an index.
- `Word`: the `usize` block as a `bv64`.
- `Lanes`: four 64-bit lanes, the shared shape of both vector blocks. Its `Set` indexes the lane in place, as `std::simd::u64x4` does.
- `Wide`: `wide::u64x4` as a four-field value. Its `Set` goes through `to_array`/`from`.
- `Blocks`: the `Block` trait.
  - `Kind` names the implementation. It stands in for the type parameter `B`.
  - `Block` is the sum of the three representations.
  - `Bits(b)` reads a block as its `SIZE` bits.
- `BitSeq`: plain bit sequences.
  - `Or` is the reference union: a zip-longest OR, where a missing position counts as zero.
  - `Concat` lays equal-length chunks end to end.
- `BitSets`: the container.
  - `View` is the logical bit vector, `|data| * SIZE` bits long.
  - Each operation is stated against `View` and against `get`.
- `Scenarios`: the library's two unit tests (for every block kind, both for general sizes and for the sizes the unit tests use), plus worked examples of block counts, tail bits and out-of-range access.

The library mutates in place (`set(&mut self, ..)`). In the model, each
operation returns the new value instead. A panic (`set`/`get` past the last
block) is the `Panic(idx)` result of `Outcome`, not a precondition. So the
contracts state both the in-range and the panicking behaviour.

## Model

| member | source | states |
|---|---|---|
| Index.DivRem | src/lib.rs:100-103 | the pair is a quotient and remainder: remainder below the divisor, and `idx == q * size + r` |
| Index.DivRemUnique | src/lib.rs:100-103 | any pair with `idx == q * size + r` and `r < size` is exactly the one `div_rem` returns |
| Word.Zeros | src/lib.rs:27-29 | no bit of the `usize` zero block reads one |
| Word.Ones | src/lib.rs:31-33 | every bit of `usize::MAX` reads one |
| Word.Set | src/lib.rs:35-37 | after OR-ing in `1 << idx`, `get` reads one at `idx` and what it read before at every other position |
| Word.Or | src/lib.rs:16 | the word OR reads, at every position, the OR of what the operands read |
| Word.SetBit | src/lib.rs:35-40 | `get(j)` after `set(idx)` is true exactly when `j == idx` or `get(j)` was true before, for every pair of positions |
| Word.OrCommutes | src/lib.rs:16 | word OR is commutative |
| Lanes.Zeros | src/lib.rs:48-50 | every bit of `splat(0)` reads zero |
| Lanes.Ones | src/lib.rs:52-54 | every bit of `splat(u64::MAX)` reads one |
| Lanes.LaneLayout | src/lib.rs:63-68 | block bit `lane * 64 + bit` is bit `bit` of lane `lane`, so `get` reads exactly the lane and bit that `div_rem(idx, 64)` names |
| Lanes.Set | src/lib.rs:57-60 | every lane other than `idx / 64` is kept bit for bit; bit `idx` reads one and every other block bit reads as before |
| Lanes.Or | src/lib.rs:16 | lane-wise OR reads, at every block bit, the OR of the operands' bits |
| Lanes.OrCommutes | src/lib.rs:16 | lane-wise OR is commutative |
| Wide.FromToArray | src/lib.rs:86-88 | `from(to_array(v)) == v` for `ToArray`/`FromArray`, the models of the crate's `to_array` and `from`: the extract/reinsert path loses nothing (true by construction of the four-lane encoding) |
| Wide.ToFromArray | src/lib.rs:86-88 | `to_array(from(a)) == a` (true by construction of the four-lane encoding) |
| Wide.LaneLayout | src/lib.rs:91-97 | `get` on `wide::u64x4` reads bit `bit` of lane `lane` of `to_array()` at block bit `lane * 64 + bit`, the lane and bit `div_rem(idx, 64)` names |
| Wide.Zeros | src/lib.rs:75-77 | every bit of `Self::MIN` reads zero |
| Wide.Ones | src/lib.rs:79-81 | every bit of `Self::MAX` reads one |
| Wide.Set | src/lib.rs:83-89 | after extract, modify and reinsert, the lanes other than `idx / 64` come back bit for bit, bit `idx` reads one and every other bit reads as before |
| Wide.Or | src/lib.rs:16 | the vector OR reads, at every block bit, the OR of the operands' bits |
| Wide.OrCommutes | src/lib.rs:16 | vector OR is commutative |
| Blocks.Size | src/lib.rs:17 | `SIZE` is positive and a whole number of 64-bit words |
| Blocks.Zeros | src/lib.rs:18 | `B::zeros()` is a block of the requested kind whose `SIZE` bits are all zero |
| Blocks.Ones | src/lib.rs:19 | `B::ones()` is a block of the requested kind whose `SIZE` bits are all one |
| Blocks.Set | src/lib.rs:20 | `set(idx)` keeps the kind; the block's bits become the old bits with position `idx` set |
| Blocks.GetAfterSet | src/lib.rs:20-21 | the trait's `get` (`Blocks.Get`) after `set(idx)` reads one at `idx` and what it read before at every other position, for every kind |
| Blocks.Or | src/lib.rs:16 | OR of two blocks of one kind: the result's bits are the zip-OR of the operands' bits |
| Blocks.OrCommutes | src/lib.rs:16 | block OR is commutative, for every kind |
| BitSets.FlattenAt | src/lib.rs:127-128 | bit `b` of block `q` is logical bit `q * SIZE + b`, and that position lies inside the set |
| BitSets.RequiredBlocks | src/lib.rs:106-112 | the count of blocks covers `n` bits with less than one block to spare: `n <= r * SIZE < n + SIZE` |
| BitSets.RequiredBlocksLeast | src/lib.rs:106-112 | no smaller count of blocks covers `n` bits, so the count is ⌈n / SIZE⌉ |
| BitSets.Zeros | src/lib.rs:120-124 | `zeros(n)` holds `required_blocks(n)` blocks of the kind, and its whole view, tail bits included, is zero |
| BitSets.Ones | src/lib.rs:114-118 | `ones(n)` holds `required_blocks(n)` blocks of the kind, and its whole view, tail bits included, is one |
| BitSets.FromBlocks | src/lib.rs:164-168 | the set built from a vector of blocks has `len * SIZE` bits for `len` blocks, and bit `b` of block `q` is at index `q * SIZE + b` |
| BitSets.GetBit | src/lib.rs:135-142 | `get(idx)` panics with `idx` exactly when `idx` is at or past the block count times `SIZE`; otherwise it reads bit `idx` of the view |
| BitSets.SetBit | src/lib.rs:126-133 | `set(idx)` panics with `idx` exactly when `idx` is out of range; otherwise it keeps the block count and kind, and the new view is the old one with bit `idx` set |
| BitSets.FlattenSet | src/lib.rs:126-133 | setting bit `b` of block `q` sets logical bit `q * SIZE + b` and no other |
| BitSets.ZipLongest | src/lib.rs:145-150 | zip-longest pairing: as many blocks as the longer input, paired blocks OR-ed, the longer input's unmatched tail passed through unchanged |
| BitSets.Union | src/lib.rs:144-153 | the union has max-of-both blocks, and its view is the zip-OR of the operands' views (the shorter one read as zero past its end) |
| BitSets.FlattenZip | src/lib.rs:144-153 | block-level zip-longest OR flattens to the bit-level zip-OR of the flattened operands |
| BitSets.BitOr | src/lib.rs:156-162 | the `BitOr` operator is `x.union(y)`, with the same view |
| BitSets.GetAfterSet | src/lib.rs:126-142 | after `set(idx)` succeeds, `get(idx)` reads one and `get(j)` for every other `j` reads, or panics, as before |
| BitSets.SetPanicsLikeGet | src/lib.rs:128-140 | `set` and `get` panic on exactly the same indices |
| BitSets.GetUnion | src/lib.rs:144-153 | `get` on a union: inside either operand it reads one exactly when `get(x)` or `get(y)` reads one, a too-short operand counting as zero (tail pass-through); past both it panics |
| BitSets.ZipLongestCommutes | src/lib.rs:145-150 | zip-longest with OR-ed pairs gives the same blocks in either operand order |
| BitSets.UnionCommutes | src/lib.rs:144-153 | `union(x, y) == union(y, x)`, so `get` agrees on every index |
| BitSets.UnionZeros | src/lib.rs:144-153 | a union with a zero set of no more blocks than `x` keeps `x`'s block count and reads as `x` |
| BitSets.GetZeros | src/lib.rs:120-124 | `get` on `zeros(n)` reads zero below `required_blocks(n) * SIZE`, tail included, and panics from there on |
| BitSets.GetOnes | src/lib.rs:114-118 | `get` on `ones(n)` reads one below `required_blocks(n) * SIZE`, tail included, and panics from there on |
| BitSets.GetFromBlocks | src/lib.rs:164-168 | `get(q * SIZE + b)` on a set built from blocks reads bit `b` of block `q` |
| Scenarios.UnionOfZerosAndOnes | src/lib.rs:175-184 | the union of `zeros(n)` and `ones(n)` reads one at every index below `n`, for every block kind |
| Scenarios.UnionOfTwoBits | src/lib.rs:187-198 | two zero sets with bits `a` and `b` set succeed, and their union reads one exactly at `a` and `b` below `n` |
| Scenarios.UnionOfTwoBitsAtThousand | src/lib.rs:187-198 | the same at the unit test's size 1000, with bits 20 and 600 |
| Scenarios.RequiredBlocksExamples | src/lib.rs:106-112 | 0 bits need 0 blocks, an exact multiple no extra block, one bit more one extra block; 1000 bits need 16 words or 4 vector blocks |
| Scenarios.TailAndOutOfRange | src/lib.rs:126-142 | `ones(1000)` over words reads one at tail index 1010 and `zeros(1000)` reads zero there; index 1024 panics for `get` and `set` |
| Scenarios.UnionOfUnequalLengths | src/lib.rs:144-153 | the union of `ones(64)` and `zeros(128)` over words reads one below 64 and zero from 64 to 128 |

## Left out

- Feature and target selection (`cfg` attributes). All three block kinds are modelled side by side, each as one `Kind`.
- The 32-bit target. `POINTER_WIDTH` is fixed at 64.
- Integer width of indices. Indices and counts are unbounded naturals. `div_rem` and `required_blocks` cannot overflow `usize` in the source either.
- Block-level misuse. A block's `set`/`get` with a local index at or past `SIZE` is not modelled: in the source that is a shift overflow or a lane index out of bounds. The block functions require `idx < SIZE`, which every call from the bit set meets, because it passes `idx % SIZE`.
- In-place mutation and ownership. `set(&mut self)` returns the new set, and `union(self, other)` returns a fresh set. Moves, `Clone` and allocation are not modelled.
- Panic messages. A panic is `Panic(idx)`; its text is not modelled.
- The `wide` crate's internal register layout. `wide::u64x4` is four lanes in `to_array` order.
- The `std::simd` lane indexing. It is modelled as sequence indexing.
- Vectorisation and performance, and the internals of `itertools::zip_longest`. The pairing is a recursive function.
- `benches/benchmark.rs`, which is timing code. It is not part of this model.
