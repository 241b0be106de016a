/**
 * Plain bit sequences, the logical view of blocks and bit sets, and the
 * concatenation of equal-length chunks that lays blocks end to end.
 */
module BitSeq {
  import Index

  /** `n` bits, all `v`. */
  function Fill(n: nat, v: bool): (r: seq<bool>)
    ensures |r| == n
    ensures forall i :: 0 <= i < n ==> r[i] == v
  {
    seq(n, _ => v)
  }

  /**
   * Union of two bit sequences of possibly different lengths: the result is
   * as long as the longer one, and a position past the end of the shorter
   * one counts as zero.
   */
  function Or(a: seq<bool>, b: seq<bool>): (r: seq<bool>)
    ensures |r| == if |a| >= |b| then |a| else |b|
  {
    var n := if |a| >= |b| then |a| else |b|;
    seq(n, i requires 0 <= i < n => (i < |a| && a[i]) || (i < |b| && b[i]))
  }

  /** A run of zeros no longer than `a` is a unit of union. */
  lemma OrZerosRight(a: seq<bool>, n: nat)
    requires n <= |a|
    ensures Or(a, Fill(n, false)) == a
  {
  }

  /** Every chunk is `size` bits long. */
  predicate Uniform(chunks: seq<seq<bool>>, size: nat) {
    forall i :: 0 <= i < |chunks| ==> |chunks[i]| == size
  }

  /** Equal-length chunks laid end to end, chunk 0 first. */
  function Concat(chunks: seq<seq<bool>>, size: nat): (bits: seq<bool>)
    requires Uniform(chunks, size)
    ensures |bits| == |chunks| * size
  {
    if |chunks| == 0 then [] else chunks[0] + Concat(chunks[1..], size)
  }

  /** Bit `b` of chunk `q` sits at position `q * size + b`. */
  lemma {:induction false} ConcatAt(chunks: seq<seq<bool>>, size: nat, q: nat, b: nat)
    requires Uniform(chunks, size)
    requires q < |chunks| && b < size
    ensures q * size + b < |chunks| * size
    ensures Concat(chunks, size)[q * size + b] == chunks[q][b]
  {
    Index.SplitInRange(q, b, size, |chunks|);
    if q > 0 {
      ConcatAt(chunks[1..], size, q - 1, b);
      Index.MulPred(q, size);
    }
  }

  /** Chunks that are all runs of `v` concatenate to a run of `v`. */
  lemma {:induction false} ConcatFill(chunks: seq<seq<bool>>, size: nat, v: bool)
    requires forall i :: 0 <= i < |chunks| ==> chunks[i] == Fill(size, v)
    ensures Uniform(chunks, size)
    ensures Concat(chunks, size) == Fill(|chunks| * size, v)
  {
    if |chunks| > 0 {
      ConcatFill(chunks[1..], size, v);
      Index.MulPred(|chunks|, size);
    }
  }

  /** Setting bit `b` of chunk `q` sets position `q * size + b` of the concatenation and nothing else. */
  lemma {:induction false} ConcatSet(chunks: seq<seq<bool>>, size: nat, q: nat, b: nat)
    requires Uniform(chunks, size)
    requires q < |chunks| && b < size
    ensures Uniform(chunks[q := chunks[q][b := true]], size)
    ensures q * size + b < |chunks| * size
    ensures Concat(chunks[q := chunks[q][b := true]], size) == Concat(chunks, size)[q * size + b := true]
  {
    Index.SplitInRange(q, b, size, |chunks|);
    var updated := chunks[q := chunks[q][b := true]];
    if q == 0 {
      assert updated[1..] == chunks[1..];
    } else {
      assert updated[1..] == chunks[1..][q - 1 := chunks[q][b := true]];
      ConcatSet(chunks[1..], size, q - 1, b);
      Index.MulPred(q, size);
    }
  }

  /** OR of sequences whose leading parts have equal length splits at that length. */
  lemma OrAppend(x: seq<bool>, y: seq<bool>, u: seq<bool>, v: seq<bool>)
    requires |x| == |u|
    ensures Or(x + y, u + v) == Or(x, u) + Or(y, v)
  {
  }

  /** The empty sequence is a unit of union on either side. */
  lemma OrEmpty(a: seq<bool>)
    ensures Or(a, []) == a && Or([], a) == a
  {
  }

  /**
   * Chunks paired up by OR, with the longer operand's tail passed through,
   * concatenate to the union of the operands' concatenations.
   */
  lemma {:induction false} ConcatOr(c: seq<seq<bool>>, a: seq<seq<bool>>, b: seq<seq<bool>>, size: nat)
    requires Uniform(a, size) && Uniform(b, size)
    requires |c| == if |a| >= |b| then |a| else |b|
    requires forall i :: 0 <= i < |a| && 0 <= i < |b| ==> c[i] == Or(a[i], b[i])
    requires forall i :: |b| <= i < |a| ==> c[i] == a[i]
    requires forall i :: |a| <= i < |b| ==> c[i] == b[i]
    ensures Uniform(c, size)
    ensures Concat(c, size) == Or(Concat(a, size), Concat(b, size))
  {
    if |a| == 0 {
      assert c == b;
      OrEmpty(Concat(b, size));
    } else if |b| == 0 {
      assert c == a;
      OrEmpty(Concat(a, size));
    } else {
      ConcatOr(c[1..], a[1..], b[1..], size);
      OrAppend(a[0], Concat(a[1..], size), b[0], Concat(b[1..], size));
    }
  }
}
