/**
 * Index arithmetic shared by the container and by the lane-based blocks:
 * a global bit index is split into (block index, local index), and a
 * block-local index into (lane, bit), by the same quotient/remainder pair.
 */
module Index {

  /** `div_rem`: the quotient and remainder of `idx` by a positive divisor. */
  function DivRem(idx: nat, size: nat): (r: (nat, nat))
    requires size > 0
    ensures r.1 < size
    ensures idx == r.0 * size + r.1
  {
    (idx / size, idx % size)
  }

  /** The decomposition is unique: any quotient/remainder pair of `idx` is the one DivRem returns. */
  lemma DivRemUnique(idx: nat, size: nat, q: nat, r: nat)
    requires size > 0 && r < size
    requires idx == q * size + r
    ensures DivRem(idx, size) == (q, r)
  {
    var (q', r') := DivRem(idx, size);
    if q' < q {
      MulMonotone(q' + 1, q, size);
      assert false;
    } else if q < q' {
      MulMonotone(q + 1, q', size);
      assert false;
    }
  }

  /** Multiplication by a natural number is monotone. */
  lemma MulMonotone(a: nat, b: nat, c: nat)
    requires a <= b
    ensures a * c <= b * c
  {
    assert b * c == a * c + (b - a) * c;
  }

  /** Position `q * size + r` lies below `n` whole blocks exactly when block `q` is one of them. */
  lemma SplitInRange(q: nat, r: nat, size: nat, n: nat)
    requires r < size
    ensures q < n <==> q * size + r < n * size
  {
    if q < n {
      MulMonotone(q + 1, n, size);
    } else {
      MulMonotone(n, q, size);
    }
  }

  /** One more block: `q * size` is one `size` past `(q - 1) * size`. */
  lemma MulPred(q: nat, size: nat)
    requires q > 0
    ensures q * size == size + (q - 1) * size
  {
  }
}
