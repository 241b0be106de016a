/**
 * The machine-word block: one `usize` addressed by shift-and-mask.
 * The word width is the target's pointer width; this model fixes it at 64.
 */
module Word {

  /** Bit width of `usize` on the modelled (64-bit) target. */
  const PointerWidth: nat := 64

  /** `usize::MAX`: every one of the 64 bits set. */
  const Max: bv64 := 0xFFFF_FFFF_FFFF_FFFF

  /** `1 << idx`: the word whose only set bit is bit `idx`. */
  function Mask(idx: nat): bv64
    requires idx < PointerWidth
  {
    1 << idx
  }

  /** `w & m != 0`: whether `w` has a bit in common with the mask `m`. */
  predicate Meets(w: bv64, m: bv64) {
    w & m != 0
  }

  /** Two masks share no bit. */
  predicate Disjoint(m: bv64, n: bv64) {
    m & n == 0
  }

  /** Bit `idx` of `w`: whether `w` meets the mask of position `idx`. */
  function Get(w: bv64, idx: nat): bool
    requires idx < PointerWidth
  {
    Meets(w, Mask(idx))
  }

  /** The all-zero word: no bit reads one. */
  function Zeros(): (w: bv64)
    ensures forall j :: 0 <= j < PointerWidth ==> !Get(w, j)
  {
    var w: bv64 := 0;
    forall j | 0 <= j < PointerWidth
      ensures !Get(w, j)
    {
      MeetsNothing(Mask(j));
    }
    w
  }

  /** The all-one word, `usize::MAX`: every bit reads one. */
  function Ones(): (w: bv64)
    ensures forall j :: 0 <= j < PointerWidth ==> Get(w, j)
  {
    forall j | 0 <= j < PointerWidth
      ensures Get(Max, j)
    {
      MaskNonzero(j);
      MeetsEverything(Mask(j));
    }
    Max
  }

  /** `w` with the mask of position `idx` OR-ed in: bit `idx` becomes one and no other bit moves. */
  function Set(w: bv64, idx: nat): (r: bv64)
    requires idx < PointerWidth
    ensures forall j :: 0 <= j < PointerWidth ==> Get(r, j) == (j == idx || Get(w, j))
  {
    var r := w | Mask(idx);
    forall j | 0 <= j < PointerWidth
      ensures Get(r, j) == (j == idx || Get(w, j))
    {
      SetBit(w, idx, j);
    }
    r
  }

  /** Bitwise OR of two words: each bit is the OR of the operands' bits. */
  function Or(a: bv64, b: bv64): (r: bv64)
    ensures forall j :: 0 <= j < PointerWidth ==> Get(r, j) == (Get(a, j) || Get(b, j))
  {
    var r := a | b;
    forall j | 0 <= j < PointerWidth
      ensures Get(r, j) == (Get(a, j) || Get(b, j))
    {
      MeetsOr(a, b, Mask(j));
    }
    r
  }

  /** Bitwise OR of words is commutative. */
  lemma OrCommutes(a: bv64, b: bv64)
    ensures Or(a, b) == Or(b, a)
  {
  }

  /** Setting bit `idx`, read at position `j`. */
  lemma SetBit(w: bv64, idx: nat, j: nat)
    requires idx < PointerWidth && j < PointerWidth
    ensures Get(w | Mask(idx), j) == (j == idx || Get(w, j))
  {
    if idx == j {
      SetBitSame(w, idx);
    } else {
      SetBitOther(w, idx, j);
    }
  }

  /** Setting bit `idx` makes bit `idx` read one. */
  lemma SetBitSame(w: bv64, idx: nat)
    requires idx < PointerWidth
    ensures Get(w | Mask(idx), idx)
  {
    MaskNonzero(idx);
    MeetsOwnMask(w, Mask(idx));
  }

  /** Setting bit `idx` leaves every other bit as it was. */
  lemma SetBitOther(w: bv64, idx: nat, j: nat)
    requires idx < PointerWidth && j < PointerWidth && idx != j
    ensures Get(w | Mask(idx), j) == Get(w, j)
  {
    var w' := w | Mask(idx);
    MasksDisjoint(idx, j);
    MeetsUnaffected(w, Mask(idx), Mask(j));
    assert Meets(w', Mask(j)) == Meets(w, Mask(j));
  }

  // The facts below are stated over an arbitrary mask and kept apart from
  // the bit positions, so that each is a small bit-vector identity.

  /** The zero word meets no mask. */
  lemma MeetsNothing(m: bv64)
    ensures !Meets(0, m)
  {
  }

  /** `usize::MAX` meets every nonzero mask. */
  lemma MeetsEverything(m: bv64)
    requires m != 0
    ensures Meets(Max, m)
  {
  }

  /** OR-ing in a nonzero mask makes the word meet it. */
  lemma MeetsOwnMask(w: bv64, m: bv64)
    requires m != 0
    ensures Meets(w | m, m)
  {
  }

  /** OR-ing in a mask leaves the word's meeting with any disjoint mask unchanged. */
  lemma MeetsUnaffected(w: bv64, m: bv64, n: bv64)
    requires Disjoint(m, n)
    ensures Meets(w | m, n) == Meets(w, n)
  {
    AndDistributes(w, m, n);
    OrZero(w & n);
  }

  /** A union meets a mask exactly when one of its operands does. */
  lemma MeetsOr(a: bv64, b: bv64, m: bv64)
    ensures Meets(a | b, m) == (Meets(a, m) || Meets(b, m))
  {
    AndDistributes(a, b, m);
    OrNonzero(a & m, b & m);
  }

  /** Masking distributes over OR. */
  lemma AndDistributes(a: bv64, b: bv64, m: bv64)
    ensures (a | b) & m == (a & m) | (b & m)
  {
  }

  /** Zero is the unit of OR. */
  lemma OrZero(x: bv64)
    ensures x | 0 == x
  {
  }

  /** An OR is nonzero exactly when one operand is. */
  lemma OrNonzero(x: bv64, y: bv64)
    ensures (x | y != 0) == (x != 0 || y != 0)
  {
  }

  /** The mask of a position below the word width is nonzero. */
  lemma MaskNonzero(i: nat)
    requires i < PointerWidth
    ensures Mask(i) != 0
  {
  }

  /** The masks of two different positions share no bit. */
  lemma MasksDisjoint(i: nat, j: nat)
    requires i < PointerWidth && j < PointerWidth && i != j
    ensures Disjoint(Mask(i), Mask(j))
  {
    NarrowPosition(i);
    NarrowPosition(j);
    NarrowMasksDisjoint(i as bv7, j as bv7);
  }

  /** MasksDisjoint for positions held as 7-bit values, the width a shift amount is encoded at. */
  lemma NarrowMasksDisjoint(i: bv7, j: bv7)
    requires i < 64 && j < 64 && i != j
    ensures (1 as bv64 << i) & (1 << j) == 0
  {
  }

  /** A position below 64 converts to 7 bits without loss. */
  lemma NarrowPosition(i: nat)
    requires i < PointerWidth
    ensures (i as bv7) as int == i && (i as bv7) < 64
  {
  }
}
