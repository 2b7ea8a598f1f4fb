/** A 32-bit word as the set of its bits: the word operations of the event code are set operations. */
module EventBits {

  function Half(w: bv32): bv32
  {
    w >> 1
  }

  /** Bit i of the word is up. */
  predicate Up(w: bv32, i: nat)
    decreases i
  {
    if i == 0 then w & 1 == 1 else Up(Half(w), i - 1)
  }

  ghost function Bits(w: bv32): set<nat>
  {
    set i: nat | i < 32 && Up(w, i)
  }

  lemma {:induction false} UpAnd(a: bv32, b: bv32, x: bv32, i: nat)
    requires x == a & b
    ensures Up(x, i) <==> Up(a, i) && Up(b, i)
    decreases i
  {
    AndParts(a, b);
    if i > 0 { UpAnd(Half(a), Half(b), Half(x), i - 1); }
  }

  lemma AndParts(a: bv32, b: bv32)
    ensures Half(a & b) == Half(a) & Half(b)
    ensures (a & b) & 1 == 1 <==> a & 1 == 1 && b & 1 == 1
  {
  }

  lemma {:induction false} UpOr(a: bv32, b: bv32, x: bv32, i: nat)
    requires x == a | b
    ensures Up(x, i) <==> Up(a, i) || Up(b, i)
    decreases i
  {
    OrParts(a, b);
    if i > 0 { UpOr(Half(a), Half(b), Half(x), i - 1); }
  }

  lemma OrParts(a: bv32, b: bv32)
    ensures Half(a | b) == Half(a) | Half(b)
    ensures (a | b) & 1 == 1 <==> a & 1 == 1 || b & 1 == 1
  {
  }

  lemma {:induction false} UpMinus(a: bv32, b: bv32, x: bv32, i: nat)
    requires x == a & !b && i < 32
    ensures Up(x, i) <==> Up(a, i) && !Up(b, i)
    decreases i
  {
    MinusParts(a, b);
    if i > 0 { UpMinus(Half(a), Half(b), Half(x), i - 1); }
  }

  lemma MinusParts(a: bv32, b: bv32)
    ensures Half(a & !b) == Half(a) & !Half(b)
    ensures (a & !b) & 1 == 1 <==> a & 1 == 1 && b & 1 != 1
  {
  }

  lemma AndBits(a: bv32, b: bv32, x: bv32)
    requires x == a & b
    ensures Bits(x) == Bits(a) * Bits(b)
  {
    forall i: nat | i < 32 ensures Up(x, i) <==> Up(a, i) && Up(b, i) { UpAnd(a, b, x, i); }
  }

  lemma OrBits(a: bv32, b: bv32, x: bv32)
    requires x == a | b
    ensures Bits(x) == Bits(a) + Bits(b)
  {
    forall i: nat | i < 32 ensures Up(x, i) <==> Up(a, i) || Up(b, i) { UpOr(a, b, x, i); }
  }

  lemma MinusBits(a: bv32, b: bv32, x: bv32)
    requires x == a & !b
    ensures Bits(x) == Bits(a) - Bits(b)
  {
    forall i: nat | i < 32 ensures Up(x, i) <==> Up(a, i) && !Up(b, i) { UpMinus(a, b, x, i); }
  }

  /** n shifts to the right empty the word. */
  predicate Fits(w: bv32, n: nat)
  {
    if n == 0 then w == 0 else Fits(Half(w), n - 1)
  }

  function Halves(w: bv32, n: nat): bv32
  {
    if n == 0 then w else Half(Halves(w, n - 1))
  }

  lemma {:induction false} FitsFrom(w: bv32, k: nat, n: nat)
    requires k <= n && Halves(w, n) == 0
    ensures Fits(Halves(w, k), n - k)
    decreases n - k
  {
    if k < n {
      FitsFrom(w, k + 1, n);
    }
  }

  lemma FitsAll(w: bv32)
    ensures Fits(w, 32)
  {
    Shifted(w);
    FitsFrom(w, 0, 32);
  }

  /** Thirty-two halvings leave nothing. */
  lemma Shifted(w: bv32)
    ensures Halves(w, 32) == 0
  {
    assert Halves(w, 0) <= 0xffffffff;
    assert Halves(w, 2) <= 0x3fffffff;
    assert Halves(w, 4) <= 0xfffffff;
    assert Halves(w, 6) <= 0x3ffffff;
    assert Halves(w, 8) <= 0xffffff;
    assert Halves(w, 10) <= 0x3fffff;
    assert Halves(w, 12) <= 0xfffff;
    assert Halves(w, 14) <= 0x3ffff;
    assert Halves(w, 16) <= 0xffff;
    assert Halves(w, 18) <= 0x3fff;
    assert Halves(w, 20) <= 0xfff;
    assert Halves(w, 22) <= 0x3ff;
    assert Halves(w, 24) <= 0xff;
    assert Halves(w, 26) <= 0x3f;
    assert Halves(w, 28) <= 0xf;
    assert Halves(w, 30) <= 0x3;
  }

  lemma {:induction false} SomeBit(w: bv32, n: nat) returns (i: nat)
    requires Fits(w, n) && w != 0
    ensures i < n && Up(w, i)
    decreases n
  {
    if w & 1 == 1 {
      i := 0;
    } else {
      HalfNonZero(w);
      i := SomeBit(Half(w), n - 1);
      i := i + 1;
    }
  }

  lemma HalfNonZero(w: bv32)
    requires w != 0 && w & 1 != 1
    ensures Half(w) != 0
  {
  }

  lemma {:induction false} ZeroDown(i: nat)
    ensures !Up(0, i)
    decreases i
  {
    if i > 0 { assert Half(0) == 0; ZeroDown(i - 1); }
  }

  lemma ZeroBits(w: bv32)
    ensures w == 0 <==> Bits(w) == {}
  {
    if w == 0 {
      forall i: nat | i < 32 ensures !Up(w, i) { ZeroDown(i); }
    } else {
      FitsAll(w);
      var i := SomeBit(w, 32);
      assert i in Bits(w);
    }
  }

  /** Words with the same bits are the same word. */
  lemma SameBits(a: bv32, b: bv32)
    ensures Bits(a) == Bits(b) <==> a == b
  {
    if Bits(a) == Bits(b) {
      MinusBits(a, b, a & !b);
      MinusBits(b, a, b & !a);
      ZeroBits(a & !b);
      ZeroBits(b & !a);
      NoDifference(a, b);
    }
  }

  lemma NoDifference(a: bv32, b: bv32)
    requires a & !b == 0 && b & !a == 0
    ensures a == b
  {
  }
}
