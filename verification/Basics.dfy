/** Small facts about numbers, sequences, sets and maps that several components share. */
module Basics {

  function Min(a: int, b: int): int { if a < b then a else b }

  function Max(a: int, b: int): int { if a > b then a else b }

  ghost predicate Distinct(r: seq<int>)
  {
    forall i, j :: 0 <= i < j < |r| ==> r[i] != r[j]
  }

  lemma HasMember(s: set<int>)
    requires s != {}
    ensures exists x :: x in s
  {
    var x: int :| x in s || forall y :: y !in s;
    assert x in s || s == {};
  }

  method Pick(s: set<int>) returns (t: int)
    requires s != {}
    ensures t in s
  {
    HasMember(s);
    t :| t in s;
  }

  lemma MapPlusAssoc(a: map<int, int>, b: map<int, int>, c: map<int, int>)
    ensures a + (b + c) == (a + b) + c
  {
  }

  /** Replacing the middle of three maps over ascending stretches of keys. */
  lemma SwapMiddle(a: map<int, int>, m: map<int, int>, m': map<int, int>, c: map<int, int>, lo: int, hi: int)
    requires forall x :: x in a ==> x < lo
    requires forall x :: x in m ==> lo <= x < hi
    requires forall x :: x in m' ==> lo <= x < hi
    requires forall x :: x in c ==> x >= hi
    ensures a + (m' + c) == ((a + (m + c)) - m.Keys) + m'
  {
    var u, v := a + (m' + c), ((a + (m + c)) - m.Keys) + m';
    forall x ensures (x in u <==> x in v) && (x in u ==> u[x] == v[x]) { }
  }

  // ---- multiples

  lemma Multiple(i: int, j: int, size: int)
    requires i < j && size > 0
    ensures i * size + size <= j * size
  {
    assert j * size == i * size + (j - i) * size;
    assert (j - i - 1) * size >= 0;
    assert (j - i) * size == (j - i - 1) * size + size;
  }

  lemma Remainder(x: int, q: int, r: int, s: int)
    requires s > 0 && 0 <= r < s && x == q * s + r
    ensures x % s == r
  {
    var q', r' := x / s, x % s;
    assert x == q' * s + r';
    if q > q' { Multiple(q', q, s); }
    if q < q' { Multiple(q, q', s); }
  }

  /** Adding multiples of s does not change the remainder. */
  lemma AddMultiple(a: int, i: int, s: int)
    requires s > 0
    ensures (a + i * s) % s == a % s
  {
    var q := a / s;
    assert a + i * s == (q + i) * s + a % s;
    Remainder(a + i * s, q + i, a % s, s);
  }

  lemma MultipleOf(k: int, s: int)
    requires s > 0
    ensures (k * s) % s == 0
  {
    AddMultiple(0, k, s);
  }
}
