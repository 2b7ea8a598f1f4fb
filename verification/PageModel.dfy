/** The free pages as a list of runs: what allocating and freeing runs of pages does to it. Pages are
    numbered by address; number 0 is the null address and never free. */
module PageModel {

  datatype Run = Run(start: int, len: int)

  /** Runs ascend and never touch each other. */
  ghost predicate Apart(l: seq<Run>, i: nat)
    requires i + 1 < |l|
  {
    l[i].start + l[i].len < l[i + 1].start
  }

  ghost predicate Canonical(l: seq<Run>)
  {
    && (forall i :: 0 <= i < |l| ==> l[i].len > 0 && l[i].start > 0)
    && (forall i :: 0 <= i < |l| - 1 ==> Apart(l, i))
  }

  predicate Within(p: int, start: int, len: int)
  {
    start <= p < start + len
  }

  ghost function Span(start: int, len: int): (s: set<int>)
    ensures forall p :: p in s <==> start <= p < start + len
  {
    set p: int | start <= p < start + len && Within(p, start, len)
  }

  ghost function Pages(l: seq<Run>): set<int>
    decreases |l|
  {
    if l == [] then {} else Span(l[0].start, l[0].len) + Pages(l[1..])
  }

  lemma CanonicalTail(l: seq<Run>)
    requires Canonical(l) && l != []
    ensures Canonical(l[1..]) && l[0].len > 0 && l[0].start > 0
    ensures |l| > 1 ==> l[0].start + l[0].len < l[1].start
  {
    forall i | 0 <= i < |l[1..]| - 1 ensures Apart(l[1..], i) { assert Apart(l, i + 1); }
    if |l| > 1 { assert Apart(l, 0); }
  }

  lemma CanonicalCons(b: Run, l: seq<Run>)
    requires Canonical(l) && b.len > 0 && b.start > 0 && (l != [] ==> b.start + b.len < l[0].start)
    ensures Canonical([b] + l)
  {
    var m := [b] + l;
    forall i | 0 <= i < |m| - 1 ensures Apart(m, i) { if i > 0 { assert Apart(l, i - 1); } }
  }

  lemma {:induction false} PagesAbove(l: seq<Run>)
    requires Canonical(l)
    ensures forall p :: p in Pages(l) ==> l != [] && p >= l[0].start
    ensures l != [] ==> l[0].start in Pages(l)
    decreases |l|
  {
    if l != [] {
      CanonicalTail(l);
      PagesAbove(l[1..]);
    }
  }

  /** The list is a canonical form: the set of free pages determines it. */
  lemma {:induction false} CanonicalIsUnique(a: seq<Run>, b: seq<Run>)
    requires Canonical(a) && Canonical(b) && Pages(a) == Pages(b)
    ensures a == b
    decreases |a|
  {
    PagesAbove(a);
    PagesAbove(b);
    if a == [] || b == [] {
    } else {
      CanonicalTail(a);
      CanonicalTail(b);
      assert a[0].start == b[0].start;
      FirstRunEnds(a);
      FirstRunEnds(b);
      PastEnd(a[0].start, b[0].len, a[0].start + a[0].len);
      PastEnd(a[0].start, a[0].len, b[0].start + b[0].len);
      PagesAbove(a[1..]);
      PagesAbove(b[1..]);
      assert Pages(a[1..]) == Pages(a) - Span(a[0].start, a[0].len);
      assert Pages(b[1..]) == Pages(b) - Span(b[0].start, b[0].len);
      CanonicalIsUnique(a[1..], b[1..]);
      assert a == [a[0]] + a[1..] && b == [b[0]] + b[1..];
    }
  }

  lemma PastEnd(start: int, len: int, q: int)
    requires q !in Span(start, len) && q >= start
    ensures q >= start + len
  {
  }

  lemma SpansApart(a: int, j: int, b: int, k: int)
    requires Span(a, j) !! Span(b, k) && j > 0 && k > 0
    ensures a + j <= b || b + k <= a
  {
    var p := if a >= b then a else b;
    assert !(p in Span(a, j) && p in Span(b, k));
  }

  lemma FirstRunEnds(l: seq<Run>)
    requires Canonical(l) && l != []
    ensures l[0].start + l[0].len !in Pages(l)
  {
    CanonicalTail(l);
    PagesAbove(l[1..]);
  }

  // ---- allocation

  /** rt_page_alloc: the first run that is long enough gives its front. The result is 0 when there is none. */
  function AllocRuns(l: seq<Run>, n: nat): (r: (seq<Run>, int))
    decreases |l|
  {
    if l == [] then ([], 0)
    else if l[0].len > n then ([Run(l[0].start + n, l[0].len - n)] + l[1..], l[0].start)
    else if l[0].len == n then (l[1..], l[0].start)
    else
      var (rest, p) := AllocRuns(l[1..], n);
      ([l[0]] + rest, p)
  }

  function AllocStep(l: seq<Run>, n: nat): (seq<Run>, int)
  {
    if n == 0 then (l, 0) else AllocRuns(l, n)
  }

  /** Index of the first run of at least n pages, or |l|. */
  function FirstLong(l: seq<Run>, n: nat): (i: nat)
    ensures i <= |l| && (i < |l| ==> l[i].len >= n)
    ensures forall j :: 0 <= j < i ==> l[j].len < n
    decreases |l|
  {
    if l == [] || l[0].len >= n then 0 else 1 + FirstLong(l[1..], n)
  }

  /** Allocation takes the front of the first run that is long enough. */
  lemma {:induction false} AllocIsFirstLong(l: seq<Run>, n: nat)
    ensures var i := FirstLong(l, n); AllocRuns(l, n).1 == if i < |l| then l[i].start else 0
    decreases |l|
  {
    if l != [] { AllocIsFirstLong(l[1..], n); }
  }

  /** A run that is longer than asked loses its front. */
  lemma FrontTakes(b: Run, rest: seq<Run>, n: nat)
    requires Canonical(rest) && b.start > 0 && 0 < n < b.len && (rest != [] ==> b.start + b.len < rest[0].start)
    ensures var r := [Run(b.start + n, b.len - n)] + rest;
      Canonical(r) && Span(b.start, n) <= Pages([b] + rest) && Pages(r) == Pages([b] + rest) - Span(b.start, n)
  {
    var c := Run(b.start + n, b.len - n);
    CanonicalCons(c, rest);
    PagesAbove(rest);
    assert ([b] + rest)[1..] == rest && ([c] + rest)[1..] == rest;
    assert Span(b.start, b.len) == Span(b.start, n) + Span(c.start, c.len);
  }

  /** What is taken from the runs behind b leaves b alone. */
  lemma BehindTakes(b: Run, t: seq<Run>, rest: seq<Run>, p: int, n: nat)
    requires Canonical(t) && b.start > 0 && b.len > 0 && (t != [] ==> b.start + b.len < t[0].start)
    requires Canonical(rest) && (rest != [] ==> t != [] && rest[0].start >= t[0].start)
    requires p != 0 ==> Span(p, n) <= Pages(t) && Pages(rest) == Pages(t) - Span(p, n)
    ensures Canonical([b] + rest)
    ensures p != 0 ==> Span(p, n) <= Pages([b] + t) && Pages([b] + rest) == Pages([b] + t) - Span(p, n)
  {
    CanonicalCons(b, rest);
    PagesAbove(t);
    assert ([b] + rest)[1..] == rest && ([b] + t)[1..] == t;
  }

  /** A successful allocation takes exactly the returned pages out of the free ones. */
  lemma {:induction false} AllocTakes(l: seq<Run>, n: nat)
    requires Canonical(l) && n > 0
    ensures var (r, p) := AllocRuns(l, n);
      && Canonical(r)
      && (r != [] ==> l != [] && r[0].start >= l[0].start)
      && (p == 0 ==> r == l)
      && (p != 0 ==> p > 0 && Span(p, n) <= Pages(l) && Pages(r) == Pages(l) - Span(p, n))
    decreases |l|
  {
    if l != [] {
      CanonicalTail(l);
      PagesAbove(l[1..]);
      var b := l[0];
      assert l == [b] + l[1..];
      if b.len > n {
        FrontTakes(b, l[1..], n);
      } else if b.len < n {
        AllocTakes(l[1..], n);
        var (rest, p) := AllocRuns(l[1..], n);
        BehindTakes(b, l[1..], rest, p, n);
      }
    }
  }

  /** Pages p .. p + n - 1 are all free and lie in one run. */
  lemma {:induction false} InOneRun(l: seq<Run>, p: int, n: nat) returns (i: nat)
    requires Canonical(l) && n > 0 && Span(p, n) <= Pages(l)
    ensures i < |l| && l[i].start <= p && p + n <= l[i].start + l[i].len
    decreases |l|
  {
    assert p in Span(p, n);
    CanonicalTail(l);
    PagesAbove(l[1..]);
    var e := l[0].start + l[0].len;
    FirstRunEnds(l);
    if p < e {
      assert e !in Span(p, n);
      PastEnd(p, n, e);
      i := 0;
    } else {
      forall q | q in Span(p, n) ensures q in Pages(l[1..]) { assert q in Pages(l); }
      i := InOneRun(l[1..], p, n);
      i := i + 1;
    }
  }

  lemma {:induction false} AllocFailsOnShort(l: seq<Run>, n: nat)
    requires Canonical(l) && n > 0
    ensures AllocRuns(l, n).1 == 0 <==> forall i :: 0 <= i < |l| ==> l[i].len < n
    decreases |l|
  {
    if l != [] {
      CanonicalTail(l);
      AllocFailsOnShort(l[1..], n);
      if l[0].len < n && (forall i :: 0 <= i < |l[1..]| ==> l[1..][i].len < n) {
        forall i | 0 <= i < |l| ensures l[i].len < n { if i > 0 { assert l[1..][i - 1] == l[i]; } }
      }
    }
  }

  lemma {:induction false} RunIsFree(l: seq<Run>, i: nat)
    requires i < |l|
    ensures Span(l[i].start, l[i].len) <= Pages(l)
    decreases |l|
  {
    if i > 0 { RunIsFree(l[1..], i - 1); }
  }

  /** An allocation fails exactly when no n consecutive pages are free. */
  lemma AllocFailsIff(l: seq<Run>, n: nat)
    requires Canonical(l) && n > 0
    ensures AllocRuns(l, n).1 == 0 <==> forall p :: !(Span(p, n) <= Pages(l))
  {
    AllocFailsOnShort(l, n);
    if AllocRuns(l, n).1 == 0 {
      forall p ensures !(Span(p, n) <= Pages(l)) {
        if Span(p, n) <= Pages(l) {
          var i := InOneRun(l, p, n);
        }
      }
    } else {
      var i :| 0 <= i < |l| && l[i].len >= n;
      RunIsFree(l, i);
      assert Span(l[i].start, n) <= Span(l[i].start, l[i].len);
    }
  }

  // ---- freeing

  /** rt_page_free: k pages from n on join the run they touch, on either or both sides. */
  function FreeRuns(l: seq<Run>, n: int, k: nat): seq<Run>
    decreases |l|
  {
    if l == [] then [Run(n, k)]
    else
      var b := l[0];
      if b.start + b.len == n then
        if |l| > 1 && b.start + (b.len + k) == l[1].start then [Run(b.start, b.len + k + l[1].len)] + l[2..]
        else [Run(b.start, b.len + k)] + l[1..]
      else if b.start == n + k then [Run(n, b.len + k)] + l[1..]
      else if b.start > n + k then [Run(n, k)] + l
      else [b] + FreeRuns(l[1..], n, k)
  }

  /** Freeing keeps the canonical form and adds exactly the given pages. */
  lemma {:induction false} FreeAdds(l: seq<Run>, n: int, k: nat)
    requires Canonical(l) && n > 0 && k > 0 && Span(n, k) !! Pages(l)
    ensures var r := FreeRuns(l, n, k);
      && Canonical(r) && Pages(r) == Pages(l) + Span(n, k)
      && r != [] && r[0].start == (if l == [] || n < l[0].start then n else l[0].start)
    decreases |l|
  {
    assert n in Span(n, k);
    if l == [] {
      CanonicalCons(Run(n, k), []);
      assert [Run(n, k)] + [] == [Run(n, k)] && [Run(n, k)][1..] == [];
    } else {
      CanonicalTail(l);
      var b := l[0];
      assert l == [b] + l[1..];
      PagesAbove(l[1..]);
      FreeCase(l, n, k);
      if b.start + b.len == n {
        FreeBehind(l, n, k);
      } else if b.start >= n + k {
        FreeInFront(l, n, k);
      } else {
        FreeAdds(l[1..], n, k);
        var r := FreeRuns(l[1..], n, k);
        CanonicalCons(b, r);
        assert ([b] + r)[1..] == r;
      }
    }
  }

  /** The freed pages lie in front of the first run or behind it. */
  lemma FreeCase(l: seq<Run>, n: int, k: nat)
    requires Canonical(l) && l != [] && k > 0 && Span(n, k) !! Pages(l)
    ensures n + k <= l[0].start || l[0].start + l[0].len <= n
  {
    CanonicalTail(l);
    assert Span(n, k) !! Span(l[0].start, l[0].len);
    SpansApart(n, k, l[0].start, l[0].len);
  }

  lemma FreeBehind(l: seq<Run>, n: int, k: nat)
    requires Canonical(l) && l != [] && n > 0 && k > 0 && Span(n, k) !! Pages(l) && l[0].start + l[0].len == n
    ensures var r := FreeRuns(l, n, k);
      Canonical(r) && Pages(r) == Pages(l) + Span(n, k) && r != [] && r[0].start == l[0].start
  {
    FreeGap(l, n, k);
    if |l| > 1 && n + k == l[1].start { FreeBoth(l, n, k); } else { FreeEnd(l, n, k); }
  }

  /** The freed pages close the gap between the first two runs. */
  lemma FreeBoth(l: seq<Run>, n: int, k: nat)
    requires Canonical(l) && |l| > 1 && k > 0 && l[0].start + l[0].len == n && n + k == l[1].start
    ensures var r := [Run(l[0].start, l[0].len + k + l[1].len)] + l[2..];
      Canonical(r) && Pages(r) == Pages(l) + Span(n, k)
  {
    CanonicalTail(l);
    CanonicalTail(l[1..]);
    assert l[1..][1..] == l[2..];
    SpanJoin(l[0].start, l[0].len, k);
    SpanJoin(l[0].start, l[0].len + k, l[1].len);
    Front(Run(l[0].start, l[0].len + k + l[1].len), l[2..]);
  }

  /** The freed pages extend the first run and do not reach the second one. */
  lemma FreeEnd(l: seq<Run>, n: int, k: nat)
    requires Canonical(l) && l != [] && k > 0 && l[0].start + l[0].len == n && (|l| > 1 ==> n + k < l[1].start)
    ensures var r := [Run(l[0].start, l[0].len + k)] + l[1..];
      Canonical(r) && Pages(r) == Pages(l) + Span(n, k)
  {
    CanonicalTail(l);
    SpanJoin(l[0].start, l[0].len, k);
    Front(Run(l[0].start, l[0].len + k), l[1..]);
  }

  lemma SpanJoin(start: int, j: int, k: int)
    requires j >= 0 && k >= 0
    ensures Span(start, j + k) == Span(start, j) + Span(start + j, k)
  {
  }

  /** Pages that are freed behind the first run end before the second one. */
  lemma FreeGap(l: seq<Run>, n: int, k: nat)
    requires Canonical(l) && l != [] && k > 0 && Span(n, k) !! Pages(l) && l[0].start + l[0].len == n
    ensures |l| > 1 ==> n + k <= l[1].start
  {
    CanonicalTail(l);
    if |l| > 1 {
      CanonicalTail(l[1..]);
      assert Span(n, k) !! Pages(l[1..]);
      FreeCase(l[1..], n, k);
    }
  }

  /** A run in front of a canonical list. */
  lemma Front(b: Run, l: seq<Run>)
    requires Canonical(l) && b.len > 0 && b.start > 0 && (l != [] ==> b.start + b.len < l[0].start)
    ensures Canonical([b] + l) && Pages([b] + l) == Span(b.start, b.len) + Pages(l)
  {
    CanonicalCons(b, l);
    assert ([b] + l)[1..] == l;
  }

  lemma FreeInFront(l: seq<Run>, n: int, k: nat)
    requires Canonical(l) && l != [] && n > 0 && k > 0 && l[0].start >= n + k && l[0].start + l[0].len != n
    ensures var r := FreeRuns(l, n, k);
      Canonical(r) && Pages(r) == Pages(l) + Span(n, k) && r != [] && r[0].start == n
  {
    if l[0].start == n + k { FreeBefore(l, n, k); } else { Front(Run(n, k), l); }
  }

  /** The freed pages extend the first run to the front. */
  lemma FreeBefore(l: seq<Run>, n: int, k: nat)
    requires Canonical(l) && l != [] && n > 0 && k > 0 && l[0].start == n + k
    ensures var r := [Run(n, l[0].len + k)] + l[1..];
      Canonical(r) && Pages(r) == Pages(l) + Span(n, k)
  {
    CanonicalTail(l);
    SpanJoin(n, k, l[0].len);
    Front(Run(n, l[0].len + k), l[1..]);
  }

  /** Allocating and freeing the same run restores the identical list. */
  lemma AllocFreeRestores(l: seq<Run>, n: nat)
    requires Canonical(l) && n > 0 && AllocRuns(l, n).1 != 0
    ensures FreeRuns(AllocRuns(l, n).0, AllocRuns(l, n).1, n) == l
  {
    AllocTakes(l, n);
    var (r, p) := AllocRuns(l, n);
    FreeAdds(r, p, n);
    CanonicalIsUnique(FreeRuns(r, p, n), l);
  }

  /** The order in which pages are freed does not matter. */
  lemma FreeCommutes(l: seq<Run>, a: int, j: nat, b: int, k: nat)
    requires Canonical(l) && a > 0 && b > 0 && j > 0 && k > 0
    requires Span(a, j) !! Pages(l) && Span(b, k) !! Pages(l) && Span(a, j) !! Span(b, k)
    ensures FreeRuns(FreeRuns(l, a, j), b, k) == FreeRuns(FreeRuns(l, b, k), a, j)
  {
    FreeAdds(l, a, j);
    FreeAdds(l, b, k);
    FreeAdds(FreeRuns(l, a, j), b, k);
    FreeAdds(FreeRuns(l, b, k), a, j);
    CanonicalIsUnique(FreeRuns(FreeRuns(l, a, j), b, k), FreeRuns(FreeRuns(l, b, k), a, j));
  }
}
