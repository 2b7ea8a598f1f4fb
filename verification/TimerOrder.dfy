/** Ordered timer lists: deadlines that wrap around, stable insertion and sparser rows. */
module TimerOrder {
  import opened Basics
  import opened Ring

  type Id = int

  const MODULUS := 0x1_0000_0000
  const HALF := 0x7fff_ffff  // RT_TICK_MAX / 2

  function Wrap(a: int): (w: int)
    ensures 0 <= w < MODULUS
  {
    a % MODULUS
  }

  /** The walk of rt_timer_start stops in front of a timer with deadline x when it inserts deadline d. */
  predicate StopsAt(x: int, d: int)
  {
    Wrap(x - d) != 0 && Wrap(x - d) < HALF
  }

  /** The test of rt_timer_check. */
  predicate Expired(tick: int, x: int)
  {
    Wrap(tick - x) < HALF
  }

  lemma WrapDifference(a: int, b: int)
    ensures Wrap(Wrap(a) - Wrap(b)) == Wrap(a - b)
  {
    var k, l := a / MODULUS, b / MODULUS;
    assert Wrap(a) - Wrap(b) == (a - b) - (k - l) * MODULUS;
    WrapShift(a - b, l - k);
  }

  lemma {:induction false} WrapShift(a: int, k: int)
    ensures Wrap(a + k * MODULUS) == Wrap(a)
    decreases if k < 0 then -k else k
  {
    if k > 0 {
      WrapShift(a, k - 1);
      assert a + k * MODULUS == (a + (k - 1) * MODULUS) + MODULUS;
    } else if k < 0 {
      WrapShift(a, k + 1);
      assert a + k * MODULUS == (a + (k + 1) * MODULUS) - MODULUS;
    }
  }

  /** On wrapped ticks the walk still compares the true deadlines, as long as x is less than HALF
      ahead of d and d is not much more than HALF ahead of x. */
  lemma ComparesTrueDeadlines(x: int, d: int)
    requires x - d < HALF && d - x <= MODULUS - HALF
    ensures StopsAt(Wrap(x), Wrap(d)) <==> x > d
  {
    WrapDifference(x, d);
  }

  /** When the distance reaches HALF the walk takes the later deadline for the earlier one. */
  lemma WindowIsNeeded(d: int)
    ensures !StopsAt(Wrap(d + HALF), Wrap(d)) && StopsAt(Wrap(d), Wrap(d + MODULUS - HALF + 1))
  {
    WrapDifference(d + HALF, d);
    WrapDifference(d, d + MODULUS - HALF + 1);
  }

  /** But for k whole turns of the tick, the distance of the deadlines lies in the window. */
  predicate InWindow(x: int, d: int, k: nat)
  {
    if x > d then k * MODULUS < x - d < k * MODULUS + HALF else k * MODULUS <= d - x <= (k + 1) * MODULUS - HALF
  }

  /** For all deadlines: the walk compares them rightly exactly if their distance lies in the window, whole turns of
      the tick apart. */
  lemma ComparesRightlyIff(x: int, d: int)
    ensures (StopsAt(Wrap(x), Wrap(d)) <==> x > d) <==> exists k: nat :: InWindow(x, d, k)
  {
    WrapDifference(x, d);
    if x > d {
      var q := (x - d) / MODULUS;
      forall k: nat | InWindow(x, d, k) ensures k == q { Turns(x - d, k); }
      assert StopsAt(Wrap(x), Wrap(d)) <==> InWindow(x, d, q);
    } else {
      var q := (d - x) / MODULUS;
      WrapNegated(d - x);
      assert x - d == -(d - x);
      forall k: nat | InWindow(x, d, k) ensures k == q { Turns(d - x, k); }
      assert !StopsAt(Wrap(x), Wrap(d)) <==> InWindow(x, d, q);
    }
  }

  lemma Turns(a: int, k: int)
    requires k * MODULUS <= a < (k + 1) * MODULUS
    ensures a / MODULUS == k
  {
  }

  lemma WrapNegated(a: int)
    ensures Wrap(-a) == if a % MODULUS == 0 then 0 else MODULUS - a % MODULUS
  {
    var r := if a % MODULUS == 0 then 0 else MODULUS - a % MODULUS;
    var k := if a % MODULUS == 0 then -(a / MODULUS) else -(a / MODULUS) - 1;
    assert -a == r + k * MODULUS;
    WrapShift(r, k);
  }

  lemma ExpiresWhenDue(now: int, x: int)
    requires -HALF - 1 <= now - x < HALF
    ensures Expired(Wrap(now), Wrap(x)) <==> x <= now
  {
    WrapDifference(now, x);
  }

  // ---- lists ordered by deadline

  ghost predicate Covers(due: map<Id, int>, l: seq<Id>)
  {
    forall i :: 0 <= i < |l| ==> l[i] in due
  }

  ghost predicate Sorted(l: seq<Id>, due: map<Id, int>)
  {
    Covers(due, l) && forall i, j :: 0 <= i < j < |l| ==> due[l[i]] <= due[l[j]]
  }

  /** t goes behind every timer whose deadline is not later than d. */
  ghost function Stable(l: seq<Id>, t: Id, d: int, due: map<Id, int>): (r: seq<Id>)
    requires Covers(due, l)
    ensures forall u :: u in r <==> u in l || u == t
    ensures |r| == |l| + 1
    decreases |l|
  {
    if l == [] || due[l[0]] > d then [t] + l
    else
      assert l == [l[0]] + l[1..];
      [l[0]] + Stable(l[1..], t, d, due)
  }

  ghost function Place(l: seq<Id>, d: int, due: map<Id, int>): (k: nat)
    requires Covers(due, l)
    ensures k <= |l|
    ensures k < |l| ==> due[l[k]] > d
    ensures forall i :: 0 <= i < k ==> due[l[i]] <= d
    decreases |l|
  {
    if l == [] || due[l[0]] > d then 0 else 1 + Place(l[1..], d, due)
  }

  lemma {:induction false} StableIsPlace(l: seq<Id>, t: Id, d: int, due: map<Id, int>)
    requires Covers(due, l)
    ensures Stable(l, t, d, due) == InsertedAt(l, Place(l, d, due), t)
    decreases |l|
  {
    if l != [] && due[l[0]] <= d {
      StableIsPlace(l[1..], t, d, due);
      var k := Place(l[1..], d, due);
      assert l[..k + 1] == [l[0]] + l[1..][..k] && l[k + 1..] == l[1..][k..];
    }
  }

  lemma SortedTail(l: seq<Id>, due: map<Id, int>)
    requires Sorted(l, due) && l != []
    ensures Sorted(l[1..], due)
    ensures forall u :: u in l[1..] ==> u in due && due[l[0]] <= due[u]
  {
    forall u | u in l[1..] ensures u in due && due[l[0]] <= due[u] {
      var i :| 0 <= i < |l[1..]| && l[1..][i] == u;
      assert l[i + 1] == u;
    }
  }

  lemma SortedCons(x: Id, l: seq<Id>, due: map<Id, int>)
    requires Sorted(l, due) && x in due && forall u :: u in l ==> u in due && due[x] <= due[u]
    ensures Sorted([x] + l, due)
  {
    var m := [x] + l;
    forall i, j | 0 <= i < j < |m| ensures due[m[i]] <= due[m[j]] {
      assert m[j] == l[j - 1] && l[j - 1] in l;
    }
  }

  lemma {:induction false} StableSorted(l: seq<Id>, t: Id, d: int, due: map<Id, int>)
    requires Sorted(l, due) && t in due && due[t] == d
    ensures Sorted(Stable(l, t, d, due), due)
    decreases |l|
  {
    if l == [] || due[l[0]] > d {
      forall u | u in l ensures u in due && due[t] <= due[u] {
        var i :| 0 <= i < |l| && l[i] == u;
      }
      SortedCons(t, l, due);
    } else {
      SortedTail(l, due);
      StableSorted(l[1..], t, d, due);
      SortedCons(l[0], Stable(l[1..], t, d, due), due);
    }
  }

  lemma {:induction false} StableDistinct(l: seq<Id>, t: Id, d: int, due: map<Id, int>)
    requires Covers(due, l) && Distinct(l) && t !in l
    ensures Distinct(Stable(l, t, d, due))
    decreases |l|
  {
    StableIsPlace(l, t, d, due);
  }

  // ---- sparser rows

  /** The members of s in the order of l. */
  ghost function Keep(l: seq<Id>, s: set<Id>): (r: seq<Id>)
    ensures forall u :: u in r <==> u in l && u in s
    decreases |l|
  {
    if l == [] then []
    else
      assert l == [l[0]] + l[1..];
      (if l[0] in s then [l[0]] else []) + Keep(l[1..], s)
  }

  ghost function Elems(l: seq<Id>): set<Id> { set u | u in l }

  /** a is l without some of its members. */
  ghost predicate Subsequence(a: seq<Id>, l: seq<Id>)
  {
    a == Keep(l, Elems(a))
  }

  lemma {:induction false} KeepSame(l: seq<Id>, s: set<Id>, s': set<Id>)
    requires forall u :: u in l ==> (u in s <==> u in s')
    ensures Keep(l, s) == Keep(l, s')
    decreases |l|
  {
    if l != [] {
      var x := l[0];
      assert x in l && forall u :: u in l[1..] ==> u in l;
      assert x in s <==> x in s';
      KeepSame(l[1..], s, s');
    }
  }

  lemma {:induction false} KeepDistinct(l: seq<Id>, s: set<Id>)
    requires Distinct(l)
    ensures Distinct(Keep(l, s))
    decreases |l|
  {
    if l != [] {
      assert l == [l[0]] + l[1..];
      assert l[0] !in l[1..];
      KeepDistinct(l[1..], s);
    }
  }

  lemma {:induction false} KeepSorted(l: seq<Id>, s: set<Id>, due: map<Id, int>)
    requires Sorted(l, due)
    ensures Sorted(Keep(l, s), due)
    decreases |l|
  {
    if l != [] {
      SortedTail(l, due);
      KeepSorted(l[1..], s, due);
      if l[0] in s {
        SortedCons(l[0], Keep(l[1..], s), due);
      } else {
        assert Keep(l, s) == Keep(l[1..], s);
      }
    }
  }

  /** Inserting into a list and into a sparser copy of it gives a list and a sparser copy. */
  lemma {:induction false} KeepStable(l: seq<Id>, s: set<Id>, t: Id, d: int, due: map<Id, int>)
    requires Sorted(l, due) && t !in l && t in s
    ensures Covers(due, Keep(l, s))
    ensures Keep(Stable(l, t, d, due), s) == Stable(Keep(l, s), t, d, due)
    decreases |l|
  {
    KeepSorted(l, s, due);
    if l == [] || due[l[0]] > d {
      var k := Keep(l, s);
      assert ([t] + l)[1..] == l;
      if k != [] {
        assert k[0] in k;
        FirstIsEarliest(l, k[0], due);
      }
    } else {
      SortedTail(l, due);
      assert t !in l[1..];
      KeepStable(l[1..], s, t, d, due);
      assert ([l[0]] + Stable(l[1..], t, d, due))[1..] == Stable(l[1..], t, d, due);
      if l[0] in s {
        assert ([l[0]] + Keep(l[1..], s))[1..] == Keep(l[1..], s);
      } else {
        assert Keep(l, s) == Keep(l[1..], s);
      }
    }
  }

  lemma FirstIsEarliest(l: seq<Id>, u: Id, due: map<Id, int>)
    requires Sorted(l, due) && u in l
    ensures due[l[0]] <= due[u]
  {
    var i :| 0 <= i < |l| && l[i] == u;
  }

  lemma {:induction false} KeepSkips(l: seq<Id>, s: set<Id>, t: Id, d: int, due: map<Id, int>)
    requires Covers(due, l) && t !in s
    ensures Keep(Stable(l, t, d, due), s) == Keep(l, s)
    decreases |l|
  {
    if l == [] || due[l[0]] > d {
      assert ([t] + l)[1..] == l;
    } else {
      KeepSkips(l[1..], s, t, d, due);
      assert ([l[0]] + Stable(l[1..], t, d, due))[1..] == Stable(l[1..], t, d, due);
    }
  }

  lemma StableSubsequence(a: seq<Id>, l: seq<Id>, t: Id, d: int, due: map<Id, int>)
    requires Sorted(l, due) && t !in l && Subsequence(a, l)
    ensures Covers(due, a)
    ensures Subsequence(Stable(a, t, d, due), Stable(l, t, d, due))
    ensures Subsequence(a, Stable(l, t, d, due))
  {
    KeepSorted(l, Elems(a), due);
    var s := Elems(a) + {t};
    KeepSame(l, Elems(a), s);
    KeepStable(l, s, t, d, due);
    KeepSkips(l, Elems(a), t, d, due);
    assert Elems(Stable(a, t, d, due)) == s;
  }

  lemma {:induction false} DroppedIsKeep(l: seq<Id>, t: Id)
    requires Distinct(l)
    ensures Dropped(l, t) == Keep(l, Elems(l) - {t})
    decreases |l|
  {
    if l != [] {
      assert l == [l[0]] + l[1..];
      assert l[0] !in l[1..];
      DroppedIsKeep(l[1..], t);
      if l[0] == t {
        KeepSame(l[1..], Elems(l) - {t}, Elems(l[1..]));
        KeepAll(l[1..]);
      } else {
        KeepSame(l[1..], Elems(l) - {t}, Elems(l[1..]) - {t});
      }
    }
  }

  lemma {:induction false} KeepAll(l: seq<Id>)
    ensures Keep(l, Elems(l)) == l
    decreases |l|
  {
    if l != [] {
      assert l == [l[0]] + l[1..];
      KeepAll(l[1..]);
      KeepSame(l[1..], Elems(l), Elems(l[1..]));
    }
  }

  lemma {:induction false} KeepKeep(l: seq<Id>, s: set<Id>, s': set<Id>)
    ensures Keep(Keep(l, s), s') == Keep(l, s * s')
    decreases |l|
  {
    if l != [] {
      KeepKeep(l[1..], s, s');
      var k := Keep(l[1..], s);
      if l[0] in s {
        assert ([l[0]] + k)[1..] == k;
      } else {
        assert Keep(l, s) == k;
      }
    }
  }

  /** Taking a timer out of a list and of a sparser copy keeps the copy a copy. */
  lemma DroppedSubsequence(a: seq<Id>, l: seq<Id>, t: Id)
    requires Distinct(l) && Subsequence(a, l)
    ensures Distinct(a) && Subsequence(Dropped(a, t), Dropped(l, t))
    ensures forall u :: u in Dropped(l, t) <==> u in l && u != t
    ensures forall u :: u in Dropped(a, t) <==> u in a && u != t
  {
    KeepDistinct(l, Elems(a));
    DroppedIsKeep(l, t);
    DroppedIsKeep(a, t);
    var sa, sl := Elems(a) - {t}, Elems(l) - {t};
    KeepKeep(l, Elems(a), sa);
    KeepKeep(l, sl, sa);
    KeepSame(l, Elems(a) * sa, sl * sa);
    assert Elems(Dropped(a, t)) == sa;
  }
}
