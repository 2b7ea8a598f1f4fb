/** Circular doubly linked lists as the kernel builds them: every node carries a
    next and a prev link, and a list is closed through its head node. Each link
    field is one map from node address to node address, so that writing one field
    leaves the others untouched. */
module Ring {
  import opened Basics

  function Succ(i: nat, n: nat): (j: nat)
    requires i < n
    ensures j < n
  {
    if i + 1 == n then 0 else i + 1
  }

  /** r[i] and the node behind it (the head behind the last one) point at each other. */
  ghost predicate LinkAt(next: map<int, int>, prev: map<int, int>, r: seq<int>, i: nat)
    requires i < |r|
  {
    var a, b := r[i], r[Succ(i, |r|)];
    a in next && b in prev && next[a] == b && prev[b] == a
  }

  /** The links of the nodes in r form exactly one cycle, in the order of r. */
  ghost predicate Chained(next: map<int, int>, prev: map<int, int>, r: seq<int>)
  {
    && |r| > 0
    && Distinct(r)
    && (forall i :: 0 <= i < |r| ==> LinkAt(next, prev, r, i))
  }

  function InsertedAt(r: seq<int>, k: nat, n: int): (s: seq<int>)
    requires k <= |r|
  {
    r[..k] + [n] + r[k..]
  }

  function RemovedAt(r: seq<int>, k: nat): (s: seq<int>)
    requires k < |r|
  {
    r[..k] + r[k + 1..]
  }

  /** l without its first t. */
  function Dropped(l: seq<int>, t: int): seq<int>
    decreases |l|
  {
    if l == [] then [] else if l[0] == t then l[1..] else [l[0]] + Dropped(l[1..], t)
  }

  lemma PopDistinct(l: seq<int>)
    requires Distinct(l) && l != []
    ensures Distinct(l[1..]) && l[0] !in l[1..]
    ensures forall t :: t in l <==> t == l[0] || t in l[1..]
  {
    assert l == [l[0]] + l[1..];
  }

  lemma {:induction false} DroppedMembers(l: seq<int>, t: int)
    requires Distinct(l)
    ensures Distinct(Dropped(l, t))
    ensures forall u :: u in Dropped(l, t) <==> u in l && u != t
    decreases |l|
  {
    if l != [] {
      PopDistinct(l);
      DroppedMembers(l[1..], t);
    }
  }

  lemma {:induction false} DroppedAt(l: seq<int>, i: nat)
    requires i < |l| && l[i] !in l[..i]
    ensures Dropped(l, l[i]) == l[..i] + l[i + 1..]
    decreases |l|
  {
    if i > 0 {
      assert l[..i] == [l[0]] + l[1..][..i - 1];
      assert l[1..][i - 1] == l[i];
      DroppedAt(l[1..], i - 1);
      assert l[1..][i..] == l[i + 1..];
    }
  }

  /** The four link writes that put n behind r[k]. */
  lemma InsertChains(next: map<int, int>, prev: map<int, int>, r: seq<int>, k: nat, n: int)
    requires Chained(next, prev, r) && k < |r| && n !in r
    ensures LinkAt(next, prev, r, k)
    ensures Chained(next[n := next[r[k]]][r[k] := n], prev[next[r[k]] := n][n := r[k]], InsertedAt(r, k + 1, n))
  {
    assert LinkAt(next, prev, r, k);
    var s := InsertedAt(r, k + 1, n);
    var next', prev' := next[n := next[r[k]]][r[k] := n], prev[next[r[k]] := n][n := r[k]];
    forall i | 0 <= i < |s|
      ensures LinkAt(next', prev', s, i)
    {
      if i <= k {
        assert LinkAt(next, prev, r, i);
        if i < k { assert s[i + 1] == r[i + 1]; }
      } else if i > k + 1 {
        assert LinkAt(next, prev, r, i - 1);
      }
    }
  }

  /** The two link writes that take r[k] out. */
  lemma RemoveChains(next: map<int, int>, prev: map<int, int>, r: seq<int>, j: nat, k: nat)
    requires Chained(next, prev, r) && j < |r| && k == Succ(j, |r|) && |r| >= 2
    ensures LinkAt(next, prev, r, j) && LinkAt(next, prev, r, k)
    ensures Chained(next[r[j] := next[r[k]]], prev[next[r[k]] := r[j]], RemovedAt(r, k))
  {
    assert LinkAt(next, prev, r, j) && LinkAt(next, prev, r, k);
    var s := RemovedAt(r, k);
    var next', prev' := next[r[j] := next[r[k]]], prev[next[r[k]] := r[j]];
    forall i | 0 <= i < |s|
      ensures LinkAt(next', prev', s, i)
    {
      var i' := if i < k then i else i + 1;
      assert s[i] == r[i'];
      assert LinkAt(next, prev, r, i');
      if i' != j {
        assert s[Succ(i, |s|)] == r[Succ(i', |r|)];
      }
    }
  }

  /** A chain only depends on the links of its own nodes. */
  lemma ChainFrame(next: map<int, int>, prev: map<int, int>, next': map<int, int>, prev': map<int, int>, r: seq<int>)
    requires Chained(next, prev, r)
    requires forall a :: a in r ==> (a in next ==> a in next' && next'[a] == next[a]) && (a in prev ==> a in prev' && prev'[a] == prev[a])
    ensures Chained(next', prev', r)
  {
    forall i | 0 <= i < |r|
      ensures LinkAt(next', prev', r, i)
    {
      assert LinkAt(next, prev, r, i);
    }
  }

  /** The list primitives of the kernel service header over one shared set of link fields. */
  class Links {
    var next: map<int, int>
    var prev: map<int, int>

    constructor ()
      ensures next == map[] && prev == map[]
    {
      next, prev := map[], map[];
    }

    method Init(l: int)
      modifies this
      ensures Chained(next, prev, [l])
      ensures next == old(next)[l := l] && prev == old(prev)[l := l]
    {
      next, prev := next[l := l], prev[l := l];
    }

    /** rt_list_insert_after: n lands directly behind l; lists of other nodes keep their links. */
    method InsertAfter(l: int, n: int, ghost r: seq<int>, ghost k: nat)
      requires Chained(next, prev, r) && k < |r| && r[k] == l && n !in r
      modifies this
      ensures Chained(next, prev, InsertedAt(r, k + 1, n))
      ensures forall a :: a !in r && a != n && a in old(next) && a in old(prev) ==>
        a in next && a in prev && next[a] == old(next)[a] && prev[a] == old(prev)[a]
    {
      InsertChains(next, prev, r, k, n);
      prev := prev[next[l] := n];
      next := next[n := next[l]];
      next := next[l := n];
      prev := prev[n := l];
    }

    /** rt_list_insert_before: n lands directly in front of l. In front of the head means at the end. */
    method InsertBefore(l: int, n: int, ghost r: seq<int>, ghost k: nat)
      requires Chained(next, prev, r) && k < |r| && r[k] == l && n !in r
      modifies this
      ensures k > 0 ==> Chained(next, prev, InsertedAt(r, k, n))
      ensures k == 0 ==> Chained(next, prev, r + [n])
      ensures forall a :: a !in r && a != n && a in old(next) && a in old(prev) ==>
        a in next && a in prev && next[a] == old(next)[a] && prev[a] == old(prev)[a]
    {
      ghost var j := if k == 0 then |r| - 1 else k - 1;
      InsertChains(next, prev, r, j, n);
      assert k == 0 ==> InsertedAt(r, j + 1, n) == r + [n];
      ghost var p := prev[l];
      ghost var next', prev' := next[n := l][p := n], prev[l := n][n := p];
      next := next[prev[l] := n];
      prev := prev[n := prev[l]];
      prev := prev[l := n];
      next := next[n := l];
      assert next == next' && prev == prev';
    }

    /** rt_list_remove: the list closes over the gap and n becomes a list of its own. */
    method Remove(n: int, ghost r: seq<int>, ghost k: nat)
      requires Chained(next, prev, r) && k < |r| && r[k] == n
      modifies this
      ensures Chained(next, prev, [n])
      ensures |r| >= 2 ==> Chained(next, prev, RemovedAt(r, k))
      ensures forall a :: a !in r && a in old(next) && a in old(prev) ==>
        a in next && a in prev && next[a] == old(next)[a] && prev[a] == old(prev)[a]
    {
      ghost var j := if k == 0 then |r| - 1 else k - 1;
      if |r| >= 2 {
        RemoveChains(next, prev, r, j, k);
      } else {
        assert LinkAt(next, prev, r, 0);
      }
      prev := prev[next[n] := prev[n]];
      next := next[prev[n] := next[n]];
      ghost var next', prev' := next, prev;
      next, prev := next[n := n], prev[n := n];
      if |r| >= 2 {
        assert n !in RemovedAt(r, k);
        ChainFrame(next', prev', next, prev, RemovedAt(r, k));
      }
    }

    method IsEmpty(l: int, ghost r: seq<int>) returns (b: bool)
      requires Chained(next, prev, r) && r[0] == l
      ensures b <==> r == [l]
    {
      assert LinkAt(next, prev, r, 0);
      b := next[l] == l;
    }

    /** rt_list_len: walking from the head counts every node but the head. */
    method Len(l: int, ghost r: seq<int>) returns (len: nat)
      requires Chained(next, prev, r) && r[0] == l
      ensures len == |r| - 1
    {
      len := 0;
      var p := l;
      assert LinkAt(next, prev, r, 0);
      while next[p] != l
        invariant len < |r| && p == r[len] && LinkAt(next, prev, r, len)
        decreases |r| - len
      {
        p := next[p];
        len := len + 1;
        assert LinkAt(next, prev, r, len);
      }
    }
  }
}
