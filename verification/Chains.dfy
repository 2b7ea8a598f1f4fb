/** Singly linked lists that end in a null link. */
module Chains {
  import opened Basics

  const NULL := 0

  ghost predicate ChainAt(next: map<int, int>, l: seq<int>, i: nat)
    requires i < |l|
  {
    l[i] in next && next[l[i]] == if i + 1 < |l| then l[i + 1] else NULL
  }

  /** first leads through the link fields to exactly the cells of l, and ends. */
  ghost predicate Chain(next: map<int, int>, first: int, l: seq<int>)
  {
    && first == (if l == [] then NULL else l[0])
    && NULL !in l
    && forall i :: 0 <= i < |l| ==> ChainAt(next, l, i)
  }

  lemma ChainPop(next: map<int, int>, first: int, l: seq<int>)
    requires Chain(next, first, l) && l != []
    ensures first in next && Chain(next, next[first], l[1..])
  {
    assert ChainAt(next, l, 0);
    forall i | 0 <= i < |l[1..]| ensures ChainAt(next, l[1..], i) { assert ChainAt(next, l, i + 1); }
  }

  /** Writing the link of a cell outside the chain does not touch the chain. */
  lemma ChainApart(next: map<int, int>, first: int, l: seq<int>, c: int, v: int)
    requires Chain(next, first, l) && c !in l
    ensures Chain(next[c := v], first, l)
  {
    var next' := next[c := v];
    forall i | 0 <= i < |l| ensures ChainAt(next', l, i) { assert ChainAt(next, l, i); }
  }

  lemma ChainPush(next: map<int, int>, first: int, l: seq<int>, c: int)
    requires Chain(next, first, l) && c !in l && c != NULL
    ensures Chain(next[c := first], c, [c] + l)
  {
    var m, next' := [c] + l, next[c := first];
    forall i | 0 <= i < |m| ensures ChainAt(next', m, i) {
      if i > 0 { assert ChainAt(next, l, i - 1); }
    }
  }

  lemma ChainAppend(next: map<int, int>, first: int, l: seq<int>, c: int)
    requires Chain(next, first, l) && l != [] && Distinct(l) && c !in l && c != NULL && c in next && next[c] == NULL
    ensures Chain(next[l[|l| - 1] := c], first, l + [c])
  {
    var m, next' := l + [c], next[l[|l| - 1] := c];
    forall i | 0 <= i < |m| ensures ChainAt(next', m, i) {
      if i < |l| { assert ChainAt(next, l, i); }
    }
  }

  /** The rest of a chain, from its k-th cell on. */
  lemma ChainRest(next: map<int, int>, first: int, l: seq<int>, k: nat)
    requires Chain(next, first, l) && k <= |l|
    ensures Chain(next, if k < |l| then l[k] else NULL, l[k..])
    ensures k > 0 ==> l[k - 1] in next && next[l[k - 1]] == if k < |l| then l[k] else NULL
  {
    if k > 0 { assert ChainAt(next, l, k - 1); }
    forall i | 0 <= i < |l[k..]| ensures ChainAt(next, l[k..], i) { assert ChainAt(next, l, k + i); }
  }

  lemma DistinctParts(l: seq<int>, k: nat, e: nat)
    requires Distinct(l) && k <= e <= |l|
    ensures forall i :: 0 <= i < k ==> l[i] !in l[e..]
    ensures forall i :: k <= i < e ==> l[i] !in l[e..]
  {
  }

  /** The first k cells of a chain, linked to another chain, form one chain. next' may already differ
      from next outside these cells. */
  lemma ChainJoin(next: map<int, int>, first: int, l: seq<int>, k: nat, next': map<int, int>, v: int, s: seq<int>)
    requires Chain(next, first, l) && k <= |l| && Distinct(l) && Chain(next', v, s)
    requires forall i :: 0 <= i < k ==> l[i] !in s && (l[i] in next ==> l[i] in next' && next'[l[i]] == next[l[i]])
    ensures Chain(if k == 0 then next' else next'[l[k - 1] := v], if k == 0 then v else first, l[..k] + s)
  {
    var m, n := l[..k] + s, if k == 0 then next' else next'[l[k - 1] := v];
    forall i | 0 <= i < |m| ensures ChainAt(n, m, i) {
      if i < k {
        assert ChainAt(next, l, i);
        if i + 1 < k { assert m[i + 1] == l[i + 1]; }
      } else {
        assert ChainAt(next', s, i - k);
        assert m[i] == s[i - k];
        assert k > 0 ==> m[i] != l[k - 1];
      }
    }
    forall i | 0 <= i < |m| ensures m[i] != NULL { if i < k { assert l[i] in l; } else { assert s[i - k] in s; } }
  }
}
