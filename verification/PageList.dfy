/** The page allocator: free runs chained through their first pages, changed in place. */
module PageList {
  import opened Basics
  import opened Chains
  import opened PageModel

  ghost function Starts(l: seq<Run>): (r: seq<int>)
    ensures |r| == |l| && forall i :: 0 <= i < |l| ==> r[i] == l[i].start
  {
    seq(|l|, i requires 0 <= i < |l| => l[i].start)
  }

  ghost predicate SizedBy(page: map<int, int>, l: seq<Run>)
  {
    forall i :: 0 <= i < |l| ==> l[i].start in page && page[l[i].start] == l[i].len
  }

  class PageList {
    var head: int                 // rt_page_list
    var next: map<int, int>       // next field in the first page of each run
    var page: map<int, int>       // page field in the first page of each run

    ghost var runs: seq<Run>

    ghost predicate Valid()
      reads this
    {
      Canonical(runs) && Chain(next, head, Starts(runs)) && SizedBy(page, runs)
    }

    /** rt_page_init. */
    constructor (addr: int, npages: nat)
      requires addr > 0 && npages > 0
      ensures Valid() && runs == [Run(addr, npages)]
    {
      head := addr;
      next, page := map[addr := NULL], map[addr := npages];
      runs := [Run(addr, npages)];
      new;
      assert Starts(runs) == [addr];
      assert ChainAt(next, [addr], 0);
    }

    /** The link that leads to the k-th run now leads to v. */
    method SetLink(prev: int, v: int)
      modifies `head, `next
      ensures if prev == NULL then head == v && next == old(next) else head == old(head) && next == old(next)[prev := v]
    {
      if prev == NULL {
        head := v;
      } else {
        next := next[prev := v];
      }
    }

    /** Run k gives its first n pages. */
    method TakeFront(b: int, prev: int, n: nat, ghost k: nat)
      requires Valid() && k < |runs| && b == runs[k].start && prev == (if k == 0 then NULL else runs[k - 1].start)
      requires 0 < n < runs[k].len
      modifies this
      ensures Valid() && runs == old(runs)[..k] + [Run(b + n, old(runs)[k].len - n)] + old(runs)[k + 1..]
    {
      ghost var r := Run(b + n, runs[k].len - n);
      RunOrder(runs, k, b + n);
      NextRun(k);
      SpliceChain(next, head, runs, k, k + 1, r);
      ReplacedCanonical(runs, k, r);
      next := next[b + n := next[b]];
      page := page[b + n := page[b] - n];
      SetLink(prev, b + n);
      runs := runs[..k] + [r] + runs[k + 1..];
    }

    /** Run k is taken whole. */
    method TakeWhole(b: int, prev: int, ghost k: nat)
      requires Valid() && k < |runs| && b == runs[k].start && prev == (if k == 0 then NULL else runs[k - 1].start)
      modifies this
      ensures Valid() && runs == old(runs)[..k] + old(runs)[k + 1..]
    {
      ghost var l := Starts(runs);
      StartsDistinct(runs);
      DistinctParts(l, k, k + 1);
      ChainRest(next, head, l, k);
      ChainRest(next, head, l, k + 1);
      ChainJoin(next, head, l, k, next, next[b], l[k + 1..]);
      SetLink(prev, next[b]);
      RemovedCanonical(runs, k);
      runs := runs[..k] + runs[k + 1..];
    }

    /** rt_page_alloc. */
    method Alloc(n: nat) returns (b: int)
      requires Valid()
      modifies this
      ensures Valid() && (runs, b) == AllocStep(old(runs), n)
    {
      if n == 0 {
        return NULL;
      }
      ghost var l, k := runs, 0;
      assert l[..0] + AllocRuns(l, n).0 == AllocRuns(l, n).0 && l[0..] == l;
      var prev := NULL;
      b := head;
      while b != NULL
        invariant 0 <= k <= |l| && runs == l && Valid()
        invariant prev == if k == 0 then NULL else l[k - 1].start
        invariant b == if k < |l| then l[k].start else NULL
        invariant AllocRuns(l, n) == Prefixed(l[..k], AllocRuns(l[k..], n))
        decreases |l| - k
      {
        NextRun(k);
        PrefixedStep(l, k, n);
        if page[b] > n {
          TakeFront(b, prev, n, k);
          return;
        }
        if page[b] == n {
          TakeWhole(b, prev, k);
          return;
        }
        prev := b;
        b := next[b];
        k := k + 1;
      }
      assert l[k..] == [] && l[..k] + [] == l;
    }

    /** Run r stands in for the runs k .. e - 1 after its link, its length and the link to it are written. */
    ghost method Settle(k: nat, e: nat, r: Run, next0: map<int, int>, page0: map<int, int>, head0: int, n: int, npages: nat)
      requires Canonical(runs) && Chain(next0, head0, Starts(runs)) && SizedBy(page0, runs) && k <= e <= |runs|
      requires r.start != NULL && forall i :: 0 <= i < k || e <= i < |runs| ==> runs[i].start != r.start
      requires n > 0 && npages > 0 && Span(n, npages) !! Pages(runs)
      requires FreeRuns(runs, n, npages) == runs[..k] + [r] + runs[e..]
      requires page == page0[r.start := r.len] && head == if k == 0 then r.start else head0
      requires next == if k == 0 then next0[r.start := StartOf(runs, e)]
        else next0[r.start := StartOf(runs, e)][runs[k - 1].start := r.start]
      modifies `runs
      ensures Valid() && runs == FreeRuns(old(runs), n, npages)
    {
      FreeAdds(runs, n, npages);
      SpliceChain(next0, head0, runs, k, e, r);
      runs := runs[..k] + [r] + runs[e..];
    }

    /** The freed pages extend run k at its end, and maybe close the gap to the next run. */
    method JoinBehind(b: int, n: int, npages: nat, ghost k: nat)
      requires Valid() && k < |runs| && b == runs[k].start && n == b + runs[k].len
      requires n > 0 && npages > 0 && Span(n, npages) !! Pages(runs)
      requires FreeRuns(runs, n, npages) == runs[..k] + FreeRuns(runs[k..], n, npages)
      modifies this
      ensures Valid() && runs == FreeRuns(old(runs), n, npages)
    {
      ghost var l, next0, page0, head0 := runs, next, page, head;
      NextRun(k);
      PrevLink(k);
      FreeAt(l, k, n, npages);
      StartsApart(l, k);
      page := page[b := page[b] + npages];
      if b + page[b] == next[b] {
        NextRunStarts(k, n, npages);
        page := page[b := page[b] + page[next[b]]];
        next := next[b := next[next[b]]];
        assert k > 0 ==> next[l[k - 1].start := b] == next;
        Settle(k, k + 2, Run(b, l[k].len + npages + l[k + 1].len), next0, page0, head0, n, npages);
      } else {
        assert next[b := StartOf(l, k + 1)] == next && (k > 0 ==> next[l[k - 1].start := b] == next);
        Settle(k, k + 1, Run(b, l[k].len + npages), next0, page0, head0, n, npages);
      }
    }

    /** A run of len pages from n on takes the place of the runs k .. e - 1. */
    method PutRun(n: int, len: int, after: int, prev: int, npages: nat, ghost k: nat, ghost e: nat)
      requires Valid() && k <= e <= |runs| && after == StartOf(runs, e) && prev == if k == 0 then NULL else runs[k - 1].start
      requires n > 0 && npages > 0 && Span(n, npages) !! Pages(runs) && forall i :: 0 <= i < |runs| ==> runs[i].start != n
      requires FreeRuns(runs, n, npages) == runs[..k] + [Run(n, len)] + runs[e..]
      modifies this
      ensures Valid() && runs == FreeRuns(old(runs), n, npages)
    {
      ghost var next0, page0, head0 := next, page, head;
      PrevLink(k);
      if k > 0 { NextRun(k - 1); }
      page := page[n := len];
      next := next[n := after];
      SetLink(prev, n);
      Settle(k, e, Run(n, len), next0, page0, head0, n, npages);
    }

    /** The freed pages join run k if they touch it; otherwise the walk goes on. */
    method Meet(b: int, prev: int, n: int, npages: nat, ghost k: nat) returns (done: bool)
      requires Valid() && k < |runs| && b == runs[k].start <= n + npages && prev == if k == 0 then NULL else runs[k - 1].start
      requires n > 0 && npages > 0 && Span(n, npages) !! Pages(runs) && forall i :: 0 <= i < |runs| ==> runs[i].start != n
      requires Passed(runs, k, n, npages)
      modifies this
      ensures Valid() && (done ==> runs == FreeRuns(old(runs), n, npages))
      ensures !done ==> runs == old(runs) && next == old(next) && page == old(page) && head == old(head)
      ensures !done ==> Passed(runs, k + 1, n, npages)
    {
      NextRun(k);
      SkipPassed(runs, k, n, npages);
      if b + page[b] == n {
        JoinBehind(b, n, npages, k);
        return true;
      }
      if b == n + npages {
        FreeMeets(runs, k, n, npages);
        PutRun(n, page[b] + npages, next[b], prev, npages, k, k + 1);
        return true;
      }
      return false;
    }

    /** The freed pages become a run of their own, in front of run k. */
    method InsertRun(b: int, prev: int, n: int, npages: nat, ghost k: nat)
      requires Valid() && k <= |runs| && b == StartOf(runs, k) && prev == if k == 0 then NULL else runs[k - 1].start
      requires n > 0 && npages > 0 && Span(n, npages) !! Pages(runs) && forall i :: 0 <= i < |runs| ==> runs[i].start != n
      requires Passed(runs, k, n, npages) && (k < |runs| ==> b > n + npages)
      modifies this
      ensures Valid() && runs == FreeRuns(old(runs), n, npages)
    {
      SkipPassed(runs, k, n, npages);
      if k < |runs| { NextRun(k); }
      FreeFits(runs, k, n, npages);
      PutRun(n, npages, b, prev, npages, k, k);
    }

    /** rt_page_free: npages pages from n on. */
    method Free(n: int, npages: nat)
      requires Valid() && n > 0 && npages > 0 && Span(n, npages) !! Pages(runs)
      modifies this
      ensures Valid() && runs == FreeRuns(old(runs), n, npages)
    {
      ghost var l, k := runs, 0;
      NotAStart(l, n, npages);
      var prev := NULL;
      var b := head;
      while b != NULL && b <= n + npages
        invariant 0 <= k <= |l| && runs == l && Valid()
        invariant prev == if k == 0 then NULL else l[k - 1].start
        invariant b == StartOf(l, k)
        invariant Passed(l, k, n, npages)
        decreases |l| - k
      {
        var done := Meet(b, prev, n, npages, k);
        if done {
          return;
        }
        NextRun(k);
        prev := b;
        b := next[b];
        k := k + 1;
      }
      InsertRun(b, prev, n, npages, k);
    }

    lemma PrevLink(k: nat)
      requires Valid() && k <= |runs|
      ensures k > 0 ==> runs[k - 1].start in next && next[runs[k - 1].start] == StartOf(runs, k)
    {
      if k > 0 { assert ChainAt(next, Starts(runs), k - 1); }
    }

    lemma NextRunStarts(k: nat, n: int, npages: nat)
      requires Canonical(runs) && Chain(next, head, Starts(runs)) && k < |runs| && n == runs[k].start + runs[k].len && npages > 0
      requires runs[k].start in next && n + npages == next[runs[k].start]
      ensures k + 1 < |runs| && next[runs[k].start] == runs[k + 1].start && runs[k + 1].start in next
      ensures next[runs[k + 1].start] == StartOf(runs, k + 2)
    {
      assert ChainAt(next, Starts(runs), k);
      assert ChainAt(next, Starts(runs), k + 1);
    }

    lemma NextRun(k: nat)
      requires Valid() && k < |runs|
      ensures runs[k].start in next && next[runs[k].start] == (if k + 1 < |runs| then runs[k + 1].start else NULL)
      ensures runs[k].start in page && page[runs[k].start] == runs[k].len && runs[k].start != NULL
      ensures k + 1 < |runs| ==> runs[k + 1].start != NULL
    {
      assert ChainAt(next, Starts(runs), k);
      assert Starts(runs)[k] in Starts(runs);
    }
  }

  ghost function Prefixed(p: seq<Run>, r: (seq<Run>, int)): (seq<Run>, int)
  {
    (p + r.0, r.1)
  }

  /** One run further, or the run that is found. */
  lemma PrefixedStep(l: seq<Run>, k: nat, n: nat)
    requires k < |l|
    ensures Prefixed(l[..k], AllocRuns(l[k..], n)) ==
      if l[k].len > n then (l[..k] + [Run(l[k].start + n, l[k].len - n)] + l[k + 1..], l[k].start)
      else if l[k].len == n then (l[..k] + l[k + 1..], l[k].start)
      else Prefixed(l[..k + 1], AllocRuns(l[k + 1..], n))
  {
    assert l[k..][0] == l[k] && l[k..][1..] == l[k + 1..];
    var r := AllocRuns(l[k + 1..], n).0;
    assert l[..k] + ([l[k]] + r) == l[..k + 1] + r;
    assert l[..k] + ([Run(l[k].start + n, l[k].len - n)] + l[k + 1..]) == l[..k] + [Run(l[k].start + n, l[k].len - n)] + l[k + 1..];
  }

  lemma {:induction false} Ascending(l: seq<Run>, i: nat, j: nat)
    requires Canonical(l) && i < j < |l|
    ensures l[i].start + l[i].len < l[j].start
    decreases j
  {
    assert Apart(l, j - 1);
    if i < j - 1 { Ascending(l, i, j - 1); }
  }

  lemma StartsDistinct(l: seq<Run>)
    requires Canonical(l)
    ensures Distinct(Starts(l))
  {
    forall i, j | 0 <= i < j < |l| ensures Starts(l)[i] != Starts(l)[j] { Ascending(l, i, j); }
  }

  /** An address inside run k is the start of no run. */
  lemma RunOrder(l: seq<Run>, k: nat, a: int)
    requires Canonical(l) && k < |l| && l[k].start < a < l[k].start + l[k].len
    ensures a !in Starts(l) && a != 0
    ensures forall i :: 0 <= i < |l| ==> l[i].start != a
  {
    forall i | 0 <= i < |l| ensures l[i].start != a {
      if i < k { Ascending(l, i, k); }
      if i > k { Ascending(l, k, i); }
    }
  }

  ghost function StartOf(l: seq<Run>, i: nat): int
  {
    if i < |l| then l[i].start else NULL
  }

  /** The chain after the runs k .. e - 1 were replaced by the one run r. */
  lemma SpliceChain(next: map<int, int>, head: int, l: seq<Run>, k: nat, e: nat, r: Run)
    requires Canonical(l) && Chain(next, head, Starts(l)) && k <= e <= |l| && r.start != NULL
    requires forall i :: 0 <= i < k || e <= i < |l| ==> l[i].start != r.start
    ensures var next' := next[r.start := StartOf(l, e)];
      Chain(if k == 0 then next' else next'[l[k - 1].start := r.start], if k == 0 then r.start else head,
        Starts(l[..k] + [r] + l[e..]))
  {
    var s := Starts(l);
    StartsDistinct(l);
    DistinctParts(s, k, e);
    ChainRest(next, head, s, e);
    var next' := next[r.start := StartOf(l, e)];
    assert r.start !in s[e..];
    ChainPush(next, StartOf(l, e), s[e..], r.start);
    forall i | 0 <= i < k ensures s[i] !in [r.start] + s[e..] && (s[i] in next ==> s[i] in next' && next'[s[i]] == next[s[i]]) {
      assert s[i] == l[i].start;
    }
    ChainJoin(next, head, s, k, next', r.start, [r.start] + s[e..]);
    StartsSpliced(l, k, e, r);
  }

  lemma StartsSpliced(l: seq<Run>, k: nat, e: nat, r: Run)
    requires k <= e <= |l|
    ensures Starts(l[..k] + [r] + l[e..]) == Starts(l)[..k] + ([r.start] + Starts(l)[e..])
  {
  }

  /** Where the freed pages go, once all runs in front of k are passed. */
  lemma FreeAt(l: seq<Run>, k: nat, n: int, npages: nat)
    requires k <= |l| && FreeRuns(l, n, npages) == l[..k] + FreeRuns(l[k..], n, npages)
    ensures FreeRuns(l, n, npages) ==
      if k == |l| then l[..k] + [Run(n, npages)] + l[k..]
      else if l[k].start + l[k].len == n then
        if k + 1 < |l| && n + npages == l[k + 1].start then l[..k] + [Run(l[k].start, l[k].len + npages + l[k + 1].len)] + l[k + 2..]
        else l[..k] + [Run(l[k].start, l[k].len + npages)] + l[k + 1..]
      else if l[k].start == n + npages then l[..k] + [Run(n, l[k].len + npages)] + l[k + 1..]
      else if l[k].start > n + npages then l[..k] + [Run(n, npages)] + l[k..]
      else l[..k + 1] + FreeRuns(l[k + 1..], n, npages)
  {
    if k < |l| {
      var t := l[k..];
      assert t[0] == l[k] && t[1..] == l[k + 1..] && (|t| > 1 ==> t[1] == l[k + 1] && t[2..] == l[k + 2..]);
      assert l[..k] + ([t[0]] + FreeRuns(t[1..], n, npages)) == l[..k + 1] + FreeRuns(l[k + 1..], n, npages);
    }
  }

  lemma FreeMeets(l: seq<Run>, k: nat, n: int, npages: nat)
    requires k < |l| && FreeRuns(l, n, npages) == l[..k] + FreeRuns(l[k..], n, npages)
    requires l[k].start + l[k].len != n && l[k].start == n + npages
    ensures FreeRuns(l, n, npages) == l[..k] + [Run(n, l[k].len + npages)] + l[k + 1..]
  {
    FreeAt(l, k, n, npages);
  }

  lemma FreeFits(l: seq<Run>, k: nat, n: int, npages: nat)
    requires k <= |l| && FreeRuns(l, n, npages) == l[..k] + FreeRuns(l[k..], n, npages)
    requires k < |l| ==> l[k].start + l[k].len != n && l[k].start > n + npages
    ensures FreeRuns(l, n, npages) == l[..k] + [Run(n, npages)] + l[k..]
  {
    FreeAt(l, k, n, npages);
  }

  lemma FreePasses(l: seq<Run>, k: nat, n: int, npages: nat)
    requires k < |l| && FreeRuns(l, n, npages) == l[..k] + FreeRuns(l[k..], n, npages)
    requires l[k].start + l[k].len != n && l[k].start < n + npages
    ensures FreeRuns(l, n, npages) == l[..k + 1] + FreeRuns(l[k + 1..], n, npages)
  {
    FreeAt(l, k, n, npages);
  }

  /** The freed pages lie behind the first k runs and touch none of them. */
  ghost predicate Passed(l: seq<Run>, k: nat, n: int, npages: nat)
  {
    k <= |l| && forall i :: 0 <= i < k ==> l[i].start + l[i].len != n && l[i].start < n + npages
  }

  lemma {:induction false} SkipPassed(l: seq<Run>, k: nat, n: int, npages: nat)
    requires Passed(l, k, n, npages)
    ensures FreeRuns(l, n, npages) == l[..k] + FreeRuns(l[k..], n, npages)
    decreases k
  {
    if k == 0 {
      assert l[0..] == l;
    } else {
      SkipPassed(l, k - 1, n, npages);
      FreePasses(l, k - 1, n, npages);
    }
  }

  lemma StartsApart(l: seq<Run>, k: nat)
    requires Canonical(l) && k < |l|
    ensures forall i :: 0 <= i < |l| && i != k ==> l[i].start != l[k].start
  {
    forall i | 0 <= i < |l| && i != k ensures l[i].start != l[k].start {
      if i < k { Ascending(l, i, k); } else { Ascending(l, k, i); }
    }
  }

  lemma NotAStart(l: seq<Run>, n: int, npages: nat)
    requires Canonical(l) && npages > 0 && Span(n, npages) !! Pages(l)
    ensures forall i :: 0 <= i < |l| ==> l[i].start != n
  {
    assert n in Span(n, npages);
    forall i | 0 <= i < |l| ensures l[i].start != n {
      RunIsFree(l, i);
      assert l[i].start in Span(l[i].start, l[i].len);
    }
  }

  lemma ReplacedCanonical(l: seq<Run>, k: nat, r: Run)
    requires Canonical(l) && k < |l| && r.len > 0 && r.start >= l[k].start && r.start + r.len == l[k].start + l[k].len
    ensures Canonical(l[..k] + [r] + l[k + 1..])
  {
    var m := l[..k] + [r] + l[k + 1..];
    forall i | 0 <= i < |m| - 1 ensures Apart(m, i) { assert Apart(l, i); }
  }

  lemma RemovedCanonical(l: seq<Run>, k: nat)
    requires Canonical(l) && k < |l|
    ensures Canonical(l[..k] + l[k + 1..])
    ensures Starts(l[..k] + l[k + 1..]) == Starts(l)[..k] + Starts(l)[k + 1..]
  {
    var m := l[..k] + l[k + 1..];
    forall i | 0 <= i < |m| - 1 ensures Apart(m, i) {
      if i < k - 1 { assert Apart(l, i); } else if i >= k { assert Apart(l, i + 1); } else { Ascending(l, i, i + 2); }
    }
  }
}
