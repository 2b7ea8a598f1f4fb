/** What every operation of the memory heap keeps, and what whole runs of it guarantee. */
module MemHeapProofs {
  import opened Basics
  import opened Ring
  import opened MemLayout
  import opened MemHeapModel

  lemma IndexAt(l: seq<Block>, k: nat)
    requires WellFormed(l) && k < |l|
    ensures Index(l, l[k].addr) == k
  {
    var i := Index(l, l[k].addr);
    if i < k { Ordered(l, i, k); }
  }

  lemma WithoutMembers(f: seq<int>, a: int)
    requires Distinct(f)
    ensures Distinct(Without(f, a))
    ensures forall b :: b in Without(f, a) <==> b in f && b != a
  {
    var j := Position(f, a);
    if j < |f| {
      RemovedMembers(f, j);
    }
  }

  lemma RemovedMembers(f: seq<int>, j: nat)
    requires Distinct(f) && j < |f|
    ensures Distinct(RemovedAt(f, j))
    ensures forall b :: b in RemovedAt(f, j) <==> b in f && b != f[j]
  {
    var g := RemovedAt(f, j);
    forall b | b in f && b != f[j]
      ensures b in g
    {
      var i :| 0 <= i < |f| && f[i] == b;
      assert g[if i < j then i else i - 1] == b;
    }
  }

  /** The free list after a stretch m of the layout was rewritten to m'. */
  lemma ReplaceFreeListed(p: seq<Block>, m: seq<Block>, m': seq<Block>, s: seq<Block>, f: seq<int>, f': seq<int>)
    requires WellFormed(p + m + s) && FreeListed(p + m + s, f) && Distinct(f')
    requires forall a :: a in f' <==> (a in f && Block(a, false) !in m) || Block(a, false) in m'
    ensures FreeListed(p + m' + s, f')
  {
    forall a | Block(a, false) in m
      ensures Block(a, false) !in p && Block(a, false) !in s
    {
      var i :| 0 <= i < |m| && m[i] == Block(a, false);
      NotElsewhere(p, m, s, i);
    }
    forall a
      ensures a in f' <==> Block(a, false) in p + m' + s
    {
    }
  }

  lemma NotElsewhere(p: seq<Block>, m: seq<Block>, s: seq<Block>, i: nat)
    requires WellFormed(p + m + s) && i < |m|
    ensures m[i] !in p && m[i] !in s
  {
    var l := p + m + s;
    assert l[|p| + i] == m[i];
    forall j | 0 <= j < |p| ensures p[j] != m[i] {
      assert l[j] == p[j];
      Ordered(l, j, |p| + i);
    }
    forall j | 0 <= j < |s| ensures s[j] != m[i] {
      assert l[|p| + |m| + j] == s[j];
      Ordered(l, |p| + i, |p| + |m| + j);
    }
  }

  /** Shape, free list and accounting survive a local rewrite that does the right thing locally. */
  lemma ReplaceKeepsInv(h: Heap, h': Heap, p: seq<Block>, m: seq<Block>, m': seq<Block>, s: seq<Block>)
    requires Inv(h) && |m| > 0 && |m'| > 0 && |s| > 0
    requires h.blocks == p + m + s && h'.blocks == p + m' + s && h'.lo == h.lo && h'.hi == h.hi
    requires m'[0].addr == m[0].addr && WellFormed(m' + [s[0]])
    requires p == [] || p[|p| - 1].used || m'[0].used
    requires Distinct(h'.free)
    requires forall a :: a in h'.free <==> (a in h.free && Block(a, false) !in m) || Block(a, false) in m'
    requires h'.available == h.available + FreeBytes(m' + [s[0]]) - FreeBytes(m + [s[0]])
    requires h'.maxUsed >= h.maxUsed && h'.hi - h'.lo - h'.available <= h'.maxUsed
    ensures Inv(h')
  {
    ReplaceShape(h.lo, h.hi, p, m, m', s);
    ReplaceFreeBytes(p, m, m', s);
    ReplaceFreeListed(p, m, m', s, h.free, h'.free);
  }

  lemma ReplaceShape(lo: int, hi: int, p: seq<Block>, m: seq<Block>, m': seq<Block>, s: seq<Block>)
    requires Shape(lo, hi, p + m + s) && |m| > 0 && |m'| > 0 && |s| > 0
    requires m'[0].addr == m[0].addr && WellFormed(m' + [s[0]])
    requires p == [] || p[|p| - 1].used || m'[0].used
    ensures Shape(lo, hi, p + m' + s)
  {
    ReplaceWellFormed(p, m, m', s);
    var l, l' := p + m + s, p + m' + s;
    assert l[|l| - 1] == s[|s| - 1] && l'[|l'| - 1] == s[|s| - 1];
    assert p == [] ==> l[0] == m[0] && l'[0] == m'[0];
    assert p != [] ==> l[0] == p[0] && l'[0] == p[0];
  }

  // ---- small layouts, unfolded once

  lemma FreeBytes2(a: Block, b: Block)
    ensures FreeBytes([a, b]) == (if a.used then 0 else Gap(a, b))
  {
    assert [a, b][1..] == [b];
  }

  lemma FreeBytes3(a: Block, b: Block, c: Block)
    ensures FreeBytes([a, b, c]) == (if a.used then 0 else Gap(a, b)) + (if b.used then 0 else Gap(b, c))
  {
    assert [a, b, c][1..] == [b, c];
    FreeBytes2(b, c);
  }

  lemma FreeBytes4(a: Block, b: Block, c: Block, d: Block)
    ensures FreeBytes([a, b, c, d]) ==
      (if a.used then 0 else Gap(a, b)) + (if b.used then 0 else Gap(b, c)) + (if c.used then 0 else Gap(c, d))
  {
    assert [a, b, c, d][1..] == [b, c, d];
    FreeBytes3(b, c, d);
  }

  lemma Live2(a: Block, b: Block)
    ensures Live([a, b]) == Entry(a, b)
  {
    assert [a, b][1..] == [b];
  }

  lemma Live3(a: Block, b: Block, c: Block)
    ensures Live([a, b, c]) == Entry(a, b) + Entry(b, c)
  {
    assert [a, b, c][1..] == [b, c];
    Live2(b, c);
  }

  lemma Live4(a: Block, b: Block, c: Block, d: Block)
    ensures Live([a, b, c, d]) == Entry(a, b) + (Entry(b, c) + Entry(c, d))
  {
    assert [a, b, c, d][1..] == [b, c, d];
    Live3(b, c, d);
  }

  lemma WellFormed2(a: Block, b: Block)
    requires a.addr + HEADER <= b.addr && (a.used || b.used)
    ensures WellFormed([a, b])
  {
    assert PairOk([a, b], 0);
  }

  lemma WellFormed3(a: Block, b: Block, c: Block)
    requires a.addr + HEADER <= b.addr && b.addr + HEADER <= c.addr && (a.used || b.used) && (b.used || c.used)
    ensures WellFormed([a, b, c])
  {
    assert PairOk([a, b, c], 0) && PairOk([a, b, c], 1);
  }

  lemma PairsUsed(l: seq<Block>, k: nat)
    requires WellFormed(l) && k + 1 < |l|
    ensures l[k].used || l[k + 1].used
    ensures l[k].addr + HEADER <= l[k + 1].addr
    ensures k > 0 ==> (l[k - 1].used || l[k].used) && l[k - 1].addr + HEADER <= l[k].addr
  {
    assert PairOk(l, k);
    if k > 0 { assert PairOk(l, k - 1); }
  }

  // ---- allocation

  lemma FittingBlock(h: Heap, n: nat)
    requires Inv(h)
    ensures var j := FirstFit(h.blocks, h.free, n);
      j < |h.free| ==>
        var k := Index(h.blocks, h.free[j]);
        k + 1 < |h.blocks| && h.blocks[k] == Block(h.free[j], false)
        && Payload(h.blocks, h.free[j]) == Gap(h.blocks[k], h.blocks[k + 1])
  {
    var j := FirstFit(h.blocks, h.free, n);
    if j < |h.free| { ListedItem(h.blocks, h.free, h.free[j]); }
  }

  lemma ListedItem(l: seq<Block>, f: seq<int>, a: int)
    requires WellFormed(l) && FreeListed(l, f) && a in f && |l| > 0 && l[|l| - 1].used
    ensures var k := Index(l, a); k + 1 < |l| && l[k] == Block(a, false) && Payload(l, a) == Gap(l[k], l[k + 1])
  {
    assert Block(a, false) in l;
    var k :| 0 <= k < |l| && l[k] == Block(a, false);
    IndexAt(l, k);
  }

  lemma SplitInTwo(h: Heap, k: nat)
    requires k < |h.blocks|
    ensures h.blocks == h.blocks[..k] + [h.blocks[k]] + h.blocks[k + 1..]
  {
  }

  /** The item at k is taken whole. */
  lemma TakeWhole(h: Heap, j: nat, k: nat, n: nat)
    requires Inv(h) && j < |h.free| && k + 1 < |h.blocks| && h.blocks[k] == Block(h.free[j], false)
    requires !Cuts(h.blocks, k, n)
    ensures Inv(TakeStep(h, j, k, n))
  {
    var b, c, u := h.blocks[k], h.blocks[k + 1], Block(h.free[j], true);
    SplitInTwo(h, k);
    PairsUsed(h.blocks, k);
    RemovedMembers(h.free, j);
    FreeBytes2(b, c);
    FreeBytes2(u, c);
    assert [b] + [c] == [b, c] && [u] + [c] == [u, c];
    ReplaceKeepsInv(h, TakeStep(h, j, k, n), h.blocks[..k], [b], [u], h.blocks[k + 1..]);
  }

  /** The item at k is cut in two; the rest joins the free list. */
  lemma TakeFront(h: Heap, j: nat, k: nat, n: nat)
    requires Inv(h) && j < |h.free| && k + 1 < |h.blocks| && h.blocks[k] == Block(h.free[j], false)
    requires Cuts(h.blocks, k, n)
    ensures Inv(TakeStep(h, j, k, n))
  {
    var b, c, u, r := h.blocks[k], h.blocks[k + 1], Block(h.free[j], true), Block(h.free[j] + n + HEADER, false);
    SplitInTwo(h, k);
    PairsUsed(h.blocks, k);
    RemovedMembers(h.free, j);
    RestIsNew(h.blocks, k, r.addr);
    FreeBytes2(b, c);
    FreeBytes3(u, r, c);
    WellFormed3(u, r, c);
    assert [b] + [c] == [b, c] && [u, r] + [c] == [u, r, c];
    assert r.addr !in RemovedAt(h.free, j) by {
      assert Block(r.addr, false) !in h.blocks;
    }
    ReplaceKeepsInv(h, TakeStep(h, j, k, n), h.blocks[..k], [b], [u, r], h.blocks[k + 1..]);
  }

  lemma AllocKeepsInv(h: Heap, size: nat)
    requires Inv(h)
    ensures Inv(AllocStep(h, size).0)
  {
    var n := Normalize(size);
    var j := FirstFit(h.blocks, h.free, n);
    if n < h.available && j < |h.free| {
      FittingBlock(h, n);
      var k := Index(h.blocks, h.free[j]);
      if Cuts(h.blocks, k, n) {
        TakeFront(h, j, k, n);
      } else {
        TakeWhole(h, j, k, n);
      }
    }
  }

  /** An address strictly between two neighbouring items is no item address. */
  lemma RestIsNew(l: seq<Block>, k: nat, a: int)
    requires WellFormed(l) && k + 1 < |l| && l[k].addr < a < l[k + 1].addr
    ensures forall b :: b in l ==> b.addr != a
  {
    forall b | b in l ensures b.addr != a {
      var i :| 0 <= i < |l| && l[i] == b;
      if i < k { Ordered(l, i, k); }
      if i > k + 1 { Ordered(l, k + 1, i); }
    }
  }

  // ---- release

  /** What a release rewrites: the stretch m becomes one unused item. */
  lemma MergeKeepsInv(h: Heap, h': Heap, p: seq<Block>, m: seq<Block>, s: seq<Block>)
    requires Inv(h) && |m| > 0 && |s| > 0 && h.blocks == p + m + s && s[0].used
    requires p == [] || p[|p| - 1].used
    requires h'.blocks == p + [Block(m[0].addr, false)] + s && h'.lo == h.lo && h'.hi == h.hi && h'.maxUsed == h.maxUsed
    requires Distinct(h'.free)
    requires forall a :: a in h'.free <==> (a in h.free && Block(a, false) !in m) || a == m[0].addr
    requires h'.available == h.available + Gap(m[0], s[0]) - FreeBytes(m + [s[0]])
    requires h'.available >= h.available
    ensures Inv(h')
  {
    var b, c := Block(m[0].addr, false), s[0];
    StretchAscends(p, m, s);
    FreeBytes2(b, c);
    WellFormed2(b, c);
    assert [b] + [s[0]] == [b, c];
    ReplaceKeepsInv(h, h', p, m, [b], s);
  }

  lemma StretchAscends(p: seq<Block>, m: seq<Block>, s: seq<Block>)
    requires WellFormed(p + m + s) && |m| > 0 && |s| > 0
    ensures m[0].addr + HEADER <= s[0].addr
  {
    var l := p + m + s;
    Ordered(l, |p|, |p| + |m|);
    assert l[|p|] == m[0] && l[|p| + |m|] == s[0];
  }

  lemma MergeLive(p: seq<Block>, m: seq<Block>, s: seq<Block>, ptr: int)
    requires |m| > 0 && |s| > 0 && WellFormed(p + m + s) && s[0].used && Live(m + [s[0]]).Keys == {ptr}
    ensures Live(p + [Block(m[0].addr, false)] + s) == Live(p + m + s) - {ptr}
  {
    var b, c := Block(m[0].addr, false), s[0];
    StretchAscends(p, m, s);
    Live2(b, c);
    WellFormed2(b, c);
    assert [b] + [s[0]] == [b, c];
    ReplaceLiveMap(p, m, [b], s);
  }

  ghost predicate LiveAt(h: Heap, ptr: int, k: nat)
  {
    k + 1 < |h.blocks| && Index(h.blocks, ptr - HEADER) == k && h.blocks[k] == Block(ptr - HEADER, true)
  }

  lemma LiveIndex(h: Heap, ptr: int) returns (k: nat)
    requires Inv(h) && ptr in Live(h.blocks)
    ensures LiveAt(h, ptr, k)
    ensures Live(h.blocks)[ptr] == Gap(h.blocks[k], h.blocks[k + 1])
    ensures k > 0 && !h.blocks[k - 1].used ==> k == 1 || h.blocks[k - 2].used
    ensures !h.blocks[k + 1].used ==> k + 2 < |h.blocks| && h.blocks[k + 2].used
    ensures h.blocks[k].addr !in h.free
  {
    k := LiveIsUsed(h.blocks, ptr);
    IndexAt(h.blocks, k);
    LiveKeys(h.blocks, k);
    if k > 0 { PairsUsed(h.blocks, k - 1); }
    if !h.blocks[k + 1].used { PairsUsed(h.blocks, k + 1); }
    UsedNotFree(h, k);
  }

  lemma UsedNotFree(h: Heap, k: nat)
    requires Inv(h) && k < |h.blocks| && h.blocks[k].used
    ensures h.blocks[k].addr !in h.free
  {
    if h.blocks[k].addr in h.free {
      var i :| 0 <= i < |h.blocks| && h.blocks[i] == Block(h.blocks[k].addr, false);
      IndexAt(h.blocks, i);
      IndexAt(h.blocks, k);
    }
  }

  /** The stretch of the layout that releasing the item at k rewrites. */
  function Stretch(l: seq<Block>, k: nat): (m: seq<Block>)
    requires k + 1 < |l|
  {
    var i := if k > 0 && !l[k - 1].used then k - 1 else k;
    var e := if !l[k + 1].used then k + 2 else k + 1;
    if e <= |l| then l[i..e] else []
  }

  /** That stretch holds one live payload, and its unused neighbours. */
  lemma StretchContents(l: seq<Block>, k: nat, d: Block)
    requires k + 1 < |l| && l[k].used
    requires d == if l[k + 1].used then l[k + 1] else if k + 2 < |l| then l[k + 2] else l[k]
    requires !l[k + 1].used ==> k + 2 < |l|
    ensures |Stretch(l, k)| > 0
    ensures Live(Stretch(l, k) + [d]).Keys == {l[k].addr + HEADER}
    ensures FreeBytes(Stretch(l, k) + [d]) ==
      (if k > 0 && !l[k - 1].used then Gap(l[k - 1], l[k]) else 0) + (if l[k + 1].used then 0 else Gap(l[k + 1], d))
  {
    StretchList(l, k, d);
    if k > 0 && !l[k - 1].used {
      if l[k + 1].used {
        FreeBytes3(l[k - 1], l[k], d);
        Live3(l[k - 1], l[k], d);
      } else {
        FreeBytes4(l[k - 1], l[k], l[k + 1], d);
        Live4(l[k - 1], l[k], l[k + 1], d);
      }
    } else if l[k + 1].used {
      FreeBytes2(l[k], d);
      Live2(l[k], d);
    } else {
      FreeBytes3(l[k], l[k + 1], d);
      Live3(l[k], l[k + 1], d);
    }
  }

  lemma StretchItems(l: seq<Block>, k: nat)
    requires k + 1 < |l|
    ensures Stretch(l, k) ==
      if k > 0 && !l[k - 1].used then (if l[k + 1].used then [l[k - 1], l[k]] else [l[k - 1], l[k], l[k + 1]])
      else if l[k + 1].used then [l[k]] else [l[k], l[k + 1]]
  {
  }

  lemma StretchList(l: seq<Block>, k: nat, d: Block)
    requires k + 1 < |l|
    ensures Stretch(l, k) + [d] ==
      if k > 0 && !l[k - 1].used then (if l[k + 1].used then [l[k - 1], l[k], d] else [l[k - 1], l[k], l[k + 1], d])
      else if l[k + 1].used then [l[k], d] else [l[k], l[k + 1], d]
  {
  }

  lemma StretchSplits(h: Heap, ptr: int, k: nat) returns (p: seq<Block>, s: seq<Block>)
    requires LiveAt(h, ptr, k)
    requires !h.blocks[k + 1].used ==> k + 2 < |h.blocks| && h.blocks[k + 2].used
    requires k > 0 && !h.blocks[k - 1].used ==> k == 1 || h.blocks[k - 2].used
    ensures var m := Stretch(h.blocks, k);
      && |m| > 0 && |s| > 0 && h.blocks == p + m + s && s[0].used
      && FreeStep(h, ptr).blocks == p + [Block(m[0].addr, false)] + s
      && s[0] == h.blocks[if h.blocks[k + 1].used then k + 1 else k + 2]
    ensures p == [] || p[|p| - 1].used
  {
    var i := if k > 0 && !h.blocks[k - 1].used then k - 1 else k;
    var e := if !h.blocks[k + 1].used then k + 2 else k + 1;
    p, s := h.blocks[..i], h.blocks[e..];
    StretchIs(h, ptr, k, i, e);
    SliceEnds(h.blocks, i, e);
  }

  lemma SliceEnds(l: seq<Block>, i: nat, e: nat)
    requires i < e < |l| && (i == 0 || l[i - 1].used) && l[e].used
    ensures l == l[..i] + l[i..e] + l[e..] && l[e..][0] == l[e] && l[i..e][0] == l[i]
    ensures l[..i] == [] || l[..i][|l[..i]| - 1].used
  {
  }

  lemma StretchIs(h: Heap, ptr: int, k: nat, i: nat, e: nat)
    requires LiveAt(h, ptr, k)
    requires i == if k > 0 && !h.blocks[k - 1].used then k - 1 else k
    requires e == (if !h.blocks[k + 1].used then k + 2 else k + 1) && e < |h.blocks|
    ensures Stretch(h.blocks, k) == h.blocks[i..e] && Stretch(h.blocks, k)[0] == h.blocks[i]
    ensures FreeStep(h, ptr).blocks == h.blocks[..i] + [Block(h.blocks[i].addr, false)] + h.blocks[e..]
  {
  }

  lemma Slices(l: seq<Block>, i: nat, e: nat)
    requires i <= e <= |l|
    ensures l == l[..i] + l[i..e] + l[e..]
    ensures l[..i] == [] || l[..i][|l[..i]| - 1] == l[i - 1]
    ensures l[..i] == [] <==> i == 0
  {
  }

  /** The unused items in the stretch are the unused neighbours of item k. */
  lemma StretchMembers(l: seq<Block>, k: nat, a: int)
    requires k + 1 < |l| && l[k].used && (!l[k + 1].used ==> k + 2 < |l|)
    ensures |Stretch(l, k)| > 0
    ensures Stretch(l, k)[0].addr == if k > 0 && !l[k - 1].used then l[k - 1].addr else l[k].addr
    ensures Block(a, false) in Stretch(l, k) <==>
      (k > 0 && l[k - 1] == Block(a, false)) || l[k + 1] == Block(a, false)
  {
    StretchItems(l, k);
  }

  lemma FreedList(h: Heap, ptr: int, k: nat)
    requires Inv(h) && LiveAt(h, ptr, k) && h.blocks[k].addr !in h.free
    requires !h.blocks[k + 1].used ==> k + 2 < |h.blocks|
    ensures var m, f := Stretch(h.blocks, k), FreeStep(h, ptr).free;
      |m| > 0 && Distinct(f) && forall a :: a in f <==> (a in h.free && Block(a, false) !in m) || a == m[0].addr
  {
    var l := h.blocks;
    var c := l[k + 1];
    PairsUsed(l, k);
    WithoutMembers(h.free, c.addr);
    UsedNotFree2(h, k + 1);
    if k > 0 && !l[k - 1].used {
      assert l[k - 1] == Block(l[k - 1].addr, false);
      assert l[k - 1].addr in h.free;
    }
    StretchMembers(l, k, 0);
    forall a
      ensures a in FreeStep(h, ptr).free <==> (a in h.free && Block(a, false) !in Stretch(l, k)) || a == Stretch(l, k)[0].addr
    {
      StretchMembers(l, k, a);
    }
  }

  lemma UsedNotFree2(h: Heap, k: nat)
    requires Inv(h) && k < |h.blocks|
    ensures h.blocks[k].addr in h.free <==> !h.blocks[k].used
  {
    if h.blocks[k].used { UsedNotFree(h, k); } else { assert h.blocks[k] == Block(h.blocks[k].addr, false); }
  }

  lemma FreedBytes(h: Heap, ptr: int, k: nat)
    requires LiveAt(h, ptr, k) && (!h.blocks[k + 1].used ==> k + 2 < |h.blocks|)
    ensures var m := Stretch(h.blocks, k);
      var d := h.blocks[if h.blocks[k + 1].used then k + 1 else k + 2];
      |m| > 0 && FreeStep(h, ptr).available == h.available + Gap(m[0], d) - FreeBytes(m + [d])
  {
    StretchContents(h.blocks, k, h.blocks[if h.blocks[k + 1].used then k + 1 else k + 2]);
  }

  /** rt_memheap_free keeps the invariant and takes exactly the released payload out of the live ones. */
  lemma FreeKeepsInv(h: Heap, ptr: int)
    requires Inv(h) && ptr in Live(h.blocks)
    ensures Inv(FreeStep(h, ptr))
    ensures Live(FreeStep(h, ptr).blocks) == Live(h.blocks) - {ptr}
  {
    var k := LiveIndex(h, ptr);
    var p, s := StretchSplits(h, ptr, k);
    var m := Stretch(h.blocks, k);
    FreedList(h, ptr, k);
    PairsUsed(h.blocks, k);
    StretchContents(h.blocks, k, s[0]);
    FreedBytes(h, ptr, k);
    MergeLive(p, m, s, ptr);
    MergeKeepsInv(h, FreeStep(h, ptr), p, m, s);
  }

  // ---- what happens to the live payloads

  lemma UnusedNotLive(l: seq<Block>, k: nat)
    requires WellFormed(l) && k < |l| && !l[k].used
    ensures l[k].addr + HEADER !in Live(l)
  {
    if l[k].addr + HEADER in Live(l) {
      var i := LiveIsUsed(l, l[k].addr + HEADER);
      IndexAt(l, i);
      IndexAt(l, k);
    }
  }

  lemma AddEntry(m: map<int, int>, e: map<int, int>, x: int, v: int)
    requires e == map[]
    ensures (m - e.Keys) + map[x := v] == m[x := v]
  {
  }

  lemma EntryIs(b: Block, c: Block, x: int, v: int)
    requires b.used && x == b.addr + HEADER && v == Gap(b, c)
    ensures Entry(b, c) == map[x := v]
  {
  }

  lemma AddNothing(m: map<int, int>)
    ensures m + map[] == m
  {
  }

  /** Taking an unused item whole adds its payload to the live ones. */
  lemma TakeWholeLive(l: seq<Block>, k: nat)
    requires WellFormed(l) && k + 1 < |l| && !l[k].used
    ensures Live(l[..k] + [Block(l[k].addr, true)] + l[k + 1..]) == Live(l)[l[k].addr + HEADER := Gap(l[k], l[k + 1])]
  {
    assert PairOk(l, k);
    Slices(l, k, k + 1);
    assert l[k..k + 1] == [l[k]];
    UseOneLive(l, l[..k] + [Block(l[k].addr, true)] + l[k + 1..], l[..k], l[k], Block(l[k].addr, true), l[k + 1..]);
  }

  lemma OneLive(b: Block, c: Block)
    requires b.addr + HEADER <= c.addr && (b.used || c.used)
    ensures WellFormed([b] + [c]) && Live([b] + [c]) == Entry(b, c)
  {
    assert [b] + [c] == [b, c];
    WellFormed2(b, c);
    Live2(b, c);
  }

  /** A used item in front of an unused one. */
  lemma CutLive2(u: Block, r: Block, c: Block)
    requires u.used && !r.used && c.used && u.addr + HEADER <= r.addr && r.addr + HEADER <= c.addr
    ensures WellFormed([u, r] + [c]) && Live([u, r] + [c]) == map[u.addr + HEADER := Gap(u, r)]
  {
    assert [u, r] + [c] == [u, r, c];
    WellFormed3(u, r, c);
    Live3(u, r, c);
    EntryIs(u, r, u.addr + HEADER, Gap(u, r));
    AddNothing(Entry(u, r));
  }

  /** The unused item b becomes used. */
  lemma UseOneLive(l: seq<Block>, l': seq<Block>, p: seq<Block>, b: Block, u: Block, s: seq<Block>)
    requires l == p + [b] + s && l' == p + [u] + s && WellFormed(l) && |s| > 0 && !b.used && s[0].used
    requires u == Block(b.addr, true) && b.addr + HEADER <= s[0].addr
    ensures Live(l') == Live(l)[b.addr + HEADER := Gap(b, s[0])]
  {
    var c := s[0];
    OneLive(b, c);
    OneLive(u, c);
    SpliceLive(l, l', p, [b], [u], s, map[], map[b.addr + HEADER := Gap(b, c)]);
    AddEntry(Live(l), map[], b.addr + HEADER, Gap(b, c));
  }

  /** Taking its first n bytes adds a payload of n. */
  lemma TakeFrontLive(l: seq<Block>, k: nat, n: nat)
    requires WellFormed(l) && k + 1 < |l| && !l[k].used && n + HEADER <= Gap(l[k], l[k + 1]) && l[k + 1].used
    ensures Live(l[..k] + [Block(l[k].addr, true), Block(l[k].addr + n + HEADER, false)] + l[k + 1..])
      == Live(l)[l[k].addr + HEADER := n]
  {
    var b, c, u, r := l[k], l[k + 1], Block(l[k].addr, true), Block(l[k].addr + n + HEADER, false);
    assert PairOk(l, k);
    Slices(l, k, k + 1);
    assert l[k..k + 1] == [b];
    CutOneLive(l, l[..k] + [u, r] + l[k + 1..], l[..k], b, u, r, l[k + 1..], n);
  }

  /** The unused item b is cut: n bytes become used, the rest stays unused. */
  lemma CutOneLive(l: seq<Block>, l': seq<Block>, p: seq<Block>, b: Block, u: Block, r: Block, s: seq<Block>, n: nat)
    requires l == p + [b] + s && l' == p + [u, r] + s && WellFormed(l) && |s| > 0 && !b.used && s[0].used
    requires u == Block(b.addr, true) && r == Block(b.addr + n + HEADER, false) && n + HEADER <= Gap(b, s[0])
    ensures Live(l') == Live(l)[b.addr + HEADER := n]
  {
    OneLive(b, s[0]);
    CutLive2(u, r, s[0]);
    SpliceLive(l, l', p, [b], [u, r], s, map[], map[b.addr + HEADER := n]);
    AddEntry(Live(l), map[], b.addr + HEADER, n);
  }

  /** Which unused item a request takes. */
  lemma AllocCases(h: Heap, size: nat) returns (k: nat)
    requires Inv(h)
    ensures AllocStep(h, size).1 == 0 ==> AllocStep(h, size).0 == h
    ensures AllocStep(h, size).1 != 0 ==>
      && k + 1 < |h.blocks| && !h.blocks[k].used && AllocStep(h, size).1 == h.blocks[k].addr + HEADER
      && Gap(h.blocks[k], h.blocks[k + 1]) >= Normalize(size)
      && AllocStep(h, size).0.blocks == CutBlocks(h.blocks, k, Normalize(size))
  {
    var n := Normalize(size);
    var j := FirstFit(h.blocks, h.free, n);
    k := 0;
    if n < h.available && j < |h.free| {
      FittingBlock(h, n);
      k := Index(h.blocks, h.free[j]);
      if k > 0 { Ordered(h.blocks, 0, k); }
    }
  }

  lemma CutLive(h: Heap, k: nat, n: nat) returns (given: int)
    requires Inv(h) && k + 1 < |h.blocks| && !h.blocks[k].used && Gap(h.blocks[k], h.blocks[k + 1]) >= n
    ensures var q := h.blocks[k].addr + HEADER;
      && q > h.lo && q !in Live(h.blocks)
      && Live(CutBlocks(h.blocks, k, n)) == Live(h.blocks)[q := given]
    ensures n <= given < n + HEADER + MINIALLOC
  {
    UnusedNotLive(h.blocks, k);
    PairsUsed(h.blocks, k);
    if k > 0 { Ordered(h.blocks, 0, k); }
    if Cuts(h.blocks, k, n) {
      TakeFrontLive(h.blocks, k, n);
      given := n;
    } else {
      TakeWholeLive(h.blocks, k);
      given := Gap(h.blocks[k], h.blocks[k + 1]);
    }
  }

  /** A granted request adds exactly one live payload, fresh, at least as large as asked and
      wasting less than one smallest item; a refused one changes nothing. */
  lemma AllocLive(h: Heap, size: nat) returns (given: int)
    requires Inv(h)
    ensures AllocStep(h, size).1 == 0 ==> AllocStep(h, size).0 == h
    ensures AllocStep(h, size).1 != 0 ==>
      var q := AllocStep(h, size).1;
      && q > h.lo && q !in Live(h.blocks)
      && Normalize(size) <= given < Normalize(size) + HEADER + MINIALLOC
      && Live(AllocStep(h, size).0.blocks) == Live(h.blocks)[q := given]
  {
    var k := AllocCases(h, size);
    given := 0;
    if AllocStep(h, size).1 != 0 {
      given := CutLive(h, k, Normalize(size));
    }
  }

  /** The request is refused exactly when no unused item holds it, or when it asks for every available byte. */
  lemma AllocRefusal(h: Heap, size: nat)
    requires Inv(h)
    ensures AllocStep(h, size).1 == 0 <==>
      Normalize(size) == h.available
      || forall k :: 0 <= k < |h.blocks| - 1 && !h.blocks[k].used ==> Gap(h.blocks[k], h.blocks[k + 1]) < Normalize(size)
  {
    var n := Normalize(size);
    var j := FirstFit(h.blocks, h.free, n);
    if j < |h.free| {
      FittingBlock(h, n);
      var k := Index(h.blocks, h.free[j]);
      assert !h.blocks[k].used && Gap(h.blocks[k], h.blocks[k + 1]) >= n;
      PayloadWithin(h.blocks, k);
      var given := AllocLive(h, size);
    }
    forall k | 0 <= k < |h.blocks| - 1 && !h.blocks[k].used && Gap(h.blocks[k], h.blocks[k + 1]) >= n
      ensures j < |h.free| && n <= h.available
    {
      var a := h.blocks[k].addr;
      assert h.blocks[k] == Block(a, false);
      IndexAt(h.blocks, k);
      PayloadWithin(h.blocks, k);
      assert a in h.free;
    }
  }

  // ---- changing a size in place

  lemma UpdateEntry(m: map<int, int>, e: map<int, int>, e': map<int, int>, x: int, v: int)
    requires e.Keys == {x} && e' == map[x := v]
    ensures (m - e.Keys) + e' == m[x := v]
  {
  }

  /** The stretch b, c (c unused or absent) becomes b with payload n and one unused rest. */
  /** The used item of m, maybe with an unused one behind it. */
  lemma OldLive(m: seq<Block>, d: Block)
    requires 1 <= |m| <= 2 && m[0].used && (|m| == 2 ==> !m[1].used)
    ensures Live(m + [d]).Keys == {m[0].addr + HEADER}
  {
    if |m| == 1 {
      assert m + [d] == [m[0], d];
      Live2(m[0], d);
    } else {
      assert m + [d] == [m[0], m[1], d];
      Live3(m[0], m[1], d);
      AddNothing(Entry(m[0], m[1]));
    }
  }

  /** The stretch b, c (c unused or absent) becomes b with payload n and one unused rest. */
  lemma ResizeLiveOf(l: seq<Block>, l': seq<Block>, p: seq<Block>, m: seq<Block>, r: Block, s: seq<Block>, n: int)
    requires l == p + m + s && |m| > 0 && l' == p + [m[0], r] + s
    requires |s| > 0 && WellFormed(l) && m[0].used && s[0].used && |m| <= 2
    requires |m| == 2 ==> !m[1].used
    requires !r.used && r.addr == m[0].addr + HEADER + n && n >= 0 && r.addr + HEADER <= s[0].addr
    ensures Live(l') == Live(l)[m[0].addr + HEADER := n]
  {
    var x, e, e' := m[0].addr + HEADER, Live(m + [s[0]]), map[m[0].addr + HEADER := n];
    OldLive(m, s[0]);
    CutLive2(m[0], r, s[0]);
    SpliceLive(l, l', p, m, [m[0], r], s, e, e');
    UpdateEntry(Live(l), e, e', x, n);
  }

  lemma ResizeKeepsInv(h: Heap, h': Heap, p: seq<Block>, m: seq<Block>, r: Block, s: seq<Block>, f: seq<int>)
    requires Inv(h) && 1 <= |m| <= 2 && |s| > 0 && h.blocks == p + m + s && m[0].used && s[0].used
    requires |m| == 2 ==> !m[1].used
    requires !r.used && m[0].addr + HEADER <= r.addr && r.addr + HEADER <= s[0].addr
    requires Distinct(f) && r.addr !in f && forall a :: a in f <==> a in h.free && Block(a, false) !in m
    requires h'.blocks == p + [m[0], r] + s && h'.lo == h.lo && h'.hi == h.hi && h'.free == [r.addr] + f
    requires h'.available == h.available + Gap(r, s[0]) - (if |m| == 2 then Gap(m[1], s[0]) else 0)
    requires h'.maxUsed >= h.maxUsed && h'.hi - h'.lo - h'.available <= h'.maxUsed
    ensures Inv(h')
  {
    var b, d := m[0], s[0];
    assert [b, r] + [d] == [b, r, d];
    WellFormed3(b, r, d);
    FreeBytes3(b, r, d);
    if |m| == 1 {
      assert m + [d] == [b, d];
      FreeBytes2(b, d);
    } else {
      assert m + [d] == [b, m[1], d];
      FreeBytes3(b, m[1], d);
    }
    assert p != [] ==> h.blocks[|p| - 1] == p[|p| - 1];
    ReplaceKeepsInv(h, h', p, m, [b, r], s);
  }

  /** Both together: the item m[0] gets a payload of n bytes. */
  lemma InPlace(h: Heap, h': Heap, p: seq<Block>, m: seq<Block>, r: Block, s: seq<Block>, f: seq<int>, n: int, x: int)
    requires Inv(h) && 1 <= |m| <= 2 && |s| > 0 && h.blocks == p + m + s && m[0].used && s[0].used
    requires |m| == 2 ==> !m[1].used
    requires !r.used && n >= 0 && r.addr == m[0].addr + HEADER + n && r.addr + HEADER <= s[0].addr
    requires Distinct(f) && r.addr !in f && forall a :: a in f <==> a in h.free && Block(a, false) !in m
    requires h'.blocks == p + [m[0], r] + s && h'.lo == h.lo && h'.hi == h.hi && h'.free == [r.addr] + f
    requires h'.available == h.available + Gap(r, s[0]) - (if |m| == 2 then Gap(m[1], s[0]) else 0)
    requires h'.maxUsed >= h.maxUsed && h'.hi - h'.lo - h'.available <= h'.maxUsed
    requires x == m[0].addr + HEADER
    ensures Inv(h') && Live(h'.blocks) == Live(h.blocks)[x := n]
  {
    ResizeLiveOf(h.blocks, h'.blocks, p, m, r, s, n);
    ResizeKeepsInv(h, h', p, m, r, s, f);
  }

  lemma SliceTwo(l: seq<Block>, k: nat)
    requires k + 2 <= |l|
    ensures l == l[..k] + [l[k], l[k + 1]] + l[k + 2..]
  {
  }

  lemma GrowBlocks(h: Heap, k: nat, n: int)
    requires k + 2 < |h.blocks| && h.blocks[k].used
    ensures h.blocks == h.blocks[..k] + [h.blocks[k], h.blocks[k + 1]] + h.blocks[k + 2..]
    ensures GrowStep(h, k, n).blocks
      == h.blocks[..k] + [h.blocks[k], Block(h.blocks[k].addr + HEADER + n, false)] + h.blocks[k + 2..]
  {
    SliceTwo(h.blocks, k);
    assert h.blocks[k] == Block(h.blocks[k].addr, true);
  }

  lemma ShrinkBlocks(h: Heap, k: nat, n: int)
    requires k + 2 < |h.blocks| && h.blocks[k].used && !h.blocks[k + 1].used
    ensures h.blocks == h.blocks[..k] + [h.blocks[k], h.blocks[k + 1]] + h.blocks[k + 2..]
    ensures ShrinkStep(h, k, n).blocks
      == h.blocks[..k] + [h.blocks[k], Block(h.blocks[k].addr + n + HEADER, false)] + h.blocks[k + 2..]
  {
    SliceTwo(h.blocks, k);
    assert h.blocks[k] == Block(h.blocks[k].addr, true);
  }

  lemma GrowRest(h: Heap, k: nat, n: int)
    requires Inv(h) && k + 2 < |h.blocks| && h.blocks[k].used && !h.blocks[k + 1].used
    requires n > Gap(h.blocks[k], h.blocks[k + 1]) && Grows(h.blocks, k, n)
    ensures var b, c, d, r := h.blocks[k], h.blocks[k + 1], h.blocks[k + 2], Block(h.blocks[k].addr + HEADER + n, false);
      && h.blocks == h.blocks[..k] + [b, c] + h.blocks[k + 2..]
      && GrowStep(h, k, n).blocks == h.blocks[..k] + [b, r] + h.blocks[k + 2..]
      && d.used && r.addr + HEADER <= d.addr && n >= 0 && b.addr + HEADER <= r.addr && r.addr !in h.free
  {
    var r := Block(h.blocks[k].addr + HEADER + n, false);
    GrowBlocks(h, k, n);
    PairsUsed(h.blocks, k + 1);
    GapNotFree(h, k + 1, r.addr);
  }

  lemma GrowKeeps(h: Heap, k: nat, n: int)
    requires Inv(h) && k + 2 < |h.blocks| && h.blocks[k].used && !h.blocks[k + 1].used
    requires n > Gap(h.blocks[k], h.blocks[k + 1]) && Grows(h.blocks, k, n)
    ensures Inv(GrowStep(h, k, n))
    ensures Live(GrowStep(h, k, n).blocks) == Live(h.blocks)[h.blocks[k].addr + HEADER := n]
  {
    var b, c, r := h.blocks[k], h.blocks[k + 1], Block(h.blocks[k].addr + HEADER + n, false);
    var p, s := h.blocks[..k], h.blocks[k + 2..];
    GrowRest(h, k, n);
    GrowInto(h, GrowStep(h, k, n), p, b, c, r, s, n);
  }

  lemma GrowInto(h: Heap, h': Heap, p: seq<Block>, b: Block, c: Block, r: Block, s: seq<Block>, n: int)
    requires Inv(h) && |s| > 0 && h.blocks == p + [b, c] + s && b.used && !c.used && s[0].used
    requires !r.used && n >= 0 && r.addr == b.addr + HEADER + n && r.addr + HEADER <= s[0].addr && r.addr !in h.free
    requires h'.blocks == p + [b, r] + s && h'.lo == h.lo && h'.hi == h.hi && h'.free == [r.addr] + Without(h.free, c.addr)
    requires h'.available == h.available + Gap(r, s[0]) - Gap(c, s[0])
    requires h'.maxUsed >= h.maxUsed && h'.hi - h'.lo - h'.available <= h'.maxUsed
    ensures Inv(h') && Live(h'.blocks) == Live(h.blocks)[b.addr + HEADER := n]
  {
    WithoutMembers(h.free, c.addr);
    InPlace(h, h', p, [b, c], r, s, Without(h.free, c.addr), n, b.addr + HEADER);
  }

  lemma GapNotFree(h: Heap, k: nat, a: int)
    requires Inv(h) && k + 1 < |h.blocks| && h.blocks[k].addr < a < h.blocks[k + 1].addr
    ensures a !in h.free
  {
    RestIsNew(h.blocks, k, a);
    assert Block(a, false) !in h.blocks;
  }

  lemma ShrinkAlone(h: Heap, k: nat, n: nat)
    requires Inv(h) && k + 1 < |h.blocks| && h.blocks[k].used && h.blocks[k + 1].used
    requires n + HEADER + MINIALLOC < Gap(h.blocks[k], h.blocks[k + 1])
    ensures Inv(ShrinkStep(h, k, n))
    ensures Live(ShrinkStep(h, k, n).blocks) == Live(h.blocks)[h.blocks[k].addr + HEADER := n]
  {
    var b, r := h.blocks[k], Block(h.blocks[k].addr + n + HEADER, false);
    var p, s := h.blocks[..k], h.blocks[k + 1..];
    GapNotFree(h, k, r.addr);
    Slices(h.blocks, k, k + 1);
    assert h.blocks[k..k + 1] == [b] && b == Block(b.addr, true);
    InPlace(h, ShrinkStep(h, k, n), p, [b], r, s, h.free, n, b.addr + HEADER);
  }

  lemma ShrinkRest(h: Heap, k: nat, n: nat)
    requires Inv(h) && k + 2 < |h.blocks| && h.blocks[k].used && !h.blocks[k + 1].used
    requires n + HEADER + MINIALLOC < Gap(h.blocks[k], h.blocks[k + 1])
    ensures var b, c, d, r := h.blocks[k], h.blocks[k + 1], h.blocks[k + 2], Block(h.blocks[k].addr + n + HEADER, false);
      && h.blocks == h.blocks[..k] + [b, c] + h.blocks[k + 2..]
      && ShrinkStep(h, k, n).blocks == h.blocks[..k] + [b, r] + h.blocks[k + 2..]
      && d.used && r.addr + HEADER <= d.addr && b.addr + HEADER <= r.addr && r.addr !in h.free
  {
    var r := Block(h.blocks[k].addr + n + HEADER, false);
    ShrinkBlocks(h, k, n);
    PairsUsed(h.blocks, k + 1);
    GapNotFree(h, k, r.addr);
  }

  lemma ShrinkMerging(h: Heap, k: nat, n: nat)
    requires Inv(h) && k + 2 < |h.blocks| && h.blocks[k].used && !h.blocks[k + 1].used
    requires n + HEADER + MINIALLOC < Gap(h.blocks[k], h.blocks[k + 1])
    ensures Inv(ShrinkStep(h, k, n))
    ensures Live(ShrinkStep(h, k, n).blocks) == Live(h.blocks)[h.blocks[k].addr + HEADER := n]
  {
    var b, c, r := h.blocks[k], h.blocks[k + 1], Block(h.blocks[k].addr + n + HEADER, false);
    var p, s := h.blocks[..k], h.blocks[k + 2..];
    ShrinkRest(h, k, n);
    WithoutMembers(h.free, c.addr);
    InPlace(h, ShrinkStep(h, k, n), p, [b, c], r, s, Without(h.free, c.addr), n, b.addr + HEADER);
  }

  /** The live payload ptr, or none for 0, is replaced by the payload q of given bytes, n or a little more. */
  ghost predicate Regiven(l: seq<Block>, l': seq<Block>, ptr: int, q: int, n: int, given: int)
  {
    && n <= given <= n + HEADER + MINIALLOC && (q == ptr || q !in Live(l))
    && Live(l') == (Live(l) - {ptr})[q := given]
  }

  /** rt_memheap_realloc: on success the payload ptr is replaced by one of at least the asked size, which wastes at most
      one smallest item; on failure nothing changes. */
  lemma ReallocKeeps(h: Heap, ptr: int, size: nat) returns (given: int)
    requires Inv(h) && (ptr == 0 || ptr in Live(h.blocks))
    ensures Inv(ReallocStep(h, ptr, size).0)
    ensures size == 0 ==> ReallocStep(h, ptr, size).1 == 0 && Live(ReallocStep(h, ptr, size).0.blocks) == Live(h.blocks) - {ptr}
    ensures size > 0 && ReallocStep(h, ptr, size).1 == 0 ==> ReallocStep(h, ptr, size).0 == h
    ensures size > 0 && ReallocStep(h, ptr, size).1 != 0 ==>
      Regiven(h.blocks, ReallocStep(h, ptr, size).0.blocks, ptr, ReallocStep(h, ptr, size).1, Normalize(size), given)
  {
    given := 0;
    var n := Normalize(size);
    if size == 0 {
      if ptr == 0 { ZeroNotLive(h); } else { FreeKeepsInv(h, ptr); }
    } else if ptr == 0 {
      given := FirstGiven(h, n);
    } else {
      given := ResizeKeeps(h, ptr, n);
    }
  }

  lemma FirstGiven(h: Heap, n: nat) returns (given: int)
    requires Inv(h) && Normalize(n) == n
    ensures Inv(AllocStep(h, n).0)
    ensures AllocStep(h, n).1 == 0 ==> AllocStep(h, n).0 == h
    ensures AllocStep(h, n).1 != 0 ==> Regiven(h.blocks, AllocStep(h, n).0.blocks, 0, AllocStep(h, n).1, n, given)
  {
    ZeroNotLive(h);
    AllocKeepsInv(h, n);
    given := AllocLive(h, n);
  }

  lemma ResizeKeeps(h: Heap, ptr: int, n: nat) returns (given: int)
    requires Inv(h) && ptr in Live(h.blocks) && Normalize(n) == n
    ensures Inv(ResizeStep(h, ptr, n).0)
    ensures ResizeStep(h, ptr, n).1 == 0 ==> ResizeStep(h, ptr, n).0 == h
    ensures ResizeStep(h, ptr, n).1 != 0 ==>
      Regiven(h.blocks, ResizeStep(h, ptr, n).0.blocks, ptr, ResizeStep(h, ptr, n).1, n, given)
    ensures n <= Live(h.blocks)[ptr] ==> ResizeStep(h, ptr, n).1 == ptr
    ensures n <= Live(h.blocks)[ptr] ==> given == if n + HEADER + MINIALLOC < Live(h.blocks)[ptr] then n else Live(h.blocks)[ptr]
    ensures n > Live(h.blocks)[ptr] && ResizeStep(h, ptr, n).1 != 0 ==> given < n + HEADER + MINIALLOC
  {
    var k := LiveIndex(h, ptr);
    var cur := Gap(h.blocks[k], h.blocks[k + 1]);
    ZeroNotLive(h);
    SetSame(Live(h.blocks), ptr);
    SetOwn(Live(h.blocks), ptr, n);
    if n > cur {
      if Grows(h.blocks, k, n) {
        GrowKeeps(h, k, n);
        given := n;
      } else {
        given := MoveKeeps(h, ptr, n);
      }
    } else if n + HEADER + MINIALLOC >= cur {
      given := cur;
    } else {
      if h.blocks[k + 1].used { ShrinkAlone(h, k, n); } else { ShrinkMerging(h, k, n); }
      given := n;
    }
  }

  lemma SetOwn(m: map<int, int>, x: int, v: int)
    requires x in m
    ensures m[x := v] == (m - {x})[x := v]
  {
  }

  lemma SetSame(m: map<int, int>, x: int)
    requires x in m
    ensures m == (m - {x})[x := m[x]]
  {
  }

  lemma DropOther(m: map<int, int>, x: int, q: int, v: int)
    requires q != x
    ensures m[q := v] - {x} == (m - {x})[q := v]
  {
  }

  lemma DropAbsent(m: map<int, int>, x: int)
    requires x !in m
    ensures m - {x} == m
  {
  }

  lemma ZeroNotLive(h: Heap)
    requires Inv(h)
    ensures 0 !in Live(h.blocks)
    ensures Live(h.blocks) - {0} == Live(h.blocks)
  {
    LiveAbove(h.blocks);
    DropAbsent(Live(h.blocks), 0);
  }

  lemma MoveKeeps(h: Heap, ptr: int, n: nat) returns (given: int)
    requires Inv(h) && ptr in Live(h.blocks)
    ensures Inv(MoveStep(h, ptr, n).0)
    ensures MoveStep(h, ptr, n).1 == 0 ==> MoveStep(h, ptr, n).0 == h
    ensures MoveStep(h, ptr, n).1 != 0 ==>
      var q := MoveStep(h, ptr, n).1;
      && Normalize(n) <= given < Normalize(n) + HEADER + MINIALLOC && q !in Live(h.blocks)
      && Live(MoveStep(h, ptr, n).0.blocks) == (Live(h.blocks) - {ptr})[q := given]
  {
    AllocKeepsInv(h, n);
    given := AllocLive(h, n);
    var (h1, q) := AllocStep(h, n);
    if q != 0 {
      FreeKeepsInv(h1, ptr);
      DropOther(Live(h.blocks), ptr, q, given);
    }
  }

  // ---- whole runs

  datatype Op = Alloc(size: nat) | Free(ptr: int) | Realloc(ptr: int, size: nat)

  /** Callers only hand back pointers they hold. */
  ghost predicate Allowed(h: Heap, op: Op)
  {
    op.Alloc? || op.ptr == 0 || op.ptr in Live(h.blocks)
  }

  ghost function Apply(h: Heap, op: Op): Heap
  {
    match op
    case Alloc(size) => AllocStep(h, size).0
    case Free(ptr) => if ptr == 0 then h else FreeStep(h, ptr)
    case Realloc(ptr, size) => ReallocStep(h, ptr, size).0
  }

  ghost function Run(h: Heap, ops: seq<Op>): Heap
    decreases |ops|
  {
    if ops == [] then h else Run(Apply(h, ops[0]), ops[1..])
  }

  ghost predicate AllowedRun(h: Heap, ops: seq<Op>)
    decreases |ops|
  {
    ops == [] || (Allowed(h, ops[0]) && AllowedRun(Apply(h, ops[0]), ops[1..]))
  }

  lemma InitialInv(lo: int, hi: int)
    requires lo > 0 && lo + 2 * HEADER <= hi
    ensures Inv(Initial(lo, hi)) && Live(Initial(lo, hi).blocks) == map[]
  {
    var b, t := Block(lo, false), Block(hi - HEADER, true);
    WellFormed2(b, t);
    FreeBytes2(b, t);
    Live2(b, t);
  }

  lemma ApplyKeepsInv(h: Heap, op: Op)
    requires Inv(h) && Allowed(h, op)
    ensures Inv(Apply(h, op))
  {
    match op
    case Alloc(size) => AllocKeepsInv(h, size);
    case Free(ptr) => if ptr != 0 { FreeKeepsInv(h, ptr); }
    case Realloc(ptr, size) => var given := ReallocKeeps(h, ptr, size);
  }

  /** Every run of allocations, releases and resizes from a fresh pool keeps the whole invariant. */
  lemma {:induction false} RunKeepsInv(h: Heap, ops: seq<Op>)
    requires Inv(h) && AllowedRun(h, ops)
    ensures Inv(Run(h, ops))
    decreases |ops|
  {
    if ops != [] {
      ApplyKeepsInv(h, ops[0]);
      RunKeepsInv(Apply(h, ops[0]), ops[1..]);
    }
  }

  ghost function UsedBytes(h: Heap): int
  {
    h.hi - h.lo - h.available
  }

  /** A resize that has to take a new payload before it releases the old one. */
  ghost predicate Moves(h: Heap, op: Op)
  {
    op.Realloc? && op.ptr != 0 && op.size != 0 &&
    var k := Index(h.blocks, op.ptr - HEADER);
    k + 1 < |h.blocks| && Normalize(op.size) > Gap(h.blocks[k], h.blocks[k + 1]) && !Grows(h.blocks, k, Normalize(op.size))
  }

  /** The most bytes in use while one operation runs: a resize that moves holds both payloads for a while. */
  ghost function Highest(h: Heap, op: Op): int
  {
    if Moves(h, op) then UsedBytes(AllocStep(h, Normalize(op.size)).0) else UsedBytes(Apply(h, op))
  }

  ghost function Peak(h: Heap, ops: seq<Op>, base: int): int
    decreases |ops|
  {
    if ops == [] then base else Peak(Apply(h, ops[0]), ops[1..], Max(base, Highest(h, ops[0])))
  }

  lemma FreeNeverUses(h: Heap, ptr: int)
    requires Inv(h) && ptr in Live(h.blocks)
    ensures UsedBytes(FreeStep(h, ptr)) <= UsedBytes(h)
    ensures FreeStep(h, ptr).maxUsed == h.maxUsed && FreeStep(h, ptr).lo == h.lo && FreeStep(h, ptr).hi == h.hi
  {
    var k := LiveIndex(h, ptr);
    PairsUsed(h.blocks, k);
  }

  lemma AllocMaxUsed(h: Heap, size: nat)
    requires Inv(h)
    ensures AllocStep(h, size).0.maxUsed == Max(h.maxUsed, UsedBytes(AllocStep(h, size).0))
  {
  }

  lemma MoveMaxUsed(h: Heap, ptr: int, n: nat)
    requires Inv(h) && ptr in Live(h.blocks)
    ensures MoveStep(h, ptr, n).0.maxUsed == Max(h.maxUsed, UsedBytes(AllocStep(h, n).0))
  {
    AllocKeepsInv(h, n);
    var given := AllocLive(h, n);
    AllocMaxUsed(h, n);
    if AllocStep(h, n).1 != 0 {
      FreeNeverUses(AllocStep(h, n).0, ptr);
    }
  }

  lemma ResizeMaxUsed(h: Heap, ptr: int, size: nat)
    requires Inv(h) && ptr in Live(h.blocks) && ptr != 0 && size > 0
    ensures ReallocStep(h, ptr, size).0.maxUsed == Max(h.maxUsed, Highest(h, Realloc(ptr, size)))
  {
    var n := Normalize(size);
    var k := LiveIndex(h, ptr);
    PairsUsed(h.blocks, k);
    if Moves(h, Realloc(ptr, size)) {
      MoveMaxUsed(h, ptr, n);
    }
  }

  lemma ApplyMaxUsed(h: Heap, op: Op)
    requires Inv(h) && Allowed(h, op)
    ensures Apply(h, op).maxUsed == Max(h.maxUsed, Highest(h, op))
  {
    match op
    case Alloc(size) => AllocMaxUsed(h, size);
    case Free(ptr) => if ptr != 0 { FreeNeverUses(h, ptr); }
    case Realloc(ptr, size) =>
      if ptr == 0 {
        AllocMaxUsed(h, Normalize(size));
      } else if size == 0 {
        FreeNeverUses(h, ptr);
      } else {
        ResizeMaxUsed(h, ptr, size);
      }
  }

  /** max_used_size is the high-water mark over the whole run. */
  lemma {:induction false} MaxUsedIsPeak(h: Heap, ops: seq<Op>)
    requires Inv(h) && AllowedRun(h, ops)
    ensures Run(h, ops).maxUsed == Peak(h, ops, h.maxUsed)
    decreases |ops|
  {
    if ops != [] {
      ApplyKeepsInv(h, ops[0]);
      ApplyMaxUsed(h, ops[0]);
      MaxUsedIsPeak(Apply(h, ops[0]), ops[1..]);
    }
  }

  /** With nothing live the pool is back to its single initial unused item. */
  lemma EmptyIsInitial(h: Heap)
    requires Inv(h) && Live(h.blocks) == map[]
    ensures h == Initial(h.lo, h.hi).(maxUsed := h.maxUsed)
  {
    var l := h.blocks;
    forall i | 0 <= i < |l| - 1 ensures !l[i].used {
      if l[i].used { LiveKeys(l, i); }
    }
    assert PairOk(l, 0);
    assert l == [Block(h.lo, false), Block(h.hi - HEADER, true)];
    FreeBytes2(l[0], l[1]);
    assert h.lo in h.free by { assert l[0] == Block(h.lo, false); }
    forall i | 0 <= i < |h.free| ensures h.free[i] == h.lo {
      assert h.free[i] in h.free;
    }
    assert h.free[0] == h.free[|h.free| - 1];
  }

  ghost function FreeAll(h: Heap, order: seq<int>): Heap
    decreases |order|
  {
    if order == [] then h else FreeAll(FreeStep(h, order[0]), order[1..])
  }

  /** Releasing all live payloads, in any order, gives back the single initial free block. */
  lemma {:induction false} FreeAllRestores(h: Heap, order: seq<int>)
    requires Inv(h) && Distinct(order) && Live(h.blocks).Keys == set a | a in order
    ensures FreeAll(h, order) == Initial(h.lo, h.hi).(maxUsed := h.maxUsed)
    decreases |order|
  {
    if order == [] {
      assert Live(h.blocks).Keys == {};
      EmptyIsInitial(h);
    } else {
      assert order[0] in Live(h.blocks).Keys;
      FreeKeepsInv(h, order[0]);
      FreeNeverUses(h, order[0]);
      RestOfOrder(order);
      FreeAllRestores(FreeStep(h, order[0]), order[1..]);
    }
  }

  lemma RestOfOrder(order: seq<int>)
    requires Distinct(order) && order != []
    ensures Distinct(order[1..])
    ensures (set a | a in order[1..]) == (set a | a in order) - {order[0]}
  {
    assert order == [order[0]] + order[1..];
  }
}
