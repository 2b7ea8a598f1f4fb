/** What every operation of the small heap keeps, and what whole runs of it guarantee. */
module SmallProofs {
  import opened SmallLayout
  import opened SmallModel

  lemma Slices(l: seq<Block>, i: nat, e: nat)
    requires i < e < |l|
    ensures l == l[..i] + l[i..e] + l[e..] && l[e..][0] == l[e] && l[i..e][0] == l[i]
    ensures l[..i] == [] || l[..i][|l[..i]| - 1] == l[i - 1]
    ensures l[..i] == [] <==> i == 0
  {
  }

  lemma RewriteShape(size: int, p: seq<Block>, m: seq<Block>, m': seq<Block>, s: seq<Block>)
    requires Shape(size, p + m + s) && m != [] && m' != [] && s != [] && m[0].at == m'[0].at
    requires WellFormed(m' + [s[0]]) && (p == [] || p[|p| - 1].used || m'[0].used)
    ensures Shape(size, p + m' + s)
  {
    ReplaceOk(p, m, m', s);
    var l, l' := p + m + s, p + m' + s;
    assert l[|l| - 1] == s[|s| - 1] && l'[|l'| - 1] == s[|s| - 1];
    assert p == [] ==> l[0] == m[0] && l'[0] == m'[0];
    assert p != [] ==> l[0] == p[0] && l'[0] == p[0];
  }

  /** A local rewrite that is right locally keeps the shape and the accounting. */
  lemma RewriteKeeps(l: seq<Block>, l': seq<Block>, size: int, p: seq<Block>, m: seq<Block>, m': seq<Block>, s: seq<Block>)
    requires Shape(size, l) && l == p + m + s && l' == p + m' + s && m != [] && m' != [] && s != [] && m[0].at == m'[0].at
    requires WellFormed(m' + [s[0]]) && (p == [] || p[|p| - 1].used || m'[0].used)
    ensures Shape(size, l')
    ensures UsedBytes(l') == UsedBytes(l) + UsedBytes(m' + [s[0]]) - UsedBytes(m + [s[0]])
    ensures Extents(l') == (Extents(l) - Extents(m + [s[0]]).Keys) + Extents(m' + [s[0]])
  {
    RewriteShape(size, p, m, m', s);
    ReplaceEffect(p, m, m', s);
  }

  lemma Pair(l: seq<Block>, k: nat)
    requires WellFormed(l) && k + 1 < |l|
    ensures l[k].at + HEADER <= l[k + 1].at && (l[k].used || l[k + 1].used)
  {
    assert PairOk(l, k);
  }

  lemma TwoOk(a: Block, b: Block)
    requires a.at + HEADER <= b.at && (a.used || b.used)
    ensures WellFormed([a] + [b]) && [a] + [b] == [a, b]
  {
    assert PairOk([a] + [b], 0);
  }

  lemma ThreeOk(a: Block, b: Block, c: Block)
    requires a.at + HEADER <= b.at && b.at + HEADER <= c.at && (a.used || b.used) && (b.used || c.used)
    ensures WellFormed([a, b] + [c]) && [a, b] + [c] == [a, b, c]
  {
    var l := [a, b] + [c];
    assert PairOk(l, 0) && PairOk(l, 1);
  }

  // ---- allocation

  lemma EntryOf(a: int, c: int)
    ensures Entry(Block(a, true), Block(c, true)) == map[a := c] && Entry(Block(a, true), Block(c, false)) == map[a := c]
  {
  }

  lemma PlusNothing(m: map<int, int>)
    ensures m + map[] == m && map[] + m == m
  {
  }

  lemma NothingMinus(m: map<int, int>, e: map<int, int>, e': map<int, int>, a: int, v: int)
    requires e == map[] && e' == map[a := v]
    ensures (m - e.Keys) + e' == m[a := v]
  {
  }

  lemma CutEntries(u: Block, r: Block, c: Block)
    requires u.used && !r.used
    ensures Extents([u, r] + [c]) == map[u.at := r.at]
  {
    ThreeBlocks(u, r, c);
    assert [u, r] + [c] == [u, r, c];
    PlusNothing(map[u.at := r.at]);
  }

  lemma OneBlock(l: seq<Block>, k: nat)
    requires k + 1 < |l|
    ensures l == l[..k] + [l[k]] + l[k + 1..] && l[k + 1..][0] == l[k + 1] && [l[k]] + [l[k + 1]] == [l[k], l[k + 1]]
    ensures l[..k] == [] || l[..k][|l[..k]| - 1] == l[k - 1]
  {
  }

  lemma CutParts(l: seq<Block>, k: nat, n: nat)
    requires WellFormed(l) && k + 1 < |l| && !l[k].used && Splits(l, k, n)
    ensures var b, c, u, r := l[k], l[k + 1], Block(l[k].at, true), Block(l[k].at + HEADER + n, false);
      && l == l[..k] + [b] + l[k + 1..] && Taken(l, k, n) == l[..k] + [u, r] + l[k + 1..]
      && l[k + 1..][0] == c && WellFormed([u, r] + [c])
      && (l[..k] == [] || l[..k][|l[..k]| - 1] == l[k - 1])
      && UsedBytes([b] + [c]) == 0 && UsedBytes([u, r] + [c]) == n + HEADER
      && Extents([b] + [c]) == map[] && Extents([u, r] + [c]) == map[b.at := r.at]
  {
    var b, c, u, r := l[k], l[k + 1], Block(l[k].at, true), Block(l[k].at + HEADER + n, false);
    OneBlock(l, k);
    Pair(l, k);
    Two(b, c);
    ThreeOk(u, r, c);
    ThreeBlocks(u, r, c);
    CutEntries(u, r, c);
  }

  lemma CutKeeps(l: seq<Block>, size: int, k: nat, n: nat)
    requires Shape(size, l) && k + 1 < |l| && !l[k].used && Splits(l, k, n)
    ensures Shape(size, Taken(l, k, n)) && UsedBytes(Taken(l, k, n)) == UsedBytes(l) + n + HEADER
    ensures Extents(Taken(l, k, n)) == Extents(l)[l[k].at := l[k].at + HEADER + n]
  {
    var b, c, u, r := l[k], l[k + 1], Block(l[k].at, true), Block(l[k].at + HEADER + n, false);
    CutParts(l, k, n);
    RewriteKeeps(l, Taken(l, k, n), size, l[..k], [b], [u, r], l[k + 1..]);
    NothingMinus(Extents(l), Extents([b] + [c]), Extents([u, r] + [c]), b.at, r.at);
  }

  lemma WholeKeeps(l: seq<Block>, size: int, k: nat, n: nat)
    requires Shape(size, l) && k + 1 < |l| && !l[k].used && !Splits(l, k, n)
    ensures Shape(size, Taken(l, k, n)) && UsedBytes(Taken(l, k, n)) == UsedBytes(l) + Room(l, k) + HEADER
    ensures Extents(Taken(l, k, n)) == Extents(l)[l[k].at := l[k + 1].at]
  {
    var b, c, u := l[k], l[k + 1], Block(l[k].at, true);
    OneBlock(l, k);
    Pair(l, k);
    Two(b, c);
    TwoOk(u, c);
    Two(u, c);
    EntryOf(b.at, c.at);
    RewriteKeeps(l, Taken(l, k, n), size, l[..k], [b], [u], l[k + 1..]);
    NothingMinus(Extents(l), Extents([b] + [c]), Extents([u] + [c]), b.at, c.at);
  }

  /** The block and the bytes that TakeStep gives away. */
  lemma TakenKeeps(h: Heap, k: nat, n: nat)
    requires Inv(h) && k + 1 < |h.blocks| && !h.blocks[k].used
    ensures var l, cut := Taken(h.blocks, k, n), Splits(h.blocks, k, n);
      && Shape(h.size, l)
      && UsedBytes(l) == h.used + (if cut then n + HEADER else Room(h.blocks, k) + HEADER)
      && Extents(l) == Extents(h.blocks)[h.blocks[k].at := if cut then h.blocks[k].at + HEADER + n else h.blocks[k + 1].at]
  {
    if Splits(h.blocks, k, n) { CutKeeps(h.blocks, h.size, k, n); } else { WholeKeeps(h.blocks, h.size, k, n); }
  }

  /** Which blocks a take leaves alone. */
  lemma TakenMembers(l: seq<Block>, k: nat, n: nat, b: Block)
    requires k + 1 < |l| && WellFormed(l) && !l[k].used
    ensures b in Taken(l, k, n) <==>
      (b in l && b != l[k]) || b == Block(l[k].at, true) || (Splits(l, k, n) && b == Block(l[k].at + HEADER + n, false))
  {
    var m := if Splits(l, k, n) then [Block(l[k].at, true), Block(l[k].at + HEADER + n, false)] else [Block(l[k].at, true)];
    var t := Taken(l, k, n);
    assert t == l[..k] + m + l[k + 1..];
    if b in l && b != l[k] {
      var i :| 0 <= i < |l| && l[i] == b;
      assert b in l[..k] || b in l[k + 1..] by { if i < k { assert l[..k][i] == b; } else { assert l[k + 1..][i - k - 1] == b; } }
    }
    if b in l[..k] {
      var i :| 0 <= i < k && l[..k][i] == b;
      Ascends(l, i, k);
    }
    if b in l[k + 1..] {
      var i :| 0 <= i < |l[k + 1..]| && l[k + 1..][i] == b;
      Ascends(l, k, k + 1 + i);
    }
  }

  lemma TakeKeeps(h: Heap, k: nat, n: nat)
    requires Inv(h) && k + 1 < |h.blocks| && !h.blocks[k].used && Room(h.blocks, k) >= n
    ensures Inv(TakeStep(h, k, n))
  {
    TakenKeeps(h, k, n);
    var l := Taken(h.blocks, k, n);
    var j := NextUnused(l, k);
    if h.lfree == h.blocks[k].at {
      assert l[j] in l;
      assert !l[j].used ==> l[j] == Block(l[j].at, false);
    } else if Block(h.lfree, false) in h.blocks {
      TakenMembers(h.blocks, k, n, Block(h.lfree, false));
    }
  }

  /** With lfree lowest before, it is lowest after: everything between was used. */
  lemma TakeKeepsLowest(h: Heap, k: nat, n: nat)
    requires Inv(h) && Lowest(h) && k + 1 < |h.blocks| && !h.blocks[k].used && Room(h.blocks, k) >= n
    ensures Lowest(TakeStep(h, k, n))
  {
    TakenKeeps(h, k, n);
    var l := Taken(h.blocks, k, n);
    var j := NextUnused(l, k);
    forall b | b in l && b.at < TakeStep(h, k, n).lfree ensures b.used {
      if h.lfree == h.blocks[k].at { NextIsLowest(h, l, k, n, j, b); } else { OthersBelow(h, k, n, b); }
    }
  }

  lemma NextIsLowest(h: Heap, l: seq<Block>, k: nat, n: nat, j: nat, b: Block)
    requires WellFormed(h.blocks) && Lowest(h) && k + 1 < |h.blocks| && h.lfree == h.blocks[k].at
    requires l == Taken(h.blocks, k, n) && WellFormed(l) && j < |l| && forall i :: k <= i < j ==> l[i].used
    requires b in l && b.at < l[j].at
    ensures b.used
  {
    var i :| 0 <= i < |l| && l[i] == b;
    if j < i { Ascends(l, j, i); }
    if i < k {
      TakenFront(h.blocks, k, n, i);
      Ascends(h.blocks, i, k);
      assert h.blocks[i] in h.blocks;
    }
  }

  lemma OthersBelow(h: Heap, k: nat, n: nat, b: Block)
    requires Inv(h) && Lowest(h) && k + 1 < |h.blocks| && !h.blocks[k].used
    requires b in Taken(h.blocks, k, n) && b.at < h.lfree
    ensures b.used
  {
    TakenMembers(h.blocks, k, n, b);
    LowestBelow(h, k);
  }

  lemma TakenFront(l: seq<Block>, k: nat, n: nat, i: nat)
    requires k + 1 < |l| && i < k
    ensures Taken(l, k, n)[i] == l[i]
  {
  }

  lemma LowestBelow(h: Heap, k: nat)
    requires Lowest(h) && k < |h.blocks| && !h.blocks[k].used
    ensures h.lfree <= h.blocks[k].at
  {
    assert h.blocks[k] in h.blocks;
  }

  /** The used blocks e1 are those of e and a new one at a for n bytes. */
  ghost predicate Granted(e: map<int, int>, e1: map<int, int>, a: int, n: int)
  {
    a !in e && a in e1 && e1 == e[a := e1[a]] && e1[a] - a - HEADER >= n
  }

  /** rt_malloc: a successful request gets a new block of at least its size, and nothing else changes. */
  lemma MallocKeeps(h: Heap, size: nat)
    requires Inv(h)
    ensures var (r, q) := MallocStep(h, size);
      && Inv(r) && r.size == h.size && (Lowest(h) ==> Lowest(r))
      && (q == 0 ==> r == h)
      && (q != 0 ==> q >= HEADER && Granted(Extents(h.blocks), Extents(r.blocks), q - HEADER, Request(size)))
  {
    if size != 0 && Align(size) <= h.size { SearchKeeps(h, Request(size)); }
  }

  lemma SearchKeeps(h: Heap, n: nat)
    requires Inv(h)
    ensures var (r, q) := SearchStep(h, n);
      && Inv(r) && r.size == h.size && (Lowest(h) ==> Lowest(r))
      && (q == 0 ==> r == h)
      && (q != 0 ==> q >= HEADER && Granted(Extents(h.blocks), Extents(r.blocks), q - HEADER, n))
  {
    var k := FirstFit(h, Index(h.blocks, h.lfree), n);
    FirstFitFinds(h, Index(h.blocks, h.lfree), n);
    if k + 1 < |h.blocks| {
      TakeKeeps(h, k, n);
      TakeGrants(h, k, n);
      if Lowest(h) { TakeKeepsLowest(h, k, n); }
      if k > 0 { Ascends(h.blocks, 0, k); }
    }
  }

  lemma TakeGrants(h: Heap, k: nat, n: nat)
    requires Inv(h) && k + 1 < |h.blocks| && !h.blocks[k].used && Room(h.blocks, k) >= n
    ensures Granted(Extents(h.blocks), Extents(TakeStep(h, k, n).blocks), h.blocks[k].at, n)
  {
    TakenKeeps(h, k, n);
    UnusedNotIn(h.blocks, k);
  }

  lemma UnusedNotIn(l: seq<Block>, k: nat)
    requires WellFormed(l) && k < |l| && !l[k].used
    ensures l[k].at !in Extents(l)
  {
    if l[k].at in Extents(l) {
      var i := ExtentIsUsed(l, l[k].at);
      IndexAt(l, i);
      IndexAt(l, k);
    }
  }

  // ---- release

  ghost predicate LiveAt(h: Heap, ptr: int, k: nat)
  {
    k + 1 < |h.blocks| && Index(h.blocks, ptr - HEADER) == k && h.blocks[k] == Block(ptr - HEADER, true)
  }

  lemma LiveIndex(h: Heap, ptr: int) returns (k: nat)
    requires Inv(h) && ptr - HEADER in Extents(h.blocks)
    ensures LiveAt(h, ptr, k) && Extents(h.blocks)[ptr - HEADER] == h.blocks[k + 1].at
    ensures !h.blocks[k + 1].used ==> k + 2 < |h.blocks| && h.blocks[k + 2].used
    ensures k > 0 && !h.blocks[k - 1].used ==> k == 1 || h.blocks[k - 2].used
    ensures ptr >= HEADER
  {
    k := ExtentIsUsed(h.blocks, ptr - HEADER);
    IndexAt(h.blocks, k);
    ExtentAt(h.blocks, k);
    if k + 2 < |h.blocks| { Pair(h.blocks, k + 1); }
    if k > 1 { Pair(h.blocks, k - 2); }
    if k > 0 { Ascends(h.blocks, 0, k); }
  }

  /** The stretch that a release rewrites: block k and its unused neighbours. */
  function From(l: seq<Block>, k: nat): nat
    requires k < |l|
  {
    if k > 0 && !l[k - 1].used then k - 1 else k
  }

  function Until(l: seq<Block>, k: nat): nat
    requires k + 1 < |l|
  {
    if !l[k + 1].used then k + 2 else k + 1
  }

  lemma StretchContents(l: seq<Block>, k: nat)
    requires k + 1 < |l| && l[k].used && Until(l, k) < |l|
    ensures var m, d := l[From(l, k)..Until(l, k)], l[Until(l, k)];
      && m != [] && m[0] == l[From(l, k)]
      && UsedBytes(m + [d]) == l[k + 1].at - l[k].at && Extents(m + [d]) == map[l[k].at := l[k + 1].at]
  {
    var m, d := l[From(l, k)..Until(l, k)], l[Until(l, k)];
    if k > 0 && !l[k - 1].used {
      if l[k + 1].used {
        assert m + [d] == [l[k - 1], l[k], d];
        ThreeBlocks(l[k - 1], l[k], d);
      } else {
        assert m + [d] == [l[k - 1], l[k], l[k + 1], d];
        FourBlocks(l[k - 1], l[k], l[k + 1], d);
      }
    } else if l[k + 1].used {
      assert m + [d] == [l[k], d];
      Two(l[k], d);
    } else {
      assert m + [d] == [l[k], l[k + 1], d];
      ThreeBlocks(l[k], l[k + 1], d);
    }
  }

  /** The block list after a release. */
  function Freed(l: seq<Block>, k: nat): seq<Block>
    requires k + 1 < |l| && Until(l, k) <= |l|
  {
    l[..From(l, k)] + [Block(l[From(l, k)].at, false)] + l[Until(l, k)..]
  }

  lemma FreedKeeps(l: seq<Block>, size: int, k: nat)
    requires Shape(size, l) && k + 1 < |l| && l[k].used && Until(l, k) < |l| && l[Until(l, k)].used
    requires From(l, k) > 0 ==> l[From(l, k) - 1].used
    ensures Shape(size, Freed(l, k)) && UsedBytes(Freed(l, k)) == UsedBytes(l) - (l[k + 1].at - l[k].at)
    ensures Extents(Freed(l, k)) == Extents(l) - {l[k].at}
  {
    StretchContents(l, k);
    FreedRewrite(l, size, From(l, k), Until(l, k), l[k].at, l[k + 1].at);
  }

  /** The stretch i .. e, which holds one used block of the given extent, becomes one unused block. */
  lemma FreedRewrite(l: seq<Block>, size: int, i: nat, e: nat, a: int, until: int)
    requires Shape(size, l) && i < e < |l| && l[e].used && (i > 0 ==> l[i - 1].used)
    requires UsedBytes(l[i..e] + [l[e]]) == until - a && Extents(l[i..e] + [l[e]]) == map[a := until]
    ensures var r := l[..i] + [Block(l[i].at, false)] + l[e..];
      Shape(size, r) && UsedBytes(r) == UsedBytes(l) - (until - a) && Extents(r) == Extents(l) - {a}
  {
    var d, f := l[e], Block(l[i].at, false);
    Slices(l, i, e);
    Ascends(l, i, e);
    TwoOk(f, d);
    Two(f, d);
    RewriteKeeps(l, l[..i] + [f] + l[e..], size, l[..i], l[i..e], [f], l[e..]);
    MinusOne(Extents(l), Extents(l[i..e] + [d]), Extents([f] + [d]), a);
  }

  lemma MinusOne(m: map<int, int>, e: map<int, int>, e': map<int, int>, a: int)
    requires e.Keys == {a} && e' == map[]
    ensures (m - e.Keys) + e' == m - {a}
  {
  }

  lemma FreedMembers(l: seq<Block>, k: nat, b: Block)
    requires WellFormed(l) && k + 1 < |l| && l[k].used && Until(l, k) < |l| && l[Until(l, k)].used && !b.used
    ensures b in Freed(l, k) <==> (b == Block(l[From(l, k)].at, false) || (b in l && (b.at != l[k + 1].at || l[k + 1].used)))
  {
    var i, e := From(l, k), Until(l, k);
    Sliced(l, i, e, b);
    if b in l[i..e] {
      var j := PlaceIn(l, i, e, b);
    }
    if b in l[..i] {
      var j :| 0 <= j < i && l[..i][j] == b;
      Ascends(l, j, k + 1);
    }
    if b in l[e..] && !l[k + 1].used { BehindIsAbove(l, k + 1, e, b); }
  }

  lemma Sliced(l: seq<Block>, i: nat, e: nat, b: Block)
    requires i < e < |l|
    ensures b in l <==> b in l[..i] || b in l[i..e] || b in l[e..]
  {
    Slices(l, i, e);
  }

  lemma PlaceIn(l: seq<Block>, i: nat, e: nat, b: Block) returns (j: nat)
    requires i < e < |l| && b in l[i..e]
    ensures i <= j < e && l[j] == b
  {
    var x :| 0 <= x < |l[i..e]| && l[i..e][x] == b;
    j := i + x;
  }

  lemma BehindIsAbove(l: seq<Block>, k: nat, e: nat, b: Block)
    requires WellFormed(l) && k < e < |l| && b in l[e..]
    ensures b.at > l[k].at
  {
    var j :| 0 <= j < |l[e..]| && l[e..][j] == b;
    assert l[e + j] == b;
    Ascends(l, k, e + j);
  }

  lemma LfreeIsNot(h: Heap, k: nat)
    requires Inv(h) && k + 1 < |h.blocks| && h.blocks[k].used
    ensures h.lfree != h.blocks[k].at
  {
    Ascends(h.blocks, k, |h.blocks| - 1);
    if Block(h.lfree, false) in h.blocks && h.lfree == h.blocks[k].at {
      SameAt(h.blocks, Block(h.lfree, false), h.blocks[k]);
    }
  }

  lemma FreeKeeps(h: Heap, ptr: int)
    requires Inv(h) && ptr - HEADER in Extents(h.blocks)
    ensures Inv(FreeStep(h, ptr)) && FreeStep(h, ptr).size == h.size
    ensures Extents(FreeStep(h, ptr).blocks) == Extents(h.blocks) - {ptr - HEADER}
  {
    var k := LiveIndex(h, ptr);
    LfreeIsNot(h, k);
    FreedLfree(h, ptr, k);
    FreeIsFreed(h, ptr, k);
    FreedIs(h, FreeStep(h, ptr), k, ptr - HEADER);
  }

  lemma FreedIs(h: Heap, r: Heap, k: nat, a: int)
    requires Inv(h) && k + 1 < |h.blocks| && h.blocks[k] == Block(a, true) && Until(h.blocks, k) < |h.blocks| && h.blocks[Until(h.blocks, k)].used
    requires From(h.blocks, k) > 0 ==> h.blocks[From(h.blocks, k) - 1].used
    requires r.blocks == Freed(h.blocks, k) && r.used == h.used - (h.blocks[k + 1].at - h.blocks[k].at)
    requires r.size == h.size && r.maxUsed == h.maxUsed && FreeOrEnd(r.blocks, r.lfree)
    ensures Inv(r) && Extents(r.blocks) == Extents(h.blocks) - {a}
  {
    FreedKeeps(h.blocks, h.size, k);
    Pair(h.blocks, k);
  }

  lemma FreeIsFreed(h: Heap, ptr: int, k: nat)
    requires LiveAt(h, ptr, k) && Until(h.blocks, k) <= |h.blocks|
    ensures FreeStep(h, ptr).blocks == Freed(h.blocks, k)
    ensures FreeStep(h, ptr).used == h.used - (h.blocks[k + 1].at - h.blocks[k].at)
    ensures FreeStep(h, ptr).size == h.size && FreeStep(h, ptr).maxUsed == h.maxUsed
  {
  }

  lemma FreedLfree(h: Heap, ptr: int, k: nat)
    requires Inv(h) && LiveAt(h, ptr, k) && Until(h.blocks, k) < |h.blocks| && h.blocks[Until(h.blocks, k)].used
    requires h.lfree != h.blocks[k].at
    ensures FreeOrEnd(Freed(h.blocks, k), FreeStep(h, ptr).lfree)
  {
    var l, r := h.blocks, FreeStep(h, ptr);
    Pair(l, k);
    if k > 0 { Pair(l, k - 1); }
    FreedMembers(l, k, Block(r.lfree, false));
    if !(Block(h.lfree, false) in l) { Ascends(l, k, |l| - 1); }
  }

  lemma FreeKeepsLowest(h: Heap, ptr: int)
    requires Inv(h) && Lowest(h) && ptr - HEADER in Extents(h.blocks)
    ensures Lowest(FreeStep(h, ptr))
  {
    var k := LiveIndex(h, ptr);
    var l, r := h.blocks, FreeStep(h, ptr);
    assert r.blocks == Freed(l, k);
    if k > 0 { Pair(l, k - 1); assert l[k - 1] in l; }
    forall b | b in r.blocks && b.at < r.lfree ensures b.used {
      if !b.used { FreedMembers(l, k, b); }
    }
  }

  // ---- changing a size in place

  lemma ShrunkEntries(u: Block, r: Block, c: Block, d: Block)
    requires u.used && !r.used && !c.used
    ensures UsedBytes([u, r] + [d]) == r.at - u.at && Extents([u, r] + [d]) == map[u.at := r.at]
    ensures UsedBytes([u, c] + [d]) == c.at - u.at && Extents([u, c] + [d]) == map[u.at := c.at]
    ensures UsedBytes([u] + [d]) == d.at - u.at && Extents([u] + [d]) == map[u.at := d.at]
  {
    ThreeBlocks(u, r, d);
    ThreeBlocks(u, c, d);
    Two(u, d);
    assert [u, r] + [d] == [u, r, d] && [u, c] + [d] == [u, c, d] && [u] + [d] == [u, d];
    PlusNothing(map[u.at := r.at]);
    PlusNothing(map[u.at := c.at]);
  }

  lemma ReplaceOne(m: map<int, int>, e: map<int, int>, e': map<int, int>, a: int, v: int)
    requires e.Keys == {a} && e' == map[a := v]
    ensures (m - e.Keys) + e' == m[a := v]
  {
  }

  function Shrunk(l: seq<Block>, k: nat, n: int): seq<Block>
    requires k + 1 < |l| && Until(l, k) <= |l|
  {
    l[..k] + [Block(l[k].at, true), Block(l[k].at + HEADER + n, false)] + l[Until(l, k)..]
  }

  lemma ShrunkParts(l: seq<Block>, k: nat, n: nat)
    requires WellFormed(l) && k + 1 < |l| && l[k].used && Until(l, k) < |l| && l[Until(l, k)].used
    requires n + HEADER + MINSIZE < Room(l, k)
    ensures ShrunkFrom(l, k, Until(l, k), l[k + 1].at, l[k].at + HEADER + n)
    ensures Shrunk(l, k, n) == l[..k] + [l[k], Block(l[k].at + HEADER + n, false)] + l[Until(l, k)..]
  {
    var e := Until(l, k);
    var u, r, d := l[k], Block(l[k].at + HEADER + n, false), l[e];
    assert u == Block(u.at, true);
    ShrunkEntries(u, r, Block(l[k + 1].at, false), d);
    if e > k + 1 { Ascends(l, k + 1, e); }
    ThreeOk(u, r, d);
    assert l[k..e] == if l[k + 1].used then [u] else [u, Block(l[k + 1].at, false)];
  }

  /** The stretch k .. e holds the used block k up to the offset until, and is to hold it up to rest. */
  ghost predicate ShrunkFrom(l: seq<Block>, k: nat, e: nat, until: int, rest: int)
    requires k < e < |l|
  {
    && WellFormed([l[k], Block(rest, false)] + [l[e]])
    && UsedBytes(l[k..e] + [l[e]]) == until - l[k].at && Extents(l[k..e] + [l[e]]) == map[l[k].at := until]
    && UsedBytes([l[k], Block(rest, false)] + [l[e]]) == rest - l[k].at
    && Extents([l[k], Block(rest, false)] + [l[e]]) == map[l[k].at := rest]
  }

  lemma ShrunkKeeps(l: seq<Block>, size: int, k: nat, n: nat)
    requires Shape(size, l) && k + 1 < |l| && l[k].used && Until(l, k) < |l| && l[Until(l, k)].used
    requires n + HEADER + MINSIZE < Room(l, k)
    ensures Changed(size, l, Shrunk(l, k, n), Room(l, k) - n, l[k].at, l[k].at + HEADER + n)
  {
    ShrunkParts(l, k, n);
    ShrunkRewrite(l, Shrunk(l, k, n), size, k, Until(l, k), l[k + 1].at, l[k].at + HEADER + n);
  }

  /** The used block at a ends at rest in r, which has that many used bytes less. */
  ghost predicate Changed(size: int, l: seq<Block>, r: seq<Block>, less: int, a: int, rest: int)
  {
    Shape(size, r) && UsedBytes(r) == UsedBytes(l) - less && Extents(r) == Extents(l)[a := rest]
  }

  lemma ShrunkRewrite(l: seq<Block>, r: seq<Block>, size: int, k: nat, e: nat, until: int, rest: int)
    requires Shape(size, l) && k < e < |l| && l[k].used && ShrunkFrom(l, k, e, until, rest)
    requires r == l[..k] + [l[k], Block(rest, false)] + l[e..]
    ensures Changed(size, l, r, until - rest, l[k].at, rest)
  {
    var m := [l[k], Block(rest, false)];
    Slices(l, k, e);
    RewriteKeeps(l, r, size, l[..k], l[k..e], m, l[e..]);
    ReplaceOne(Extents(l), Extents(l[k..e] + [l[e]]), Extents(m + [l[e]]), l[k].at, rest);
  }

  lemma ShrunkMembers(l: seq<Block>, k: nat, n: nat, b: Block)
    requires WellFormed(l) && k + 1 < |l| && l[k].used && Until(l, k) < |l| && l[Until(l, k)].used && !b.used
    ensures b in Shrunk(l, k, n) <==> (b == Block(l[k].at + HEADER + n, false) || (b in l && (b.at != l[k + 1].at || l[k + 1].used)))
  {
    var e := Until(l, k);
    Slices(l, k, e);
    if b in l[..k] {
      var j :| 0 <= j < k && l[..k][j] == b;
      Ascends(l, j, k + 1);
    }
    if b in l[e..] {
      var j :| 0 <= j < |l[e..]| && l[e..][j] == b;
      assert l[e + j] == b;
      if e + j > k + 1 { Ascends(l, k + 1, e + j); }
    }
    if b in l[k..e] {
      var j :| 0 <= j < |l[k..e]| && l[k..e][j] == b;
      assert l[k + j] == b;
    }
    if b in l { assert b in l[..k] || b in l[k..e] || b in l[e..]; }
  }

  lemma ShrinkKeeps(h: Heap, k: nat, n: nat)
    requires Inv(h) && k + 1 < |h.blocks| && h.blocks[k].used && Until(h.blocks, k) < |h.blocks| && h.blocks[Until(h.blocks, k)].used
    requires n + HEADER + MINSIZE < Room(h.blocks, k)
    ensures Inv(ShrinkStep(h, k, n))
    ensures Extents(ShrinkStep(h, k, n).blocks) == Extents(h.blocks)[h.blocks[k].at := h.blocks[k].at + HEADER + n]
  {
    var l := h.blocks;
    ShrunkKeeps(l, h.size, k, n);
    ShrunkLfree(h, k, n);
  }

  lemma ShrunkLfree(h: Heap, k: nat, n: nat)
    requires Inv(h) && k + 1 < |h.blocks| && h.blocks[k].used && Until(h.blocks, k) < |h.blocks| && h.blocks[Until(h.blocks, k)].used
    ensures ShrinkStep(h, k, n).blocks == Shrunk(h.blocks, k, n)
    ensures FreeOrEnd(ShrinkStep(h, k, n).blocks, ShrinkStep(h, k, n).lfree)
  {
    var r := ShrinkStep(h, k, n);
    ShrunkMembers(h.blocks, k, n, Block(r.lfree, false));
    if !(Block(h.lfree, false) in h.blocks) { if k + 1 < |h.blocks| - 1 { Ascends(h.blocks, k + 1, |h.blocks| - 1); } }
  }

  /** Shrinking in place leaves lfree alone, so lfree stays the lowest unused block exactly when it lies
      below the shrunk block or the rest joins an unused block behind it. */
  lemma ShrinkKeepsLowestIff(h: Heap, k: nat, n: nat)
    requires Inv(h) && Lowest(h) && k + 1 < |h.blocks| && h.blocks[k].used
    requires Until(h.blocks, k) < |h.blocks| && h.blocks[Until(h.blocks, k)].used && n + HEADER + MINSIZE < Room(h.blocks, k)
    ensures Lowest(ShrinkStep(h, k, n)) <==> h.lfree < h.blocks[k].at || !h.blocks[k + 1].used
  {
    var l, r := h.blocks, ShrinkStep(h, k, n);
    var rest := Block(l[k].at + HEADER + n, false);
    ShrunkLfree(h, k, n);
    ShrunkMembers(l, k, n, rest);
    LfreeIsNot(h, k);
    if h.lfree < l[k].at {
      StaysLowest(h, k, n);
    } else if !l[k + 1].used {
      LowestBelow(h, k + 1);
      LfreePlace(h, k);
      StaysLowest(h, k, n);
    } else {
      LfreePlace(h, k);
      assert rest in r.blocks && rest.at < r.lfree;
    }
  }

  /** An lfree above block k is at or above the next block. */
  lemma LfreePlace(h: Heap, k: nat)
    requires Inv(h) && k + 1 < |h.blocks| && h.blocks[k].used && h.lfree >= h.blocks[k].at
    ensures h.lfree >= h.blocks[k + 1].at
  {
    LfreeIndex(h);
    var j := Index(h.blocks, h.lfree);
    LfreeIsNot(h, k);
    if j < k { Ascends(h.blocks, j, k); }
    if j > k + 1 { Ascends(h.blocks, k + 1, j); }
  }

  lemma StaysLowest(h: Heap, k: nat, n: nat)
    requires Inv(h) && Lowest(h) && k + 1 < |h.blocks| && h.blocks[k].used && Until(h.blocks, k) < |h.blocks|
    requires h.blocks[Until(h.blocks, k)].used && (h.lfree < h.blocks[k].at || (!h.blocks[k + 1].used && h.lfree == h.blocks[k + 1].at))
    requires n + HEADER + MINSIZE < Room(h.blocks, k)
    ensures Lowest(ShrinkStep(h, k, n))
  {
    var r := ShrinkStep(h, k, n);
    ShrunkLfree(h, k, n);
    Pair(h.blocks, k);
    forall b | b in r.blocks && b.at < r.lfree ensures b.used {
      if !b.used { BelowRest(h, k, n, b); }
    }
  }

  lemma BelowRest(h: Heap, k: nat, n: nat, b: Block)
    requires Inv(h) && Lowest(h) && k + 1 < |h.blocks| && h.blocks[k].used && Until(h.blocks, k) < |h.blocks|
    requires h.blocks[Until(h.blocks, k)].used && (h.lfree < h.blocks[k].at || (!h.blocks[k + 1].used && h.lfree == h.blocks[k + 1].at))
    requires b in Shrunk(h.blocks, k, n) && !b.used && n + HEADER + MINSIZE < Room(h.blocks, k)
    ensures b.at >= ShrinkStep(h, k, n).lfree
  {
    ShrunkMembers(h.blocks, k, n, b);
  }

  // ---- the three operations

  ghost predicate Holds(h: Heap, ptr: int)
  {
    ptr == 0 || ptr - HEADER in Extents(h.blocks)
  }

  lemma ZeroIsNoBlock(h: Heap)
    requires Inv(h)
    ensures -HEADER !in Extents(h.blocks)
  {
    ExtentBounds(h.blocks);
  }

  lemma MoveMaps(e: map<int, int>, e1: map<int, int>, e2: map<int, int>, a: int, b: int)
    requires a in e && b !in e && b in e1 && e1 == e[b := e1[b]] && e2 == e1 - {a}
    ensures b in e2 && e2[b] == e1[b] && e2 == (e - {a})[b := e2[b]]
  {
  }

  lemma OwnEntry(e: map<int, int>, a: int, v: int)
    requires a in e
    ensures e[a := v] == (e - {a})[a := v] && (e - {a})[a := e[a]] == e
  {
  }

  /** rt_realloc: the block is replaced by one of at least the rounded size, maybe itself; on failure
      nothing changes; size 0 releases it. */
  lemma ReallocKeeps(h: Heap, ptr: int, newsize: nat)
    requires Inv(h) && Holds(h, ptr)
    ensures var (r, q) := ReallocStep(h, ptr, newsize);
      && Inv(r)
      && (newsize == 0 ==> q == 0 && Extents(r.blocks) == Extents(h.blocks) - {ptr - HEADER})
      && (newsize > 0 && q == 0 ==> r == h)
      && (q != 0 ==> Moved(h, r, ptr, q, Align(newsize)))
  {
    ZeroIsNoBlock(h);
    var n := Align(newsize);
    if n > h.size {
    } else if n == 0 {
      assert Extents(h.blocks) - {-HEADER} == Extents(h.blocks);
      if ptr != 0 { FreeKeeps(h, ptr); }
    } else if ptr == 0 {
      NewKeeps(h, n);
    } else {
      ResizeKeeps(h, ptr, n);
    }
  }

  lemma NewKeeps(h: Heap, n: nat)
    requires Inv(h) && n > 0
    ensures var (r, q) := MallocStep(h, n); Inv(r) && (q == 0 ==> r == h) && (q != 0 ==> Moved(h, r, 0, q, n))
  {
    MallocKeeps(h, n);
    ZeroIsNoBlock(h);
    assert Extents(h.blocks) - {-HEADER} == Extents(h.blocks);
  }

  /** The used blocks are the old ones with the block behind ptr replaced by the one behind q. */
  ghost predicate Moved(h: Heap, r: Heap, ptr: int, q: int, n: nat)
  {
    && q - HEADER in Extents(r.blocks)
    && Extents(r.blocks) == (Extents(h.blocks) - {ptr - HEADER})[q - HEADER := Extents(r.blocks)[q - HEADER]]
    && Extents(r.blocks)[q - HEADER] - q >= n
    && (q != ptr ==> q - HEADER !in Extents(h.blocks))
  }

  lemma ResizeKeeps(h: Heap, ptr: int, n: nat)
    requires Inv(h) && ptr - HEADER in Extents(h.blocks) && ptr != 0 && 0 < n <= h.size
    ensures var (r, q) := ResizeStep(h, ptr, n);
      Inv(r) && (q == 0 ==> r == h) && (q != 0 ==> Moved(h, r, ptr, q, n))
  {
    var k := LiveIndex(h, ptr);
    var e, a := Extents(h.blocks), ptr - HEADER;
    OwnEntry(e, a, e[a]);
    if Room(h.blocks, k) == n {
    } else if n + HEADER + MINSIZE < Room(h.blocks, k) {
      ShrinkKeeps(h, k, n);
      OwnEntry(e, a, ptr + n);
    } else {
      MoveKeeps(h, ptr, n);
    }
  }

  lemma MoveKeeps(h: Heap, ptr: int, n: nat)
    requires Inv(h) && ptr - HEADER in Extents(h.blocks)
    ensures var (h1, q) := MallocStep(h, n);
      && (q == 0 ==> h1 == h)
      && (q != 0 ==> Inv(FreeStep(h1, ptr)) && Moved(h, FreeStep(h1, ptr), ptr, q, n))
  {
    MallocKeeps(h, n);
    var (h1, q) := MallocStep(h, n);
    if q != 0 { MovedFrom(h, h1, ptr, q, n); }
  }

  lemma MovedFrom(h: Heap, h1: Heap, ptr: int, q: int, n: nat)
    requires Inv(h1) && ptr - HEADER in Extents(h.blocks)
    requires Granted(Extents(h.blocks), Extents(h1.blocks), q - HEADER, Request(n))
    ensures Inv(FreeStep(h1, ptr)) && Moved(h, FreeStep(h1, ptr), ptr, q, n)
  {
    FreeKeeps(h1, ptr);
    MoveMaps(Extents(h.blocks), Extents(h1.blocks), Extents(FreeStep(h1, ptr).blocks), ptr - HEADER, q - HEADER);
  }

  // ---- whole runs

  datatype Op = Malloc(size: nat) | Free(ptr: int) | Realloc(ptr: int, size: nat)

  /** Callers only hand back pointers they hold, and no request starts a search that never ends. */
  ghost predicate Allowed(h: Heap, op: Op)
  {
    (op.Malloc? || Holds(h, op.ptr)) && (op.Free? || Searchable(h, op.size))
  }

  ghost function Apply(h: Heap, op: Op): Heap
  {
    match op
    case Malloc(size) => MallocStep(h, size).0
    case Free(ptr) => if ptr == 0 then h else FreeStep(h, ptr)
    case Realloc(ptr, size) => ReallocStep(h, ptr, size).0
  }

  ghost function Run(h: Heap, ops: seq<Op>): Heap
    decreases |ops|
  {
    if ops == [] then h else Run(Apply(h, ops[0]), ops[1..])
  }

  ghost predicate AllowedRun(h: Heap, ops: seq<Op>)
    decreases |ops|
  {
    ops == [] || (Allowed(h, ops[0]) && AllowedRun(Apply(h, ops[0]), ops[1..]))
  }

  lemma ApplyKeeps(h: Heap, op: Op)
    requires Inv(h) && Allowed(h, op)
    ensures Inv(Apply(h, op))
    ensures Lowest(h) && !op.Realloc? ==> Lowest(Apply(h, op))
  {
    match op
    case Malloc(size) => MallocKeeps(h, size);
    case Free(ptr) =>
      if ptr != 0 {
        FreeKeeps(h, ptr);
        if Lowest(h) { FreeKeepsLowest(h, ptr); }
      }
    case Realloc(ptr, size) => ReallocKeeps(h, ptr, size);
  }

  /** Every run keeps the tiling, the coalescing, the accounting and lfree; and without realloc lfree is
      always the lowest unused block. */
  lemma {:induction false} EveryRunKeepsInv(h: Heap, ops: seq<Op>)
    requires Inv(h) && AllowedRun(h, ops)
    ensures Inv(Run(h, ops))
    ensures Lowest(h) && (forall i :: 0 <= i < |ops| ==> !ops[i].Realloc?) ==> Lowest(Run(h, ops))
    decreases |ops|
  {
    if ops != [] {
      ApplyKeeps(h, ops[0]);
      EveryRunKeepsInv(Apply(h, ops[0]), ops[1..]);
    }
  }

  /** With nothing in use the heap is back to its one initial block. */
  lemma EmptyIsInitial(h: Heap)
    requires Inv(h) && Extents(h.blocks) == map[]
    ensures h.blocks == Initial(h.size).blocks && h.used == 0
  {
    var l := h.blocks;
    forall i | 0 <= i < |l| - 1 ensures !l[i].used { if l[i].used { ExtentAt(l, i); } }
    assert PairOk(l, 0);
    assert l == [Block(0, false), Block(h.size + HEADER, true)];
    Two(l[0], l[1]);
  }
}
