/** The block layout of one memory heap: a run of items that tile the pool, seen as a
    sequence of start addresses with their used flags. The last item is the tailer. */
module MemLayout {
  import opened Basics

  /** RT_MEMHEAP_SIZE for four-byte pointers, RT_MEMHEAP_MINIALLOC and RT_ALIGN_SIZE. */
  const HEADER := 24
  const MINIALLOC := 12
  const ALIGN := 4

  datatype Block = Block(addr: int, used: bool)

  /** Neighbouring items leave room for a header and are not both unused. */
  ghost predicate PairOk(l: seq<Block>, i: nat)
    requires i + 1 < |l|
  {
    l[i].addr + HEADER <= l[i + 1].addr && (l[i].used || l[i + 1].used)
  }

  ghost predicate WellFormed(l: seq<Block>)
  {
    forall i :: 0 <= i < |l| - 1 ==> PairOk(l, i)
  }

  lemma {:induction false} Ordered(l: seq<Block>, i: nat, j: nat)
    requires WellFormed(l) && i < j < |l|
    ensures l[i].addr + HEADER <= l[j].addr
    decreases j
  {
    assert PairOk(l, j - 1);
    if i < j - 1 {
      Ordered(l, i, j - 1);
    }
  }

  lemma SliceWellFormed(l: seq<Block>, i: nat, j: nat)
    requires WellFormed(l) && i <= j <= |l|
    ensures WellFormed(l[i..j])
  {
    forall k | 0 <= k < j - i - 1
      ensures PairOk(l[i..j], k)
    {
      assert PairOk(l, i + k);
    }
  }

  lemma TailWellFormed(l: seq<Block>)
    requires WellFormed(l) && |l| > 0
    ensures WellFormed(l[1..])
  {
    SliceWellFormed(l, 1, |l|);
    assert l[1..|l|] == l[1..];
  }

  /** Payload bytes between an item and the item behind it. */
  function Gap(b: Block, c: Block): int
  {
    c.addr - b.addr - HEADER
  }

  /** Sum of the payloads of the unused items. */
  ghost function FreeBytes(l: seq<Block>): int
  {
    if |l| < 2 then 0
    else (if l[0].used then 0 else Gap(l[0], l[1])) + FreeBytes(l[1..])
  }

  /** The live payloads: user pointer to payload size, over the used items before the tailer. */
  ghost function Live(l: seq<Block>): map<int, int>
  {
    if |l| < 2 then map[] else Entry(l[0], l[1]) + Live(l[1..])
  }

  /** The live payload of item b, if it is used, when c stands behind it. */
  ghost function Entry(b: Block, c: Block): map<int, int>
  {
    if b.used then map[b.addr + HEADER := Gap(b, c)] else map[]
  }

  lemma {:induction false} FreeBytesJoin(p: seq<Block>, s: seq<Block>)
    requires |s| > 0
    ensures FreeBytes(p + s) == FreeBytes(p + [s[0]]) + FreeBytes(s)
    decreases |p|
  {
    if p == [] {
      assert p + s == s && p + [s[0]] == [s[0]];
    } else {
      FreeBytesJoin(p[1..], s);
      assert (p + s)[1..] == p[1..] + s;
      assert (p + [s[0]])[1..] == p[1..] + [s[0]];
      assert (p + s)[1] == (p + [s[0]])[1];
    }
  }

  lemma {:induction false} FreeBytesLast(p: seq<Block>, b: Block, c: Block)
    requires b.addr == c.addr
    ensures FreeBytes(p + [b]) == FreeBytes(p + [c])
    decreases |p|
  {
    if p != [] {
      FreeBytesLast(p[1..], b, c);
      assert (p + [b])[1..] == p[1..] + [b];
      assert (p + [c])[1..] == p[1..] + [c];
      assert (p + [b])[1].addr == (p + [c])[1].addr;
    }
  }

  /** Rewriting a stretch m of the layout changes the free bytes by what it changes locally. */
  lemma ReplaceFreeBytes(p: seq<Block>, m: seq<Block>, m': seq<Block>, s: seq<Block>)
    requires |m| > 0 && |m'| > 0 && |s| > 0 && m[0].addr == m'[0].addr
    ensures FreeBytes(p + m' + s) - FreeBytes(p + m + s) == FreeBytes(m' + [s[0]]) - FreeBytes(m + [s[0]])
  {
    FreeBytesJoin(p, m + s);
    FreeBytesJoin(p, m' + s);
    assert p + (m + s) == p + m + s && p + (m' + s) == p + m' + s;
    FreeBytesJoin(m, s);
    FreeBytesJoin(m', s);
    FreeBytesLast(p, m[0], m'[0]);
  }

  lemma JoinShift(p: seq<Block>, s: seq<Block>)
    requires p != [] && s != []
    ensures (p + s)[1..] == p[1..] + s && (p + [s[0]])[1..] == p[1..] + [s[0]]
    ensures (p + s)[0] == (p + [s[0]])[0] && (p + s)[1] == (p + [s[0]])[1]
  {
  }

  lemma {:induction false} LiveJoin(p: seq<Block>, s: seq<Block>)
    requires |s| > 0
    ensures Live(p + s) == Live(p + [s[0]]) + Live(s)
    decreases |p|
  {
    if p == [] {
      assert p + s == s && p + [s[0]] == [s[0]];
    } else {
      LiveJoin(p[1..], s);
      JoinShift(p, s);
      MapPlusAssoc(Entry((p + s)[0], (p + s)[1]), Live(p[1..] + [s[0]]), Live(s));
    }
  }

  lemma {:induction false} LiveLast(p: seq<Block>, b: Block, c: Block)
    requires b.addr == c.addr
    ensures Live(p + [b]) == Live(p + [c])
    decreases |p|
  {
    if p != [] {
      LiveLast(p[1..], b, c);
      assert (p + [b])[1..] == p[1..] + [b];
      assert (p + [c])[1..] == p[1..] + [c];
      assert (p + [b])[1].addr == (p + [c])[1].addr;
    }
  }

  lemma LiveThree(p: seq<Block>, m: seq<Block>, s: seq<Block>)
    requires |m| > 0 && |s| > 0
    ensures Live(p + m + s) == Live(p + [m[0]]) + (Live(m + [s[0]]) + Live(s))
  {
    LiveJoin(p, m + s);
    assert p + (m + s) == p + m + s;
    LiveJoin(m, s);
  }

  /** Rewriting a stretch keeps the tiling and the coalescing if it does so locally. */
  lemma ReplaceWellFormed(p: seq<Block>, m: seq<Block>, m': seq<Block>, s: seq<Block>)
    requires |m| > 0 && |m'| > 0 && |s| > 0 && m[0].addr == m'[0].addr
    requires WellFormed(p + m + s) && WellFormed(m' + [s[0]])
    requires p == [] || p[|p| - 1].used || m'[0].used
    ensures WellFormed(p + m' + s)
  {
    var l, l', t := p + m + s, p + m' + s, m' + [s[0]];
    forall i | 0 <= i < |l'| - 1
      ensures PairOk(l', i)
    {
      if i < |p| {
        assert PairOk(l, i);
      } else if i < |p| + |m'| {
        assert PairOk(t, i - |p|);
        assert l'[i] == t[i - |p|] && l'[i + 1] == t[i + 1 - |p|];
      } else {
        var j := i - |m'| + |m|;
        assert PairOk(l, j);
        assert l'[i] == l[j] && l'[i + 1] == l[j + 1];
      }
    }
  }

  lemma {:induction false} LiveAbove(l: seq<Block>)
    requires WellFormed(l)
    ensures forall a :: a in Live(l) ==> |l| > 0 && a >= l[0].addr + HEADER
    decreases |l|
  {
    if |l| >= 2 {
      assert PairOk(l, 0);
      TailWellFormed(l);
      LiveAbove(l[1..]);
    }
  }

  lemma {:induction false} LiveBelow(l: seq<Block>)
    requires WellFormed(l)
    ensures forall a :: a in Live(l) ==> |l| > 0 && a <= l[|l| - 1].addr
    decreases |l|
  {
    if |l| >= 2 {
      Ordered(l, 0, |l| - 1);
      TailWellFormed(l);
      LiveBelow(l[1..]);
    }
  }

  lemma LiveFront(p: seq<Block>, m: seq<Block>, s: seq<Block>)
    requires |m| > 0 && WellFormed(p + m + s)
    ensures forall x :: x in Live(p + [m[0]]) ==> x < m[0].addr + HEADER
  {
    assert p + [m[0]] == (p + m + s)[0..|p| + 1];
    SliceWellFormed(p + m + s, 0, |p| + 1);
    LiveBelow(p + [m[0]]);
  }

  lemma LiveMiddle(m: seq<Block>, b: Block)
    requires |m| > 0 && WellFormed(m + [b])
    ensures forall x :: x in Live(m + [b]) ==> m[0].addr + HEADER <= x < b.addr + HEADER
  {
    LiveAbove(m + [b]);
    LiveBelow(m + [b]);
  }

  lemma MiddleWellFormed(p: seq<Block>, m: seq<Block>, s: seq<Block>)
    requires |m| > 0 && |s| > 0 && WellFormed(p + m + s)
    ensures WellFormed(m + [s[0]]) && WellFormed(s)
  {
    var l := p + m + s;
    assert m + [s[0]] == l[|p|..|p| + |m| + 1];
    assert s == l[|p| + |m|..|l|];
    SliceWellFormed(l, |p|, |p| + |m| + 1);
    SliceWellFormed(l, |p| + |m|, |l|);
  }

  /** A local rewrite replaces exactly the live payloads of the rewritten stretch. */
  lemma ReplaceLiveMap(p: seq<Block>, m: seq<Block>, m': seq<Block>, s: seq<Block>)
    requires |m| > 0 && |m'| > 0 && |s| > 0 && m[0].addr == m'[0].addr
    requires WellFormed(p + m + s) && WellFormed(m' + [s[0]])
    ensures Live(p + m' + s) == (Live(p + m + s) - Live(m + [s[0]]).Keys) + Live(m' + [s[0]])
  {
    LiveThree(p, m, s);
    LiveThree(p, m', s);
    LiveLast(p, m[0], m'[0]);
    LiveFront(p, m, s);
    MiddleWellFormed(p, m, s);
    LiveMiddle(m, s[0]);
    LiveMiddle(m', s[0]);
    LiveAbove(s);
    SwapMiddle(Live(p + [m[0]]), Live(m + [s[0]]), Live(m' + [s[0]]), Live(s), m[0].addr + HEADER, s[0].addr + HEADER);
  }

  lemma SpliceLive(l: seq<Block>, l': seq<Block>, p: seq<Block>, m: seq<Block>, m': seq<Block>, s: seq<Block>, e: map<int, int>, e': map<int, int>)
    requires l == p + m + s && l' == p + m' + s && |m| > 0 && |m'| > 0 && |s| > 0 && m[0].addr == m'[0].addr
    requires WellFormed(l) && WellFormed(m' + [s[0]]) && e == Live(m + [s[0]]) && e' == Live(m' + [s[0]])
    ensures Live(l') == (Live(l) - e.Keys) + e'
  {
    ReplaceLiveMap(p, m, m', s);
  }

  /** The keys of Live are exactly the payload addresses of the used items before the last. */
  lemma {:induction false} LiveKeys(l: seq<Block>, k: nat)
    requires WellFormed(l) && k + 1 < |l| && l[k].used
    ensures l[k].addr + HEADER in Live(l) && Live(l)[l[k].addr + HEADER] == Gap(l[k], l[k + 1])
    decreases |l|
  {
    TailWellFormed(l);
    if k > 0 {
      assert l[1..][k - 1] == l[k] && l[1..][k] == l[k + 1];
      LiveKeys(l[1..], k - 1);
    } else {
      assert PairOk(l, 0);
      LiveAbove(l[1..]);
    }
  }

  lemma {:induction false} LiveIsUsed(l: seq<Block>, a: int) returns (k: nat)
    requires a in Live(l)
    ensures k < |l| - 1 && l[k] == Block(a - HEADER, true)
    decreases |l|
  {
    if l[0].used && a == l[0].addr + HEADER {
      k := 0;
    } else {
      k := LiveIsUsed(l[1..], a);
      k := k + 1;
    }
  }

  /** Live payloads lie inside the pool and never overlap. */
  lemma LiveDisjoint(l: seq<Block>, a: int, b: int)
    requires WellFormed(l) && a in Live(l) && b in Live(l)
    ensures a >= l[0].addr + HEADER && a + Live(l)[a] <= l[|l| - 1].addr && Live(l)[a] >= 0
    ensures a < b ==> a + Live(l)[a] + HEADER <= b
  {
    var i := LiveIsUsed(l, a);
    var j := LiveIsUsed(l, b);
    LiveKeys(l, i);
    LiveKeys(l, j);
    assert PairOk(l, i);
    if i > 0 { Ordered(l, 0, i); }
    if i + 1 < |l| - 1 { Ordered(l, i + 1, |l| - 1); }
    if i + 1 < j { Ordered(l, i + 1, j); }
    if j < i { Ordered(l, j, i); }
  }

  lemma {:induction false} PayloadWithin(l: seq<Block>, k: nat)
    requires WellFormed(l) && k + 1 < |l| && !l[k].used
    ensures 0 <= Gap(l[k], l[k + 1]) <= FreeBytes(l)
    decreases |l|
  {
    TailWellFormed(l);
    FreeBytesNat(l[1..]);
    assert PairOk(l, 0) && PairOk(l, k);
    if k > 0 {
      assert l[1..][k - 1] == l[k] && l[1..][k] == l[k + 1];
      PayloadWithin(l[1..], k - 1);
    }
  }

  lemma {:induction false} FreeBytesNat(l: seq<Block>)
    requires WellFormed(l)
    ensures FreeBytes(l) >= 0
    decreases |l|
  {
    if |l| >= 2 {
      assert PairOk(l, 0);
      TailWellFormed(l);
      FreeBytesNat(l[1..]);
    }
  }
}
