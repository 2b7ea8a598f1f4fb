/** The block layout of the small heap: blocks by offset, with their used flags, up to the end stub. */
module SmallLayout {
  import opened Basics

  const HEADER := 12   // SIZEOF_STRUCT_MEM for four-byte words
  const MINSIZE := 12  // MIN_SIZE_ALIGNED
  const ALIGN := 4

  datatype Block = Block(at: int, used: bool)

  /** Neighbours leave room for a header and are not both unused. */
  ghost predicate PairOk(l: seq<Block>, i: nat)
    requires i + 1 < |l|
  {
    l[i].at + HEADER <= l[i + 1].at && (l[i].used || l[i + 1].used)
  }

  ghost predicate WellFormed(l: seq<Block>)
  {
    forall i :: 0 <= i < |l| - 1 ==> PairOk(l, i)
  }

  function Room(l: seq<Block>, k: nat): int
    requires k + 1 < |l|
  {
    l[k + 1].at - l[k].at - HEADER
  }

  lemma {:induction false} Ascends(l: seq<Block>, i: nat, j: nat)
    requires WellFormed(l) && i < j < |l|
    ensures l[i].at + HEADER <= l[j].at
    decreases j
  {
    assert PairOk(l, j - 1);
    if i < j - 1 { Ascends(l, i, j - 1); }
  }

  lemma SliceOk(l: seq<Block>, i: nat, j: nat)
    requires WellFormed(l) && i <= j <= |l|
    ensures WellFormed(l[i..j])
  {
    forall k | 0 <= k < j - i - 1 ensures PairOk(l[i..j], k) { assert PairOk(l, i + k); }
  }

  lemma TailOk(l: seq<Block>)
    requires WellFormed(l) && l != []
    ensures WellFormed(l[1..])
  {
    SliceOk(l, 1, |l|);
    assert l[1..|l|] == l[1..];
  }

  /** Bytes in used blocks, headers included. */
  ghost function UsedBytes(l: seq<Block>): int
    decreases |l|
  {
    if |l| < 2 then 0 else (if l[0].used then l[1].at - l[0].at else 0) + UsedBytes(l[1..])
  }

  /** The used blocks in front of the end stub: offset to the offset behind the block. */
  ghost function Extents(l: seq<Block>): map<int, int>
    decreases |l|
  {
    if |l| < 2 then map[]
    else Entry(l[0], l[1]) + Extents(l[1..])
  }

  lemma {:induction false} JoinBytes(p: seq<Block>, s: seq<Block>)
    requires s != []
    ensures UsedBytes(p + s) == UsedBytes(p + [s[0]]) + UsedBytes(s)
    decreases |p|
  {
    if p == [] {
      assert p + s == s && p + [s[0]] == [s[0]];
    } else {
      JoinBytes(p[1..], s);
      JoinShift(p, s);
    }
  }

  lemma {:induction false} JoinExtents(p: seq<Block>, s: seq<Block>)
    requires s != []
    ensures Extents(p + s) == Extents(p + [s[0]]) + Extents(s)
    decreases |p|
  {
    if p == [] {
      assert p + s == s && p + [s[0]] == [s[0]];
    } else {
      JoinExtents(p[1..], s);
      JoinShift(p, s);
      MapPlusAssoc(Entry((p + s)[0], (p + s)[1]), Extents(p[1..] + [s[0]]), Extents(s));
    }
  }

  lemma JoinShift(p: seq<Block>, s: seq<Block>)
    requires s != [] && p != []
    ensures (p + s)[1..] == p[1..] + s && (p + [s[0]])[1..] == p[1..] + [s[0]] && (p + s)[1] == (p + [s[0]])[1]
  {
  }

  /** The flag of the last block does not matter. */
  lemma {:induction false} LastFlag(p: seq<Block>, b: Block, c: Block)
    requires b.at == c.at
    ensures UsedBytes(p + [b]) == UsedBytes(p + [c]) && Extents(p + [b]) == Extents(p + [c])
    decreases |p|
  {
    if p != [] {
      LastFlag(p[1..], b, c);
      assert (p + [b])[1..] == p[1..] + [b];
      assert (p + [c])[1..] == p[1..] + [c];
      assert (p + [b])[1].at == (p + [c])[1].at;
    }
  }

  lemma Three(p: seq<Block>, m: seq<Block>, s: seq<Block>)
    requires m != [] && s != []
    ensures UsedBytes(p + m + s) == UsedBytes(p + [m[0]]) + UsedBytes(m + [s[0]]) + UsedBytes(s)
    ensures Extents(p + m + s) == Extents(p + [m[0]]) + (Extents(m + [s[0]]) + Extents(s))
  {
    JoinBytes(p, m + s);
    JoinExtents(p, m + s);
    assert p + (m + s) == p + m + s;
    JoinBytes(m, s);
    JoinExtents(m, s);
  }

  lemma {:induction false} ExtentBounds(l: seq<Block>)
    requires WellFormed(l)
    ensures forall a :: a in Extents(l) ==> l != [] && l[0].at <= a && a + HEADER <= Extents(l)[a] <= l[|l| - 1].at
    decreases |l|
  {
    if |l| >= 2 {
      assert PairOk(l, 0);
      TailOk(l);
      ExtentBounds(l[1..]);
      if |l| > 2 { Ascends(l, 1, |l| - 1); }
    }
  }

  /** A rewrite of the stretch m that is right locally is right in the whole layout. */
  lemma ReplaceOk(p: seq<Block>, m: seq<Block>, m': seq<Block>, s: seq<Block>)
    requires m != [] && m' != [] && s != [] && m[0].at == m'[0].at
    requires WellFormed(p + m + s) && WellFormed(m' + [s[0]])
    requires p == [] || p[|p| - 1].used || m'[0].used
    ensures WellFormed(p + m' + s)
  {
    var l, l', t := p + m + s, p + m' + s, m' + [s[0]];
    forall i | 0 <= i < |l'| - 1 ensures PairOk(l', i) {
      if i < |p| {
        assert PairOk(l, i);
      } else if i < |p| + |m'| {
        assert PairOk(t, i - |p|);
        assert l'[i] == t[i - |p|] && l'[i + 1] == t[i + 1 - |p|];
      } else {
        assert PairOk(l, i - |m'| + |m|);
        assert l'[i] == l[i - |m'| + |m|] && l'[i + 1] == l[i - |m'| + |m| + 1];
      }
    }
  }

  lemma Parts(p: seq<Block>, m: seq<Block>, s: seq<Block>)
    requires m != [] && s != [] && WellFormed(p + m + s)
    ensures forall a :: a in Extents(p + [m[0]]) ==> a < m[0].at
    ensures forall a :: a in Extents(m + [s[0]]) ==> m[0].at <= a < s[0].at
    ensures forall a :: a in Extents(s) ==> s[0].at <= a
  {
    var l := p + m + s;
    assert p + [m[0]] == l[0..|p| + 1];
    assert m + [s[0]] == l[|p|..|p| + |m| + 1];
    assert s == l[|p| + |m|..|l|];
    SliceOk(l, 0, |p| + 1);
    SliceOk(l, |p|, |p| + |m| + 1);
    SliceOk(l, |p| + |m|, |l|);
    ExtentBounds(p + [m[0]]);
    ExtentBounds(m + [s[0]]);
    ExtentBounds(s);
  }

  /** A local rewrite changes the used bytes and the used blocks only locally. */
  lemma ReplaceEffect(p: seq<Block>, m: seq<Block>, m': seq<Block>, s: seq<Block>)
    requires m != [] && m' != [] && s != [] && m[0].at == m'[0].at
    requires WellFormed(p + m + s) && WellFormed(m' + [s[0]])
    ensures UsedBytes(p + m' + s) - UsedBytes(p + m + s) == UsedBytes(m' + [s[0]]) - UsedBytes(m + [s[0]])
    ensures Extents(p + m' + s) == (Extents(p + m + s) - Extents(m + [s[0]]).Keys) + Extents(m' + [s[0]])
  {
    Three(p, m, s);
    Three(p, m', s);
    LastFlag(p, m[0], m'[0]);
    Parts(p, m, s);
    ExtentBounds(m' + [s[0]]);
    SwapMiddle(Extents(p + [m[0]]), Extents(m + [s[0]]), Extents(m' + [s[0]]), Extents(s), m[0].at, s[0].at);
  }

  // ---- short layouts

  ghost function Entry(b: Block, c: Block): map<int, int>
  {
    if b.used then map[b.at := c.at] else map[]
  }

  ghost function Bytes(b: Block, c: Block): int
  {
    if b.used then c.at - b.at else 0
  }

  lemma Two(a: Block, b: Block)
    ensures UsedBytes([a, b]) == Bytes(a, b) && Extents([a, b]) == Entry(a, b)
  {
    assert [a, b][1..] == [b];
  }

  lemma ThreeBlocks(a: Block, b: Block, c: Block)
    ensures UsedBytes([a, b, c]) == Bytes(a, b) + Bytes(b, c) && Extents([a, b, c]) == Entry(a, b) + Entry(b, c)
  {
    assert [a, b, c][1..] == [b, c];
    Two(b, c);
  }

  lemma FourBlocks(a: Block, b: Block, c: Block, d: Block)
    ensures UsedBytes([a, b, c, d]) == Bytes(a, b) + Bytes(b, c) + Bytes(c, d)
    ensures Extents([a, b, c, d]) == Entry(a, b) + (Entry(b, c) + Entry(c, d))
  {
    assert [a, b, c, d][1..] == [b, c, d];
    ThreeBlocks(b, c, d);
  }

  lemma {:induction false} ExtentAt(l: seq<Block>, k: nat)
    requires WellFormed(l) && k + 1 < |l| && l[k].used
    ensures l[k].at in Extents(l) && Extents(l)[l[k].at] == l[k + 1].at
    decreases |l|
  {
    TailOk(l);
    if k > 0 {
      assert l[1..][k - 1] == l[k] && l[1..][k] == l[k + 1];
      ExtentAt(l[1..], k - 1);
    } else {
      assert PairOk(l, 0);
      ExtentBounds(l[1..]);
    }
  }

  lemma {:induction false} ExtentIsUsed(l: seq<Block>, a: int) returns (k: nat)
    requires a in Extents(l)
    ensures k + 1 < |l| && l[k] == Block(a, true)
    decreases |l|
  {
    if l[0].used && a == l[0].at {
      k := 0;
    } else {
      k := ExtentIsUsed(l[1..], a);
      k := k + 1;
    }
  }

  /** Used blocks do not overlap. */
  lemma ExtentsApart(l: seq<Block>, a: int, b: int)
    requires WellFormed(l) && a in Extents(l) && b in Extents(l) && a < b
    ensures Extents(l)[a] <= b
  {
    var i := ExtentIsUsed(l, a);
    var j := ExtentIsUsed(l, b);
    ExtentAt(l, i);
    if j <= i { if j < i { Ascends(l, j, i); } } else if i + 1 < j { Ascends(l, i + 1, j); }
  }
}
