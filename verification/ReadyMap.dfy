/** The ready bitmap: one word for up to 32 priorities, or a word over 32 bytes for up to 256. */
module ReadyMap {
  import opened EventBits
  import opened FirstBit

  const WORDS := 32

  datatype Map = Flat(group: bv32) | TwoLevel(group: bv32, table: seq<bv8>)

  function Double(w: bv32): bv32
  {
    w << 1
  }

  /** 1 << p. */
  function Bit(p: nat): bv32
  {
    if p == 0 then 1 else Double(Bit(p - 1))
  }

  function Wide(b: bv8): bv32
  {
    b as bv32
  }

  /** The low byte of a word: the store into a byte. */
  function Narrow(w: bv32): bv8
  {
    (w & 0xff) as bv8
  }

  /** The high_mask of a thread. */
  function HighMask(p: nat): bv8
  {
    Narrow(Bit(p % 8))
  }

  /** The marked priorities. */
  ghost predicate Marks(m: Map, s: set<nat>)
  {
    match m
    case Flat(group) => Bits(group) == s
    case TwoLevel(group, table) => TableMarks(table, s) && GroupMarks(group, table)
  }

  ghost predicate TableMarks(table: seq<bv8>, s: set<nat>)
  {
    |table| == WORDS && forall p: nat :: p in s <==> p < 8 * WORDS && Up(Wide(table[p / 8]), p % 8)
  }

  ghost predicate GroupMarks(group: bv32, table: seq<bv8>)
  {
    |table| == WORDS && forall n: nat :: n < WORDS ==> (n in Bits(group) <==> table[n] != 0)
  }

  /** Clearing the bits of a mask. */
  function ClearByte(b: bv8, mask: bv8): bv8
  {
    b & !mask
  }

  function ClearWord(w: bv32, mask: bv32): bv32
  {
    w & !mask
  }

  function Mark(m: Map, p: nat): Map
    requires p < 32 || (m.TwoLevel? && p < 8 * |m.table|)
  {
    match m
    case Flat(group) => Flat(group | Bit(p))
    case TwoLevel(group, table) => TwoLevel(group | Bit(p / 8), if p / 8 < |table| then table[p / 8 := table[p / 8] | HighMask(p)] else table)
  }

  function Unmark(m: Map, p: nat): Map
    requires m.TwoLevel? ==> p < 8 * |m.table|
  {
    match m
    case Flat(group) => Flat(ClearWord(group, Bit(p)))
    case TwoLevel(group, table) =>
      var b := ClearByte(table[p / 8], HighMask(p));
      TwoLevel(if b == 0 then ClearWord(group, Bit(p / 8)) else group, table[p / 8 := b])
  }

  /** The most urgent marked priority, as _get_highest_priority_thread reads it off. */
  function Highest(m: Map): int
  {
    match m
    case Flat(group) => Ffs(group) - 1
    case TwoLevel(group, table) =>
      LowestIn(table, Ffs(group) - 1)
  }

  /** The priority of the lowest bit of byte n. */
  function LowestIn(table: seq<bv8>, n: int): int
  {
    if 0 <= n < |table| then 8 * n + Ffs(Wide(table[n])) - 1 else -1
  }

  // ---- single bits

  lemma BitSmall(p: nat)
    requires p <= 30
    ensures Bit(p) <= 0x4000_0000
  {
    assert Bit(0) == 0x1 && Bit(1) == 0x2;
    assert Bit(2) == 0x4 && Bit(3) == 0x8;
    assert Bit(4) == 0x10 && Bit(5) == 0x20;
    assert Bit(6) == 0x40 && Bit(7) == 0x80;
    assert Bit(8) == 0x100 && Bit(9) == 0x200;
    assert Bit(10) == 0x400 && Bit(11) == 0x800;
    assert Bit(12) == 0x1000 && Bit(13) == 0x2000;
    assert Bit(14) == 0x4000 && Bit(15) == 0x8000;
    assert Bit(16) == 0x10000 && Bit(17) == 0x20000;
    assert Bit(18) == 0x40000 && Bit(19) == 0x80000;
    assert Bit(20) == 0x100000 && Bit(21) == 0x200000;
    assert Bit(22) == 0x400000 && Bit(23) == 0x800000;
    assert Bit(24) == 0x1000000 && Bit(25) == 0x2000000;
    assert Bit(26) == 0x4000000 && Bit(27) == 0x8000000;
    assert Bit(28) == 0x10000000 && Bit(29) == 0x20000000;
  }

  lemma DoubleHalves(w: bv32)
    requires w <= 0x4000_0000
    ensures Half(Double(w)) == w && Double(w) & 1 == 0
  {
  }

  lemma {:induction false} UpBit(p: nat, i: nat)
    requires p < 32
    ensures Up(Bit(p), i) <==> i == p
    decreases p
  {
    if p == 0 {
      if i > 0 { assert Half(1) == 0; ZeroDown(i - 1); }
    } else {
      BitSmall(p - 1);
      DoubleHalves(Bit(p - 1));
      if i > 0 { UpBit(p - 1, i - 1); }
    }
  }

  lemma BitBits(p: nat)
    requires p < 32
    ensures Bits(Bit(p)) == {p}
  {
    forall i: nat ensures Up(Bit(p), i) <==> i == p { UpBit(p, i); }
  }

  // ---- bytes

  lemma WideOr(a: bv8, b: bv8, x: bv8)
    requires x == a | b
    ensures Wide(x) == Wide(a) | Wide(b)
  {
  }

  lemma WideMinus(a: bv8, b: bv8, x: bv8)
    requires x == a & !b
    ensures Wide(x) == Wide(a) & !Wide(b)
  {
  }

  lemma WideZero(b: bv8)
    ensures Wide(b) == 0 <==> b == 0
  {
  }

  lemma WideNarrow(w: bv32)
    requires w <= 0xff
    ensures Wide(Narrow(w)) == w
  {
  }

  lemma HighMaskIs(p: nat)
    ensures Wide(HighMask(p)) == Bit(p % 8)
  {
    assert Bit(0) == 1 && Bit(1) == 2 && Bit(2) == 4 && Bit(3) == 8;
    assert Bit(4) == 16 && Bit(5) == 32 && Bit(6) == 64 && Bit(7) == 128;
    WideNarrow(Bit(p % 8));
  }

  lemma {:induction false} ByteHigh(w: bv32, i: nat)
    requires w <= 0xff && 8 <= i < 32
    ensures !Up(w, i)
  {
    UpHalves(w, 8, i - 8);
    EightHalves(w, Halves(w, 8));
    ByteGone(w, Halves(w, 8));
    ZeroDown(i - 8);
  }

  lemma ByteGone(w: bv32, v: bv32)
    requires w <= 0xff && Shifted8(w, v)
    ensures v == 0
  {
  }

  lemma WideSmall(b: bv8)
    ensures Wide(b) <= 0xff
  {
  }

  lemma ZeroByte(b: bv8)
    requires b == 0
    ensures forall i: nat :: i < 8 ==> !Up(Wide(b), i)
  {
    WideZero(b);
    ZeroBits(Wide(b));
    forall i: nat | i < 8 ensures !Up(Wide(b), i) { assert i !in Bits(Wide(b)); }
  }

  /** A byte that is not zero has one of its eight bits up. */
  lemma SomeByteBit(b: bv8) returns (i: nat)
    requires b != 0
    ensures i < 8 && Up(Wide(b), i)
  {
    WideZero(b);
    WideSmall(b);
    FitsAll(Wide(b));
    i := SomeBit(Wide(b), 32);
    if i >= 8 { ByteHigh(Wide(b), i); }
  }

  lemma NonZeroByte(b: bv8, i: nat)
    requires i < 8 && Up(Wide(b), i)
    ensures b != 0
  {
    if b == 0 { ZeroByte(b); }
  }

  // ---- the bitmap marks exactly the given priorities

  lemma MarkAdds(m: Map, s: set<nat>, p: nat)
    requires Marks(m, s) && p < (if m.Flat? then 32 else 256)
    ensures Marks(Mark(m, p), s + {p})
  {
    match m
    case Flat(group) => MarkFlat(group, p, Mark(m, p).group);
    case TwoLevel(group, table) =>
      MarkBoth(group, table, s, p, Mark(m, p).group, Mark(m, p).table[p / 8]);
      assert Mark(m, p) == TwoLevel(Mark(m, p).group, table[p / 8 := Mark(m, p).table[p / 8]]);
  }

  lemma MarkFlat(group: bv32, p: nat, group': bv32)
    requires p < 32 && group' == group | Bit(p)
    ensures Bits(group') == Bits(group) + {p}
  {
    OrBits(group, Bit(p), group');
    BitBits(p);
  }

  lemma UnmarkFlat(group: bv32, p: nat, group': bv32)
    requires p < 32 && group' == group & !Bit(p)
    ensures Bits(group') == Bits(group) - {p}
  {
    MinusBits(group, Bit(p), group');
    BitBits(p);
  }

  lemma MarkBoth(group: bv32, table: seq<bv8>, s: set<nat>, p: nat, group': bv32, b: bv8)
    requires TableMarks(table, s) && GroupMarks(group, table) && p < 256
    requires group' == group | Bit(p / 8) && b == table[p / 8] | HighMask(p)
    ensures TableMarks(table[p / 8 := b], s + {p}) && GroupMarks(group', table[p / 8 := b])
  {
    MarkByte(table[p / 8], p, b);
    MarkTable(table, s, p, table[p / 8 := b]);
    MarkGroup(group, table, p / 8, group', b);
  }

  ghost predicate ByteCleared(a: bv8, p: nat, b: bv8)
  {
    b == a & !HighMask(p)
  }

  ghost predicate GroupCleared(group: bv32, k: nat, group': bv32, b: bv8)
  {
    group' == if b == 0 then group & !Bit(k) else group
  }

  lemma UnmarkBoth(group: bv32, table: seq<bv8>, s: set<nat>, p: nat, group': bv32, b: bv8)
    requires TableMarks(table, s) && GroupMarks(group, table) && p < 256
    requires ByteCleared(table[p / 8], p, b) && GroupCleared(group, p / 8, group', b)
    ensures TableMarks(table[p / 8 := b], s - {p}) && GroupMarks(group', table[p / 8 := b])
  {
    UnmarkByte(table[p / 8], p, b);
    UnmarkTable(table, s, p, table[p / 8 := b]);
    StaysZero(table[p / 8], p, b);
    UnmarkGroup(group, table, p / 8, group', b);
  }

  lemma MarkGroup(group: bv32, table: seq<bv8>, k: nat, group': bv32, b: bv8)
    requires GroupMarks(group, table) && k < WORDS && group' == group | Bit(k) && b != 0
    ensures GroupMarks(group', table[k := b])
  {
    OrBits(group, Bit(k), group');
    BitBits(k);
  }

  lemma UnmarkGroup(group: bv32, table: seq<bv8>, k: nat, group': bv32, b: bv8)
    requires GroupMarks(group, table) && k < WORDS && GroupCleared(group, k, group', b)
    requires table[k] == 0 ==> b == 0
    ensures GroupMarks(group', table[k := b])
  {
    if b == 0 {
      MinusBits(group, Bit(k), group');
      BitBits(k);
    }
  }

  lemma MarkByte(a: bv8, p: nat, b: bv8)
    requires b == a | HighMask(p)
    ensures forall i: nat :: i < 8 ==> (Up(Wide(b), i) <==> Up(Wide(a), i) || i == p % 8)
    ensures b != 0
  {
    HighMaskIs(p);
    WideOr(a, HighMask(p), b);
    forall i: nat | i < 8 ensures Up(Wide(b), i) <==> Up(Wide(a), i) || i == p % 8 {
      UpOr(Wide(a), Wide(HighMask(p)), Wide(b), i);
      UpBit(p % 8, i);
    }
    NonZeroByte(b, p % 8);
  }

  lemma MarkTable(table: seq<bv8>, s: set<nat>, p: nat, table': seq<bv8>)
    requires TableMarks(table, s) && p < 256 && |table'| == WORDS
    requires forall n :: 0 <= n < WORDS && n != p / 8 ==> table'[n] == table[n]
    requires forall i: nat :: i < 8 ==> (Up(Wide(table'[p / 8]), i) <==> Up(Wide(table[p / 8]), i) || i == p % 8)
    ensures TableMarks(table', s + {p})
  {
    forall q: nat ensures q in s + {p} <==> q < 8 * WORDS && Up(Wide(table'[q / 8]), q % 8) {
      assert q in s <==> q < 8 * WORDS && Up(Wide(table[q / 8]), q % 8);
    }
  }

  lemma UnmarkByte(a: bv8, p: nat, b: bv8)
    requires ByteCleared(a, p, b)
    ensures forall i: nat :: i < 8 ==> (Up(Wide(b), i) <==> Up(Wide(a), i) && i != p % 8)
  {
    HighMaskIs(p);
    WideMinus(a, HighMask(p), b);
    forall i: nat | i < 8 ensures Up(Wide(b), i) <==> Up(Wide(a), i) && i != p % 8 {
      UpMinus(Wide(a), Wide(HighMask(p)), Wide(b), i);
      UpBit(p % 8, i);
    }
  }

  lemma UnmarkTable(table: seq<bv8>, s: set<nat>, p: nat, table': seq<bv8>)
    requires TableMarks(table, s) && p < 256 && |table'| == WORDS
    requires forall n :: 0 <= n < WORDS && n != p / 8 ==> table'[n] == table[n]
    requires forall i: nat :: i < 8 ==> (Up(Wide(table'[p / 8]), i) <==> Up(Wide(table[p / 8]), i) && i != p % 8)
    ensures TableMarks(table', s - {p})
  {
    forall q: nat ensures q in s - {p} <==> q < 8 * WORDS && Up(Wide(table'[q / 8]), q % 8) {
      assert q in s <==> q < 8 * WORDS && Up(Wide(table[q / 8]), q % 8);
    }
  }

  lemma UnmarkDrops(m: Map, s: set<nat>, p: nat)
    requires Marks(m, s) && p < (if m.Flat? then 32 else 256)
    ensures Marks(Unmark(m, p), s - {p})
  {
    match m
    case Flat(group) => UnmarkFlat(group, p, Unmark(m, p).group);
    case TwoLevel(group, table) =>
      UnmarkBoth(group, table, s, p, Unmark(m, p).group, Unmark(m, p).table[p / 8]);
      assert Unmark(m, p) == TwoLevel(Unmark(m, p).group, table[p / 8 := Unmark(m, p).table[p / 8]]);
  }

  lemma StaysZero(a: bv8, p: nat, b: bv8)
    requires ByteCleared(a, p, b)
    ensures a == 0 ==> b == 0
  {
  }

  lemma NoneMarked(m: Map)
    requires m.TwoLevel? ==> |m.table| == WORDS && forall n :: 0 <= n < WORDS ==> m.table[n] == 0
    requires m.group == 0
    ensures Marks(m, {})
  {
    ZeroBits(m.group);
    if m.TwoLevel? {
      forall p: nat | p < 8 * WORDS ensures !Up(Wide(m.table[p / 8]), p % 8) { ZeroByte(m.table[p / 8]); }
    }
  }

  /** The group word is zero exactly when nothing is marked. */
  lemma GroupEmpty(m: Map, s: set<nat>)
    requires Marks(m, s)
    ensures m.group == 0 <==> s == {}
  {
    ZeroBits(m.group);
    if m.TwoLevel? {
      if s != {} {
        var p := Any(s);
        NonZeroByte(m.table[p / 8], p % 8);
        assert p / 8 in Bits(m.group);
      }
      if m.group != 0 { GroupLeads(m.group, m.table, s); }
    }
  }

  lemma GroupLeads(group: bv32, table: seq<bv8>, s: set<nat>)
    requires TableMarks(table, s) && GroupMarks(group, table) && group != 0
    ensures s != {}
  {
    ZeroBits(group);
    var n := Any(Bits(group));
    var i := SomeByteBit(table[n]);
    assert (8 * n + i) / 8 == n && (8 * n + i) % 8 == i;
    assert 8 * n + i in s;
  }

  lemma Any(s: set<nat>) returns (p: nat)
    requires s != {}
    ensures p in s
  {
    p :| p in s;
  }

  /** Reading off the bitmap finds the most urgent, that is the smallest, marked priority. */
  lemma HighestIsLeast(m: Map, s: set<nat>)
    requires Marks(m, s) && s != {}
    ensures Highest(m) in s && forall p :: p in s ==> Highest(m) <= p
  {
    GroupEmpty(m, s);
    match m
    case Flat(group) =>
      FfsIsLowest(group);
      assert Ffs(group) - 1 in Bits(group);
    case TwoLevel(group, table) => HighestByte(group, table, s);
  }

  ghost predicate IsLeast(h: int, s: set<nat>)
  {
    h in s && forall p :: p in s ==> h <= p
  }

  lemma HighestByte(group: bv32, table: seq<bv8>, s: set<nat>)
    requires TableMarks(table, s) && GroupMarks(group, table) && group != 0
    ensures IsLeast(Highest(TwoLevel(group, table)), s)
  {
    var n := LeastGroup(group, table);
    LeastInTable(table, s, n);
  }

  lemma LeastInTable(table: seq<bv8>, s: set<nat>, n: nat)
    requires TableMarks(table, s) && n < WORDS && table[n] != 0 && forall k: nat :: k < n ==> table[k] == 0
    ensures IsLeast(LowestIn(table, n), s)
  {
    var i := LeastInByte(table[n]);
    LeastMarked(table, s, n, i);
  }

  lemma LeastMarked(table: seq<bv8>, s: set<nat>, n: nat, i: nat)
    requires TableMarks(table, s) && n < WORDS && i < 8 && Up(Wide(table[n]), i)
    requires forall k: nat :: k < n ==> table[k] == 0
    requires forall k: nat :: k < i ==> !Up(Wide(table[n]), k)
    ensures IsLeast(8 * n + i, s)
  {
    MarkedHere(table, s, n, i);
    forall p | p in s ensures 8 * n + i <= p { MarkedAbove(table, s, p, n, i); }
  }

  lemma MarkedHere(table: seq<bv8>, s: set<nat>, n: nat, i: nat)
    requires TableMarks(table, s) && n < WORDS && i < 8 && Up(Wide(table[n]), i)
    ensures 8 * n + i in s
  {
    assert (8 * n + i) / 8 == n && (8 * n + i) % 8 == i;
  }

  lemma MarkedAbove(table: seq<bv8>, s: set<nat>, p: nat, n: nat, i: nat)
    requires TableMarks(table, s) && p in s && n < WORDS && i < 8
    requires forall k: nat :: k < n ==> table[k] == 0
    requires forall k: nat :: k < i ==> !Up(Wide(table[n]), k)
    ensures 8 * n + i <= p
  {
    NonZeroByte(table[p / 8], p % 8);
  }

  lemma LeastGroup(group: bv32, table: seq<bv8>) returns (n: nat)
    requires GroupMarks(group, table) && group != 0
    ensures n == Ffs(group) - 1 && n < WORDS && table[n] != 0 && forall k: nat :: k < n ==> table[k] == 0
  {
    FfsIsLowest(group);
    n := Ffs(group) - 1;
    assert n in Bits(group);
    forall k: nat | k < n ensures table[k] == 0 { assert k !in Bits(group); }
  }

  lemma LeastInByte(b: bv8) returns (i: nat)
    requires b != 0
    ensures i == Ffs(Wide(b)) - 1 && i < 8 && Up(Wide(b), i) && forall k: nat :: k < i ==> !Up(Wide(b), k)
  {
    WideZero(b);
    FfsIsLowest(Wide(b));
    i := Ffs(Wide(b)) - 1;
    WideSmall(b);
    if i >= 8 { ByteHigh(Wide(b), i); }
  }
}
