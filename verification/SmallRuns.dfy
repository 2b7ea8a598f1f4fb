/** The alignment of small-heap blocks over runs, and a run after which lfree is not the lowest unused block. */
module SmallRuns {
  import opened SmallLayout
  import opened SmallModel
  import opened SmallProofs

  // ---- alignment

  ghost predicate AllAligned(l: seq<Block>)
  {
    forall i :: 0 <= i < |l| ==> l[i].at % ALIGN == 0
  }

  ghost predicate Aligned(h: Heap)
  {
    h.size % ALIGN == 0 && AllAligned(h.blocks)
  }

  lemma RequestAligned(size: nat)
    ensures Request(size) % ALIGN == 0
  {
  }

  lemma CutAligned(a: int, n: int)
    requires a % ALIGN == 0 && n % ALIGN == 0
    ensures (a + HEADER + n) % ALIGN == 0
  {
  }

  /** A stretch of an aligned list replaced by aligned blocks. */
  lemma SpliceAligned(l: seq<Block>, i: nat, m: seq<Block>, e: nat)
    requires AllAligned(l) && AllAligned(m) && i <= e <= |l|
    ensures AllAligned(l[..i] + m + l[e..])
  {
    var r := l[..i] + m + l[e..];
    forall j | 0 <= j < |r| ensures r[j].at % ALIGN == 0 {
      assert r[j] == if j < i then l[j] else if j < i + |m| then m[j - i] else l[j - i - |m| + e];
    }
  }

  lemma MallocAligned(h: Heap, size: nat)
    requires Inv(h) && Aligned(h)
    ensures Aligned(MallocStep(h, size).0) && MallocStep(h, size).1 % ALIGN == 0
  {
    var n := Request(size);
    var k := FirstFit(h, Index(h.blocks, h.lfree), n);
    RequestAligned(size);
    if k + 1 < |h.blocks| {
      var a := h.blocks[k].at;
      CutAligned(a, n);
      CutAligned(a, 0);
      SpliceAligned(h.blocks, k, [Block(a, true)], k + 1);
      SpliceAligned(h.blocks, k, [Block(a, true), Block(a + HEADER + n, false)], k + 1);
    }
  }

  lemma FreeAligned(h: Heap, ptr: int)
    requires Inv(h) && Aligned(h) && ptr - HEADER in Extents(h.blocks)
    ensures Aligned(FreeStep(h, ptr))
  {
    var k := LiveIndex(h, ptr);
    var i := From(h.blocks, k);
    SpliceAligned(h.blocks, i, [Block(h.blocks[i].at, false)], Until(h.blocks, k));
    FreeIsFreed(h, ptr, k);
  }

  lemma ShrinkAligned(h: Heap, k: nat, n: nat)
    requires Aligned(h) && k + 1 < |h.blocks| && Until(h.blocks, k) <= |h.blocks| && n % ALIGN == 0
    ensures Aligned(ShrinkStep(h, k, n))
  {
    var a := h.blocks[k].at;
    CutAligned(a, n);
    SpliceAligned(h.blocks, k, [Block(a, true), Block(a + HEADER + n, false)], Until(h.blocks, k));
  }

  lemma ResizeAligned(h: Heap, ptr: int, n: nat)
    requires Inv(h) && Aligned(h) && ptr - HEADER in Extents(h.blocks) && n % ALIGN == 0
    ensures Aligned(ResizeStep(h, ptr, n).0) && ResizeStep(h, ptr, n).1 % ALIGN == 0
  {
    var k := LiveIndex(h, ptr);
    assert h.blocks[k].at % ALIGN == 0;
    CutAligned(h.blocks[k].at, 0);
    if Room(h.blocks, k) == n {
    } else if n + HEADER + MINSIZE < Room(h.blocks, k) {
      ShrinkAligned(h, k, n);
    } else {
      MoveAligned(h, ptr, n);
    }
  }

  lemma MoveAligned(h: Heap, ptr: int, n: nat)
    requires Inv(h) && Aligned(h) && ptr - HEADER in Extents(h.blocks)
    ensures var (h1, q) := MallocStep(h, n);
      && Aligned(h1) && q % ALIGN == 0
      && (q != 0 ==> Aligned(FreeStep(h1, ptr)))
  {
    MallocKeeps(h, n);
    MallocAligned(h, n);
    var (h1, q) := MallocStep(h, n);
    if q != 0 { FreeAligned(h1, ptr); }
  }

  lemma ReallocAligned(h: Heap, ptr: int, newsize: nat)
    requires Inv(h) && Aligned(h) && Holds(h, ptr)
    ensures Aligned(ReallocStep(h, ptr, newsize).0) && ReallocStep(h, ptr, newsize).1 % ALIGN == 0
  {
    var n := Align(newsize);
    if ptr == 0 {
      MallocAligned(h, n);
    } else {
      FreeAligned(h, ptr);
      ResizeAligned(h, ptr, n);
    }
  }

  lemma ApplyAligned(h: Heap, op: Op)
    requires Inv(h) && Aligned(h) && Allowed(h, op)
    ensures Aligned(Apply(h, op))
  {
    match op
    case Malloc(size) => MallocAligned(h, size);
    case Free(ptr) => if ptr != 0 { FreeAligned(h, ptr); }
    case Realloc(ptr, size) => ReallocAligned(h, ptr, size);
  }

  /** Every run keeps all blocks at multiples of RT_ALIGN_SIZE. */
  lemma {:induction false} EveryRunAligned(h: Heap, ops: seq<Op>)
    requires Inv(h) && Aligned(h) && AllowedRun(h, ops)
    ensures Aligned(Run(h, ops))
    decreases |ops|
  {
    if ops != [] {
      ApplyKeeps(h, ops[0]);
      ApplyAligned(h, ops[0]);
      EveryRunAligned(Apply(h, ops[0]), ops[1..]);
    }
  }

  /** After every run from the start, every live block begins at a multiple of RT_ALIGN_SIZE. */
  lemma LiveAligned(begin: nat, end: nat, ops: seq<Op>, ptr: int)
    requires Usable(begin, end) && AllowedRun(Initial(RegionSize(begin, end)), ops)
    requires ptr - HEADER in Extents(Run(Initial(RegionSize(begin, end)), ops).blocks)
    ensures (Align(begin) + ptr) % ALIGN == 0
  {
    var h := Initial(RegionSize(begin, end));
    RegionAligned(begin, end);
    InitialInv(h.size);
    EveryRunAligned(h, ops);
    var r := Run(h, ops);
    var k := ExtentIsUsed(r.blocks, ptr - HEADER);
    assert r.blocks[k].at % ALIGN == 0;
    AlignedSum(Align(begin), ptr - HEADER);
  }

  lemma RegionAligned(begin: nat, end: nat)
    requires Usable(begin, end)
    ensures RegionSize(begin, end) % ALIGN == 0 && Aligned(Initial(RegionSize(begin, end)))
  {
  }

  lemma AlignedSum(base: int, at: int)
    requires base % ALIGN == 0 && at % ALIGN == 0
    ensures (base + (at + HEADER)) % ALIGN == 0
  {
  }

  // ---- a run that leaves lfree too high

  /** A hundred bytes and a minimal block behind them are handed out. */
  lemma TwoTaken()
    ensures var h := Run(Initial(400), [Malloc(100), Malloc(12)]);
      h == Heap(400, [Block(0, true), Block(112, true), Block(136, false), Block(412, true)], 136, 136, 136)
  {
    var h0 := Initial(400);
    var h1 := Heap(400, [Block(0, true), Block(112, false), Block(412, true)], 112, 112, 112);
    assert Request(100) == 100 && Request(12) == 12;
    assert FirstFit(h0, 0, 100) == 0;
    assert Taken(h0.blocks, 0, 100) == h1.blocks;
    assert NextUnused(h1.blocks, 0) == 1;
    assert MallocStep(h0, 100) == (h1, 12);
    assert Index(h1.blocks, 112) == 1;
    assert FirstFit(h1, 1, 12) == 1;
    var l := [Block(0, true), Block(112, true), Block(136, false), Block(412, true)];
    assert Taken(h1.blocks, 1, 12) == l;
    assert NextUnused(l, 1) == 2;
    RunTwo(h0, Malloc(100), Malloc(12));
  }

  lemma RunOne(h: Heap, a: Op)
    ensures Run(h, [a]) == Apply(h, a) && (AllowedRun(h, [a]) <==> Allowed(h, a))
  {
    assert [a][1..] == [];
    assert Run(Apply(h, a), []) == Apply(h, a) && AllowedRun(Apply(h, a), []);
  }

  lemma RunTwo(h: Heap, a: Op, b: Op)
    ensures Run(h, [a, b]) == Apply(Apply(h, a), b)
    ensures AllowedRun(h, [a, b]) <==> Allowed(h, a) && Allowed(Apply(h, a), b)
  {
    assert [a, b][1..] == [b];
    RunOne(Apply(h, a), b);
  }

  lemma RunThree(h: Heap, a: Op, b: Op, c: Op)
    ensures Run(h, [a, b, c]) == Apply(Run(h, [a, b]), c)
    ensures AllowedRun(h, [a, b, c]) <==> Allowed(h, a) && Allowed(Apply(h, a), b) && Allowed(Run(h, [a, b]), c)
  {
    assert [a, b, c][1..] == [b, c];
    RunTwo(h, a, b);
    RunTwo(Apply(h, a), b, c);
  }

  lemma ShrinkOfTaken(h: Heap)
    requires h == Heap(400, [Block(0, true), Block(112, true), Block(136, false), Block(412, true)], 136, 136, 136)
    ensures Lowest(h) && 0 in Extents(h.blocks) && !Lowest(ReallocStep(h, 12, 12).0)
  {
    assert h.blocks[1..][0] == h.blocks[1];
    var r := ShrinkStep(h, 0, 12);
    assert r.blocks == [Block(0, true), Block(24, false), Block(112, true), Block(136, false), Block(412, true)];
    assert Room(h.blocks, 0) == 100 && Align(12) == 12;
    assert ResizeStep(h, 12, 12) == (r, 12);
    assert r.blocks[1] in r.blocks && 24 < r.lfree;
  }

  /** Cutting the hundred bytes down to twelve leaves an unused block in front of lfree. */
  lemma ShrinkLosesLowest()
    ensures var ops := [Malloc(100), Malloc(12), Realloc(12, 12)];
      AllowedRun(Initial(400), ops) && Lowest(Run(Initial(400), ops[..2])) && !Lowest(Run(Initial(400), ops))
  {
    var ops := [Malloc(100), Malloc(12), Realloc(12, 12)];
    assert ops[..2] == [Malloc(100), Malloc(12)];
    TwoTaken();
    RunThree(Initial(400), Malloc(100), Malloc(12), Realloc(12, 12));
    ShrinkOfTaken(Run(Initial(400), ops[..2]));
  }
}
