/** The alignment of memory-heap items over runs, and a request that is refused although it fits. */
module MemHeapRuns {
  import opened MemLayout
  import opened MemHeapModel
  import opened MemHeapProofs

  /** Address a is a multiple of RT_ALIGN_SIZE away from lo. */
  predicate OnGrid(lo: int, a: int)
  {
    (a - lo) % ALIGN == 0
  }

  ghost predicate AllAligned(lo: int, l: seq<Block>)
  {
    forall i {:trigger OnGrid(lo, l[i].addr)} :: 0 <= i < |l| ==> OnGrid(lo, l[i].addr)
  }

  /** Items start at multiples of RT_ALIGN_SIZE from the start of the pool. */
  ghost predicate Aligned(h: Heap)
  {
    AllAligned(h.lo, h.blocks)
  }

  lemma GridSteps(lo: int, a: int, n: int)
    requires OnGrid(lo, a) && n % ALIGN == 0
    ensures OnGrid(lo, a + n + HEADER) && OnGrid(lo, a + HEADER)
  {
  }

  lemma OneAligned(lo: int, a: int, u: bool)
    requires OnGrid(lo, a)
    ensures AllAligned(lo, [Block(a, u)])
  {
  }

  lemma TwoAligned(lo: int, a: int, n: int)
    requires OnGrid(lo, a) && n % ALIGN == 0
    ensures AllAligned(lo, [Block(a, true), Block(a + n + HEADER, false)])
  {
    GridSteps(lo, a, n);
  }

  /** A stretch of an aligned list replaced by aligned items. */
  lemma SpliceAligned(lo: int, l: seq<Block>, i: nat, m: seq<Block>, e: nat)
    requires AllAligned(lo, l) && AllAligned(lo, m) && i <= e <= |l|
    ensures AllAligned(lo, l[..i] + m + l[e..])
  {
    var r := l[..i] + m + l[e..];
    forall j | 0 <= j < |r| ensures OnGrid(lo, r[j].addr) {
      if j < i {
        assert r[j] == l[j] && OnGrid(lo, l[j].addr);
      } else if j < i + |m| {
        assert r[j] == m[j - i] && OnGrid(lo, m[j - i].addr);
      } else {
        assert r[j] == l[j - i - |m| + e] && OnGrid(lo, l[j - i - |m| + e].addr);
      }
    }
  }

  lemma CutBlocksAligned(lo: int, l: seq<Block>, k: nat, n: int)
    requires AllAligned(lo, l) && k + 1 < |l| && n % ALIGN == 0
    ensures AllAligned(lo, CutBlocks(l, k, n)) && OnGrid(lo, l[k].addr + HEADER)
  {
    var a := l[k].addr;
    assert OnGrid(lo, a);
    GridSteps(lo, a, n);
    OneAligned(lo, a, true);
    TwoAligned(lo, a, n);
    SpliceAligned(lo, l, k, [Block(a, true)], k + 1);
    SpliceAligned(lo, l, k, [Block(a, true), Block(a + n + HEADER, false)], k + 1);
  }

  lemma AllocAligned(h: Heap, size: nat)
    requires Inv(h) && Aligned(h)
    ensures Aligned(AllocStep(h, size).0) && AllocStep(h, size).0.lo == h.lo
    ensures AllocStep(h, size).1 != 0 ==> OnGrid(h.lo, AllocStep(h, size).1)
  {
    var k := AllocCases(h, size);
    if AllocStep(h, size).1 != 0 { CutBlocksAligned(h.lo, h.blocks, k, Normalize(size)); }
  }

  lemma FreeAligned(h: Heap, ptr: int)
    requires Inv(h) && Aligned(h) && ptr in Live(h.blocks)
    ensures Aligned(FreeStep(h, ptr)) && FreeStep(h, ptr).lo == h.lo
  {
    var k := LiveIndex(h, ptr);
    var i := if k > 0 && !h.blocks[k - 1].used then k - 1 else k;
    assert OnGrid(h.lo, h.blocks[i].addr);
    OneAligned(h.lo, h.blocks[i].addr, false);
    SpliceAligned(h.lo, h.blocks, i, [Block(h.blocks[i].addr, false)], if !h.blocks[k + 1].used then k + 2 else k + 1);
  }

  /** Both ways of changing a size in place put one new item on the grid. */
  lemma InPlaceAligned(h: Heap, k: nat, n: int, e: nat)
    requires Aligned(h) && k < e <= |h.blocks| && n % ALIGN == 0
    ensures AllAligned(h.lo, h.blocks[..k] + [Block(h.blocks[k].addr, true), Block(h.blocks[k].addr + n + HEADER, false)] + h.blocks[e..])
    ensures OnGrid(h.lo, h.blocks[k].addr + HEADER)
  {
    assert OnGrid(h.lo, h.blocks[k].addr);
    GridSteps(h.lo, h.blocks[k].addr, n);
    TwoAligned(h.lo, h.blocks[k].addr, n);
    SpliceAligned(h.lo, h.blocks, k, [Block(h.blocks[k].addr, true), Block(h.blocks[k].addr + n + HEADER, false)], e);
  }

  lemma GrowAligned(h: Heap, k: nat, n: int)
    requires Aligned(h) && k + 2 <= |h.blocks| && n % ALIGN == 0
    ensures Aligned(GrowStep(h, k, n)) && GrowStep(h, k, n).lo == h.lo
  {
    var a := h.blocks[k].addr;
    InPlaceAligned(h, k, n, k + 2);
    assert a + HEADER + n == a + n + HEADER;
  }

  lemma ShrinkAligned(h: Heap, k: nat, n: int)
    requires Aligned(h) && k + 2 <= |h.blocks| && (h.blocks[k + 1].used || k + 2 < |h.blocks|) && n % ALIGN == 0
    ensures Aligned(ShrinkStep(h, k, n)) && ShrinkStep(h, k, n).lo == h.lo
  {
    InPlaceAligned(h, k, n, if !h.blocks[k + 1].used then k + 2 else k + 1);
  }

  lemma ResizeAligned(h: Heap, ptr: int, n: nat)
    requires Inv(h) && Aligned(h) && ptr in Live(h.blocks) && Normalize(n) == n
    ensures Aligned(ResizeStep(h, ptr, n).0) && ResizeStep(h, ptr, n).0.lo == h.lo
    ensures ResizeStep(h, ptr, n).1 != 0 ==> OnGrid(h.lo, ResizeStep(h, ptr, n).1)
  {
    var k := LiveIndex(h, ptr);
    InPlaceAligned(h, k, n, k + 1);
    if Grows(h.blocks, k, n) { GrowAligned(h, k, n); }
    if h.blocks[k + 1].used || k + 2 < |h.blocks| { ShrinkAligned(h, k, n); }
    MoveAligned(h, ptr, n);
  }

  lemma MoveAligned(h: Heap, ptr: int, n: nat)
    requires Inv(h) && Aligned(h) && ptr in Live(h.blocks)
    ensures Aligned(MoveStep(h, ptr, n).0) && MoveStep(h, ptr, n).0.lo == h.lo
    ensures MoveStep(h, ptr, n).1 != 0 ==> OnGrid(h.lo, MoveStep(h, ptr, n).1)
  {
    var given := AllocLive(h, n);
    AllocKeepsInv(h, n);
    AllocAligned(h, n);
    var (h1, q) := AllocStep(h, n);
    if q != 0 { FreeAligned(h1, ptr); }
  }

  lemma ApplyAligned(h: Heap, op: Op)
    requires Inv(h) && Aligned(h) && Allowed(h, op)
    ensures Aligned(Apply(h, op)) && Apply(h, op).lo == h.lo
  {
    match op
    case Alloc(size) => AllocAligned(h, size);
    case Free(ptr) => if ptr != 0 { FreeAligned(h, ptr); }
    case Realloc(ptr, size) => ReallocAligned(h, ptr, size);
  }

  lemma ReallocAligned(h: Heap, ptr: int, size: nat)
    requires Inv(h) && Aligned(h) && (ptr == 0 || ptr in Live(h.blocks))
    ensures Aligned(ReallocStep(h, ptr, size).0) && ReallocStep(h, ptr, size).0.lo == h.lo
  {
    if size == 0 {
      if ptr != 0 { FreeAligned(h, ptr); }
    } else if ptr == 0 {
      AllocAligned(h, Normalize(size));
    } else {
      ResizeAligned(h, ptr, Normalize(size));
    }
  }

  /** Every run keeps all items aligned. */
  lemma {:induction false} RunKeepsAligned(h: Heap, ops: seq<Op>)
    requires Inv(h) && Aligned(h) && AllowedRun(h, ops)
    ensures Aligned(Run(h, ops)) && Run(h, ops).lo == h.lo
    decreases |ops|
  {
    if ops != [] {
      ApplyKeepsInv(h, ops[0]);
      ApplyAligned(h, ops[0]);
      RunKeepsAligned(Apply(h, ops[0]), ops[1..]);
    }
  }

  /** After every run from the start, every live payload lies at a multiple of RT_ALIGN_SIZE from the pool's start. */
  lemma LiveAligned(lo: int, hi: int, ops: seq<Op>, ptr: int)
    requires lo > 0 && hi - lo >= 2 * HEADER && (hi - lo) % ALIGN == 0 && AllowedRun(Initial(lo, hi), ops)
    requires ptr in Live(Run(Initial(lo, hi), ops).blocks)
    ensures OnGrid(lo, ptr)
  {
    InitialInv(lo, hi);
    InitialAligned(lo, hi);
    RunKeepsAligned(Initial(lo, hi), ops);
    LiveOnGrid(Run(Initial(lo, hi), ops), ptr);
  }

  lemma InitialAligned(lo: int, hi: int)
    requires (hi - lo) % ALIGN == 0
    ensures Aligned(Initial(lo, hi))
  {
    assert OnGrid(lo, lo) && OnGrid(lo, hi - HEADER);
  }

  lemma LiveOnGrid(h: Heap, ptr: int)
    requires Aligned(h) && ptr in Live(h.blocks)
    ensures OnGrid(h.lo, ptr)
  {
    var k := LiveIsUsed(h.blocks, ptr);
    assert OnGrid(h.lo, h.blocks[k].addr);
    GridSteps(h.lo, h.blocks[k].addr, 0);
  }

  /** A request for all that is available in a fresh heap is refused, although the one free item holds it. */
  lemma AvailableIsRefused(lo: int, hi: int)
    requires lo > 0 && hi - lo >= 2 * HEADER + MINIALLOC && (hi - lo) % ALIGN == 0
    ensures var h, n := Initial(lo, hi), hi - lo - 2 * HEADER;
      && Inv(h) && n == h.available == Gap(h.blocks[0], h.blocks[1]) && !h.blocks[0].used
      && AllocStep(h, n) == (h, 0)
  {
    InitialInv(lo, hi);
    NormalStays(hi - lo - 2 * HEADER);
  }

  lemma NormalStays(n: nat)
    requires n % ALIGN == 0 && n >= MINIALLOC
    ensures Normalize(n) == n
  {
  }

  // ---- which item serves a request

  /** The item at address a has room for n bytes. */
  ghost predicate Roomy(l: seq<Block>, a: int, n: int)
  {
    exists k :: 0 <= k < |l| - 1 && l[k].addr == a && Gap(l[k], l[k + 1]) >= n
  }

  lemma RoomyIff(h: Heap, a: int, n: int)
    requires Inv(h) && a in h.free
    ensures Roomy(h.blocks, a, n) <==> Payload(h.blocks, a) >= n
  {
    ListedItem(h.blocks, h.free, a);
    forall k | 0 <= k < |h.blocks| - 1 && h.blocks[k].addr == a ensures k == Index(h.blocks, a) { IndexAt(h.blocks, k); }
  }

  /** A granted request gets the first item of the free list that has room for it. */
  lemma AllocTakesFirst(h: Heap, size: nat) returns (j: nat)
    requires Inv(h) && AllocStep(h, size).1 != 0
    ensures j < |h.free| && AllocStep(h, size).1 == h.free[j] + HEADER && Roomy(h.blocks, h.free[j], Normalize(size))
    ensures forall i :: 0 <= i < j ==> !Roomy(h.blocks, h.free[i], Normalize(size))
  {
    j := FirstFit(h.blocks, h.free, Normalize(size));
    RoomyIff(h, h.free[j], Normalize(size));
    forall i | 0 <= i < j ensures !Roomy(h.blocks, h.free[i], Normalize(size)) { RoomyIff(h, h.free[i], Normalize(size)); }
  }

  /** The last payload released between used items is the first one handed out again. */
  lemma LastFreedFirst(h: Heap, ptr: int, k: nat, size: nat)
    requires Inv(h) && ptr in Live(h.blocks) && k + 1 < |h.blocks| && h.blocks[k] == Block(ptr - HEADER, true)
    requires (k > 0 ==> h.blocks[k - 1].used) && h.blocks[k + 1].used
    requires Normalize(size) <= Live(h.blocks)[ptr] && Normalize(size) != FreeStep(h, ptr).available
    ensures AllocStep(FreeStep(h, ptr), size).1 == ptr
  {
    var r, n := FreeStep(h, ptr), Normalize(size);
    IndexAt(h.blocks, k);
    LiveKeys(h.blocks, k);
    FreeKeepsInv(h, ptr);
    assert r.blocks[k].addr == ptr - HEADER && r.blocks[k + 1] == h.blocks[k + 1] && r.free == [ptr - HEADER] + h.free;
    assert Roomy(r.blocks, ptr - HEADER, n);
    RoomyIff(r, r.free[0], n);
    AllocRefusal(r, size);
    if k > 0 { Ordered(h.blocks, 0, k); }
    assert !r.blocks[k].used && Gap(r.blocks[k], r.blocks[k + 1]) >= n;
    var j := AllocTakesFirst(r, size);
  }

  // ---- how a size is changed

  /** A smaller size never fails: the payload stays where it is, and is cut down to the size if that leaves more than a
      smallest item. A bigger one may move the payload, and wastes less than a smallest item. */
  lemma ReallocSize(h: Heap, ptr: int, size: nat)
    requires Inv(h) && ptr in Live(h.blocks) && size > 0
    ensures var (r, q) := ReallocStep(h, ptr, size);
      var n, cur := Normalize(size), Live(h.blocks)[ptr];
      && (q != 0 ==> q in Live(r.blocks))
      && (n <= cur ==> q == ptr != 0 && Live(r.blocks)[q] == if n + HEADER + MINIALLOC < cur then n else cur)
      && (n > cur && q != 0 ==> n <= Live(r.blocks)[q] < n + HEADER + MINIALLOC)
  {
    ZeroNotLive(h);
    var given := ResizeKeeps(h, ptr, Normalize(size));
  }

  /** A bigger size is refused exactly if the item behind is used or too small and a new payload is refused, too. */
  lemma ReallocRefusal(h: Heap, ptr: int, k: nat, size: nat)
    requires Inv(h) && ptr in Live(h.blocks) && k + 1 < |h.blocks| && h.blocks[k] == Block(ptr - HEADER, true)
    requires size > 0 && Normalize(size) > Live(h.blocks)[ptr]
    ensures ReallocStep(h, ptr, size).1 == 0 <==>
      && (h.blocks[k + 1].used || h.blocks[k + 2].addr - h.blocks[k].addr - 2 * HEADER <= Normalize(size) + MINIALLOC)
      && AllocStep(h, Normalize(size)).1 == 0
  {
    ZeroNotLive(h);
    IndexAt(h.blocks, k);
    LiveKeys(h.blocks, k);
  }
}
