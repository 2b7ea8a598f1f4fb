/** The memory heap as a value: what each operation of the allocator does to the item
    layout, the free list and the accounting, and what every run of operations keeps. */
module MemHeapModel {
  import opened Basics
  import opened Ring
  import opened MemLayout

  datatype Heap = Heap(lo: int, hi: int, blocks: seq<Block>, free: seq<int>, available: int, maxUsed: int)

  function Normalize(n: nat): (r: nat)
    ensures n <= r && MINIALLOC <= r && r % ALIGN == 0
    ensures r == MINIALLOC || r < n + ALIGN
  {
    var a := (n + ALIGN - 1) / ALIGN * ALIGN;
    if a < MINIALLOC then MINIALLOC else a
  }

  ghost predicate IsIndex(l: seq<Block>, a: int, k: nat)
  {
    k <= |l| && (k < |l| ==> l[k].addr == a) && forall i :: 0 <= i < k ==> l[i].addr != a
  }

  lemma {:induction false} HasIndex(l: seq<Block>, a: int, n: nat) returns (k: nat)
    requires n <= |l| && forall i :: 0 <= i < n ==> l[i].addr != a
    ensures IsIndex(l, a, k)
    decreases |l| - n
  {
    k := n;
    if n < |l| && l[n].addr != a { k := HasIndex(l, a, n + 1); }
  }

  /** Index of the item at address a, or |l| when there is none. */
  ghost function Index(l: seq<Block>, a: int): (k: nat)
    ensures k <= |l|
    ensures k < |l| ==> l[k].addr == a
    ensures forall i :: 0 <= i < k ==> l[i].addr != a
  {
    assert exists k: nat :: IsIndex(l, a, k) by { var k := HasIndex(l, a, 0); }
    var k: nat :| IsIndex(l, a, k);
    k
  }

  ghost predicate IsPosition(f: seq<int>, a: int, j: nat)
  {
    j <= |f| && (j < |f| ==> f[j] == a) && forall i :: 0 <= i < j ==> f[i] != a
  }

  lemma {:induction false} HasPosition(f: seq<int>, a: int, n: nat) returns (j: nat)
    requires n <= |f| && forall i :: 0 <= i < n ==> f[i] != a
    ensures IsPosition(f, a, j)
    decreases |f| - n
  {
    j := n;
    if n < |f| && f[n] != a { j := HasPosition(f, a, n + 1); }
  }

  ghost function Position(f: seq<int>, a: int): (j: nat)
    ensures j <= |f|
    ensures j < |f| ==> f[j] == a
    ensures forall i :: 0 <= i < j ==> f[i] != a
  {
    assert exists j: nat :: IsPosition(f, a, j) by { var j := HasPosition(f, a, 0); }
    var j: nat :| IsPosition(f, a, j);
    j
  }

  ghost function Without(f: seq<int>, a: int): seq<int>
  {
    var j := Position(f, a);
    if j < |f| then RemovedAt(f, j) else f
  }

  ghost function Payload(l: seq<Block>, a: int): int
  {
    var k := Index(l, a);
    if k + 1 < |l| then Gap(l[k], l[k + 1]) else 0
  }

  ghost predicate IsFit(l: seq<Block>, f: seq<int>, n: int, j: nat)
  {
    j <= |f| && (j < |f| ==> Payload(l, f[j]) >= n) && forall i :: 0 <= i < j ==> Payload(l, f[i]) < n
  }

  lemma {:induction false} HasFit(l: seq<Block>, f: seq<int>, n: int, m: nat) returns (j: nat)
    requires m <= |f| && forall i :: 0 <= i < m ==> Payload(l, f[i]) < n
    ensures IsFit(l, f, n, j)
    decreases |f| - m
  {
    j := m;
    if m < |f| && Payload(l, f[m]) < n { j := HasFit(l, f, n, m + 1); }
  }

  /** Position of the first free item, in free-list order, whose payload holds n bytes. */
  ghost function FirstFit(l: seq<Block>, f: seq<int>, n: int): (j: nat)
    ensures j <= |f|
    ensures j < |f| ==> Payload(l, f[j]) >= n
    ensures forall i :: 0 <= i < j ==> Payload(l, f[i]) < n
  {
    assert exists j: nat :: IsFit(l, f, n, j) by { var j := HasFit(l, f, n, 0); }
    var j: nat :| IsFit(l, f, n, j);
    j
  }

  ghost predicate FreeListed(l: seq<Block>, f: seq<int>)
  {
    Distinct(f) && forall a :: a in f <==> Block(a, false) in l
  }

  ghost predicate Shape(lo: int, hi: int, l: seq<Block>)
  {
    && |l| >= 2
    && l[0].addr == lo
    && l[|l| - 1] == Block(hi - HEADER, true)
    && WellFormed(l)
  }

  ghost predicate Inv(h: Heap)
  {
    && h.lo > 0
    && Shape(h.lo, h.hi, h.blocks)
    && FreeListed(h.blocks, h.free)
    && h.available == FreeBytes(h.blocks)
    && h.hi - h.lo - h.available <= h.maxUsed
  }

  /** rt_memheap_init: one free item and the tailer. */
  function Initial(lo: int, hi: int): Heap
  {
    Heap(lo, hi, [Block(lo, false), Block(hi - HEADER, true)], [lo], hi - lo - 2 * HEADER, 2 * HEADER)
  }

  /** A big enough item is cut in two, otherwise it is handed out whole. */
  predicate Cuts(l: seq<Block>, k: nat, n: int)
    requires k + 1 < |l|
  {
    Gap(l[k], l[k + 1]) >= n + HEADER + MINIALLOC
  }

  function CutBlocks(l: seq<Block>, k: nat, n: int): seq<Block>
    requires k + 1 < |l|
  {
    var a := l[k].addr;
    l[..k] + (if Cuts(l, k, n) then [Block(a, true), Block(a + n + HEADER, false)] else [Block(a, true)]) + l[k + 1..]
  }

  /** Item k, at position j of the free list, serves a request of n bytes. */
  function TakeStep(h: Heap, j: nat, k: nat, n: int): Heap
    requires j < |h.free| && k + 1 < |h.blocks|
  {
    var left := h.available - (if Cuts(h.blocks, k, n) then n + HEADER else Gap(h.blocks[k], h.blocks[k + 1]));
    h.(blocks := CutBlocks(h.blocks, k, n),
       free := if Cuts(h.blocks, k, n) then [h.blocks[k].addr + n + HEADER] + RemovedAt(h.free, j) else RemovedAt(h.free, j),
       available := left,
       maxUsed := Max(h.maxUsed, h.hi - h.lo - left))
  }

  /** Serving a rounded request from the first unused item that holds it. */
  ghost function ServeStep(h: Heap, n: nat): (Heap, int)
  {
    var j := FirstFit(h.blocks, h.free, n);
    if n >= h.available || j == |h.free| then (h, 0)
    else
      var k := Index(h.blocks, h.free[j]);
      if k + 1 >= |h.blocks| then (h, 0)
      else (TakeStep(h, j, k, n), h.free[j] + HEADER)
  }

  /** rt_memheap_alloc. The result is the payload address, or 0. */
  ghost function AllocStep(h: Heap, size: nat): (Heap, int)
  {
    ServeStep(h, Normalize(size))
  }

  /** rt_memheap_free of a live pointer: merge to the left, then to the right. */
  ghost function FreeStep(h: Heap, ptr: int): Heap
  {
    var k := Index(h.blocks, ptr - HEADER);
    if k + 1 >= |h.blocks| then h
    else
      var left := k > 0 && !h.blocks[k - 1].used;
      var right := !h.blocks[k + 1].used;
      var i := if left then k - 1 else k;
      var e := if right then k + 2 else k + 1;
      var f := if right then Without(h.free, h.blocks[k + 1].addr) else h.free;
      h.(blocks := h.blocks[..i] + [Block(h.blocks[i].addr, false)] + h.blocks[e..],
         free := if left then f else [h.blocks[k].addr] + f,
         available := h.available + Gap(h.blocks[k], h.blocks[k + 1])
           + (if left then HEADER else 0) + (if right then HEADER else 0))
  }

  /** Growing into the unused item behind: its start moves up to the new end. */
  ghost function GrowStep(h: Heap, k: nat, n: int): Heap
    requires k + 1 < |h.blocks|
  {
    var a := h.blocks[k].addr;
    var cur := Gap(h.blocks[k], h.blocks[k + 1]);
    var left := h.available - (n - cur);
    h.(blocks := h.blocks[..k] + [Block(a, true), Block(a + HEADER + n, false)] + h.blocks[k + 2..],
       free := [a + HEADER + n] + Without(h.free, h.blocks[k + 1].addr),
       available := left,
       maxUsed := Max(h.maxUsed, h.hi - h.lo - left))
  }

  /** Shrinking in place: the cut-off part becomes unused and swallows an unused right neighbour. */
  ghost function ShrinkStep(h: Heap, k: nat, n: int): Heap
    requires k + 2 <= |h.blocks| && (h.blocks[k + 1].used || k + 2 < |h.blocks|)
  {
    var a := h.blocks[k].addr;
    var rest := a + n + HEADER;
    var right := !h.blocks[k + 1].used;
    var e := if right then k + 2 else k + 1;
    var f := if right then Without(h.free, h.blocks[k + 1].addr) else h.free;
    h.(blocks := h.blocks[..k] + [Block(a, true), Block(rest, false)] + h.blocks[e..],
       free := [rest] + f,
       available := h.available - (if right then Gap(h.blocks[k + 1], h.blocks[k + 2]) else 0)
         + (h.blocks[e].addr - rest - HEADER))
  }

  /** No room in place: a new payload is taken, then the old one is released. */
  ghost function MoveStep(h: Heap, ptr: int, n: nat): (Heap, int)
  {
    var (h1, q) := AllocStep(h, n);
    (if q != 0 then FreeStep(h1, ptr) else h1, q)
  }

  /** The item behind k is unused and, together with item k, holds n bytes and one more small item. */
  predicate Grows(l: seq<Block>, k: nat, n: int)
  {
    k + 2 < |l| && !l[k + 1].used && Gap(l[k + 1], l[k + 2]) + Gap(l[k], l[k + 1]) > n + MINIALLOC
  }

  /** Item k gets a payload of n bytes where it is, if it can. */
  ghost function FitStep(h: Heap, k: nat, n: nat): Heap
    requires k + 1 < |h.blocks|
  {
    var cur := Gap(h.blocks[k], h.blocks[k + 1]);
    if n > cur then (if Grows(h.blocks, k, n) then GrowStep(h, k, n) else h)
    else if n + HEADER + MINIALLOC >= cur then h
    else if h.blocks[k + 1].used || k + 2 < |h.blocks| then ShrinkStep(h, k, n)
    else h
  }

  /** Giving the live payload ptr a size of n. */
  ghost function ResizeStep(h: Heap, ptr: int, n: nat): (Heap, int)
  {
    var k := Index(h.blocks, ptr - HEADER);
    if k + 1 >= |h.blocks| then (h, 0)
    else if n > Gap(h.blocks[k], h.blocks[k + 1]) && !Grows(h.blocks, k, n) then MoveStep(h, ptr, n)
    else (FitStep(h, k, n), ptr)
  }

  /** rt_memheap_realloc of a live pointer or of 0. */
  ghost function ReallocStep(h: Heap, ptr: int, size: nat): (Heap, int)
  {
    if size == 0 then (if ptr == 0 then h else FreeStep(h, ptr), 0)
    else
      var n := Normalize(size);
      if ptr == 0 then AllocStep(h, n) else ResizeStep(h, ptr, n)
  }
}
