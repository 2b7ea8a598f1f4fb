/** The small heap as a value: first fit from the lowest free block, with hole plugging. */
module SmallModel {
  import opened Basics
  import opened SmallLayout

  /** size is mem_size_aligned; addresses are offsets from the start of the heap, and 0 is null for pointers. */
  datatype Heap = Heap(size: int, blocks: seq<Block>, lfree: int, used: int, maxUsed: int)

  function Align(n: nat): (r: nat)
    ensures n <= r < n + ALIGN && r % ALIGN == 0
  {
    (n + ALIGN - 1) / ALIGN * ALIGN
  }

  ghost predicate IsIndex(l: seq<Block>, a: int, k: nat)
  {
    k <= |l| && (k < |l| ==> l[k].at == a) && forall i :: 0 <= i < k ==> l[i].at != a
  }

  lemma {:induction false} HasIndex(l: seq<Block>, a: int, n: nat) returns (k: nat)
    requires n <= |l| && forall i :: 0 <= i < n ==> l[i].at != a
    ensures IsIndex(l, a, k)
    decreases |l| - n
  {
    k := n;
    if n < |l| && l[n].at != a { k := HasIndex(l, a, n + 1); }
  }

  /** Index of the block at offset a, or |l| when there is none. */
  ghost function Index(l: seq<Block>, a: int): (k: nat)
    ensures k <= |l|
    ensures k < |l| ==> l[k].at == a
    ensures forall i :: 0 <= i < k ==> l[i].at != a
  {
    assert exists k: nat :: IsIndex(l, a, k) by { var k := HasIndex(l, a, 0); }
    var k: nat :| IsIndex(l, a, k);
    k
  }

  /** The test of the search loop: block k serves n bytes. The loop itself stops at offset size - n. */
  predicate Fits(h: Heap, k: nat, n: int)
  {
    k + 1 < |h.blocks| && !h.blocks[k].used && Room(h.blocks, k) >= n && h.blocks[k].at < h.size - n
  }

  /** The first block from k on that serves n bytes; |blocks| when the loop runs out. */
  function FirstFit(h: Heap, k: nat, n: int): (j: nat)
    decreases |h.blocks| - k
  {
    if k + 1 >= |h.blocks| || h.blocks[k].at >= h.size - n then |h.blocks|
    else if !h.blocks[k].used && Room(h.blocks, k) >= n then k
    else FirstFit(h, k + 1, n)
  }

  /** The first unused block from k on, or the end stub. */
  function NextUnused(l: seq<Block>, k: nat): (j: nat)
    requires k < |l|
    ensures k <= j < |l| && (j == |l| - 1 || !l[j].used)
    ensures forall i :: k <= i < j ==> l[i].used
    decreases |l| - k
  {
    if k == |l| - 1 || !l[k].used then k else NextUnused(l, k + 1)
  }

  predicate Splits(l: seq<Block>, k: nat, n: int)
    requires k + 1 < |l|
  {
    Room(l, k) >= n + HEADER + MINSIZE
  }

  /** Block k is handed out for n bytes; a big enough rest becomes a block of its own. */
  function Taken(l: seq<Block>, k: nat, n: int): seq<Block>
    requires k + 1 < |l|
  {
    var a := l[k].at;
    l[..k] + (if Splits(l, k, n) then [Block(a, true), Block(a + HEADER + n, false)] else [Block(a, true)]) + l[k + 1..]
  }

  function TakeStep(h: Heap, k: nat, n: int): Heap
    requires k + 1 < |h.blocks|
  {
    var l := Taken(h.blocks, k, n);
    var used := h.used + (if Splits(h.blocks, k, n) then n + HEADER else Room(h.blocks, k) + HEADER);
    h.(blocks := l, used := used, maxUsed := Max(h.maxUsed, used),
       lfree := if h.lfree == h.blocks[k].at then l[NextUnused(l, k)].at else h.lfree)
  }

  function Request(size: nat): (r: nat)
    ensures size <= r && MINSIZE <= r && r % ALIGN == 0 && (r == MINSIZE || r < size + ALIGN)
  {
    if Align(size) < MINSIZE then MINSIZE else Align(size)
  }

  /** The search of rt_malloc comes to an end: it does not when a request reaches it on a heap without room for a
      minimal block, since its unsigned bound mem_size_aligned - size then wraps (see SearchNeverEnds). */
  predicate Searchable(h: Heap, size: nat)
  {
    h.size >= MINSIZE || Align(size) == 0 || Align(size) > h.size
  }

  /** rt_malloc. */
  ghost function MallocStep(h: Heap, size: nat): (Heap, int)
  {
    if size == 0 || Align(size) > h.size then (h, 0) else SearchStep(h, Request(size))
  }

  /** The search of rt_malloc starts at lfree; the block it finds is taken. */
  ghost function SearchStep(h: Heap, n: nat): (Heap, int)
  {
    var k := FirstFit(h, Index(h.blocks, h.lfree), n);
    if k + 1 >= |h.blocks| then (h, 0) else (TakeStep(h, k, n), h.blocks[k].at + HEADER)
  }

  /** rt_free of a live pointer: the block becomes unused and is joined with its unused neighbours. */
  ghost function FreeStep(h: Heap, ptr: int): Heap
  {
    var k := Index(h.blocks, ptr - HEADER);
    if k + 1 >= |h.blocks| then h
    else
      var a := h.blocks[k].at;
      var left, right := k > 0 && !h.blocks[k - 1].used, !h.blocks[k + 1].used;
      var i, e := if left then k - 1 else k, if right then k + 2 else k + 1;
      var low := if a < h.lfree then a else h.lfree;
      h.(blocks := h.blocks[..i] + [Block(h.blocks[i].at, false)] + h.blocks[e..],
         used := h.used - (h.blocks[k + 1].at - a),
         lfree := if left && low == a then h.blocks[k - 1].at else low)
  }

  /** A live block is cut down to n bytes in place; the rest is joined with an unused block behind it. */
  function ShrinkStep(h: Heap, k: nat, n: int): Heap
    requires k + 1 < |h.blocks|
  {
    var a, rest := h.blocks[k].at, h.blocks[k].at + HEADER + n;
    var right := !h.blocks[k + 1].used;
    h.(blocks := h.blocks[..k] + [Block(a, true), Block(rest, false)] + h.blocks[if right then k + 2 else k + 1..],
       used := h.used - (Room(h.blocks, k) - n),
       lfree := if right && h.lfree == h.blocks[k + 1].at then rest else h.lfree)
  }

  /** rt_realloc of a live pointer or of 0. */
  ghost function ReallocStep(h: Heap, ptr: int, newsize: nat): (Heap, int)
  {
    var n := Align(newsize);
    if n > h.size then (h, 0)
    else if n == 0 then (if ptr == 0 then h else FreeStep(h, ptr), 0)
    else if ptr == 0 then MallocStep(h, n)
    else ResizeStep(h, ptr, n)
  }

  /** The block behind ptr is kept, cut down, or moved. */
  ghost function ResizeStep(h: Heap, ptr: int, n: nat): (Heap, int)
  {
    var k := Index(h.blocks, ptr - HEADER);
    if k + 1 >= |h.blocks| then (h, 0)
    else if Room(h.blocks, k) == n then (h, ptr)
    else if n + HEADER + MINSIZE < Room(h.blocks, k) then (ShrinkStep(h, k, n), ptr)
    else MoveStep(h, ptr, n)
  }

  /** A new block is taken, then the old one is released. */
  ghost function MoveStep(h: Heap, ptr: int, n: nat): (Heap, int)
  {
    var (h1, q) := MallocStep(h, n);
    (if q != 0 then FreeStep(h1, ptr) else h1, q)
  }

  // ---- what every operation keeps

  ghost predicate Shape(size: int, l: seq<Block>)
  {
    |l| >= 2 && l[0].at == 0 && l[|l| - 1] == Block(size + HEADER, true) && WellFormed(l)
  }

  /** lfree is an unused block or the end stub. */
  ghost predicate FreeOrEnd(l: seq<Block>, a: int)
    requires l != []
  {
    Block(a, false) in l || a == l[|l| - 1].at
  }

  ghost predicate Inv(h: Heap)
  {
    && h.size >= 0 && Shape(h.size, h.blocks) && FreeOrEnd(h.blocks, h.lfree)
    && h.used == UsedBytes(h.blocks) && h.used <= h.maxUsed
  }

  /** No unused block lies below lfree. */
  ghost predicate Lowest(h: Heap)
  {
    forall b :: b in h.blocks && b.at < h.lfree ==> b.used
  }

  function AlignDown(n: nat): (r: nat)
    ensures r <= n < r + ALIGN && r % ALIGN == 0
  {
    n / ALIGN * ALIGN
  }

  /** The check of rt_system_heap_init, which prints an error for other regions. */
  predicate Usable(begin: nat, end: nat)
  {
    AlignDown(end) > 2 * HEADER && AlignDown(end) - 2 * HEADER >= Align(begin)
  }

  /** mem_size_aligned. */
  function RegionSize(begin: nat, end: nat): int
  {
    AlignDown(end) - Align(begin) - 2 * HEADER
  }

  /** The heap that rt_system_heap_init leaves. */
  function Initial(size: int): Heap
  {
    Heap(size, [Block(0, false), Block(size + HEADER, true)], 0, 0, 0)
  }

  lemma InitialInv(size: int)
    requires size >= 0
    ensures Inv(Initial(size)) && Lowest(Initial(size)) && Extents(Initial(size).blocks) == map[]
  {
    var l := Initial(size).blocks;
    assert PairOk(l, 0);
    Two(l[0], l[1]);
  }

  lemma IndexAt(l: seq<Block>, k: nat)
    requires WellFormed(l) && k < |l|
    ensures Index(l, l[k].at) == k
  {
    var i := Index(l, l[k].at);
    if i < k { Ascends(l, i, k); }
  }

  /** Offsets tell blocks apart. */
  lemma SameAt(l: seq<Block>, b: Block, c: Block)
    requires WellFormed(l) && b in l && c in l && b.at == c.at
    ensures b == c
  {
    var i :| 0 <= i < |l| && l[i] == b;
    var j :| 0 <= j < |l| && l[j] == c;
    if i < j { Ascends(l, i, j); }
    if j < i { Ascends(l, j, i); }
  }

  // ---- the search

  /** The search finds the first block at or above lfree that serves the request, if there is one. */
  lemma {:induction false} FirstFitFinds(h: Heap, k: nat, n: int)
    requires WellFormed(h.blocks)
    ensures var j := FirstFit(h, k, n);
      && (j + 1 < |h.blocks| ==> k <= j && Fits(h, j, n) && forall i :: k <= i < j ==> !Fits(h, i, n))
      && (j + 1 >= |h.blocks| ==> j == |h.blocks| && forall i :: k <= i < |h.blocks| ==> !Fits(h, i, n))
    decreases |h.blocks| - k
  {
    if k + 1 >= |h.blocks| {
    } else if h.blocks[k].at >= h.size - n {
      forall i | k <= i < |h.blocks| ensures !Fits(h, i, n) {
        if k < i { Ascends(h.blocks, k, i); }
      }
    } else if !h.blocks[k].used && Room(h.blocks, k) >= n {
    } else {
      FirstFitFinds(h, k + 1, n);
    }
  }

  lemma LfreeIndex(h: Heap)
    requires Inv(h)
    ensures Index(h.blocks, h.lfree) < |h.blocks|
  {
    if Block(h.lfree, false) in h.blocks {
      var i :| 0 <= i < |h.blocks| && h.blocks[i] == Block(h.lfree, false);
      IndexAt(h.blocks, i);
    } else {
      IndexAt(h.blocks, |h.blocks| - 1);
    }
  }

  /** rt_malloc fails exactly when no unused block at or above lfree holds the rounded request below offset
      size - request. With lfree lowest that is every unused block. */
  lemma MallocFailsIff(h: Heap, size: nat)
    requires Inv(h) && size > 0
    ensures MallocStep(h, size).1 == 0 <==> forall k :: 0 <= k < |h.blocks| && h.blocks[k].at >= h.lfree ==> !Fits(h, k, Request(size))
    ensures Lowest(h) ==> (MallocStep(h, size).1 == 0 <==> forall k :: 0 <= k < |h.blocks| ==> !Fits(h, k, Request(size)))
  {
    var n, l := Request(size), h.blocks;
    LfreeIndex(h);
    var f := Index(l, h.lfree);
    FirstFitFinds(h, f, n);
    forall k | 0 <= k < |l| ensures l[k].at >= h.lfree <==> k >= f {
      if k < f { Ascends(l, k, f); }
      if f < k { Ascends(l, f, k); }
    }
    forall k | 0 <= k < |l| ensures l[k].at >= 0 { if k > 0 { Ascends(l, 0, k); } }
    if Lowest(h) {
      forall k | 0 <= k < |l| && l[k].at < h.lfree ensures !Fits(h, k, n) { assert l[k] in l; }
    }
  }

  /** The bound of the search as a 32-bit number. */
  function UnsignedBound(size: int, n: int): int
  {
    (size - n) % 0x1_0000_0000
  }

  /** On a heap without room for a minimal block the search goes on at every block, and from the end stub to itself. */
  lemma SearchNeverEnds(h: Heap, size: nat, k: nat)
    requires Inv(h) && !Searchable(h, size) && k < |h.blocks|
    ensures h.blocks[k].at < UnsignedBound(h.size, Request(size))
    ensures k + 1 < |h.blocks| ==> h.blocks[k].used || Room(h.blocks, k) < Request(size)
  {
    var l := h.blocks;
    assert Request(size) == MINSIZE;
    if k > 0 { Ascends(l, 0, k); }
    if k + 1 < |l| { Ascends(l, k, |l| - 1); }
    if k + 2 < |l| { Ascends(l, k + 1, |l| - 1); }
    WrappedBound(h.size);
  }

  /** A heap of eight bytes and a request for four: the search starts at the one block, goes on to the end stub, and
      stays there. */
  lemma TinyHeapLoops()
    ensures var h, n, l := Initial(8), Request(4), Initial(8).blocks;
      && Inv(h) && !Searchable(h, 4) && h.lfree == l[0].at && |l| == 2
      && l[0].at < UnsignedBound(h.size, n) && Room(l, 0) < n
      && l[1].at < UnsignedBound(h.size, n) && l[1].used
  {
    InitialInv(8);
    SearchNeverEnds(Initial(8), 4, 0);
    SearchNeverEnds(Initial(8), 4, 1);
  }

  lemma WrappedBound(size: int)
    requires 0 <= size < MINSIZE
    ensures UnsignedBound(size, MINSIZE) == size - MINSIZE + 0x1_0000_0000
  {
  }

  /** Before any request the block of a fresh heap holds all its bytes, but a request for them is turned down. */
  lemma WholeHeapIsRefused(size: nat)
    requires size >= MINSIZE && size % ALIGN == 0
    ensures var h := Initial(size);
      Inv(h) && !h.blocks[0].used && Room(h.blocks, 0) == size == Request(size) && MallocStep(h, size) == (h, 0)
  {
    InitialInv(size);
    AlignedStays(size);
  }

  lemma AlignedStays(n: nat)
    requires n % ALIGN == 0
    ensures Align(n) == n
  {
  }

  /** The offset bound only turns down the last block, when it would fit exactly. */
  lemma BoundIsLastExactFit(h: Heap, k: nat, n: int)
    requires Inv(h) && k + 1 < |h.blocks| && !h.blocks[k].used && Room(h.blocks, k) >= n > 0
    ensures Fits(h, k, n) <==> !(k + 2 == |h.blocks| && Room(h.blocks, k) == n)
  {
    var l := h.blocks;
    if k + 2 < |l| {
      Ascends(l, k + 1, |l| - 1);
    }
  }
}
