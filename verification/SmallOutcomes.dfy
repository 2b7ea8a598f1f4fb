/** Which block a request to the small heap gets, how big it is, and when changing a size succeeds. */
module SmallOutcomes {
  import opened Basics
  import opened SmallLayout
  import opened SmallModel
  import opened SmallProofs

  /** Between asked bytes and one minimal block more. */
  predicate Tight(room: int, n: int)
  {
    n <= room < n + HEADER + MINSIZE
  }

  /** The used block behind q has such a size. */
  ghost predicate SizedAt(l: seq<Block>, q: int, n: int)
  {
    q - HEADER in Extents(l) && Tight(Extents(l)[q - HEADER] - q, n)
  }

  /** A successful request gets the first block from lfree on that serves it, and that is cut if the rest makes a block. */
  lemma MallocOutcome(h: Heap, size: nat) returns (k: nat)
    requires Inv(h) && MallocStep(h, size).1 != 0
    ensures var (r, q) := MallocStep(h, size);
      && k + 1 < |h.blocks| && q == h.blocks[k].at + HEADER && h.blocks[k].at >= h.lfree && Fits(h, k, Request(size))
      && (forall i :: 0 <= i < k && h.blocks[i].at >= h.lfree ==> !Fits(h, i, Request(size)))
      && SizedAt(r.blocks, q, Request(size))
  {
    var n, f := Request(size), Index(h.blocks, h.lfree);
    LfreeIndex(h);
    FirstFitFinds(h, f, n);
    k := FirstFit(h, f, n);
    TakenKeeps(h, k, n);
    if f < k { Ascends(h.blocks, f, k); }
    forall i | 0 <= i < k && h.blocks[i].at >= h.lfree ensures !Fits(h, i, n) {
      if i < f { Ascends(h.blocks, i, f); }
    }
  }

  /** Changing the size of a block: the same size changes nothing, a size that leaves more than a minimal block cuts the
      rest off, and every other size takes a new block, and so fails exactly if allocating that fails. */
  lemma ReallocOutcome(h: Heap, ptr: int, size: nat)
    requires Inv(h) && ptr - HEADER in Extents(h.blocks) && 0 < Align(size) <= h.size
    ensures var (r, q) := ReallocStep(h, ptr, size);
      var n, room := Align(size), Extents(h.blocks)[ptr - HEADER] - ptr;
      && (n == room ==> q == ptr && r == h)
      && (n + HEADER + MINSIZE < room ==> q == ptr && ptr - HEADER in Extents(r.blocks) && Extents(r.blocks)[ptr - HEADER] - ptr == n)
      && (n != room && n + HEADER + MINSIZE >= room ==>
            && q == MallocStep(h, n).1
            && (q != 0 ==> q != ptr && SizedAt(r.blocks, q, Request(n))))
  {
    Within(h, ptr);
    var k := LiveIndex(h, ptr);
    ResizeOutcome(h, ptr, Align(size), k);
  }

  lemma ResizeOutcome(h: Heap, ptr: int, n: nat, k: nat)
    requires Inv(h) && LiveAt(h, ptr, k) && ptr - HEADER in Extents(h.blocks) && Extents(h.blocks)[ptr - HEADER] == h.blocks[k + 1].at
    requires !h.blocks[k + 1].used ==> k + 2 < |h.blocks| && h.blocks[k + 2].used
    ensures var (r, q) := ResizeStep(h, ptr, n);
      var room := h.blocks[k + 1].at - ptr;
      && (n == room ==> q == ptr && r == h)
      && (n + HEADER + MINSIZE < room ==> q == ptr && ptr - HEADER in Extents(r.blocks) && Extents(r.blocks)[ptr - HEADER] - ptr == n)
      && (n != room && n + HEADER + MINSIZE >= room ==>
            q == MallocStep(h, n).1 && (q != 0 ==> q != ptr && SizedAt(r.blocks, q, Request(n))))
  {
    if n != Room(h.blocks, k) {
      if n + HEADER + MINSIZE < Room(h.blocks, k) { ShrinkKeeps(h, k, n); } else { MoveOutcome(h, ptr, n); }
    }
  }

  lemma Within(h: Heap, ptr: int)
    requires Inv(h) && ptr - HEADER in Extents(h.blocks)
    ensures ptr != 0
  {
    ExtentBounds(h.blocks);
  }

  lemma MoveOutcome(h: Heap, ptr: int, n: nat)
    requires Inv(h) && ptr - HEADER in Extents(h.blocks)
    ensures var (r, q) := MoveStep(h, ptr, n);
      && q == MallocStep(h, n).1
      && (q != 0 ==> q != ptr && SizedAt(r.blocks, q, Request(n)))
  {
    var (h1, q) := MallocStep(h, n);
    if q != 0 {
      NewBlock(h, h1, ptr, q, n);
      var k := MallocOutcome(h, n);
      OtherStays(h1, ptr, q, Request(n));
    }
  }

  lemma NewBlock(h: Heap, h1: Heap, ptr: int, q: int, n: nat)
    requires Inv(h) && ptr - HEADER in Extents(h.blocks) && (h1, q) == MallocStep(h, n) && q != 0
    ensures Inv(h1) && q != ptr && ptr - HEADER in Extents(h1.blocks)
  {
    MallocKeeps(h, n);
  }

  lemma OtherStays(h: Heap, ptr: int, q: int, n: nat)
    requires Inv(h) && q != ptr && ptr - HEADER in Extents(h.blocks)
    requires SizedAt(h.blocks, q, n)
    ensures SizedAt(FreeStep(h, ptr).blocks, q, n)
  {
    FreeKeeps(h, ptr);
  }

  /** A size beyond the heap is refused at once, and size 0 releases the block. */
  lemma ReallocBounds(h: Heap, ptr: int, size: nat)
    requires Inv(h) && ptr - HEADER in Extents(h.blocks)
    ensures Align(size) > h.size ==> ReallocStep(h, ptr, size) == (h, 0)
    ensures size == 0 ==> ReallocStep(h, ptr, size) == (FreeStep(h, ptr), 0)
  {
    Within(h, ptr);
  }

  /** The peak counter follows the bytes in use after allocations, also those of a resize that moves the block. */
  lemma PeakFollows(h: Heap, ptr: int, size: nat)
    requires Inv(h)
    ensures MallocStep(h, size).0.maxUsed == Max(h.maxUsed, MallocStep(h, size).0.used)
    ensures FreeStep(h, ptr).maxUsed == h.maxUsed
    ensures ReallocStep(h, ptr, size).0.maxUsed in {h.maxUsed, MallocStep(h, Align(size)).0.maxUsed}
  {
  }

  // ---- a smaller size that is refused

  /** In a heap of 24 bytes a request for 20 gets all of them. */
  lemma AllTaken()
    ensures MallocStep(Initial(24), 20) == (Heap(24, [Block(0, true), Block(36, true)], 36, 36, 36), 12)
  {
    var h := Initial(24);
    assert Request(20) == 20 && Room(h.blocks, 0) == 24;
    assert FirstFit(h, 0, 20) == 0;
    assert Taken(h.blocks, 0, 20) == [Block(0, true), Block(36, true)];
    assert NextUnused([Block(0, true), Block(36, true)], 0) == 1;
  }

  /** Cutting it down to 16 bytes then fails: the rest is too small for a block of its own, and no other block is there. */
  lemma SmallerSizeFails()
    ensures var (h, ptr) := MallocStep(Initial(24), 20); ptr == 12 && ReallocStep(h, ptr, 16) == (h, 0)
  {
    AllTaken();
    var h := Heap(24, [Block(0, true), Block(36, true)], 36, 36, 36);
    assert Align(16) == 16 && Room(h.blocks, 0) == 24;
    assert Index(h.blocks, 0) == 0 && Index(h.blocks, 36) == 1;
    assert FirstFit(h, 1, 16) == 2;
    assert MallocStep(h, 16) == (h, 0);
  }
}
