/** The allocator of the memory heap, writing the link fields of its items in place. */
module MemHeap {
  import opened Basics
  import opened Bytes
  import opened Ring
  import opened MemLayout
  import opened MemHeapModel
  import opened MemHeapProofs

  ghost function Addrs(l: seq<Block>): (r: seq<int>)
    ensures |r| == |l|
    ensures forall i :: 0 <= i < |l| ==> r[i] == l[i].addr
  {
    seq(|l|, i requires 0 <= i < |l| => l[i].addr)
  }

  ghost predicate Flagged(used: map<int, bool>, l: seq<Block>)
  {
    forall b :: b in l ==> b.addr in used && used[b.addr] == b.used
  }

  class MemHeap {
    const start: int
    const poolSize: int
    const header: int        // address of the free list header, outside the pool
    const data: array<int>   // the bytes, by offset from the start

    var next: map<int, int>
    var prev: map<int, int>
    var nextFree: map<int, int>
    var prevFree: map<int, int>
    var used: map<int, bool>
    var available: int
    var maxUsed: int

    ghost var blocks: seq<Block>
    ghost var free: seq<int>

    ghost function State(): Heap
      reads this
    {
      Heap(start, start + poolSize, blocks, free, available, maxUsed)
    }

    /** Block list, free list and used bits all describe the one layout. */
    ghost predicate Linked()
      reads this
    {
      && Chained(next, prev, Addrs(blocks))
      && Chained(nextFree, prevFree, [header] + free)
      && Flagged(used, blocks)
    }

    ghost predicate Valid()
      reads this
    {
      && Inv(State())
      && Linked()
      && data.Length == poolSize
      && (header < start || start + poolSize <= header)
    }

    constructor (start: int, size: nat, header: int)
      requires start > 0 && size / ALIGN * ALIGN >= 2 * HEADER
      requires header < start || start + size <= header
      ensures Valid()
      ensures this.start == start && poolSize == size / ALIGN * ALIGN && this.header == header
      ensures State() == Initial(start, start + poolSize) && fresh(data)
    {
      var pool := size / ALIGN * ALIGN;
      var tail := start + pool - HEADER;
      this.start, this.poolSize, this.header := start, pool, header;
      data := new int[pool];
      available := pool - 2 * HEADER;
      maxUsed := 2 * HEADER;
      nextFree := map[header := start, start := header];
      prevFree := map[header := start, start := header];
      next := map[start := tail, tail := start];
      prev := map[start := tail, tail := start];
      used := map[start := false, tail := true];
      blocks := [Block(start, false), Block(tail, true)];
      free := [start];
      new;
      InitialInv(start, start + pool);
      assert Addrs(blocks) == [start, tail];
      assert LinkAt(next, prev, [start, tail], 0) && LinkAt(next, prev, [start, tail], 1);
      assert LinkAt(nextFree, prevFree, [header, start], 0) && LinkAt(nextFree, prevFree, [header, start], 1);
      assert [header] + free == [header, start];
    }

    /** Puts item n behind item h on the block list. */
    method InsertItem(h: int, n: int, ghost r: seq<int>, ghost k: nat)
      requires Chained(next, prev, r) && k < |r| && r[k] == h && n !in r
      modifies `next, `prev
      ensures Chained(next, prev, InsertedAt(r, k + 1, n))
    {
      InsertChains(next, prev, r, k, n);
      ghost var next', prev' := next[n := next[h]][h := n], prev[next[h] := n][n := h];
      prev := prev[n := h];
      next := next[n := next[h]];
      prev := prev[next[h] := n];
      next := next[h := n];
      assert next == next' && prev == prev';
    }

    /** Takes item n out of the block list. */
    method RemoveItem(n: int, ghost r: seq<int>, ghost k: nat)
      requires Chained(next, prev, r) && 0 < k < |r| && r[k] == n
      modifies `next, `prev
      ensures Chained(next, prev, RemovedAt(r, k))
    {
      RemoveChains(next, prev, r, k - 1, k);
      prev := prev[next[n] := prev[n]];
      next := next[prev[n] := next[n]];
    }

    /** Takes item n out of the free list. */
    method UnlinkFree(n: int, ghost j: nat)
      requires Chained(nextFree, prevFree, [header] + free) && j < |free| && free[j] == n
      modifies `nextFree, `prevFree, `free
      ensures Chained(nextFree, prevFree, [header] + free) && free == RemovedAt(old(free), j)
      ensures n !in [header] + free
    {
      ghost var r := [header] + free;
      RemoveChains(nextFree, prevFree, r, j, j + 1);
      prevFree := prevFree[nextFree[n] := prevFree[n]];
      nextFree := nextFree[prevFree[n] := nextFree[n]];
      free := RemovedAt(free, j);
      assert RemovedAt(r, j + 1) == [header] + free;
    }

    /** An item that is handed out keeps no free links. */
    method ClearFree(n: int)
      requires Chained(nextFree, prevFree, [header] + free) && n !in [header] + free
      modifies `nextFree, `prevFree
      ensures Chained(nextFree, prevFree, [header] + free)
    {
      ghost var nextFree', prevFree' := nextFree, prevFree;
      nextFree := nextFree[n := 0];
      prevFree := prevFree[n := 0];
      ChainFrame(nextFree', prevFree', nextFree, prevFree, [header] + free);
    }

    method PushFree(n: int)
      requires Chained(nextFree, prevFree, [header] + free) && n !in [header] + free
      modifies `nextFree, `prevFree, `free
      ensures Chained(nextFree, prevFree, [header] + free) && free == [n] + old(free)
    {
      ghost var r := [header] + free;
      InsertChains(nextFree, prevFree, r, 0, n);
      ghost var nextFree', prevFree' := nextFree[n := nextFree[header]][header := n], prevFree[nextFree[header] := n][n := header];
      nextFree := nextFree[n := nextFree[header]];
      prevFree := prevFree[n := header];
      prevFree := prevFree[nextFree[header] := n];
      nextFree := nextFree[header := n];
      assert nextFree == nextFree' && prevFree == prevFree';
      free := [n] + free;
      assert InsertedAt(r, 1, n) == [header] + free;
    }

    /** The links at item k, and what MEMITEM_SIZE reads there. */
    lemma ItemLinks(k: nat)
      requires Linked() && k + 1 < |blocks|
      ensures blocks[k].addr in next && next[blocks[k].addr] == blocks[k + 1].addr
      ensures blocks[k + 1].addr in prev && prev[blocks[k + 1].addr] == blocks[k].addr
      ensures blocks[0].addr in prev && prev[blocks[0].addr] == blocks[|blocks| - 1].addr
    {
      assert LinkAt(next, prev, Addrs(blocks), k);
      assert LinkAt(next, prev, Addrs(blocks), |blocks| - 1);
    }

    lemma FreeItem(j: nat)
      requires Valid() && j < |free|
      ensures var k := Index(blocks, free[j]);
        k + 1 < |blocks| && blocks[k] == Block(free[j], false) && free[j] in next
        && next[free[j]] == blocks[k + 1].addr
        && Payload(blocks, free[j]) == next[free[j]] - free[j] - HEADER
    {
      assert Block(free[j], false) in blocks;
      var k :| 0 <= k < |blocks| && blocks[k] == Block(free[j], false);
      IndexAt(blocks, k);
      ItemLinks(k);
    }

    /** Position j of the free ring (0 is the header) leads to the free item j, or back to the header. */
    lemma FreeLinks(j: nat)
      requires Linked() && j <= |free|
      ensures var a := if j == 0 then header else free[j - 1];
        a in nextFree && nextFree[a] == (if j < |free| then free[j] else header)
      ensures j < |free| ==> free[j] != header
    {
      assert LinkAt(nextFree, prevFree, [header] + free, j);
      if j < |free| {
        assert ([header] + free)[j + 1] != ([header] + free)[0];
      }
    }

    ghost predicate RestIsFresh(rest: int, k: nat, n: nat)
      requires k + 1 < |blocks|
      reads this
    {
      Cuts(blocks, k, n) ==> rest !in Addrs(blocks) && rest !in [header] + free
    }

    lemma CutIsNew(k: nat, n: nat)
      requires Valid() && k + 1 < |blocks|
      ensures RestIsFresh(blocks[k].addr + n + HEADER, k, n)
    {
      if Cuts(blocks, k, n) {
        NewItem(State(), k, blocks[k].addr + n + HEADER);
      }
    }

    lemma ReleaseReady(n: int, k: nat)
      requires Valid() && k + 1 < |blocks| && blocks[k] == Block(n, true)
      requires !blocks[k + 1].used ==> k + 2 < |blocks|
      ensures n !in [header] + free && blocks[|blocks| - 1].used
      ensures Linked() && blocks[k].addr == n
      ensures !blocks[k + 1].used ==> k + 2 < |blocks| && blocks[k + 1].addr in free
    {
      UsedNotFree(State(), k);
      if k > 0 { Ordered(blocks, 0, k); }
      Ordered(blocks, k, |blocks| - 1);
      if !blocks[k + 1].used { assert blocks[k + 1] == Block(blocks[k + 1].addr, false); }
    }

    /** Walks the free list to the first item that holds n bytes. */
    method Search(n: int) returns (item: int, freeSize: int)
      requires Valid() && n > 0
      ensures var j := FirstFit(blocks, free, n);
        if j < |free| then item == free[j] && freeSize == Payload(blocks, item) >= n else freeSize < n
    {
      ghost var j := 0;
      FreeLinks(0);
      freeSize := 0;
      item := nextFree[header];
      while item != header && freeSize < n
        invariant 0 <= j <= |free|
        invariant item == if j < |free| then free[j] else header
        invariant j < |free| ==> free[j] != header
        invariant j <= FirstFit(blocks, free, n)
        invariant freeSize >= n ==> j < |free| && freeSize == Payload(blocks, free[j])
        decreases |free| - j, freeSize < n
      {
        FreeItem(j);
        freeSize := next[item] - item - HEADER;
        FitFurther(blocks, free, n, j);
        if freeSize < n {
          FreeLinks(j + 1);
          item := nextFree[item];
          j := j + 1;
        }
      }
    }

    /** A new unused item between item k and the item behind it; it is not on the free list yet. */
    method AddItem(item: int, rest: int, ghost k: nat)
      requires Linked() && k < |blocks| && blocks[k].addr == item && rest !in Addrs(blocks)
      modifies `next, `prev, `used, `blocks
      ensures Linked() && State() == AddStep(old(State()), k, rest)
    {
      AddedFlags(blocks, used, k, rest);
      used := used[rest := false];
      InsertItem(item, rest, Addrs(blocks), k);
      blocks := blocks[..k + 1] + [Block(rest, false)] + blocks[k + 1..];
    }

    /** Payload bytes taken by an item that grows. */
    method Consume(n: int)
      requires Linked()
      modifies `available, `maxUsed
      ensures Linked() && State() == ConsumeStep(old(State()), n)
    {
      available := available - n;
      if poolSize - available > maxUsed {
        maxUsed := poolSize - available;
      }
    }

    /** The item at free list position j is handed out and keeps no free links. */
    method Unlist(item: int, ghost j: nat)
      requires Linked() && j < |free| && free[j] == item
      modifies `nextFree, `prevFree, `free
      ensures Linked() && State() == UnlistStep(old(State()), j)
    {
      UnlinkFree(item, j);
      ClearFree(item);
    }

    method MarkUsed(item: int, ghost k: nat)
      requires Linked() && k < |blocks| && blocks[k].addr == item
      modifies `used, `blocks
      ensures Linked() && State() == MarkUsedStep(old(State()), k)
    {
      MarkFlags(blocks, used, k, true);
      used := used[item := true];
      blocks := blocks[k := Block(item, true)];
    }

    /** The item at k, free list position j, is cut; the rest becomes a new item in front of the free list. */
    method SplitFree(item: int, n: nat, ghost j: nat, ghost k: nat)
      requires Linked() && j < |free| && free[j] == item && k + 1 < |blocks| && blocks[k].addr == item
      requires item + n + HEADER !in Addrs(blocks) && item + n + HEADER !in [header] + free
      modifies this
      ensures Linked() && State() == SplitStages(old(State()), item, j, k, n)
    {
      Carve(item, item + n + HEADER, j, k);
      Consume(n + HEADER);
      MarkUsed(item, k);
    }

    /** The rest of the item joins both lists, and the item leaves the free list. */
    method Carve(item: int, rest: int, ghost j: nat, ghost k: nat)
      requires Linked() && j < |free| && free[j] == item && k + 1 < |blocks| && blocks[k].addr == item
      requires rest !in Addrs(blocks) && rest !in [header] + free
      modifies this
      ensures Linked() && State() == ListStep(UnlistStep(AddStep(old(State()), k, rest), j), rest, true)
    {
      AddItem(item, rest, k);
      Unlist(item, j);
      ListFree(rest, true);
    }

    method TakeFree(item: int, freeSize: int, ghost j: nat, ghost k: nat)
      requires Linked() && j < |free| && free[j] == item && k + 1 < |blocks| && blocks[k].addr == item
      modifies this
      ensures Linked() && State() == MarkUsedStep(UnlistStep(ConsumeStep(old(State()), freeSize), j), k)
    {
      Consume(freeSize);
      Unlist(item, j);
      MarkUsed(item, k);
    }

    /** Item k, at free list position j, is handed out. */
    method Take(item: int, freeSize: int, n: nat, ghost j: nat, ghost k: nat)
      requires Linked() && j < |free| && free[j] == item && k + 1 < |blocks| && blocks[k] == Block(item, false)
      requires freeSize == Gap(blocks[k], blocks[k + 1])
      requires RestIsFresh(blocks[k].addr + n + HEADER, k, n)
      modifies this
      ensures Linked() && State() == TakeStep(old(State()), j, k, n)
    {
      if freeSize >= n + HEADER + MINIALLOC {
        SplitIsTake(State(), item, j, k, n);
        SplitFree(item, n, j, k);
      } else {
        WholeIsTake(State(), item, freeSize, j, k, n);
        TakeFree(item, freeSize, j, k);
      }
    }

    /** Searches the free list and hands out the first item that holds n bytes. */
    method Serve(n: nat) returns (ptr: int)
      requires Valid() && n > 0
      modifies this
      ensures Linked()
      ensures State() == ServeStep(old(State()), n).0 && ptr == ServeStep(old(State()), n).1
    {
      ptr := 0;
      if n < available {
        var item, freeSize := Search(n);
        if freeSize >= n {
          ServeFrom(item, freeSize, n, FirstFit(blocks, free, n));
          ptr := item + HEADER;
        }
      }
    }

    /** The free item, at position j of the free list, serves n bytes. */
    method ServeFrom(item: int, freeSize: int, n: nat, ghost j: nat)
      requires Valid() && j < |free| && free[j] == item && freeSize == Payload(blocks, item) >= n > 0
      modifies this
      ensures Index(old(blocks), item) + 1 < |old(blocks)|
      ensures Linked() && State() == TakeStep(old(State()), j, Index(old(blocks), item), n)
    {
      ghost var k := Index(blocks, item);
      FreeItem(j);
      CutIsNew(k, n);
      Take(item, freeSize, n, j, k);
    }

    /** rt_memheap_alloc: the request is rounded up, then served from the first free item that holds it. */
    method Alloc(size: nat) returns (ptr: int)
      requires Valid()
      modifies this
      ensures Valid()
      ensures State() == AllocStep(old(State()), size).0 && ptr == AllocStep(old(State()), size).1
    {
      AllocKeepsInv(State(), size);
      AllocStays(State(), size);
      ptr := Serve(Normalize(size));
    }

    /** Item k leaves the block list. */
    method DropItem(n: int, ghost k: nat)
      requires Linked() && 0 < k < |blocks| && blocks[k].addr == n
      modifies `next, `prev, `blocks
      ensures Linked() && blocks == DropAt(old(blocks), k)
    {
      RemoveItem(n, Addrs(blocks), k);
      DropAddrs(blocks, k);
      blocks := DropAt(blocks, k);
    }

    /** Clears the used bit of item k. */
    method Unmark(n: int, ghost k: nat)
      requires Linked() && k + 1 < |blocks| && blocks[k].addr == n
      modifies `used, `blocks, `available
      ensures Linked() && State() == UnmarkStep(old(State()), k)
    {
      ItemLinks(k);
      MarkFlags(blocks, used, k, false);
      used := used[n := false];
      available := available + (next[n] - n - HEADER);
      blocks := blocks[k := Block(n, false)];
    }

    /** The released item k is merged into an unused item in front of it. */
    method MergeLeft(n: int, ghost k: nat) returns (item: int, insert: bool)
      requires Linked() && k + 1 < |blocks| && blocks[k].addr == n && blocks[|blocks| - 1].used
      modifies `next, `prev, `blocks, `available
      ensures Linked() && State() == MergeLeftStep(old(State()), k)
      ensures insert <==> !LeftUnused(old(blocks), k)
      ensures item == if insert then n else old(blocks)[k - 1].addr
    {
      item, insert := n, true;
      ItemLinks(if k > 0 then k - 1 else k);
      if !used[prev[n]] {
        available := available + HEADER;
        item := prev[n];
        DropItem(n, k);
        insert := false;
      }
    }

    /** An unused item behind item i is merged into it. */
    method MergeRight(item: int, ghost i: nat)
      requires Linked() && i + 1 < |blocks| && blocks[i].addr == item
      requires !blocks[i + 1].used ==> blocks[i + 1].addr in free
      modifies `next, `prev, `blocks, `available, `nextFree, `prevFree, `free
      ensures Linked() && State() == MergeRightStep(old(State()), i)
    {
      ItemLinks(i);
      if !used[next[item]] {
        available := available + HEADER;
        var right := next[item];
        DropItem(right, i + 1);
        UnlinkFree(right, Position(free, right));
      }
    }

    /** The merged item goes to the front of the free list, unless it already was on it. */
    method ListFree(item: int, insert: bool)
      requires Linked() && (insert ==> item !in [header] + free)
      modifies `nextFree, `prevFree, `free
      ensures Linked() && State() == ListStep(old(State()), item, insert)
    {
      if insert {
        PushFree(item);
      }
    }

    /** Merges item k to the left, then to the right. */
    method Merge(n: int, ghost k: nat) returns (item: int, insert: bool)
      requires Linked() && k + 1 < |blocks| && blocks[k].addr == n && blocks[|blocks| - 1].used
      requires var h2 := MergeLeftStep(State(), k);
        var i := if LeftUnused(blocks, k) then k - 1 else k;
        && i + 1 < |h2.blocks| && h2.blocks[i].addr == blocks[i].addr
        && (!h2.blocks[i + 1].used ==> h2.blocks[i + 1].addr in free)
      modifies `next, `prev, `blocks, `available, `nextFree, `prevFree, `free
      ensures Linked()
      ensures insert <==> !LeftUnused(old(blocks), k)
      ensures insert ==> item == n
      ensures State() == MergeRightStep(MergeLeftStep(old(State()), k), if insert then k else k - 1)
    {
      item, insert := MergeLeft(n, k);
      MergeRight(item, if insert then k else k - 1);
    }

    /** What rt_memheap_free does to item k; r is the outcome. */
    method Release(n: int, ghost k: nat, ghost r: Heap)
      requires Linked() && k + 1 < |blocks| && blocks[k].addr == n && blocks[|blocks| - 1].used
      requires n !in [header] + free
      requires !blocks[k + 1].used ==> k + 2 < |blocks| && blocks[k + 1].addr in free
      requires r == ReleaseStages(State(), n, k)
      modifies this
      ensures Linked() && State() == r
    {
      ReleaseReads(State(), n, k, header);
      Unmark(n, k);
      var item, insert := Merge(n, k);
      ListFree(item, insert);
    }

    method ReleaseItem(n: int, ghost k: nat)
      requires Linked() && k + 1 < |blocks| && blocks[k].addr == n && blocks[|blocks| - 1].used && Index(blocks, n) == k
      requires n !in [header] + free
      requires !blocks[k + 1].used ==> k + 2 < |blocks| && blocks[k + 1].addr in free
      modifies this
      ensures Linked() && State() == FreeStep(old(State()), n + HEADER)
    {
      ghost var h := State();
      ghost var r := Released(h, n, k);
      assert r == ReleaseStages(State(), n, k);
      Release(n, k, r);
    }

    method FreeLive(ptr: int)
      requires Valid() && ptr in Live(blocks)
      modifies this
      ensures Linked() && State() == FreeStep(old(State()), ptr)
    {
      ghost var k := LiveIndex(State(), ptr);
      var n := ptr - HEADER;
      ReleaseReady(n, k);
      ReleaseItem(n, k);
    }

    /** rt_memheap_free: the item is merged with its unused neighbours. */
    method Free(ptr: int)
      requires Valid() && (ptr == 0 || ptr in Live(blocks))
      modifies this
      ensures Valid()
      ensures State() == if ptr == 0 then old(State()) else FreeStep(old(State()), ptr)
    {
      if ptr != 0 {
        FreeKeepsInv(State(), ptr);
        FreeLive(ptr);
      }
    }

    /** The unused item k + 1 leaves both lists. */
    method DropRight(right: int, ghost k: nat)
      requires Linked() && k + 1 < |blocks| && blocks[k + 1].addr == right && right in free
      modifies `next, `prev, `blocks, `nextFree, `prevFree, `free
      ensures Linked() && State() == DropRightStep(old(State()), k)
    {
      UnlinkFree(right, Position(free, right));
      DropItem(right, k + 1);
    }

    /** The unused item behind is rebuilt further up. */
    method Grow(item: int, size: int, n: int, ghost k: nat)
      requires Linked() && k + 2 < |blocks| && blocks[k] == Block(item, true) && blocks[k + 1].addr in free
      requires size == Gap(blocks[k], blocks[k + 1])
      requires item + HEADER + n !in Addrs(blocks) && item + HEADER + n !in [header] + free
      modifies this
      ensures Linked() && State() == GrowStages(old(State()), item, size, k, n)
    {
      GrowReads(State(), item, size, k, n, header);
      ItemLinks(k);
      Consume(n - size);
      DropRight(next[item], k);
      var rest := item + HEADER + n;
      AddItem(item, rest, k);
      ListFree(rest, true);
    }

    /** The unused neighbour behind the new item i is swallowed. */
    method Swallow(item: int, ghost i: nat)
      requires Linked() && i + 1 < |blocks| && blocks[i].addr == item
      requires !blocks[i + 1].used ==> i + 2 < |blocks| && blocks[i + 1].addr in free
      modifies `next, `prev, `blocks, `nextFree, `prevFree, `free, `available
      ensures Linked() && State() == SwallowStep(old(State()), i)
    {
      ItemLinks(i);
      var right := next[item];
      if !used[right] {
        ItemLinks(i + 1);
        available := available - (next[right] - right - HEADER);
        DropItem(right, i + 1);
        UnlinkFree(right, Position(free, right));
      }
    }

    /** The new item i joins the free list and counts as available. */
    method ListRest(rest: int, ghost i: nat)
      requires Linked() && i + 1 < |blocks| && blocks[i].addr == rest && rest !in [header] + free
      modifies `nextFree, `prevFree, `free, `available
      ensures Linked() && State() == ListRestStep(old(State()), i)
    {
      ItemLinks(i);
      PushFree(rest);
      available := available + (next[rest] - rest - HEADER);
    }

    /** The stages of shrinking item k; r is the outcome. */
    method CutBack(item: int, rest: int, ghost k: nat, ghost r: Heap)
      requires Linked() && k + 1 < |blocks| && blocks[k].addr == item && rest !in Addrs(blocks) && rest !in [header] + free
      requires !blocks[k + 1].used ==> k + 2 < |blocks| && blocks[k + 1].addr in free
      requires CutReads(State(), k, rest) && r == ListRestStep(SwallowStep(AddStep(State(), k, rest), k + 1), k + 1)
      modifies this
      ensures Linked() && State() == r
    {
      AddItem(item, rest, k);
      Swallow(rest, k + 1);
      ListRest(rest, k + 1);
    }

    /** The part of item k beyond n bytes becomes an unused item of its own. */
    method Shrink(item: int, n: nat, ghost k: nat)
      requires Linked() && k + 1 < |blocks| && blocks[k] == Block(item, true)
      requires !blocks[k + 1].used ==> k + 2 < |blocks| && blocks[k + 1].addr in free
      requires item + n + HEADER !in Addrs(blocks) && item + n + HEADER !in [header] + free
      modifies this
      ensures Linked() && State() == ShrinkStep(old(State()), k, n)
    {
      ShrinkReads(State(), k, n);
      ShrinkStages(State(), k, n);
      CutBack(item, item + n + HEADER, k, ShrinkStep(State(), k, n));
    }

    /** A new payload, as many of the old bytes as both hold, and the old payload is released. */
    method Move(ptr: int, n: nat, m: nat) returns (q: int)
      requires Valid() && ptr in Live(blocks) && m == Basics.Min(Live(blocks)[ptr], n)
      modifies this, data
      ensures Valid()
      ensures State() == MoveStep(old(State()), ptr, n).0 && q == MoveStep(old(State()), ptr, n).1
      ensures Carried(old(State()), old(data[..]), data[..], ptr, q, n)
    {
      ghost var h := State();
      ghost var given := AllocLive(h, n);
      AllocStays(h, n);
      LiveNonZero(h, ptr);
      NothingCarried(h, data[..], ptr, 0, n);
      q := Alloc(n);
      if q != 0 {
        Transfer(ptr, q, m, h);
      }
    }

    /** rt_memcpy of the first m bytes of the payload ptr into q, which is new since h. */
    method CopyPayload(ptr: int, q: int, m: nat, ghost h: Heap)
      requires Valid() && Granted(h, State(), q) && ptr in Live(h.blocks) && m <= Live(blocks)[q] && m <= Live(h.blocks)[ptr]
      modifies data
      ensures Same(old(data[..]), data[..], ptr - start, q - start, m) && OthersSame(h, old(data[..]), data[..], ptr)
    {
      NewIsApart(h, State(), ptr, q, m);
      Copy(data, q - start, ptr - start, m);
      CopyIsLocal(h, State(), old(data[..]), data[..], ptr, q, m);
    }

    /** The payload q takes over the first m bytes of ptr, which is released. */
    method Transfer(ptr: int, q: int, m: nat, ghost h: Heap)
      requires Valid() && Granted(h, State(), q) && ptr in Live(h.blocks) && m <= Live(blocks)[q] && m <= Live(h.blocks)[ptr]
      modifies this, data
      ensures Valid() && State() == FreeStep(old(State()), ptr)
      ensures Same(old(data[..]), data[..], ptr - start, q - start, m) && OthersSame(h, old(data[..]), data[..], ptr)
    {
      LiveNonZero(State(), ptr);
      CopyPayload(ptr, q, m, h);
      Free(ptr);
    }

    lemma InPlaceReady(k: nat, rest: int)
      requires Valid() && k + 1 < |blocks| && blocks[k].used && (!blocks[k + 1].used ==> k + 2 < |blocks|)
      ensures !blocks[k + 1].used ==> blocks[k + 1].addr in free
      ensures blocks[k].addr < rest < blocks[k + 1].addr ==> rest !in Addrs(blocks) && rest !in [header] + free
      ensures k + 2 < |blocks| && blocks[k + 1].addr < rest < blocks[k + 2].addr ==> rest !in Addrs(blocks) && rest !in [header] + free
    {
      if !blocks[k + 1].used { assert blocks[k + 1] == Block(blocks[k + 1].addr, false); }
      if blocks[k].addr < rest < blocks[k + 1].addr { NewItem(State(), k, rest); }
      if k + 2 < |blocks| && blocks[k + 1].addr < rest < blocks[k + 2].addr { NewItem(State(), k + 1, rest); }
    }

    /** The in-place part of rt_memheap_realloc. The result says whether the payload could stay where it is. */
    method Fit(item: int, n: nat, ghost k: nat) returns (stays: bool)
      requires Valid() && LiveAt(State(), item + HEADER, k) && (!blocks[k + 1].used ==> k + 2 < |blocks|)
      modifies this
      ensures Linked() && State() == FitStep(old(State()), k, n)
      ensures stays <==> !(n > Gap(old(blocks)[k], old(blocks)[k + 1]) && !Grows(old(blocks), k, n))
    {
      InPlaceReady(k, item + HEADER + n);
      FitBounds(State(), k, n);
      ItemLinks(k);
      var size := next[item] - item - HEADER;
      stays := true;
      if n > size {
        var right := next[item];
        stays := false;
        if !used[right] {
          ItemLinks(k + 1);
          if next[right] - right - HEADER + size > n + MINIALLOC {
            GrowIsStages(State(), item, size, k, n);
            Grow(item, size, n, k);
            stays := true;
          }
        }
      } else if n + HEADER + MINIALLOC < size {
        Shrink(item, n, k);
      }
    }

    /** rt_memheap_realloc. */
    method Realloc(ptr: int, size: nat) returns (q: int)
      requires Valid() && (ptr == 0 || ptr in Live(blocks))
      modifies this, data
      ensures Valid()
      ensures State() == ReallocStep(old(State()), ptr, size).0 && q == ReallocStep(old(State()), ptr, size).1
      ensures Carried(old(State()), old(data[..]), data[..], ptr, q, Normalize(size))
      ensures size > 0 && q != 0 ==> Sized(blocks, q, Normalize(size))
    {
      ReallocSized(State(), ptr, size);
      q := ReallocItem(ptr, size);
    }

    method ReallocItem(ptr: int, size: nat) returns (q: int)
      requires Valid() && (ptr == 0 || ptr in Live(blocks))
      modifies this, data
      ensures Valid()
      ensures State() == ReallocStep(old(State()), ptr, size).0 && q == ReallocStep(old(State()), ptr, size).1
      ensures Carried(old(State()), old(data[..]), data[..], ptr, q, Normalize(size))
    {
      ZeroNotLive(State());
      NothingCarried(State(), data[..], ptr, 0, Normalize(size));
      if size == 0 {
        Free(ptr);
        return 0;
      }
      var n := Normalize(size);
      if ptr == 0 {
        q := Alloc(n);
        return;
      }
      q := Resize(ptr, n);
    }

    /** What giving the payload ptr, behind item k, a size of n relies on. */
    lemma CanResize(ptr: int, n: nat) returns (k: nat)
      requires Valid() && ptr in Live(blocks) && Normalize(n) == n
      ensures ptr != 0 && LiveAt(State(), ptr, k) && (!blocks[k + 1].used ==> k + 2 < |blocks|)
      ensures Live(blocks)[ptr] == Gap(blocks[k], blocks[k + 1]) >= 0
      ensures blocks[k].addr in next && next[blocks[k].addr] == blocks[k + 1].addr
      ensures Carried(State(), data[..], data[..], ptr, ptr, n)
      ensures ResizeStep(State(), ptr, n) ==
        if n > Gap(blocks[k], blocks[k + 1]) && !Grows(blocks, k, n) then MoveStep(State(), ptr, n) else (FitStep(State(), k, n), ptr)
    {
      k := LiveIndex(State(), ptr);
      LiveNonZero(State(), ptr);
      StaysCarried(State(), data[..], ptr, k, n);
      ItemLinks(k);
    }

    /** The payload ptr gets a size of n, in place if it can. */
    method Resize(ptr: int, n: nat) returns (q: int)
      requires Valid() && ptr in Live(blocks) && Normalize(n) == n
      modifies this, data
      ensures Valid()
      ensures State() == ResizeStep(old(State()), ptr, n).0 && q == ResizeStep(old(State()), ptr, n).1
      ensures Carried(old(State()), old(data[..]), data[..], ptr, q, n)
    {
      ghost var given := ResizeKeeps(State(), ptr, n);
      q := ResizeItem(ptr, n);
    }

    method ResizeItem(ptr: int, n: nat) returns (q: int)
      requires Valid() && ptr in Live(blocks) && Normalize(n) == n
      modifies this, data
      ensures Linked() && data.Length == poolSize
      ensures State() == ResizeStep(old(State()), ptr, n).0 && q == ResizeStep(old(State()), ptr, n).1
      ensures Carried(old(State()), old(data[..]), data[..], ptr, q, n)
    {
      ghost var k := CanResize(ptr, n);
      var oldSize := next[ptr - HEADER] - (ptr - HEADER) - HEADER;
      var stays := Fit(ptr - HEADER, n, k);
      q := ptr;
      if !stays {
        q := Move(ptr, n, if oldSize < n then oldSize else n);
      }
    }
  }

  /** The live payload q has n bytes, and less than one more smallest item beyond them unless exactly that. */
  ghost predicate Sized(l: seq<Block>, q: int, n: int)
  {
    q in Live(l) && n <= Live(l)[q] <= n + HEADER + MINIALLOC
  }

  lemma ReallocSized(h: Heap, ptr: int, size: nat)
    requires Inv(h) && (ptr == 0 || ptr in Live(h.blocks))
    ensures size > 0 && ReallocStep(h, ptr, size).1 != 0 ==>
      Sized(ReallocStep(h, ptr, size).0.blocks, ReallocStep(h, ptr, size).1, Normalize(size))
  {
    var given := ReallocKeeps(h, ptr, size);
  }

  // ---- the bytes of live payloads

  /** The payload q starts with the bytes of ptr, as many as both hold, and no other payload changed. */
  ghost predicate Carried(h: Heap, d: seq<int>, d': seq<int>, ptr: int, q: int, n: nat)
  {
    && (q == 0 || q == ptr ==> d' == d)
    && (q != 0 && ptr in Live(h.blocks) ==> Same(d, d', ptr - h.lo, q - h.lo, Basics.Min(Live(h.blocks)[ptr], n)))
    && OthersSame(h, d, d', ptr)
  }

  /** The contents of every live payload but ptr are unchanged. */
  ghost predicate OthersSame(h: Heap, d: seq<int>, d': seq<int>, ptr: int)
  {
    forall p :: p in Live(h.blocks) && p != ptr ==> Same(d, d', p - h.lo, p - h.lo, Live(h.blocks)[p])
  }

  lemma Within(h: Heap, p: int)
    requires Inv(h) && p in Live(h.blocks)
    ensures HEADER <= p - h.lo && p - h.lo + Live(h.blocks)[p] <= h.hi - h.lo && Live(h.blocks)[p] >= 0
  {
    LiveDisjoint(h.blocks, p, p);
  }

  lemma NothingCarried(h: Heap, d: seq<int>, ptr: int, q: int, n: nat)
    requires Inv(h) && |d| == h.hi - h.lo && (q == 0 || q == ptr)
    ensures Carried(h, d, d, ptr, q, n)
  {
    forall p | p in Live(h.blocks) ensures Same(d, d, p - h.lo, p - h.lo, Live(h.blocks)[p]) { Within(h, p); }
  }

  lemma StaysCarried(h: Heap, d: seq<int>, ptr: int, k: nat, n: nat)
    requires Inv(h) && LiveAt(h, ptr, k) && ptr in Live(h.blocks) && |d| == h.hi - h.lo
    ensures Carried(h, d, d, ptr, ptr, n) && Live(h.blocks)[ptr] == Gap(h.blocks[k], h.blocks[k + 1]) >= 0
  {
    LiveKeys(h.blocks, k);
    Within(h, ptr);
    NothingCarried(h, d, ptr, ptr, n);
  }

  /** h1 is h with one more live payload q. */
  ghost predicate Granted(h: Heap, h1: Heap, q: int)
  {
    && Inv(h) && Inv(h1) && h1.lo == h.lo && h1.hi == h.hi && q !in Live(h.blocks) && q in Live(h1.blocks)
    && Live(h1.blocks) == Live(h.blocks)[q := Live(h1.blocks)[q]]
  }

  /** A new payload lies apart from every payload that was there. */
  lemma NewIsApart(h: Heap, h1: Heap, ptr: int, q: int, m: nat)
    requires Granted(h, h1, q) && ptr in Live(h.blocks) && m <= Live(h.blocks)[ptr] && m <= Live(h1.blocks)[q]
    ensures 0 <= q - h.lo && q - h.lo + m <= h.hi - h.lo && 0 <= ptr - h.lo && ptr - h.lo + m <= h.hi - h.lo
    ensures ptr + m <= q || q + m <= ptr
  {
    Within(h1, q);
    Within(h1, ptr);
    LiveDisjoint(h1.blocks, ptr, q);
    LiveDisjoint(h1.blocks, q, ptr);
  }

  lemma CopyIsLocal(h: Heap, h1: Heap, d: seq<int>, d': seq<int>, ptr: int, q: int, m: nat)
    requires Granted(h, h1, q) && m <= Live(h1.blocks)[q] && |d| == h.hi - h.lo && SameBut(d, d', q - h.lo, m)
    ensures OthersSame(h, d, d', ptr)
  {
    forall p | p in Live(h.blocks) && p != ptr ensures Same(d, d', p - h.lo, p - h.lo, Live(h.blocks)[p]) {
      Within(h, p);
      LiveDisjoint(h1.blocks, p, q);
      LiveDisjoint(h1.blocks, q, p);
    }
  }

  /** The first fit is here, or further on. */
  lemma FitFurther(l: seq<Block>, f: seq<int>, n: int, j: nat)
    requires j <= FirstFit(l, f, n) && j < |f|
    ensures if Payload(l, f[j]) >= n then FirstFit(l, f, n) == j else j + 1 <= FirstFit(l, f, n)
  {
  }

  lemma MarkFlags(l: seq<Block>, used: map<int, bool>, k: nat, u: bool)
    requires k < |l| && Flagged(used, l) && Distinct(Addrs(l))
    ensures Flagged(used[l[k].addr := u], l[k := Block(l[k].addr, u)])
    ensures Addrs(l[k := Block(l[k].addr, u)]) == Addrs(l)
  {
    forall i | 0 <= i < |l| && i != k ensures l[i].addr != l[k].addr { assert Addrs(l)[i] != Addrs(l)[k]; }
  }

  function DropAt(l: seq<Block>, k: nat): seq<Block>
    requires k < |l|
  {
    l[..k] + l[k + 1..]
  }

  predicate LeftUnused(l: seq<Block>, k: nat)
    requires k < |l|
  {
    k > 0 && !l[k - 1].used
  }

  function UnmarkStep(h: Heap, k: nat): Heap
    requires k + 1 < |h.blocks|
  {
    h.(blocks := h.blocks[k := Block(h.blocks[k].addr, false)], available := h.available + Gap(h.blocks[k], h.blocks[k + 1]))
  }

  function MergeLeftStep(h: Heap, k: nat): Heap
    requires k < |h.blocks|
  {
    if LeftUnused(h.blocks, k) then h.(blocks := DropAt(h.blocks, k), available := h.available + HEADER) else h
  }

  ghost function MergeRightStep(h: Heap, i: nat): Heap
    requires i + 1 < |h.blocks|
  {
    if h.blocks[i + 1].used then h
    else
      h.(blocks := DropAt(h.blocks, i + 1), free := Without(h.free, h.blocks[i + 1].addr), available := h.available + HEADER)
  }

  function ListStep(h: Heap, item: int, insert: bool): Heap
  {
    if insert then h.(free := [item] + h.free) else h
  }

  ghost function ReleaseStages(h: Heap, n: int, k: nat): Heap
    requires k + 1 < |h.blocks|
  {
    var i := if LeftUnused(h.blocks, k) then k - 1 else k;
    ListStep(MergeRightStep(MergeLeftStep(UnmarkStep(h, k), k), i), n, !LeftUnused(h.blocks, k))
  }

  /** What the stages of a release rely on, one after the other. */
  lemma ReleaseReads(h: Heap, n: int, k: nat, header: int)
    requires k + 1 < |h.blocks| && h.blocks[k].addr == n && n !in [header] + h.free
    requires h.blocks[|h.blocks| - 1].used
    ensures var h1 := UnmarkStep(h, k);
      && LeftUnused(h1.blocks, k) == LeftUnused(h.blocks, k) && h1.blocks[|h1.blocks| - 1].used && h1.blocks[k].addr == n
      && (k > 0 ==> h1.blocks[k - 1] == h.blocks[k - 1])
      && |h1.blocks| == |h.blocks| && h1.free == h.free
    ensures var h2 := MergeLeftStep(UnmarkStep(h, k), k);
      var i := if LeftUnused(h.blocks, k) then k - 1 else k;
      && i + 1 < |h2.blocks| && h2.blocks[i].addr == h.blocks[i].addr && h2.blocks[i + 1] == h.blocks[k + 1]
      && h2.free == h.free
      && n !in [header] + MergeRightStep(h2, i).free
  {
  }

  lemma MergedBlocks(l: seq<Block>, k: nat)
    requires k + 1 < |l|
    ensures k > 0 ==> DropAt(l[k := Block(l[k].addr, false)], k) == l[..k - 1] + [l[k - 1]] + l[k + 1..]
    ensures k + 2 < |l| ==> DropAt(l[k := Block(l[k].addr, false)], k + 1) == l[..k] + [Block(l[k].addr, false)] + l[k + 2..]
    ensures k > 0 && k + 2 < |l| ==> DropAt(l[..k - 1] + [l[k - 1]] + l[k + 1..], k) == l[..k - 1] + [l[k - 1]] + l[k + 2..]
    ensures l[k := Block(l[k].addr, false)] == l[..k] + [Block(l[k].addr, false)] + l[k + 1..]
  {
  }

  /** The four stages of a release, one after the other, are the release step. */
  lemma Released(h: Heap, n: int, k: nat) returns (r: Heap)
    requires k + 1 < |h.blocks| && h.blocks[k].addr == n && Index(h.blocks, n) == k
    requires !h.blocks[k + 1].used ==> k + 2 < |h.blocks|
    ensures r == ReleaseStages(h, n, k) && r == FreeStep(h, n + HEADER)
  {
    r := FreeStep(h, n + HEADER);
    if LeftUnused(h.blocks, k) { ReleaseLeft(h, n, k); } else { ReleaseAlone(h, n, k); }
  }

  lemma ReleaseLeft(h: Heap, n: int, k: nat)
    requires k + 1 < |h.blocks| && h.blocks[k].addr == n && Index(h.blocks, n) == k && LeftUnused(h.blocks, k)
    requires !h.blocks[k + 1].used ==> k + 2 < |h.blocks|
    ensures var h2 := MergeLeftStep(UnmarkStep(h, k), k);
      k < |h2.blocks| && ListStep(MergeRightStep(h2, k - 1), n, false) == FreeStep(h, n + HEADER)
  {
    MergedBlocks(h.blocks, k);
    assert Block(h.blocks[k - 1].addr, false) == h.blocks[k - 1];
  }

  lemma ReleaseAlone(h: Heap, n: int, k: nat)
    requires k + 1 < |h.blocks| && h.blocks[k].addr == n && Index(h.blocks, n) == k && !LeftUnused(h.blocks, k)
    requires !h.blocks[k + 1].used ==> k + 2 < |h.blocks|
    ensures var h2 := MergeLeftStep(UnmarkStep(h, k), k);
      k + 1 < |h2.blocks| && ListStep(MergeRightStep(h2, k), n, true) == FreeStep(h, n + HEADER)
  {
    MergedBlocks(h.blocks, k);
  }

  function AddStep(h: Heap, k: nat, rest: int): Heap
    requires k < |h.blocks|
  {
    h.(blocks := h.blocks[..k + 1] + [Block(rest, false)] + h.blocks[k + 1..])
  }

  function ConsumeStep(h: Heap, n: int): Heap
  {
    h.(available := h.available - n, maxUsed := Max(h.maxUsed, h.hi - h.lo - (h.available - n)))
  }

  ghost function DropRightStep(h: Heap, k: nat): Heap
    requires k + 1 < |h.blocks|
  {
    h.(blocks := DropAt(h.blocks, k + 1), free := Without(h.free, h.blocks[k + 1].addr))
  }

  ghost function SwallowStep(h: Heap, i: nat): Heap
    requires i + 1 < |h.blocks| && (!h.blocks[i + 1].used ==> i + 2 < |h.blocks|)
  {
    if h.blocks[i + 1].used then h
    else
      h.(blocks := DropAt(h.blocks, i + 1), free := Without(h.free, h.blocks[i + 1].addr),
         available := h.available - Gap(h.blocks[i + 1], h.blocks[i + 2]))
  }

  function ListRestStep(h: Heap, i: nat): Heap
    requires i + 1 < |h.blocks|
  {
    h.(free := [h.blocks[i].addr] + h.free, available := h.available + Gap(h.blocks[i], h.blocks[i + 1]))
  }

  lemma AddedFlags(l: seq<Block>, used: map<int, bool>, k: nat, rest: int)
    requires k < |l| && Flagged(used, l) && rest !in Addrs(l)
    ensures Flagged(used[rest := false], l[..k + 1] + [Block(rest, false)] + l[k + 1..])
    ensures Addrs(l[..k + 1] + [Block(rest, false)] + l[k + 1..]) == InsertedAt(Addrs(l), k + 1, rest)
  {
    forall i | 0 <= i < |l| ensures l[i].addr != rest { assert Addrs(l)[i] in Addrs(l); }
  }

  function UnlistStep(h: Heap, j: nat): Heap
    requires j < |h.free|
  {
    h.(free := RemovedAt(h.free, j))
  }

  function MarkUsedStep(h: Heap, k: nat): Heap
    requires k < |h.blocks|
  {
    h.(blocks := h.blocks[k := Block(h.blocks[k].addr, true)])
  }

  function SplitStages(h: Heap, item: int, j: nat, k: nat, n: nat): Heap
    requires j < |h.free| && k < |h.blocks|
  {
    var rest := item + n + HEADER;
    MarkUsedStep(ConsumeStep(ListStep(UnlistStep(AddStep(h, k, rest), j), rest, true), n + HEADER), k)
  }

  lemma SplitIsTake(h: Heap, item: int, j: nat, k: nat, n: nat)
    requires j < |h.free| && h.free[j] == item && k + 1 < |h.blocks| && h.blocks[k].addr == item && Cuts(h.blocks, k, n)
    ensures SplitStages(h, item, j, k, n) == TakeStep(h, j, k, n)
  {
    var l, r := h.blocks, Block(item + n + HEADER, false);
    assert (l[..k + 1] + [r] + l[k + 1..])[k := Block(item, true)] == l[..k] + [Block(item, true), r] + l[k + 1..];
  }

  lemma WholeIsTake(h: Heap, item: int, freeSize: int, j: nat, k: nat, n: nat)
    requires j < |h.free| && h.free[j] == item && k + 1 < |h.blocks| && h.blocks[k].addr == item
    requires freeSize == Gap(h.blocks[k], h.blocks[k + 1]) && !Cuts(h.blocks, k, n)
    ensures MarkUsedStep(UnlistStep(ConsumeStep(h, freeSize), j), k) == TakeStep(h, j, k, n)
  {
    assert h.blocks[k := Block(item, true)] == h.blocks[..k] + [Block(item, true)] + h.blocks[k + 1..];
  }

  /** What the stages of growing in place rely on. */
  lemma GrowReads(h: Heap, item: int, used: int, k: nat, n: int, header: int)
    requires k + 2 < |h.blocks| && h.blocks[k].addr == item && used == Gap(h.blocks[k], h.blocks[k + 1]) && item + HEADER + n !in Addrs(h.blocks)
    requires item + HEADER + n !in [header] + h.free
    ensures var h2 := DropRightStep(ConsumeStep(h, n - used), k);
      && k < |h2.blocks| && h2.blocks[k] == h.blocks[k]
      && item + HEADER + n !in Addrs(h2.blocks) && item + HEADER + n !in [header] + h2.free
  {
    var h2 := DropRightStep(ConsumeStep(h, n - used), k);
    DropAddrs(h.blocks, k + 1);
    assert forall a :: a in RemovedAt(Addrs(h.blocks), k + 1) ==> a in Addrs(h.blocks);
    assert forall a :: a in h2.free ==> a in h.free;
  }

  ghost function GrowStages(h: Heap, item: int, used: int, k: nat, n: int): Heap
    requires k + 2 < |h.blocks|
  {
    var rest := item + HEADER + n;
    ListStep(AddStep(DropRightStep(ConsumeStep(h, n - used), k), k, rest), rest, true)
  }

  lemma GrowIsStages(h: Heap, item: int, used: int, k: nat, n: int)
    requires k + 2 < |h.blocks| && h.blocks[k] == Block(item, true) && used == Gap(h.blocks[k], h.blocks[k + 1])
    ensures GrowStages(h, item, used, k, n) == GrowStep(h, k, n)
  {
    var l, r := h.blocks, Block(item + HEADER + n, false);
    assert Block(l[k].addr, true) == l[k];
    assert DropAt(l, k + 1)[..k + 1] + [r] + DropAt(l, k + 1)[k + 1..] == l[..k] + [l[k], r] + l[k + 2..];
  }

  /** What the stages of shrinking rely on. */
  ghost predicate CutReads(h: Heap, k: nat, rest: int)
  {
    k + 1 < |h.blocks| && (!h.blocks[k + 1].used ==> k + 2 < |h.blocks|) &&
    var h1 := AddStep(h, k, rest);
    && k + 2 < |h1.blocks| && h1.blocks[k + 1] == Block(rest, false) && h1.blocks[k + 2] == h.blocks[k + 1] && h1.free == h.free
    && (!h1.blocks[k + 2].used ==> k + 3 < |h1.blocks|)
    && k + 2 < |SwallowStep(h1, k + 1).blocks| && SwallowStep(h1, k + 1).blocks[k + 1] == Block(rest, false)
    && forall a :: a in SwallowStep(h1, k + 1).free ==> a in h.free
  }

  lemma ShrinkReads(h: Heap, k: nat, n: nat)
    requires k + 1 < |h.blocks| && (!h.blocks[k + 1].used ==> k + 2 < |h.blocks|)
    ensures CutReads(h, k, h.blocks[k].addr + n + HEADER)
  {
  }

  lemma ShrinkStages(h: Heap, k: nat, n: nat)
    requires k + 1 < |h.blocks| && h.blocks[k].used && (!h.blocks[k + 1].used ==> k + 2 < |h.blocks|)
    ensures var h1 := AddStep(h, k, h.blocks[k].addr + n + HEADER);
      && k + 2 < |h1.blocks| && (!h1.blocks[k + 2].used ==> k + 3 < |h1.blocks|)
      && k + 2 < |SwallowStep(h1, k + 1).blocks|
      && ListRestStep(SwallowStep(h1, k + 1), k + 1) == ShrinkStep(h, k, n)
  {
    ShrinkReads(h, k, n);
    ShrinkSlices(h.blocks, k, Block(h.blocks[k].addr + n + HEADER, false));
  }

  lemma ShrinkSlices(l: seq<Block>, k: nat, r: Block)
    requires k + 1 < |l| && l[k].used
    ensures Block(l[k].addr, true) == l[k]
    ensures l[..k + 1] + [r] + l[k + 1..] == l[..k] + [l[k], r] + l[k + 1..]
    ensures k + 2 < |l| ==> DropAt(l[..k + 1] + [r] + l[k + 1..], k + 2) == l[..k] + [l[k], r] + l[k + 2..]
  {
  }

  lemma FitBounds(h: Heap, k: nat, n: nat)
    requires Inv(h) && k + 1 < |h.blocks| && h.blocks[k].used
    ensures n > Gap(h.blocks[k], h.blocks[k + 1]) && Grows(h.blocks, k, n) ==>
      h.blocks[k + 1].addr < h.blocks[k].addr + HEADER + n < h.blocks[k + 2].addr
    ensures n + HEADER + MINIALLOC < Gap(h.blocks[k], h.blocks[k + 1]) ==>
      h.blocks[k].addr < h.blocks[k].addr + HEADER + n < h.blocks[k + 1].addr
  {
  }

  lemma LiveNonZero(h: Heap, ptr: int)
    requires Inv(h) && ptr in Live(h.blocks)
    ensures ptr != 0
  {
    ZeroNotLive(h);
  }

  lemma DropAddrs(l: seq<Block>, k: nat)
    requires k < |l|
    ensures Addrs(DropAt(l, k)) == RemovedAt(Addrs(l), k)
  {
  }

  /** A new item between items k and k + 1 is on no list yet. */
  lemma NewItem(h: Heap, k: nat, a: int)
    requires Inv(h) && k + 1 < |h.blocks| && h.blocks[k].addr < a < h.blocks[k + 1].addr
    ensures a !in Addrs(h.blocks) && a !in h.free && h.lo < a < h.hi
  {
    RestIsNew(h.blocks, k, a);
    GapNotFree(h, k, a);
    if k > 0 { Ordered(h.blocks, 0, k); }
    if k + 1 < |h.blocks| - 1 { Ordered(h.blocks, k + 1, |h.blocks| - 1); }
    forall i | 0 <= i < |h.blocks| ensures Addrs(h.blocks)[i] != a {
      assert h.blocks[i] in h.blocks;
    }
  }

  lemma AllocStays(h: Heap, size: nat)
    ensures AllocStep(h, size).0.lo == h.lo && AllocStep(h, size).0.hi == h.hi
  {
  }
}
