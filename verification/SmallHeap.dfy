/** The small heap, changing its block headers and bytes in place. */
module SmallHeap {
  import opened Bytes
  import opened SmallLayout
  import opened SmallModel
  import opened SmallProofs

  /** The three header fields, each by block offset. */
  datatype Headers = Headers(next: map<int, int>, prev: map<int, int>, used: map<int, bool>)

  ghost predicate NodeAt(g: Headers, l: seq<Block>, i: nat)
    requires i < |l|
  {
    var a := l[i].at;
    && a in g.next && a in g.prev && a in g.used && g.used[a] == l[i].used
    && g.next[a] == (if i + 1 < |l| then l[i + 1].at else a)
    && (i + 1 < |l| ==> g.prev[a] == if i == 0 then 0 else l[i - 1].at)
  }

  /** The headers describe the blocks: next links everywhere, prev links everywhere but in the end stub. */
  ghost predicate Linked(g: Headers, l: seq<Block>)
  {
    forall i :: 0 <= i < |l| ==> NodeAt(g, l, i)
  }

  ghost predicate Ascending(l: seq<Block>)
  {
    forall i, j :: 0 <= i < j < |l| ==> l[i].at < l[j].at
  }

  lemma WellFormedAscends(l: seq<Block>)
    requires WellFormed(l)
    ensures Ascending(l)
  {
    forall i, j | 0 <= i < j < |l| ensures l[i].at < l[j].at { Ascends(l, i, j); }
  }

  /** Header a is the same in both, but for the prev link if that is to change. */
  ghost predicate Kept(g: Headers, g': Headers, a: int, prevToo: bool)
  {
    && (a in g.next ==> a in g'.next && g'.next[a] == g.next[a])
    && (a in g.used ==> a in g'.used && g'.used[a] == g.used[a])
    && (prevToo && a in g.prev ==> a in g'.prev && g'.prev[a] == g.prev[a])
  }

  /** Only headers inside the stretch i .. e and the prev link of block e were written. */
  ghost predicate KeptOutside(g: Headers, g': Headers, l: seq<Block>, i: nat, e: nat)
  {
    forall j :: 0 <= j < |l| && (j < i || j >= e) ==> Kept(g, g', l[j].at, j != e)
  }

  /** Rewriting a stretch of blocks and the prev link behind it keeps the headers right. */
  lemma Relinked(g: Headers, g': Headers, l: seq<Block>, i: nat, e: nat, m: seq<Block>)
    requires Linked(g, l) && i < e < |l| && m != [] && m[0].at == l[i].at && KeptOutside(g, g', l, i, e)
    requires l[e].at in g'.prev && (e + 1 < |l| ==> g'.prev[l[e].at] == m[|m| - 1].at)
    requires var l' := l[..i] + m + l[e..]; forall j :: i <= j < i + |m| ==> NodeAt(g', l', j)
    ensures Linked(g', l[..i] + m + l[e..])
  {
    var l' := l[..i] + m + l[e..];
    forall j | 0 <= j < |l'| ensures NodeAt(g', l', j) {
      if j < i {
        assert NodeAt(g, l, j) && Kept(g, g', l[j].at, true);
        assert l'[j] == l[j] && l'[j + 1].at == l[j + 1].at;
      } else if j >= i + |m| {
        var o := j - i - |m| + e;
        assert NodeAt(g, l, o) && Kept(g, g', l[o].at, o != e);
        assert l'[j] == l[o];
      }
    }
  }

  // ---- hole plugging

  /** The forward half of plug_holes on block k. */
  function Forward(l: seq<Block>, k: nat): seq<Block>
    requires k + 1 < |l|
  {
    if l[k + 1].used then l else l[..k] + [l[k]] + l[k + 2..]
  }

  /** The backward half. */
  function Backward(l: seq<Block>, k: nat): seq<Block>
    requires k + 1 < |l|
  {
    if k == 0 || l[k - 1].used then l else l[..k - 1] + [l[k - 1]] + l[k + 1..]
  }

  function ForwardLfree(l: seq<Block>, k: nat, lfree: int): int
    requires k + 1 < |l|
  {
    if !l[k + 1].used && lfree == l[k + 1].at then l[k].at else lfree
  }

  function BackwardLfree(l: seq<Block>, k: nat, lfree: int): int
    requires k + 1 < |l|
  {
    if k > 0 && !l[k - 1].used && lfree == l[k].at then l[k - 1].at else lfree
  }

  /** One block of the list replaced by some. */
  function Replaced(l: seq<Block>, k: nat, m: seq<Block>): seq<Block>
    requires k + 1 < |l|
  {
    l[..k] + m + l[k + 1..]
  }

  /** Marking block k unused and plugging the holes around it is a release. */
  lemma PluggedIsFreed(l: seq<Block>, k: nat)
    requires k + 2 < |l| || (k + 1 < |l| && l[k + 1].used)
    requires l[k].used
    ensures var m := Replaced(l, k, [Block(l[k].at, false)]);
      k + 1 < |Forward(m, k)| && Backward(Forward(m, k), k) == Freed(l, k)
  {
    var m := Replaced(l, k, [Block(l[k].at, false)]);
    var f := Forward(m, k);
    assert f == l[..k] + [Block(l[k].at, false)] + l[Until(l, k)..];
    if k > 0 && !l[k - 1].used { assert Backward(f, k) == l[..k - 1] + [l[k - 1]] + l[Until(l, k)..]; }
  }

  /** Cutting block k in two and plugging the holes around the rest is a shrink. */
  lemma PluggedIsShrunk(l: seq<Block>, k: nat, n: nat)
    requires k + 2 < |l| || (k + 1 < |l| && l[k + 1].used)
    requires l[k].used
    ensures var m := Replaced(l, k, [l[k], Block(l[k].at + HEADER + n, false)]);
      && k + 2 < |Forward(m, k + 1)|
      && Forward(m, k + 1) == Shrunk(l, k, n) && Backward(Forward(m, k + 1), k + 1) == Shrunk(l, k, n)
  {
    var r := Block(l[k].at + HEADER + n, false);
    var m := Replaced(l, k, [l[k], r]);
    assert m[k] == l[k] && m[k + 1] == r && m[k + 2] == l[k + 1];
    assert Forward(m, k + 1) == l[..k] + [l[k], r] + l[Until(l, k)..];
  }

  class SmallHeap {
    const size: int               // mem_size_aligned
    const data: array<int>        // the bytes, by offset
    var heads: Headers
    var lfree: int
    var used: int                 // used_mem
    var maxUsed: int              // max_mem

    ghost var blocks: seq<Block>

    ghost function State(): Heap
      reads this
    {
      Heap(size, blocks, lfree, used, maxUsed)
    }

    ghost predicate Valid()
      reads this
    {
      Inv(State()) && Linked(heads, blocks) && data.Length == size + HEADER
    }

    /** rt_system_heap_init. */
    constructor (begin: nat, end: nat)
      requires Usable(begin, end)
      ensures Valid() && State() == Initial(RegionSize(begin, end)) && fresh(data)
    {
      var beginAlign, endAlign := (begin + ALIGN - 1) / ALIGN * ALIGN, end / ALIGN * ALIGN;
      var bytes := endAlign - beginAlign - 2 * HEADER;
      size := bytes;
      data := new int[bytes + HEADER];
      heads := Headers(map[0 := bytes + HEADER, bytes + HEADER := bytes + HEADER], map[0 := 0, bytes + HEADER := bytes + HEADER],
                       map[0 := false, bytes + HEADER := true]);
      lfree, used, maxUsed := 0, 0, 0;
      blocks := Initial(bytes).blocks;
      new;
      InitialInv(bytes);
    }

    /** Block k is cut in two: its first n bytes, with the given flag, and an unused rest. */
    method Cut(ptr: int, n: nat, ghost k: nat, flag: bool)
      requires Linked(heads, blocks) && Ascending(blocks) && k + 1 < |blocks| && ptr == blocks[k].at
      requires ptr + HEADER + n < blocks[k + 1].at && blocks[|blocks| - 1].at == size + HEADER
      modifies `heads, `blocks
      ensures Linked(heads, blocks) && Ascending(blocks)
      ensures blocks == Replaced(old(blocks), k, [Block(ptr, flag), Block(ptr + HEADER + n, false)])
    {
      ghost var g, l, r := heads, blocks, ptr + HEADER + n;
      assert NodeAt(g, l, k) && NodeAt(g, l, k + 1);
      var ptr2 := ptr + HEADER + n;
      var after := heads.next[ptr];
      heads := Headers(heads.next[ptr2 := after], heads.prev[ptr2 := ptr], heads.used[ptr2 := false]);
      heads := heads.(next := heads.next[ptr := ptr2], used := heads.used[ptr := flag]);
      if after != size + HEADER {
        heads := heads.(prev := heads.prev[after := ptr2]);
      }
      blocks := Replaced(l, k, [Block(ptr, flag), Block(r, false)]);
      CutLinks(g, heads, l, k, [Block(ptr, flag), Block(r, false)]);
    }

    /** Block k changes its flag. */
    method Mark(ptr: int, flag: bool, ghost k: nat)
      requires Linked(heads, blocks) && Ascending(blocks) && k + 1 < |blocks| && ptr == blocks[k].at
      modifies `heads, `blocks
      ensures Linked(heads, blocks) && Ascending(blocks) && blocks == Replaced(old(blocks), k, [Block(ptr, flag)])
    {
      ghost var g, l := heads, blocks;
      assert NodeAt(g, l, k) && NodeAt(g, l, k + 1);
      heads := heads.(used := heads.used[ptr := flag]);
      blocks := Replaced(l, k, [Block(ptr, flag)]);
      MarkLinks(g, heads, l, k, Block(ptr, flag));
    }

    /** Block k swallows the unused block behind it. */
    method Merge(mem: int, nmem: int, ghost k: nat)
      requires Linked(heads, blocks) && Ascending(blocks) && k + 2 < |blocks|
      requires mem == blocks[k].at && nmem == blocks[k + 1].at
      modifies `heads, `blocks
      ensures Linked(heads, blocks) && Ascending(blocks)
      ensures blocks == old(blocks)[..k] + [old(blocks)[k]] + old(blocks)[k + 2..]
    {
      ghost var g, l := heads, blocks;
      assert NodeAt(g, l, k) && NodeAt(g, l, k + 1) && NodeAt(g, l, k + 2);
      var after := heads.next[nmem];
      heads := heads.(next := heads.next[mem := after], prev := heads.prev[after := mem]);
      blocks := l[..k] + [l[k]] + l[k + 2..];
      MergeLinks(g, heads, l, k);
    }

    /** plug_holes on block k. */
    method PlugHoles(mem: int, ghost k: nat)
      requires Linked(heads, blocks) && Ascending(blocks) && CanPlug(State(), k) && mem == State().blocks[k].at
      modifies `heads, `blocks, `lfree
      ensures Linked(heads, blocks) && State() == Plugged(old(State()), k)
    {
      ForwardKeeps(State(), k);
      PlugNext(mem, k);
      PlugPrev(mem, k);
    }

    method PlugNext(mem: int, ghost k: nat)
      requires Linked(heads, blocks) && Ascending(blocks) && CanPlug(State(), k) && mem == blocks[k].at
      modifies `heads, `blocks, `lfree
      ensures Linked(heads, blocks) && Ascending(blocks) && State() == PlugForward(old(State()), k)
    {
      assert NodeAt(heads, blocks, k) && NodeAt(heads, blocks, k + 1);
      var nmem := heads.next[mem];
      if mem != nmem && !heads.used[nmem] {
        if lfree == nmem {
          lfree := mem;
        }
        Merge(mem, nmem, k);
      }
    }

    method PlugPrev(mem: int, ghost k: nat)
      requires Linked(heads, blocks) && Ascending(blocks) && k + 1 < |blocks| && mem == blocks[k].at && blocks[0].at == 0
      modifies `heads, `blocks, `lfree
      ensures Linked(heads, blocks) && State() == PlugBackward(old(State()), k)
    {
      assert NodeAt(heads, blocks, k) && (k > 0 ==> NodeAt(heads, blocks, k - 1));
      var pmem := heads.prev[mem];
      if pmem != mem && !heads.used[pmem] {
        if lfree == mem {
          lfree := pmem;
        }
        Merge(pmem, mem, k - 1);
      }
    }

    /** lfree moves on to the next unused block or the end stub. */
    method Advance(ghost k: nat)
      requires Linked(heads, blocks) && Ascending(blocks) && k < |blocks| && lfree == blocks[k].at
      requires blocks[|blocks| - 1] == Block(size + HEADER, true)
      modifies `lfree
      ensures lfree == blocks[NextUnused(blocks, k)].at
    {
      ghost var j := k;
      assert NodeAt(heads, blocks, j);
      while heads.used[lfree] && lfree != size + HEADER
        invariant k <= j < |blocks| && lfree == blocks[j].at && NodeAt(heads, blocks, j)
        invariant NextUnused(blocks, j) == NextUnused(blocks, k)
        decreases |blocks| - j
      {
        lfree := heads.next[lfree];
        j := j + 1;
        assert NodeAt(heads, blocks, j);
      }
    }

    /** Block k is handed out for n bytes. */
    method Take(ptr: int, n: nat, ghost k: nat)
      requires Linked(heads, blocks) && WellFormed(blocks) && blocks != [] && blocks[|blocks| - 1] == Block(size + HEADER, true)
      requires k + 1 < |blocks| && ptr == blocks[k].at && !blocks[k].used && Room(blocks, k) >= n > 0
      modifies `heads, `blocks, `lfree, `used, `maxUsed
      ensures Linked(heads, blocks) && State() == TakeStep(old(State()), k, n)
    {
      WellFormedAscends(blocks);
      TakenEnds(blocks, k, n);
      TakeBlock(ptr, n, k);
      if ptr == lfree {
        Advance(k);
      }
    }

    /** Flags, cut and statistics. */
    method TakeBlock(ptr: int, n: nat, ghost k: nat)
      requires Linked(heads, blocks) && Ascending(blocks) && blocks != [] && blocks[|blocks| - 1] == Block(size + HEADER, true)
      requires k + 1 < |blocks| && ptr == blocks[k].at && !blocks[k].used && Room(blocks, k) >= n > 0
      modifies `heads, `blocks, `used, `maxUsed
      ensures Linked(heads, blocks) && Ascending(blocks) && blocks == Taken(old(blocks), k, n)
      ensures State() == TakeStep(old(State()), k, n).(lfree := lfree)
    {
      assert NodeAt(heads, blocks, k);
      var room := heads.next[ptr] - (ptr + HEADER);
      if room >= n + HEADER + MINSIZE {
        Cut(ptr, n, k, true);
        used := used + (n + HEADER);
      } else {
        Mark(ptr, true, k);
        used := used + (room + HEADER);
      }
      if maxUsed < used {
        maxUsed := used;
      }
    }

    /** The search of rt_malloc: first fit from lfree on. */
    method Search(n: nat) returns (p: int)
      requires Valid() && n > 0
      modifies `heads, `blocks, `lfree, `used, `maxUsed
      ensures Linked(heads, blocks) && (State(), p) == SearchStep(old(State()), n)
    {
      ghost var h, g := State(), heads;
      LfreeIndex(h);
      ghost var k := Index(blocks, lfree);
      var ptr := lfree;
      while ptr < size - n
        invariant 0 <= k < |blocks| && ptr == blocks[k].at && State() == h && heads == g
        invariant FirstFit(h, k, n) == FirstFit(h, Index(h.blocks, h.lfree), n)
        decreases |blocks| - k
      {
        EndAbove(h, k);
        assert NodeAt(heads, blocks, k);
        if !heads.used[ptr] && heads.next[ptr] - (ptr + HEADER) >= n {
          Take(ptr, n, k);
          return ptr + HEADER;
        }
        ptr := heads.next[ptr];
        k := k + 1;
      }
      return 0;
    }

    /** rt_malloc. */
    method Malloc(size: nat) returns (p: int)
      requires Valid() && Searchable(State(), size)
      modifies `heads, `blocks, `lfree, `used, `maxUsed
      ensures Valid() && (State(), p) == MallocStep(old(State()), size)
    {
      MallocKeeps(State(), size);
      if size == 0 {
        return 0;
      }
      var n := (size + ALIGN - 1) / ALIGN * ALIGN;
      if n > this.size {
        return 0;
      }
      if n < MINSIZE {
        n := MINSIZE;
      }
      p := Search(n);
    }

    /** Block k becomes unused. */
    method Unuse(mem: int, ghost k: nat)
      requires Linked(heads, blocks) && Ascending(blocks) && k + 1 < |blocks| && mem == blocks[k].at
      modifies `heads, `blocks, `lfree, `used
      ensures Linked(heads, blocks) && Ascending(blocks) && State() == Unused(old(State()), k)
    {
      Mark(mem, false, k);
      assert NodeAt(heads, blocks, k);
      if mem < lfree {
        lfree := mem;
      }
      used := used - (heads.next[mem] - mem);
    }

    /** Block k is given back; r is the outcome. */
    method FreeBlock(mem: int, ghost k: nat, ghost r: Heap)
      requires Linked(heads, blocks) && Ascending(blocks) && k + 1 < |blocks| && mem == blocks[k].at
      requires CanPlug(Unused(State(), k), k) && r == Plugged(Unused(State(), k), k)
      modifies `heads, `blocks, `lfree, `used
      ensures Linked(heads, blocks) && State() == r
    {
      Unuse(mem, k);
      PlugHoles(mem, k);
    }

    /** rt_free. */
    method Free(ptr: int)
      requires Valid() && Holds(State(), ptr)
      modifies `heads, `blocks, `lfree, `used
      ensures Valid() && State() == if ptr == 0 then old(State()) else FreeStep(old(State()), ptr)
    {
      if ptr != 0 {
        FreeKeeps(State(), ptr);
        ghost var k := LiveIndex(State(), ptr);
        WellFormedAscends(blocks);
        ReleaseIsFree(State(), ptr, k);
        FreeBlock(ptr - HEADER, k, FreeStep(State(), ptr));
      }
    }

    /** Block k is cut down to n bytes, and the bytes behind them are given back. */
    method CutBack(ptr: int, n: nat, ghost k: nat)
      requires Linked(heads, blocks) && Ascending(blocks) && k + 1 < |blocks| && ptr == blocks[k].at
      requires ptr + HEADER + n < blocks[k + 1].at && blocks[|blocks| - 1].at == size + HEADER
      modifies `heads, `blocks, `used
      ensures Linked(heads, blocks) && Ascending(blocks) && State() == CutDown(old(State()), k, n)
    {
      assert NodeAt(heads, blocks, k);
      used := used - (heads.next[ptr] - ptr - HEADER - n);
      Cut(ptr, n, k, true);
    }

    /** The bytes of block k behind the first n are given back; r is the outcome. */
    method TrimBlock(ptr: int, n: nat, ghost k: nat, ghost r: Heap)
      requires Linked(heads, blocks) && Ascending(blocks) && k + 1 < |blocks| && ptr == blocks[k].at
      requires ptr + HEADER + n < blocks[k + 1].at && blocks[|blocks| - 1].at == size + HEADER
      requires CanPlug(CutDown(State(), k, n), k + 1) && r == Plugged(CutDown(State(), k, n), k + 1)
      modifies `heads, `blocks, `lfree, `used
      ensures Linked(heads, blocks) && State() == r
    {
      CutBack(ptr, n, k);
      PlugHoles(ptr + HEADER + n, k + 1);
    }

    /** A live block is cut down in place. */
    method Shrink(ptr: int, n: nat, ghost k: nat)
      requires Valid() && k + 1 < |blocks| && blocks[k] == Block(ptr, true) && Until(blocks, k) < |blocks|
      requires blocks[Until(blocks, k)].used && n + HEADER + MINSIZE < Room(blocks, k)
      modifies `heads, `blocks, `lfree, `used
      ensures Valid() && State() == ShrinkStep(old(State()), k, n)
    {
      ShrinkKeeps(State(), k, n);
      ShrinkBlock(ptr, n, k);
    }

    method ShrinkBlock(ptr: int, n: nat, ghost k: nat)
      requires Valid() && k + 1 < |blocks| && blocks[k] == Block(ptr, true) && Until(blocks, k) < |blocks|
      requires blocks[Until(blocks, k)].used && n + HEADER + MINSIZE < Room(blocks, k)
      modifies `heads, `blocks, `lfree, `used
      ensures Linked(heads, blocks) && State() == ShrinkStep(old(State()), k, n)
    {
      WellFormedAscends(blocks);
      TrimIsShrink(State(), k, n);
      TrimBlock(ptr, n, k, ShrinkStep(State(), k, n));
    }

    /** A new block at q takes over the first m bytes of the live one at ptr, which is released; h is the heap
        before the new block was granted. */
    method Transfer(ptr: int, q: int, n: nat, m: nat, ghost h: Heap)
      requires Valid() && Inv(h) && h.size == size && ptr - HEADER in Extents(h.blocks)
      requires Granted(Extents(h.blocks), Extents(blocks), q - HEADER, n)
      requires var room := Extents(h.blocks)[ptr - HEADER] - ptr; m == if room < n then room else n
      modifies `heads, `blocks, `lfree, `used, data
      ensures Valid() && State() == FreeStep(old(State()), ptr) && Carried(h, old(data[..]), data[..], ptr, q, n)
    {
      NewIsApart(h, State(), ptr, q, m);
      Copy(data, q, ptr, m);
      CopyIsLocal(h, State(), old(data[..]), data[..], ptr - HEADER, q, m);
      Free(ptr);
    }

    method Move(ptr: int, n: nat, m: nat) returns (q: int)
      requires Valid() && Holds(State(), ptr) && ptr != 0 && n > 0 && Searchable(State(), n)
      requires var room := Extents(blocks)[ptr - HEADER] - ptr; m == if room < n then room else n
      modifies `heads, `blocks, `lfree, `used, `maxUsed, data
      ensures Valid() && (State(), q) == MoveStep(old(State()), ptr, n)
      ensures Carried(old(State()), old(data[..]), data[..], ptr, q, n)
    {
      ghost var h := State();
      NothingCarried(h, data[..], ptr, n);
      q := Malloc(n);
      if q != 0 {
        MoveGrants(h, State(), q, n);
        Transfer(ptr, q, n, m, h);
      }
    }

    /** rt_realloc. */
    method Realloc(ptr: int, newsize: nat) returns (q: int)
      requires Valid() && Holds(State(), ptr) && Searchable(State(), newsize)
      modifies `heads, `blocks, `lfree, `used, `maxUsed, data
      ensures Valid() && (State(), q) == ReallocStep(old(State()), ptr, newsize)
      ensures Carried(old(State()), old(data[..]), data[..], ptr, q, Align(newsize))
    {
      ZeroIsNoBlock(State());
      NothingSame(data[..], State(), ptr - HEADER);
      var n := (newsize + ALIGN - 1) / ALIGN * ALIGN;
      if n > size {
        return 0;
      } else if n == 0 {
        Free(ptr);
        return 0;
      }
      if ptr == 0 {
        q := Malloc(n);
        return;
      }
      q := Resize(ptr, n);
    }

    /** The block behind ptr is kept, cut down, or moved. */
    method Resize(ptr: int, n: nat) returns (q: int)
      requires Valid() && Holds(State(), ptr) && ptr != 0 && 0 < n <= size && Searchable(State(), n)
      modifies `heads, `blocks, `lfree, `used, `maxUsed, data
      ensures Valid() && (State(), q) == ResizeStep(old(State()), ptr, n)
      ensures Carried(old(State()), old(data[..]), data[..], ptr, q, n)
    {
      ghost var k := LiveIndex(State(), ptr);
      ResizeCases(State(), data[..], ptr, n, k);
      assert NodeAt(heads, blocks, k);
      var room := heads.next[ptr - HEADER] - (ptr - HEADER) - HEADER;
      if room == n {
        return ptr;
      }
      if n + HEADER + MINSIZE < room {
        Shrink(ptr - HEADER, n, k);
        return ptr;
      }
      q := Move(ptr, n, if room < n then room else n);
    }
  }

  lemma TakenEnds(l: seq<Block>, k: nat, n: nat)
    requires k + 1 < |l|
    ensures var r := Taken(l, k, n); k < |r| && r[k].at == l[k].at && r[|r| - 1] == l[|l| - 1]
  {
  }

  /** The block behind q starts with the bytes of the one behind ptr, as many as both hold, and no other block changed. */
  ghost predicate Carried(h: Heap, d: seq<int>, d': seq<int>, ptr: int, q: int, n: nat)
  {
    && (q == 0 || q == ptr ==> d' == d)
    && (q != 0 && ptr - HEADER in Extents(h.blocks) ==>
          var room := Extents(h.blocks)[ptr - HEADER] - ptr; Same(d, d', ptr, q, if room < n then room else n))
    && OthersSame(d, d', Extents(h.blocks), ptr - HEADER)
  }

  lemma MoveGrants(h: Heap, h1: Heap, q: int, n: nat)
    requires Inv(h) && (h1, q) == MallocStep(h, n) && q != 0
    ensures h1.size == h.size && Granted(Extents(h.blocks), Extents(h1.blocks), q - HEADER, n)
  {
    MallocKeeps(h, n);
  }

  lemma NothingCarried(h: Heap, d: seq<int>, ptr: int, n: nat)
    requires Inv(h) && |d| == h.size + HEADER
    ensures Carried(h, d, d, ptr, 0, n)
  {
    NothingSame(d, h, ptr - HEADER);
  }

  lemma ResizeCases(h: Heap, d: seq<int>, ptr: int, n: nat, k: nat)
    requires Inv(h) && LiveAt(h, ptr, k) && |d| == h.size + HEADER
    ensures Room(h.blocks, k) >= 0 && ptr - HEADER in Extents(h.blocks)
    ensures Extents(h.blocks)[ptr - HEADER] - ptr == Room(h.blocks, k) == h.blocks[k + 1].at - ptr
    ensures ResizeStep(h, ptr, n) ==
      if Room(h.blocks, k) == n then (h, ptr)
      else if n + HEADER + MINSIZE < Room(h.blocks, k) then (ShrinkStep(h, k, n), ptr)
      else MoveStep(h, ptr, n)
    ensures n <= Room(h.blocks, k) ==> Carried(h, d, d, ptr, ptr, n)
  {
    Pair(h.blocks, k);
    ExtentAt(h.blocks, k);
    NothingSame(d, h, ptr - HEADER);
    Within(h, ptr - HEADER);
  }

  /** The contents of every used block but the one at a are unchanged. */
  ghost predicate OthersSame(d: seq<int>, d': seq<int>, e: map<int, int>, a: int)
  {
    forall b :: b in e && b != a ==> Same(d, d', b + HEADER, b + HEADER, e[b] - b - HEADER)
  }

  lemma Within(h: Heap, a: int)
    requires Inv(h) && a in Extents(h.blocks)
    ensures 0 <= a && a + HEADER <= Extents(h.blocks)[a] <= h.size + HEADER
  {
    ExtentBounds(h.blocks);
  }

  lemma NothingSame(d: seq<int>, h: Heap, a: int)
    requires Inv(h) && |d| == h.size + HEADER
    ensures OthersSame(d, d, Extents(h.blocks), a)
  {
    forall b | b in Extents(h.blocks) ensures Same(d, d, b + HEADER, b + HEADER, Extents(h.blocks)[b] - b - HEADER) {
      Within(h, b);
    }
  }

  /** A granted block lies apart from every block that was there. */
  lemma NewIsApart(h: Heap, h1: Heap, ptr: int, q: int, m: nat)
    requires Inv(h) && Inv(h1) && h1.size == h.size && ptr - HEADER in Extents(h.blocks)
    requires Granted(Extents(h.blocks), Extents(h1.blocks), q - HEADER, m) && m <= Extents(h.blocks)[ptr - HEADER] - ptr
    ensures 0 <= q && q + m <= h.size + HEADER && 0 <= ptr && ptr + m <= h.size + HEADER && (ptr + m <= q || q + m <= ptr)
    ensures ptr != 0 && Holds(h1, ptr) && q > 0 && q != ptr
  {
    Within(h1, q - HEADER);
    Within(h1, ptr - HEADER);
    if ptr < q { ExtentsApart(h1.blocks, ptr - HEADER, q - HEADER); } else { ExtentsApart(h1.blocks, q - HEADER, ptr - HEADER); }
  }

  lemma CopyIsLocal(h: Heap, h1: Heap, d: seq<int>, d': seq<int>, a: int, q: int, m: nat)
    requires Inv(h) && Inv(h1) && h1.size == h.size && Granted(Extents(h.blocks), Extents(h1.blocks), q - HEADER, m)
    requires |d| == h.size + HEADER && SameBut(d, d', q, m)
    ensures OthersSame(d, d', Extents(h.blocks), a)
  {
    var e := Extents(h.blocks);
    forall b | b in e && b != a ensures Same(d, d', b + HEADER, b + HEADER, e[b] - b - HEADER) {
      Within(h, b);
      NewIsApart(h, h1, b + HEADER, q, 0);
      if b < q - HEADER { ExtentsApart(h1.blocks, b, q - HEADER); } else { ExtentsApart(h1.blocks, q - HEADER, b); }
    }
  }

  function PlugForward(h: Heap, k: nat): Heap
    requires k + 1 < |h.blocks|
  {
    h.(blocks := Forward(h.blocks, k), lfree := ForwardLfree(h.blocks, k, h.lfree))
  }

  function PlugBackward(h: Heap, k: nat): Heap
    requires k + 1 < |h.blocks|
  {
    h.(blocks := Backward(h.blocks, k), lfree := BackwardLfree(h.blocks, k, h.lfree))
  }

  lemma ForwardKeeps(h: Heap, k: nat)
    requires CanPlug(h, k)
    ensures var f := PlugForward(h, k).blocks; k + 1 < |f| && f[k] == h.blocks[k] && f[0].at == 0
  {
  }

  /** plug_holes, as a function. */
  function Plugged(h: Heap, k: nat): Heap
    requires CanPlug(h, k)
  {
    ForwardKeeps(h, k);
    PlugBackward(PlugForward(h, k), k)
  }

  function Unused(h: Heap, k: nat): Heap
    requires k + 1 < |h.blocks|
  {
    var a := h.blocks[k].at;
    h.(blocks := Replaced(h.blocks, k, [Block(a, false)]), lfree := if a < h.lfree then a else h.lfree,
       used := h.used - (h.blocks[k + 1].at - a))
  }

  function CutDown(h: Heap, k: nat, n: int): Heap
    requires k + 1 < |h.blocks|
  {
    var a := h.blocks[k].at;
    h.(blocks := Replaced(h.blocks, k, [Block(a, true), Block(a + HEADER + n, false)]), used := h.used - (Room(h.blocks, k) - n))
  }

  ghost predicate CanPlug(h: Heap, k: nat)
  {
    k + 1 < |h.blocks| && !h.blocks[k].used && (k + 2 < |h.blocks| || h.blocks[k + 1].used)
    && h.blocks[|h.blocks| - 1].used && h.blocks[0].at == 0
  }

  /** Marking, accounting and plugging add up to a release. */
  lemma ReleaseIsFree(h: Heap, ptr: int, k: nat)
    requires Inv(h) && LiveAt(h, ptr, k) && (k + 2 < |h.blocks| || h.blocks[k + 1].used)
    ensures CanPlug(Unused(h, k), k) && Unused(h, k).blocks[k].at == ptr - HEADER && FreeStep(h, ptr) == Plugged(Unused(h, k), k)
  {
    UnusedCanPlug(h, k);
    PluggedIsFreed(h.blocks, k);
    FreeIsFreed(h, ptr, k);
    FreedHint(h, ptr, k, Replaced(h.blocks, k, [Block(ptr - HEADER, false)]),
              if ptr - HEADER < h.lfree then ptr - HEADER else h.lfree);
  }

  lemma UnusedCanPlug(h: Heap, k: nat)
    requires Shape(h.size, h.blocks) && k + 1 < |h.blocks| && (k + 2 < |h.blocks| || h.blocks[k + 1].used)
    ensures CanPlug(Unused(h, k), k) && Unused(h, k).blocks[k].at == h.blocks[k].at
  {
  }

  /** Cutting, accounting and plugging add up to a shrink. */
  lemma TrimIsShrink(h: Heap, k: nat, n: nat)
    requires Inv(h) && k + 1 < |h.blocks| && h.blocks[k].used && Until(h.blocks, k) < |h.blocks| && h.blocks[Until(h.blocks, k)].used
    requires n + HEADER + MINSIZE < Room(h.blocks, k)
    ensures var c := CutDown(h, k, n);
      CanPlug(c, k + 1) && c.blocks[k + 1].at == h.blocks[k].at + HEADER + n && ShrinkStep(h, k, n) == Plugged(c, k + 1)
  {
    CutCanPlug(h, k, n);
    assert h.blocks[k] == Block(h.blocks[k].at, true);
    PluggedIsShrunk(h.blocks, k, n);
    ShrunkLfree(h, k, n);
    CutHint(h, k, n);
  }

  lemma CutCanPlug(h: Heap, k: nat, n: nat)
    requires Shape(h.size, h.blocks) && k + 1 < |h.blocks| && (k + 2 < |h.blocks| || h.blocks[k + 1].used)
    ensures CanPlug(CutDown(h, k, n), k + 1) && CutDown(h, k, n).blocks[k + 1].at == h.blocks[k].at + HEADER + n
  {
  }

  lemma CutHint(h: Heap, k: nat, n: nat)
    requires k + 2 < |h.blocks| || (k + 1 < |h.blocks| && h.blocks[k + 1].used)
    requires h.blocks[k].used
    ensures var m := Replaced(h.blocks, k, [h.blocks[k], Block(h.blocks[k].at + HEADER + n, false)]);
      && k + 2 < |Forward(m, k + 1)|
      && ShrinkStep(h, k, n).lfree == BackwardLfree(Forward(m, k + 1), k + 1, ForwardLfree(m, k + 1, h.lfree))
  {
    var m := Replaced(h.blocks, k, [h.blocks[k], Block(h.blocks[k].at + HEADER + n, false)]);
    assert m[k] == h.blocks[k] && m[k + 2] == h.blocks[k + 1] && Forward(m, k + 1)[k] == m[k] && Forward(m, k + 1)[k + 1] == m[k + 1];
  }

  lemma FreedHint(h: Heap, ptr: int, k: nat, m: seq<Block>, low: int)
    requires Inv(h) && LiveAt(h, ptr, k) && m == Replaced(h.blocks, k, [Block(ptr - HEADER, false)])
    requires low == if ptr - HEADER < h.lfree then ptr - HEADER else h.lfree
    requires k + 1 < |Forward(m, k)|
    ensures FreeStep(h, ptr).lfree == BackwardLfree(Forward(m, k), k, ForwardLfree(m, k, low))
  {
    Pair(h.blocks, k);
    assert m[k + 1] == h.blocks[k + 1] && (k > 0 ==> m[k - 1] == h.blocks[k - 1]);
    assert Forward(m, k)[k] == m[k] && (k > 0 ==> Forward(m, k)[k - 1] == m[k - 1]);
  }

  lemma EndAbove(h: Heap, k: nat)
    requires Inv(h)
    ensures k + 1 == |h.blocks| ==> h.blocks[k].at == h.size + HEADER
  {
  }

  lemma MergeLinks(g: Headers, g': Headers, l: seq<Block>, k: nat)
    requires Linked(g, l) && Ascending(l) && k + 2 < |l|
    requires g' == g.(next := g.next[l[k].at := l[k + 2].at], prev := g.prev[l[k + 2].at := l[k].at])
    ensures var r := l[..k] + [l[k]] + l[k + 2..]; Linked(g', r) && Ascending(r)
  {
    var r := l[..k] + [l[k]] + l[k + 2..];
    assert NodeAt(g, l, k) && NodeAt(g, l, k + 2);
    forall j | 0 <= j < |l| && (j < k || j >= k + 2) ensures Kept(g, g', l[j].at, j != k + 2) { }
    assert r[k] == l[k] && r[k + 1] == l[k + 2];
    assert NodeAt(g', r, k);
    Relinked(g, g', l, k, k + 2, [l[k]]);
    forall i, j | 0 <= i < j < |r| ensures r[i].at < r[j].at {
      assert r[i] == if i <= k then l[i] else l[i + 1];
      assert r[j] == if j <= k then l[j] else l[j + 1];
    }
  }

  lemma CutLinks(g: Headers, g': Headers, l: seq<Block>, k: nat, m: seq<Block>)
    requires Linked(g, l) && Ascending(l) && k + 1 < |l| && |m| == 2 && m[0].at == l[k].at < m[1].at < l[k + 1].at
    requires g'.next == g.next[m[1].at := l[k + 1].at][l[k].at := m[1].at]
    requires g'.used == g.used[m[1].at := m[1].used][l[k].at := m[0].used]
    requires g'.prev == (if k + 2 < |l| then g.prev[m[1].at := l[k].at][l[k + 1].at := m[1].at] else g.prev[m[1].at := l[k].at])
    ensures Linked(g', Replaced(l, k, m)) && Ascending(Replaced(l, k, m))
  {
    var r := Replaced(l, k, m);
    assert NodeAt(g, l, k) && NodeAt(g, l, k + 1);
    forall j | 0 <= j < |l| && (j < k || j >= k + 1) ensures Kept(g, g', l[j].at, j != k + 1) { }
    assert r[k] == m[0] && r[k + 1] == m[1] && r[k + 2] == l[k + 1];
    assert NodeAt(g', r, k) && NodeAt(g', r, k + 1);
    Relinked(g, g', l, k, k + 1, m);
    CutAscends(l, k, m);
  }

  lemma CutAscends(l: seq<Block>, k: nat, m: seq<Block>)
    requires Ascending(l) && k + 1 < |l| && |m| == 2 && m[0].at == l[k].at < m[1].at < l[k + 1].at
    ensures Ascending(Replaced(l, k, m))
  {
    var r := Replaced(l, k, m);
    forall i, j | 0 <= i < j < |r| ensures r[i].at < r[j].at {
      assert r[i] == if i < k then l[i] else if i < k + 2 then m[i - k] else l[i - 1];
      assert r[j] == if j < k then l[j] else if j < k + 2 then m[j - k] else l[j - 1];
    }
  }

  lemma MarkLinks(g: Headers, g': Headers, l: seq<Block>, k: nat, b: Block)
    requires Linked(g, l) && Ascending(l) && k + 1 < |l| && b.at == l[k].at
    requires g' == g.(used := g.used[b.at := b.used])
    ensures Linked(g', Replaced(l, k, [b])) && Ascending(Replaced(l, k, [b]))
  {
    var r := Replaced(l, k, [b]);
    assert NodeAt(g, l, k) && NodeAt(g, l, k + 1);
    forall j | 0 <= j < |l| && (j < k || j >= k + 1) ensures Kept(g, g', l[j].at, j != k + 1) { }
    assert r[k] == b && r[k + 1] == l[k + 1];
    assert NodeAt(g', r, k);
    Relinked(g, g', l, k, k + 1, [b]);
    forall i, j | 0 <= i < j < |r| ensures r[i].at < r[j].at {
      assert r[i].at == l[i].at && r[j].at == l[j].at;
    }
  }
}
