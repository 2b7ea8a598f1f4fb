/** The slab allocator, changing its zones, lists and page table in place. */
module Slab {
  import opened Ring
  import opened PageModel
  import opened SlabSizes
  import M = SlabModel
  import P = SlabProofs
  import L = PageList

  class Slab {
    const zoneSize: int
    const pages: L.PageList                // rt_page_list
    var zones: map<int, M.Zone>            // the zone headers
    var arrays: seq<seq<int>>              // zone_array
    var cached: seq<int>                   // zone_free
    var usage: map<int, M.Usage>           // memusage
    var used: int                          // used_mem
    var maxUsed: int                       // max_mem

    ghost var live: map<int, int>
    ghost var spot: map<int, (int, int)>
    ghost var owner: map<int, M.Owner>

    ghost function State(): M.Slab
      reads this, pages
    {
      M.Slab(zoneSize, zones, arrays, cached, usage, used, maxUsed, pages.runs, live, spot, owner)
    }

    ghost predicate Valid()
      reads this, pages
    {
      M.Inv(State()) && pages.Valid()
    }

    /** rt_system_heap_init. */
    constructor (start: int, npages: nat)
      requires start > 0 && npages > 0
      ensures Valid() && fresh(pages) && State() == P.Initial(start, npages)
    {
      var z := ZoneSizeFor(npages * PAGE);
      var list := new L.PageList(start, npages);
      var table := RoundUp(npages * 4, PAGE) / PAGE;
      P.PageTableFits(npages);
      var memusage := list.Alloc(table);
      zoneSize, pages := z, list;
      zones, arrays, cached, usage := map[], P.EmptyArrays(NZONES), [], map[];
      used, maxUsed := 0, 0;
      live, spot := map[], map[];
      owner := M.Assign(M.Assign(map[], start, npages, M.Unused), start, table, M.Reserved);
      new;
      P.InitialInv(start, npages, z);
    }

    /** Statistics of a successful request. */
    method Charge(n: int)
      modifies `used, `maxUsed
      ensures State() == M.Charge(old(State()), n)
    {
      used := used + n;
      if used > maxUsed {
        maxUsed := used;
      }
    }

    method MallocLarge(size: nat) returns (p: int)
      requires Valid() && size > 0
      modifies this, pages
      ensures pages.Valid() && (State(), p) == M.MallocLarge(old(State()), size)
    {
      var bytes := RoundUp(size, PAGE);
      var n := bytes / PAGE;
      var chunk := pages.Alloc(n);
      if chunk == 0 {
        P.RoundUpPages(size);
        AllocTakes(old(pages.runs), n);
        return 0;
      }
      usage := usage[chunk := M.Large(n)];
      p := chunk * PAGE;
      live, owner := live[p := n * PAGE], M.Assign(owner, chunk, n, M.ByBlock(p));
      Charge(n * PAGE);
    }

    /** A chunk of the first zone of class k. */
    method MallocZone(k: int) returns (p: int)
      requires 0 <= k < |arrays| && arrays[k] != [] && arrays[k][0] in zones && zones[arrays[k][0]].index == k
      requires var z := zones[arrays[k][0]]; z.uindex + 1 == z.nmax ==> z.freed != []
      modifies this
      ensures (State(), p) == M.MallocZone(old(State()), old(arrays)[k][0])
    {
      var zp := arrays[k][0];
      var z := zones[zp];
      var nfree := z.nfree - 1;
      if nfree == 0 {
        arrays := arrays[k := arrays[k][1..]];
      }
      if z.uindex + 1 != z.nmax {
        zones := zones[zp := z.(nfree := nfree, uindex := z.uindex + 1)];
        p := z.base + (z.uindex + 1) * z.size;
        spot := spot[p := (zp, z.uindex + 1)];
      } else {
        p := z.freed[0];
        zones := zones[zp := z.(nfree := nfree, freed := z.freed[1..])];
      }
      live := live[p := z.size];
      Charge(z.size);
    }

    /** Lays out a zone of class k and hands out its first chunk. */
    method OpenZone(zp: int, k: int, size: int) returns (p: int)
      requires 0 <= k < |arrays| && size > 0
      modifies this
      ensures (State(), p) == M.OpenZone(old(State()), zp, k, size)
    {
      var off := ChunkOffset(size);
      var nmax := (zoneSize - off) / size;
      p := zp * PAGE + off;
      zones := zones[zp := M.Zone(nmax - 1, nmax, 0, size, k, p, [])];
      arrays := arrays[k := [zp] + arrays[k]];
      live, spot := live[p := size], spot[p := (zp, 0)];
      Charge(size);
    }

    /** The pages of a new zone lead to it. */
    method Mark(zp: int, n: nat)
      modifies `usage
      ensures usage == M.MarkUsage(old(usage), zp, n)
    {
      var off := 0;
      while off < n
        invariant 0 <= off <= n && usage == M.MarkUsage(old(usage), zp, off)
      {
        usage := usage[zp + off := M.Small(off)];
        off := off + 1;
      }
    }

    method Unmark(zp: int, n: nat)
      modifies `usage
      ensures usage == M.ClearUsage(old(usage), zp, n)
    {
      var i := 0;
      while i < n
        invariant 0 <= i <= n && usage == M.ClearUsage(old(usage), zp, i)
      {
        usage := usage[zp + i := M.Usage.Free];
        i := i + 1;
      }
    }

    method MallocNew(k: int, size: int) returns (p: int)
      requires Valid() && 0 <= k < |arrays| && size > 0
      modifies this, pages
      ensures pages.Valid() && (State(), p) == M.MallocNew(old(State()), k, size)
    {
      if cached != [] {
        var zp := cached[0];
        cached := cached[1..];
        p := OpenZone(zp, k, size);
        return;
      }
      var n := zoneSize / PAGE;
      var zp := pages.Alloc(n);
      if zp == 0 {
        AllocTakes(old(pages.runs), n);
        return 0;
      }
      Mark(zp, n);
      owner := M.Assign(owner, zp, n, M.ByZone(zp));
      p := OpenZone(zp, k, size);
    }

    /** rt_malloc. */
    method Malloc(size: nat) returns (p: int)
      requires Valid()
      modifies this, pages
      ensures Valid() && (State(), p) == M.MallocStep(old(State()), size)
    {
      P.MallocKeeps(State(), size);
      if size == 0 {
        return 0;
      }
      if size >= ZoneLimit(zoneSize) {
        p := MallocLarge(size);
        return;
      }
      ClassBelowLimit(size, zoneSize);
      SmallestClass(size);
      var (k, chunk) := ZoneIndex(size);
      if arrays[k] != [] {
        M.ListedZone(State(), k);
        p := MallocZone(k);
      } else {
        p := MallocNew(k, chunk);
      }
    }

    method FreeLarge(ptr: int)
      requires Valid() && ptr in live && ptr !in spot
      modifies this, pages
      ensures pages.Valid() && ptr / PAGE in old(usage) && old(usage)[ptr / PAGE].Large? && old(usage)[ptr / PAGE].count >= 0
      ensures State() == M.FreeLarge(old(State()), ptr)
    {
      P.FreeLargeKeepsPages(State(), ptr);
      P.BigPagesHeld(State(), ptr);
      GivePages(ptr, ptr / PAGE);
    }

    /** The pages of the block ptr, which starts on the given page, go back to the page allocator. */
    method GivePages(ptr: int, page: int)
      requires pages.Valid() && page == ptr / PAGE > 0 && page in usage && usage[page].Large? && usage[page].count > 0
      requires Span(page, usage[page].count) !! Pages(pages.runs)
      modifies this, pages
      ensures pages.Valid() && State() == M.FreeLarge(old(State()), ptr)
    {
      var n := usage[page].count;
      usage := usage[page := M.Large(0)];
      used := used - n * PAGE;
      pages.Free(page, n);
      live, owner := live - {ptr}, M.Assign(owner, page, n, M.Unused);
    }

    method PutBack(zp: int, ptr: int)
      requires zp in zones && 0 <= zones[zp].index < |arrays|
      modifies this
      ensures State() == M.PutBack(old(State()), zp, ptr)
    {
      var z := zones[zp];
      used := used - z.size;
      if z.nfree == 0 {
        arrays := arrays[z.index := [zp] + arrays[z.index]];
      }
      zones := zones[zp := z.(nfree := z.nfree + 1, freed := [ptr] + z.freed)];
      live := live - {ptr};
    }

    /** The zone leaves its class's list for the list of kept zones. */
    method Retire(zp: int)
      requires zp in zones && 0 <= zones[zp].index < |arrays| && zp in arrays[zones[zp].index]
      modifies this
      ensures State() == M.Retire(old(State()), zp)
    {
      var k := zones[zp].index;
      var list := arrays[k];
      var i := 0;
      while list[i] != zp
        invariant 0 <= i < |list| && zp !in list[..i]
        modifies {}
        decreases |list| - i
      {
        SkipOne(list, i, zp);
        i := i + 1;
      }
      DroppedAt(list, i);
      arrays := arrays[k := list[..i] + list[i + 1..]];
      zones := zones - {zp};
      cached := [zp] + cached;
      spot := spot - M.SpotsOf(spot, zp);
    }

    method Release()
      requires pages.Valid() && zoneSize / PAGE > 0 && cached != [] && cached[0] > 0
      requires Span(cached[0], zoneSize / PAGE) !! Pages(pages.runs)
      modifies this, pages
      ensures pages.Valid() && State() == M.Release(old(State()))
    {
      var zp := cached[0];
      var n := zoneSize / PAGE;
      cached := cached[1..];
      Unmark(zp, n);
      pages.Free(zp, n);
      owner := M.Assign(owner, zp, n, M.Unused);
    }

    /** A chunk goes back to the zone that the page table leads to. */
    method FreeSmall(zp: int, ptr: int)
      requires Valid() && ptr in live && ptr in spot && zp == spot[ptr].0
      modifies this, pages
      ensures pages.Valid() && zp in old(zones) && 0 <= old(zones)[zp].index < |old(arrays)|
      ensures State() == M.FreeSmall(old(State()), zp, ptr)
    {
      P.PutBackKeeps(State(), ptr);
      PutBack(zp, ptr);
      var z := zones[zp];
      if z.nfree == z.nmax && |arrays[z.index]| > 1 {
        P.RetireKeeps(State(), zp);
        P.WholeIsListed(State(), zp);
        Retire(zp);
        if |cached| > M.KEEP {
          P.KeptPages(State());
          Release();
        }
      }
    }

    /** rt_free. */
    method Free(ptr: int)
      requires Valid() && (ptr == 0 || ptr in live)
      modifies this, pages
      ensures Valid()
      ensures State() == if ptr == 0 then old(State()) else M.FreeStep(old(State()), ptr)
    {
      if ptr != 0 {
        P.FreeKeeps(State(), ptr);
        M.LiveHasUsage(State(), ptr);
        var page := ptr / PAGE;
        if usage[page].Large? {
          FreeLarge(ptr);
        } else {
          FreeSmall(page - usage[page].offset, ptr);
        }
      }
    }
  }

  lemma SkipOne(l: seq<int>, i: nat, t: int)
    requires i < |l| && t in l && t !in l[..i] && l[i] != t
    ensures i + 1 < |l| && t !in l[..i + 1]
  {
    assert l[..i + 1] == l[..i] + [l[i]];
    assert l == l[..i] + [l[i]] + l[i + 1..];
    assert t in l[i + 1..];
  }
}
