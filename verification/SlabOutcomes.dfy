/** How big the blocks of the slab allocator are, where they come from, and when memory goes back to the page allocator. */
module SlabOutcomes {
  import opened Basics
  import opened Ring
  import opened PageModel
  import opened SlabSizes
  import opened SlabModel
  import opened SlabProofs

  // ---- sizes

  lemma {:induction false} ClassesAscend(i: int, j: int)
    requires 0 <= i < j < NZONES
    ensures ChunkOf(i) < ChunkOf(j)
    decreases j - i
  {
    if i + 1 < j { ClassesAscend(i, j - 1); }
    NextClass(j - 1);
  }

  lemma NextClass(i: int)
    requires 0 <= i < NZONES - 1
    ensures ChunkOf(i) < ChunkOf(i + 1)
  {
  }

  /** No class of chunks that holds n bytes has smaller chunks than size. */
  ghost predicate SmallestFor(size: int, n: int)
  {
    forall i {:trigger ChunkOf(i)} :: 0 <= i < NZONES && ChunkOf(i) >= n ==> size <= ChunkOf(i)
  }

  lemma IndexIsSmallest(n: int)
    requires 1 <= n < 16384
    ensures SmallestFor(ZoneIndex(n).1, n)
  {
    SmallestClass(n);
    var k := ZoneIndex(n).0;
    forall i | 0 <= i < NZONES && ChunkOf(i) >= n ensures ChunkOf(k) <= ChunkOf(i) {
      if k < i { ClassesAscend(k, i); }
      if i < k - 1 { ClassesAscend(i, k - 1); }
    }
  }

  /** A request below the zone limit gets a chunk of the smallest class that holds it; a bigger one whole pages, and no
      page more than it needs. */
  lemma MallocSize(s: Slab, size: nat)
    requires Inv(s) && MallocStep(s, size).1 != 0
    ensures var (r, p) := MallocStep(s, size);
      && p in r.live
      && (size >= ZoneLimit(s.zoneSize) ==> r.live[p] % PAGE == 0 && size <= r.live[p] < size + PAGE)
      && (size < ZoneLimit(s.zoneSize) ==> size <= r.live[p] && SmallestFor(r.live[p], size))
  {
    MallocKeeps(s, size);
    if size < ZoneLimit(s.zoneSize) {
      ClassBelowLimit(size, s.zoneSize);
      IndexIsSmallest(size);
      SmallestClass(size);
      var k := ZoneIndex(size).0;
      if s.arrays[k] != [] { ListedZone(s, k); }
    }
  }

  // ---- where blocks come from

  /** Zones, lists and page table stay as they are, but for the zone zp. */
  ghost predicate OnlyZone(s: Slab, r: Slab, zp: int)
  {
    && r.zones.Keys == s.zones.Keys && (forall q :: q in s.zones && q != zp ==> r.zones[q] == s.zones[q])
    && r.cached == s.cached && r.runs == s.runs && r.usage == s.usage
  }

  /** r is s with one chunk of zone zp handed out, at p: the next one that was never handed out, or else the one that was
      released last. */
  ghost predicate TakenFrom(s: Slab, r: Slab, p: int, zp: int)
  {
    && zp in s.zones && zp in r.zones && OnlyZone(s, r, zp) && p in r.spot && r.spot[p].0 == zp
    && r.zones[zp].nfree == s.zones[zp].nfree - 1
    && (s.zones[zp].uindex + 1 < s.zones[zp].nmax ==> r.spot[p].1 == s.zones[zp].uindex + 1)
    && (s.zones[zp].uindex + 1 == s.zones[zp].nmax ==> s.zones[zp].freed == [p] + r.zones[zp].freed)
  }

  lemma ZoneGives(s: Slab, zp: int)
    requires zp in s.zones && 0 <= s.zones[zp].index < |s.arrays| && s.arrays[s.zones[zp].index] != []
    requires s.zones[zp].uindex < s.zones[zp].nmax && FreedAt(s.zones, s.spot, zp)
    requires s.zones[zp].uindex + 1 == s.zones[zp].nmax ==> s.zones[zp].freed != []
    ensures TakenFrom(s, MallocZone(s, zp).0, MallocZone(s, zp).1, zp)
  {
    var z := s.zones[zp];
    if z.uindex + 1 == z.nmax { assert z.freed[0] in z.freed; }
  }

  /** While a zone of its class has a free chunk, a small request takes one of the first such zone. */
  lemma ListedZoneServes(s: Slab, size: nat)
    requires Inv(s) && 0 < size < ZoneLimit(s.zoneSize)
    ensures size < 16384 && 0 <= ZoneIndex(size).0 < |s.arrays|
    ensures s.arrays[ZoneIndex(size).0] != [] ==>
      TakenFrom(s, MallocStep(s, size).0, MallocStep(s, size).1, s.arrays[ZoneIndex(size).0][0])
  {
    ClassBelowLimit(size, s.zoneSize);
    SmallestClass(size);
    var k := ZoneIndex(size).0;
    if s.arrays[k] != [] {
      ListedZone(s, k);
      assert FreedAt(s.zones, s.spot, s.arrays[k][0]);
      ZoneGives(s, s.arrays[k][0]);
    }
  }

  /** r is s with the new zone zp of class k, kept before or of new pages, and its first chunk handed out at p. */
  ghost predicate Opened(s: Slab, r: Slab, p: int, k: int, zp: int)
    requires 0 <= k < |s.arrays|
  {
    && p in r.spot && r.spot[p] == (zp, 0) && r.zones.Keys == s.zones.Keys + {zp} && r.arrays == s.arrays[k := [zp] + s.arrays[k]]
    && (s.cached != [] ==> s.cached == [zp] + r.cached && r.runs == s.runs)
    && (s.cached == [] ==> r.cached == [])
    && (s.cached == [] ==> Span(zp, ZonePages(s)) <= Pages(s.runs) && Pages(r.runs) == Pages(s.runs) - Span(zp, ZonePages(s)))
  }

  lemma OpenGives(s: Slab, zp: int, k: int, size: int)
    requires size > 0 && 0 <= k < |s.arrays|
    ensures var (r, p) := OpenZone(s, zp, k, size);
      && p in r.spot && r.spot[p] == (zp, 0) && r.zones.Keys == s.zones.Keys + {zp} && r.arrays == s.arrays[k := [zp] + s.arrays[k]]
      && r.cached == s.cached && r.runs == s.runs
  {
  }

  lemma NewGives(s: Slab, k: int, size: int) returns (zp: int)
    requires size > 0 && 0 <= k < |s.arrays| && s.zoneSize >= PAGE && Canonical(s.runs)
    ensures MallocNew(s, k, size).1 != 0 ==> Opened(s, MallocNew(s, k, size).0, MallocNew(s, k, size).1, k, zp)
  {
    if s.cached != [] {
      zp := s.cached[0];
      OpenGives(s.(cached := s.cached[1..]), zp, k, size);
    } else {
      var runs: seq<Run>;
      runs, zp := AllocStep(s.runs, ZonePages(s)).0, AllocStep(s.runs, ZonePages(s)).1;
      AllocTakes(s.runs, ZonePages(s));
      if zp != 0 {
        OpenGives(s.(runs := runs, usage := MarkUsage(s.usage, zp, ZonePages(s)), owner := Assign(s.owner, zp, ZonePages(s), ByZone(zp))),
                  zp, k, size);
      }
    }
  }

  /** Otherwise it opens a zone: a kept one if there is any, or else one of new pages. */
  lemma NewZoneServes(s: Slab, size: nat) returns (zp: int)
    requires Inv(s) && 0 < size < ZoneLimit(s.zoneSize)
    ensures size < 16384 && 0 <= ZoneIndex(size).0 < |s.arrays|
    ensures s.arrays[ZoneIndex(size).0] == [] && MallocStep(s, size).1 != 0 ==>
      Opened(s, MallocStep(s, size).0, MallocStep(s, size).1, ZoneIndex(size).0, zp)
  {
    ClassBelowLimit(size, s.zoneSize);
    SmallestClass(size);
    zp := NewGives(s, ZoneIndex(size).0, ZoneIndex(size).1);
  }

  /** A request from the zone limit on takes its pages from the page allocator, and no zone changes. */
  lemma PagesServe(s: Slab, size: nat)
    requires Inv(s) && size >= ZoneLimit(s.zoneSize) && MallocStep(s, size).1 != 0
    ensures var (r, p) := MallocStep(s, size);
      && p in r.live && r.zones == s.zones && r.arrays == s.arrays && r.cached == s.cached
      && Span(p / PAGE, r.live[p] / PAGE) <= Pages(s.runs)
      && Pages(r.runs) == Pages(s.runs) - Span(p / PAGE, r.live[p] / PAGE)
  {
    RoundUpPages(size);
    AllocTakes(s.runs, RoundUp(size, PAGE) / PAGE);
  }

  /** A new zone is filled: behind its header there is no room for one more chunk. */
  lemma ZoneIsFilled(s: Slab, zp: int, k: int, size: int)
    requires size > 0 && 0 <= k < |s.arrays|
    ensures var z := OpenZone(s, zp, k, size).0.zones[zp];
      && zp * PAGE + ZONEHEADER <= z.base && z.base + z.nmax * size <= zp * PAGE + s.zoneSize < z.base + (z.nmax + 1) * size
  {
    var room := s.zoneSize - ChunkOffset(size);
    assert room == size * (room / size) + room % size;
  }

  /** The peak counter follows the bytes in use. */
  lemma PeakFollows(s: Slab, size: nat)
    requires Inv(s)
    ensures MallocStep(s, size).0.maxUsed == Max(s.maxUsed, MallocStep(s, size).0.used)
    ensures forall p :: p in s.live ==> FreeStep(s, p).maxUsed == s.maxUsed
  {
    if 0 < size < ZoneLimit(s.zoneSize) {
      ClassBelowLimit(size, s.zoneSize);
      SmallestClass(size);
      if s.arrays[ZoneIndex(size).0] != [] { ListedZone(s, ZoneIndex(size).0); }
    }
    forall p | p in s.live ensures FreeStep(s, p).maxUsed == s.maxUsed { LiveHasUsage(s, p); }
  }

  // ---- what a release gives back

  /** A released block of pages goes back to the page allocator as a whole. */
  lemma PagesReturn(s: Slab, ptr: int)
    requires Inv(s) && ptr in s.live && ptr !in s.spot
    ensures var r := FreeStep(s, ptr);
      && r.zones == s.zones && r.arrays == s.arrays && r.cached == s.cached
      && Pages(r.runs) == Pages(s.runs) + Span(ptr / PAGE, s.live[ptr] / PAGE)
  {
    LiveHasUsage(s, ptr);
    FreeLargeKeepsPages(s, ptr);
    var p, n := ptr / PAGE, s.live[ptr] / PAGE;
    assert Span(p, n) !! Pages(s.runs);
    FreeAdds(s.runs, p, n);
  }

  /** Releasing the chunk makes its zone whole. */
  ghost predicate MakesWhole(s: Slab, zp: int)
  {
    zp in s.zones && s.zones[zp].nfree + 1 == s.zones[zp].nmax
  }

  /** Another zone of the same class has a free chunk. */
  ghost predicate HasOther(s: Slab, zp: int)
  {
    exists o :: o in s.zones && o != zp && zp in s.zones && s.zones[o].index == s.zones[zp].index && s.zones[o].nfree > 0
  }

  lemma OneOther(l: seq<int>, zp: int)
    requires Distinct(l) && zp in l
    ensures |l| > 1 <==> exists o :: o in l && o != zp
  {
    if |l| > 1 {
      var o: int := if l[0] == zp then l[1] else l[0];
      assert o in l && o != zp;
    }
    if o :| o in l && o != zp {
      var i :| 0 <= i < |l| && l[i] == o;
      var j :| 0 <= j < |l| && l[j] == zp;
    }
  }

  lemma OtherListed(s: Slab, ptr: int)
    requires Inv(s) && ptr in s.live && ptr in s.spot
    ensures var zp := s.spot[ptr].0;
      && zp in s.zones && 0 <= s.zones[zp].index < |s.arrays|
      && (|PutBack(s, zp, ptr).arrays[s.zones[zp].index]| > 1 <==> HasOther(s, zp))
  {
    PutBackKeeps(s, ptr);
    var zp := s.spot[ptr].0;
    var c, k := PutBack(s, zp, ptr), s.zones[zp].index;
    assert ZoneOk(s.zoneSize, zp, s.zones[zp]);
    assert ListedAt(c.zones, c.arrays, k);
    OneOther(c.arrays[k], zp);
    forall o | o != zp ensures o in c.arrays[k] <==> o in s.zones && s.zones[o].index == k && s.zones[o].nfree > 0 { }
  }

  /** A released chunk is the first one of its zone to be handed out again. The zone stays as it is listed, unless it is
      whole now and another zone of the class has a free chunk: then it is kept, and if two are kept already its pages go
      back to the page allocator. */
  lemma ChunkReturns(s: Slab, ptr: int)
    requires Inv(s) && ptr in s.live && ptr in s.spot
    ensures var r, zp := FreeStep(s, ptr), s.spot[ptr].0;
      && zp in s.zones
      && (!(MakesWhole(s, zp) && HasOther(s, zp)) ==>
            && zp in r.zones && OnlyZone(s, r, zp) && r.zones[zp].nfree == s.zones[zp].nfree + 1
            && r.zones[zp].freed == [ptr] + s.zones[zp].freed && r.zones[zp].uindex == s.zones[zp].uindex)
      && (MakesWhole(s, zp) && HasOther(s, zp) ==> r.zones.Keys == s.zones.Keys - {zp})
      && (MakesWhole(s, zp) && HasOther(s, zp) && |s.cached| < KEEP ==> r.cached == [zp] + s.cached && r.runs == s.runs)
      && (MakesWhole(s, zp) && HasOther(s, zp) && |s.cached| >= KEEP ==>
            r.cached == s.cached && Pages(r.runs) == Pages(s.runs) + Span(zp, ZonePages(s)))
  {
    LiveHasUsage(s, ptr);
    OtherListed(s, ptr);
    var zp := s.spot[ptr].0;
    if MakesWhole(s, zp) && HasOther(s, zp) && |s.cached| >= KEEP { ZonePagesHeld(s, zp); }
  }

  lemma ZonePagesHeld(s: Slab, zp: int)
    requires Inv(s) && zp in s.zones
    ensures zp > 0 && ZonePages(s) > 0 && Pages(FreeRuns(s.runs, zp, ZonePages(s))) == Pages(s.runs) + Span(zp, ZonePages(s))
  {
    assert HeldAt(ZonePages(s), s.usage, s.owner, zp);
    forall p | p in Span(zp, ZonePages(s)) ensures p !in Pages(s.runs) { assert PageOfZone(s.usage, s.owner, zp, p); }
    FreeAdds(s.runs, zp, ZonePages(s));
  }

  // ---- the fresh heap

  /** In a fresh heap all pages are free but the first ones, which hold the page table of four bytes a page. */
  lemma InitialPages(start: int, npages: nat)
    requires start > 0 && npages > 0
    ensures var s, m := Initial(start, npages), (npages * 4 + PAGE - 1) / PAGE;
      && Pages(s.runs) == Span(start + m, npages - m) && s.zones == map[] && s.cached == [] && s.live == map[]
  {
    var l, m := [Run(start, npages)], RoundUp(npages * 4, PAGE) / PAGE;
    PageTableFits(npages);
    assert Pages(l) == Span(start, npages) by { assert l[1..] == []; }
    AllocTakes(l, m);
    assert AllocStep(l, m).1 == start;
    assert Span(start, npages) - Span(start, m) == Span(start + m, npages - m);
  }
}
