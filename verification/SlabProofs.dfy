/** What every operation of the slab allocator keeps. */
module SlabProofs {
  import opened Basics
  import opened Ring
  import opened PageModel
  import opened SlabSizes
  import opened SlabModel

  // ---- whole pages

  lemma LivePage(s: Slab, ptr: int)
    requires Sound(s) && (ptr in s.live || ptr in s.spot)
    ensures ptr / PAGE in s.owner
    ensures ptr in s.spot ==> s.owner[ptr / PAGE] == ByZone(s.spot[ptr].0)
    ensures ptr !in s.spot ==> s.owner[ptr / PAGE] == ByBlock(ptr)
  {
    if ptr in s.spot { SpotUsage(s, ptr); } else { assert BigAt(s.live, s.usage, s.owner, ptr); }
  }

  lemma HeldPage(s: Slab, zp: int, p: int)
    requires Sound(s) && (zp in s.zones || zp in s.cached) && zp <= p < zp + ZonePages(s)
    ensures PageOfZone(s.usage, s.owner, zp, p)
  {
    assert HeldAt(ZonePages(s), s.usage, s.owner, zp);
  }

  /** A page that is unused holds no live block and no chunk. */
  lemma UnusedPage(s: Slab, p: int)
    requires Sound(s) && p in s.owner && s.owner[p] == Unused
    ensures p * PAGE !in s.live && p * PAGE !in s.spot
    ensures forall zp :: zp in s.zones || zp in s.cached ==> !(zp <= p < zp + ZonePages(s))
  {
    assert p * PAGE / PAGE == p;
    if p * PAGE in s.live || p * PAGE in s.spot { LivePage(s, p * PAGE); }
    forall zp | zp in s.zones || zp in s.cached ensures !(zp <= p < zp + ZonePages(s)) {
      if zp <= p < zp + ZonePages(s) { HeldPage(s, zp, p); }
    }
  }

  /** Zones keep their pages when only pages outside of them change hands. */
  lemma HeldStays(n: int, usage: map<int, Usage>, owner: map<int, Owner>, usage': map<int, Usage>, owner': map<int, Owner>, zp: int)
    requires HeldAt(n, usage, owner, zp)
    requires forall p :: p in owner && owner[p] == ByZone(zp) ==> p in owner' && owner'[p] == owner[p]
    requires forall p :: p in owner && owner[p] == ByZone(zp) && p in usage ==> p in usage' && usage'[p] == usage[p]
    ensures HeldAt(n, usage', owner', zp)
  {
    forall p | zp <= p < zp + n ensures PageOfZone(usage', owner', zp, p) { assert PageOfZone(usage, owner, zp, p); }
  }

  lemma BigStays(live: map<int, int>, usage: map<int, Usage>, owner: map<int, Owner>, live': map<int, int>,
      usage': map<int, Usage>, owner': map<int, Owner>, ptr: int)
    requires ptr in live && BigAt(live, usage, owner, ptr) && ptr in live' && live'[ptr] == live[ptr]
    requires forall p :: p in owner && owner[p] == ByBlock(ptr) ==> p in owner' && owner'[p] == owner[p]
    requires ptr / PAGE in usage' && usage'[ptr / PAGE] == usage[ptr / PAGE]
    ensures BigAt(live', usage', owner', ptr)
  {
  }

  lemma RoundUpPages(size: nat)
    requires size > 0
    ensures RoundUp(size, PAGE) / PAGE > 0 && RoundUp(size, PAGE) / PAGE * PAGE >= size
  {
  }

  /** The pages that an allocation takes were unused, and become somebody's. */
  lemma TakesUnused(s: Slab, n: nat, o: Owner)
    requires Sound(s) && n > 0 && AllocRuns(s.runs, n).1 != 0 && o != Unused
    ensures var (runs, p) := AllocRuns(s.runs, n);
      var owner' := Assign(s.owner, p, n, o);
      && p > 0 && Canonical(runs) && (forall q :: q in Pages(runs) <==> q in owner' && owner'[q] == Unused)
      && forall q :: p <= q < p + n ==> q in s.owner && s.owner[q] == Unused
  {
    var (runs, p) := AllocRuns(s.runs, n);
    AllocTakes(s.runs, n);
    forall q | q in Span(p, n) ensures q in s.owner && s.owner[q] == Unused { assert q in Pages(s.runs); }
  }

  /** Nothing changes for a block of pages when unused pages change hands. */
  lemma BigOutside(s: Slab, p: int, n: nat, ptr: int, live': map<int, int>, usage': map<int, Usage>, owner': map<int, Owner>)
    requires Sound(s) && ptr in s.live && ptr !in s.spot && ptr in live' && live'[ptr] == s.live[ptr]
    requires forall q :: p <= q < p + n ==> q in s.owner && s.owner[q] == Unused
    requires forall q :: q in s.owner && !(p <= q < p + n) ==> q in owner' && owner'[q] == s.owner[q]
    requires forall q :: q in s.usage && !(p <= q < p + n) ==> q in usage' && usage'[q] == s.usage[q]
    ensures BigAt(live', usage', owner', ptr)
  {
    assert BigAt(s.live, s.usage, s.owner, ptr);
    assert ptr / PAGE in s.owner && s.owner[ptr / PAGE] == ByBlock(ptr);
    BigStays(s.live, s.usage, s.owner, live', usage', owner', ptr);
  }

  lemma LargeKeepsPages(s: Slab, n: nat)
    requires Sound(s) && n > 0 && AllocRuns(s.runs, n).1 != 0
    ensures var (runs, p) := AllocRuns(s.runs, n);
      && PageInv(ZonePages(s), s.zones, s.cached, s.usage[p := Large(n)], runs, s.live[p * PAGE := n * PAGE], s.spot,
           Assign(s.owner, p, n, ByBlock(p * PAGE)))
      && p * PAGE !in s.live && p * PAGE !in s.spot && p > 0
  {
    var (runs, p) := AllocRuns(s.runs, n);
    TakesUnused(s, n, ByBlock(p * PAGE));
    UnusedPage(s, p);
    var usage', live', owner' := s.usage[p := Large(n)], s.live[p * PAGE := n * PAGE], Assign(s.owner, p, n, ByBlock(p * PAGE));
    forall zp | zp in s.zones || zp in s.cached ensures HeldAt(ZonePages(s), usage', owner', zp) {
      assert HeldAt(ZonePages(s), s.usage, s.owner, zp);
      HeldStays(ZonePages(s), s.usage, s.owner, usage', owner', zp);
    }
    forall ptr | ptr in live' && ptr !in s.spot ensures BigAt(live', usage', owner', ptr) {
      if ptr != p * PAGE { BigOutside(s, p, n, ptr, live', usage', owner'); } else { NewBig(live', usage', owner', p, n); }
    }
  }

  lemma NewBig(live: map<int, int>, usage: map<int, Usage>, owner: map<int, Owner>, p: int, n: nat)
    requires p > 0 && n > 0 && p * PAGE in live && live[p * PAGE] == n * PAGE && p in usage && usage[p] == Large(n)
    requires forall q :: p <= q < p + n ==> q in owner && owner[q] == ByBlock(p * PAGE)
    ensures BigAt(live, usage, owner, p * PAGE)
  {
    assert p * PAGE / PAGE == p && n * PAGE / PAGE == n;
  }

  /** A live block that is added next to the chunks does not concern them. */
  lemma ChunksStay(zones: map<int, Zone>, live: map<int, int>, spot: map<int, (int, int)>, live': map<int, int>)
    requires ChunkInv(zones, live, spot)
    requires forall p :: p in spot ==> (p in live' <==> p in live) && (p in live ==> live'[p] == live[p])
    ensures ChunkInv(zones, live', spot)
  {
    forall p | p in spot ensures SpotAt(zones, live', spot, p) { assert SpotAt(zones, live, spot, p); }
  }

  lemma MallocLargeKeeps(s: Slab, size: nat)
    requires Sound(s) && size > 0
    ensures Sound(MallocLarge(s, size).0)
  {
    var n := RoundUp(size, PAGE) / PAGE;
    RoundUpPages(size);
    if AllocStep(s.runs, n).1 != 0 {
      LargeKeepsPages(s, n);
      var p := AllocRuns(s.runs, n).1;
      ChunksStay(s.zones, s.live, s.spot, s.live[p * PAGE := n * PAGE]);
      TotalAdd(s.live, p * PAGE, n * PAGE);
    } else {
      AllocTakes(s.runs, n);
    }
  }

  lemma FreeLargeKeepsPages(s: Slab, ptr: int)
    requires Sound(s) && ptr in s.live && ptr !in s.spot
    ensures ptr / PAGE in s.usage && s.usage[ptr / PAGE].Large? && s.usage[ptr / PAGE].count * PAGE == s.live[ptr]
    ensures var p, n := ptr / PAGE, s.usage[ptr / PAGE].count;
      && n > 0
      && PageInv(ZonePages(s), s.zones, s.cached, s.usage[p := Large(0)], FreeRuns(s.runs, p, n), s.live - {ptr}, s.spot,
           Assign(s.owner, p, n, Unused))
  {
    assert BigAt(s.live, s.usage, s.owner, ptr);
    var p, n := ptr / PAGE, s.usage[ptr / PAGE].count;
    var usage', live', owner' := s.usage[p := Large(0)], s.live - {ptr}, Assign(s.owner, p, n, Unused);
    assert Span(p, n) !! Pages(s.runs);
    FreeAdds(s.runs, p, n);
    assert p in s.owner && s.owner[p] == ByBlock(ptr);
    forall zp | zp in s.zones || zp in s.cached ensures HeldAt(ZonePages(s), usage', owner', zp) {
      HeldStays(ZonePages(s), s.usage, s.owner, usage', owner', zp);
    }
    forall q | q in live' && q !in s.spot ensures BigAt(live', usage', owner', q) {
      assert BigAt(s.live, s.usage, s.owner, q);
      assert q / PAGE in s.owner && s.owner[q / PAGE] == ByBlock(q);
      BigStays(s.live, s.usage, s.owner, live', usage', owner', q);
    }
  }

  lemma FreeLargeKeeps(s: Slab, ptr: int)
    requires Sound(s) && ptr in s.live && ptr !in s.spot
    ensures ptr / PAGE in s.usage && s.usage[ptr / PAGE].Large? && s.usage[ptr / PAGE].count >= 0 && Sound(FreeLarge(s, ptr))
  {
    FreeLargeKeepsPages(s, ptr);
    ChunksStay(s.zones, s.live, s.spot, s.live - {ptr});
    TotalRemove(s.live, ptr);
  }

  // ---- chunks

  /** A chunk above the fresh index of a zone was never handed out and is not live. */
  lemma FreshChunk(s: Slab, zp: int)
    requires Sound(s) && zp in s.zones && s.zones[zp].uindex + 1 < s.zones[zp].nmax
    ensures var p := Address(s.zones[zp], s.zones[zp].uindex + 1); p !in s.spot && p !in s.live
  {
    var z := s.zones[zp];
    var p := Address(z, z.uindex + 1);
    assert ZoneOk(s.zoneSize, zp, z);
    ChunkBounds(s.zoneSize, zp, z, z.uindex + 1);
    PageOf(s.zoneSize, zp, p);
    HeldPage(s, zp, p / PAGE);
    if p in s.spot || p in s.live { LivePage(s, p); }
    if p in s.spot { SpotBelow(s, p); ChunksApart(z, s.spot[p].1, z.uindex + 1); }
  }

  lemma SpotBelow(s: Slab, p: int)
    requires Sound(s) && p in s.spot
    ensures var (zp, i) := s.spot[p]; zp in s.zones && 0 <= i <= s.zones[zp].uindex && p == Address(s.zones[zp], i)
  {
    assert SpotAt(s.zones, s.live, s.spot, p);
  }

  /** A fresh chunk p of zone zp, number i, becomes live. */
  lemma HandFresh(zones: map<int, Zone>, live: map<int, int>, spot: map<int, (int, int)>, zp: int, z': Zone, p: int)
    requires ChunkInv(zones, live, spot) && zp in zones && p !in spot && p !in live
    requires z' == zones[zp].(nfree := z'.nfree, uindex := zones[zp].uindex + 1) && p == Address(z', z'.uindex)
    requires z'.uindex >= 0 && p !in z'.freed
    ensures ChunkInv(zones[zp := z'], live[p := z'.size], spot[p := (zp, z'.uindex)])
  {
    var zones', live', spot' := zones[zp := z'], live[p := z'.size], spot[p := (zp, z'.uindex)];
    forall q | q in spot' ensures SpotAt(zones', live', spot', q) {
      if q != p { assert SpotAt(zones, live, spot, q); }
    }
    forall y | y in zones' ensures FreedAt(zones', spot', y) { assert FreedAt(zones, spot, y); }
    forall y, i | y in zones' && 0 <= i <= zones'[y].uindex ensures HandedAt(zones', spot', y, i) {
      if y != zp || i <= zones[zp].uindex { assert HandedAt(zones, spot, y, i); }
    }
  }

  /** The last freed chunk of zone zp becomes live again. */
  lemma HandFreed(zones: map<int, Zone>, live: map<int, int>, spot: map<int, (int, int)>, zp: int, z': Zone, p: int)
    requires ChunkInv(zones, live, spot) && zp in zones && zones[zp].freed != [] && Distinct(zones[zp].freed)
    requires p == zones[zp].freed[0] && z' == zones[zp].(nfree := z'.nfree, freed := zones[zp].freed[1..])
    ensures p in spot && p !in live && ChunkInv(zones[zp := z'], live[p := z'.size], spot)
  {
    assert FreedAt(zones, spot, zp) && p in zones[zp].freed;
    assert SpotAt(zones, live, spot, p);
    PopDistinct(zones[zp].freed);
    var zones', live' := zones[zp := z'], live[p := z'.size];
    forall q | q in spot ensures SpotAt(zones', live', spot, q) { assert SpotAt(zones, live, spot, q); }
    forall y | y in zones' ensures FreedAt(zones', spot, y) { assert FreedAt(zones, spot, y); }
    forall y, i | y in zones' && 0 <= i <= zones'[y].uindex ensures HandedAt(zones', spot, y, i) {
      assert HandedAt(zones, spot, y, i);
    }
  }

  /** A live chunk goes to the front of its zone's chain. */
  lemma PutChunk(zones: map<int, Zone>, live: map<int, int>, spot: map<int, (int, int)>, zp: int, z': Zone, p: int)
    requires ChunkInv(zones, live, spot) && p in spot && spot[p].0 == zp && p in live && zp in zones
    requires z' == zones[zp].(nfree := z'.nfree, freed := [p] + zones[zp].freed)
    ensures p !in zones[zp].freed && live[p] == z'.size
    ensures ChunkInv(zones[zp := z'], live - {p}, spot)
  {
    assert SpotAt(zones, live, spot, p);
    var zones', live' := zones[zp := z'], live - {p};
    forall q | q in spot ensures SpotAt(zones', live', spot, q) { assert SpotAt(zones, live, spot, q); }
    forall y | y in zones' ensures FreedAt(zones', spot, y) { assert FreedAt(zones, spot, y); }
    forall y, i | y in zones' && 0 <= i <= zones'[y].uindex ensures HandedAt(zones', spot, y, i) {
      assert HandedAt(zones, spot, y, i);
    }
  }

  // ---- the lists of zones

  /** Zone zp keeps its class, and its free count changes to n. */
  lemma Relist(zones: map<int, Zone>, arrays: seq<seq<int>>, cached: seq<int>, zp: int, z': Zone, arrays': seq<seq<int>>)
    requires ListInv(zones, arrays, cached) && zp in zones && 0 <= zones[zp].index < NZONES
    requires z'.index == zones[zp].index && |arrays'| == |arrays|
    requires forall k :: 0 <= k < NZONES && k != z'.index ==> arrays'[k] == arrays[k]
    requires Distinct(arrays'[z'.index])
    requires forall y :: y in arrays'[z'.index] <==> (y in arrays[z'.index] && y != zp) || (y == zp && z'.nfree > 0)
    ensures ListInv(zones[zp := z'], arrays', cached)
  {
    var zones' := zones[zp := z'];
    forall k | 0 <= k < NZONES ensures ListedAt(zones', arrays', k) { assert ListedAt(zones, arrays, k); }
  }

  /** Changing a zone's header does not touch its pages. */
  lemma PagesIgnoreHeaders(n: int, zones: map<int, Zone>, cached: seq<int>, usage: map<int, Usage>, runs: seq<Run>,
      live: map<int, int>, spot: map<int, (int, int)>, owner: map<int, Owner>,
      zones': map<int, Zone>, live': map<int, int>, spot': map<int, (int, int)>)
    requires PageInv(n, zones, cached, usage, runs, live, spot, owner)
    requires forall zp :: zp in zones' ==> zp in zones || HeldAt(n, usage, owner, zp)
    requires forall p :: p in live' && p !in spot' ==> p in live && p !in spot && live'[p] == live[p]
    ensures PageInv(n, zones', cached, usage, runs, live', spot', owner)
  {
    forall p | p in live' && p !in spot' ensures BigAt(live', usage, owner, p) { assert BigAt(live, usage, owner, p); }
  }

  lemma MallocZoneKeeps(s: Slab, k: int)
    requires Sound(s) && 0 <= k < NZONES && s.arrays[k] != []
    ensures var zp := s.arrays[k][0];
      && zp in s.zones && 0 <= s.zones[zp].index < |s.arrays| && s.arrays[s.zones[zp].index] != []
      && (s.zones[zp].uindex + 1 == s.zones[zp].nmax ==> s.zones[zp].freed != [])
      && Sound(MallocZone(s, zp).0) && MallocZone(s, zp).1 !in s.live
      && MallocZone(s, zp).0.live == s.live[MallocZone(s, zp).1 := s.zones[zp].size]
  {
    ListedZone(s, k);
    var zp := s.arrays[k][0];
    var z := s.zones[zp];
    assert ListedAt(s.zones, s.arrays, k);
    PopDistinct(s.arrays[k]);
    if z.uindex + 1 != z.nmax { MallocFreshKeeps(s, zp); } else { MallocFreedKeeps(s, zp); }
  }

  lemma RelistAfterTake(s: Slab, zp: int, z': Zone)
    requires Sound(s) && zp in s.zones && 0 <= s.zones[zp].index < |s.arrays| && s.arrays[s.zones[zp].index] != []
    requires zp == s.arrays[s.zones[zp].index][0] && z'.index == s.zones[zp].index && z'.nfree == s.zones[zp].nfree - 1
    ensures var k := z'.index;
      ListInv(s.zones[zp := z'], if z'.nfree == 0 then s.arrays[k := s.arrays[k][1..]] else s.arrays, s.cached)
  {
    var k := z'.index;
    assert ListedAt(s.zones, s.arrays, k);
    assert zp in s.arrays[k];
    PopDistinct(s.arrays[k]);
    Relist(s.zones, s.arrays, s.cached, zp, z', if z'.nfree == 0 then s.arrays[k := s.arrays[k][1..]] else s.arrays);
  }

  ghost predicate Taken(s: Slab, zp: int)
  {
    && Sound(s) && zp in s.zones && 0 <= s.zones[zp].index < |s.arrays| && s.arrays[s.zones[zp].index] != []
    && zp == s.arrays[s.zones[zp].index][0] && s.zones[zp].nfree > 0 && ZoneOk(s.zoneSize, zp, s.zones[zp])
  }

  /** Zone zp with the header z' hands out chunk p. */
  ghost predicate Hands(s: Slab, zp: int, z': Zone, p: int, spot': map<int, (int, int)>)
  {
    && ZoneOk(s.zoneSize, zp, z') && p !in s.live && ChunkInv(s.zones[zp := z'], s.live[p := z'.size], spot')
    && p in spot' && forall q :: q in s.spot ==> q in spot'
  }

  lemma HandedIsSound(s: Slab, zp: int, z': Zone, p: int, arrays': seq<seq<int>>, spot': map<int, (int, int)>, r: Slab)
    requires Sound(s) && Hands(s, zp, z', p, spot') && (zp in s.zones || HeldAt(ZonePages(s), s.usage, s.owner, zp))
    requires ListInv(s.zones[zp := z'], arrays', s.cached)
    requires r == HandOut(s.(zones := s.zones[zp := z'], arrays := arrays', spot := spot'), zp, p, z'.size)
    ensures Sound(r)
  {
    PagesIgnoreHeaders(ZonePages(s), s.zones, s.cached, s.usage, s.runs, s.live, s.spot, s.owner,
      s.zones[zp := z'], s.live[p := z'.size], spot');
    TotalAdd(s.live, p, z'.size);
  }

  lemma MallocFreshKeeps(s: Slab, zp: int)
    requires Taken(s, zp) && s.zones[zp].uindex + 1 != s.zones[zp].nmax
    ensures Sound(MallocZone(s, zp).0) && MallocZone(s, zp).1 !in s.live
    ensures MallocZone(s, zp).0.live == s.live[MallocZone(s, zp).1 := s.zones[zp].size]
  {
    var z := s.zones[zp];
    var z' := z.(nfree := z.nfree - 1, uindex := z.uindex + 1);
    var p := Address(z, z.uindex + 1);
    FreshChunk(s, zp);
    assert p !in z.freed by { assert FreedAt(s.zones, s.spot, zp); }
    HandFresh(s.zones, s.live, s.spot, zp, z', p);
    RelistAfterTake(s, zp, z');
    var (r, q) := MallocZone(s, zp);
    HandedIsSound(s, zp, z', p, r.arrays, r.spot, r);
  }

  lemma MallocFreedKeeps(s: Slab, zp: int)
    requires Taken(s, zp) && s.zones[zp].uindex + 1 == s.zones[zp].nmax
    ensures s.zones[zp].freed != [] && Sound(MallocZone(s, zp).0) && MallocZone(s, zp).1 !in s.live
    ensures MallocZone(s, zp).0.live == s.live[MallocZone(s, zp).1 := s.zones[zp].size]
  {
    var z := s.zones[zp];
    var z' := z.(nfree := z.nfree - 1, freed := z.freed[1..]);
    var p := z.freed[0];
    HandFreed(s.zones, s.live, s.spot, zp, z', p);
    PopDistinct(z.freed);
    RelistAfterTake(s, zp, z');
    var (r, q) := MallocZone(s, zp);
    HandedIsSound(s, zp, z', p, r.arrays, s.spot, r);
  }

  // ---- a new zone

  lemma NewChunk(zones: map<int, Zone>, live: map<int, int>, spot: map<int, (int, int)>, zp: int, z: Zone)
    requires ChunkInv(zones, live, spot) && zp !in zones && z.base !in spot && z.base !in live && z.uindex == 0 && z.freed == []
    ensures ChunkInv(zones[zp := z], live[z.base := z.size], spot[z.base := (zp, 0)])
  {
    var p := z.base;
    assert Address(z, 0) == p;
    var zones', live', spot' := zones[zp := z], live[p := z.size], spot[p := (zp, 0)];
    forall q | q in spot' ensures SpotAt(zones', live', spot', q) {
      if q != p { assert SpotAt(zones, live, spot, q); }
    }
    forall y | y in zones' ensures FreedAt(zones', spot', y) { if y != zp { assert FreedAt(zones, spot, y); } }
    forall y, i | y in zones' && 0 <= i <= zones'[y].uindex ensures HandedAt(zones', spot', y, i) {
      if y != zp { assert HandedAt(zones, spot, y, i); }
    }
  }

  lemma NewList(zones: map<int, Zone>, arrays: seq<seq<int>>, cached: seq<int>, zp: int, z: Zone)
    requires ListInv(zones, arrays, cached) && zp !in zones && zp !in cached && 0 <= z.index < NZONES && z.nfree > 0
    ensures ListInv(zones[zp := z], arrays[z.index := [zp] + arrays[z.index]], cached)
  {
    var zones', arrays' := zones[zp := z], arrays[z.index := [zp] + arrays[z.index]];
    forall k | 0 <= k < NZONES ensures ListedAt(zones', arrays', k) {
      assert ListedAt(zones, arrays, k);
      if k == z.index { assert zp !in arrays[k]; }
    }
  }

  lemma NewZoneOk(zoneSize: int, zp: int, k: int, size: int)
    requires zp > 0 && 0 <= k < NZONES && size > 0 && size == ChunkOf(k) && MaxChunks(zoneSize, size) >= 2
    requires ChunkOffset(size) + MaxChunks(zoneSize, size) * size <= zoneSize
    ensures var nmax, p := MaxChunks(zoneSize, size), zp * PAGE + ChunkOffset(size);
      ZoneOk(zoneSize, zp, Zone(nmax - 1, nmax, 0, size, k, p, [])) && zp * PAGE <= p < zp * PAGE + zoneSize
  {
    Multiple(0, MaxChunks(zoneSize, size), size);
  }

  /** Nothing in the pages held for a zone to be is a chunk or live. */
  lemma InsideUnused(s: Slab, zp: int, p: int)
    requires Sound(s) && zp !in s.zones && HeldAt(ZonePages(s), s.usage, s.owner, zp) && zp * PAGE <= p < zp * PAGE + s.zoneSize
    ensures p !in s.spot && p !in s.live
  {
    PageOf(s.zoneSize, zp, p);
    assert PageOfZone(s.usage, s.owner, zp, p / PAGE);
    if p in s.spot { SpotBelow(s, p); }
    if p in s.live || p in s.spot { LivePage(s, p); }
  }

  lemma OpenZoneKeeps(s: Slab, zp: int, k: int, size: int)
    requires Sound(s) && zp !in s.zones && zp !in s.cached && HeldAt(ZonePages(s), s.usage, s.owner, zp)
    requires 0 <= k < NZONES && size > 0 && size == ChunkOf(k) && MaxChunks(s.zoneSize, size) >= 2
    requires ChunkOffset(size) >= ZONEHEADER && ChunkOffset(size) + MaxChunks(s.zoneSize, size) * size <= s.zoneSize
    ensures Sound(OpenZone(s, zp, k, size).0) && OpenZone(s, zp, k, size).1 !in s.live
    ensures OpenZone(s, zp, k, size).0.live == s.live[OpenZone(s, zp, k, size).1 := size]
  {
    var nmax := MaxChunks(s.zoneSize, size);
    var p := zp * PAGE + ChunkOffset(size);
    var z := Zone(nmax - 1, nmax, 0, size, k, p, []);
    NewZoneOk(s.zoneSize, zp, k, size);
    InsideUnused(s, zp, p);
    NewChunk(s.zones, s.live, s.spot, zp, z);
    NewList(s.zones, s.arrays, s.cached, zp, z);
    HandedIsSound(s, zp, z, p, s.arrays[k := [zp] + s.arrays[k]], s.spot[p := (zp, 0)], OpenZone(s, zp, k, size).0);
  }

  /** Pages for a new zone. */
  ghost function Claim(s: Slab): Slab
    requires s.zoneSize >= 0
  {
    var (runs, p) := AllocStep(s.runs, ZonePages(s));
    s.(runs := runs, usage := MarkUsage(s.usage, p, ZonePages(s)), owner := Assign(s.owner, p, ZonePages(s), ByZone(p)))
  }

  lemma ClaimKeeps(s: Slab)
    requires Sound(s) && AllocStep(s.runs, ZonePages(s)).1 != 0
    ensures var p := AllocStep(s.runs, ZonePages(s)).1;
      Sound(Claim(s)) && p !in s.zones && p !in s.cached && HeldAt(ZonePages(s), Claim(s).usage, Claim(s).owner, p)
  {
    ClaimPages(s);
  }

  lemma ClaimPages(s: Slab)
    requires Sound(s) && AllocStep(s.runs, ZonePages(s)).1 != 0
    ensures var n, (runs, p) := ZonePages(s), AllocStep(s.runs, ZonePages(s));
      var usage', owner' := MarkUsage(s.usage, p, n), Assign(s.owner, p, n, ByZone(p));
      && PageInv(n, s.zones, s.cached, usage', runs, s.live, s.spot, owner')
      && p !in s.zones && p !in s.cached && HeldAt(n, usage', owner', p)
  {
    var n := ZonePages(s);
    var (runs, p) := AllocRuns(s.runs, n);
    TakesUnused(s, n, ByZone(p));
    UnusedPage(s, p);
    var usage', owner' := MarkUsage(s.usage, p, n), Assign(s.owner, p, n, ByZone(p));
    forall zp | zp in s.zones || zp in s.cached ensures HeldAt(n, usage', owner', zp) {
      assert HeldAt(n, s.usage, s.owner, zp);
      HeldStays(n, s.usage, s.owner, usage', owner', zp);
    }
    forall ptr | ptr in s.live && ptr !in s.spot ensures BigAt(s.live, usage', owner', ptr) {
      BigOutside(s, p, n, ptr, s.live, usage', owner');
    }
    forall q | p <= q < p + n ensures PageOfZone(usage', owner', p, q) { }
  }

  lemma DropCached(s: Slab)
    requires Sound(s) && s.cached != []
    ensures Sound(s.(cached := s.cached[1..])) && s.cached[0] !in s.cached[1..] && s.cached[0] !in s.zones
    ensures HeldAt(ZonePages(s), s.usage, s.owner, s.cached[0])
  {
    PopDistinct(s.cached);
    assert s.cached[0] in s.cached;
    PagesIgnoreHeaders(ZonePages(s), s.zones, s.cached, s.usage, s.runs, s.live, s.spot, s.owner, s.zones, s.live, s.spot);
  }

  lemma MallocNewKeeps(s: Slab, k: int, size: int)
    requires Sound(s) && 0 <= k < NZONES && size > 0 && size == ChunkOf(k) && MaxChunks(s.zoneSize, size) >= 2
    requires ChunkOffset(size) >= ZONEHEADER && ChunkOffset(size) + MaxChunks(s.zoneSize, size) * size <= s.zoneSize
    ensures var (r, p) := MallocNew(s, k, size);
      Sound(r) && |r.cached| <= |s.cached| && (p == 0 ==> r == s) && (p != 0 ==> p !in s.live && r.live == s.live[p := size])
  {
    if s.cached != [] {
      DropCached(s);
      OpenZoneKeeps(s.(cached := s.cached[1..]), s.cached[0], k, size);
    } else if AllocStep(s.runs, ZonePages(s)).1 != 0 {
      ClaimKeeps(s);
      OpenZoneKeeps(Claim(s), AllocStep(s.runs, ZonePages(s)).1, k, size);
    }
  }

  // ---- releasing a chunk

  lemma RelistAfterPut(s: Slab, zp: int, z': Zone)
    requires ListInv(s.zones, s.arrays, s.cached) && zp in s.zones && 0 <= s.zones[zp].index < NZONES && s.zones[zp].nfree >= 0
    requires z'.index == s.zones[zp].index && z'.nfree == s.zones[zp].nfree + 1
    ensures var k := z'.index;
      ListInv(s.zones[zp := z'], if s.zones[zp].nfree == 0 then s.arrays[k := [zp] + s.arrays[k]] else s.arrays, s.cached)
  {
    var k := z'.index;
    assert ListedAt(s.zones, s.arrays, k);
    Relist(s.zones, s.arrays, s.cached, zp, z', if s.zones[zp].nfree == 0 then s.arrays[k := [zp] + s.arrays[k]] else s.arrays);
  }

  lemma PutBackKeeps(s: Slab, ptr: int)
    requires Sound(s) && ptr in s.live && ptr in s.spot
    ensures var zp := s.spot[ptr].0;
      && zp in s.zones && 0 <= s.zones[zp].index < |s.arrays| && Sound(PutBack(s, zp, ptr))
      && PutBack(s, zp, ptr).cached == s.cached
  {
    SpotBelow(s, ptr);
    var zp := s.spot[ptr].0;
    var z := s.zones[zp];
    assert ZoneOk(s.zoneSize, zp, z);
    var z' := z.(nfree := z.nfree + 1, freed := [ptr] + z.freed);
    PutChunk(s.zones, s.live, s.spot, zp, z', ptr);
    FreedRoom(s, zp, ptr);
    RelistAfterPut(s, zp, z');
    ReturnedIsSound(s, zp, z', ptr, PutBack(s, zp, ptr));
  }

  /** Zone zp with the header z' takes chunk ptr back. */
  lemma ReturnedIsSound(s: Slab, zp: int, z': Zone, ptr: int, r: Slab)
    requires Sound(s) && zp in s.zones && ptr in s.live && s.live[ptr] == z'.size && ZoneOk(s.zoneSize, zp, z')
    requires ChunkInv(s.zones[zp := z'], s.live - {ptr}, s.spot) && ListInv(s.zones[zp := z'], r.arrays, s.cached)
    requires r == s.(zones := s.zones[zp := z'], arrays := r.arrays, used := s.used - z'.size, live := s.live - {ptr})
    requires z'.size >= 0
    ensures Sound(r)
  {
    PagesIgnoreHeaders(ZonePages(s), s.zones, s.cached, s.usage, s.runs, s.live, s.spot, s.owner,
      s.zones[zp := z'], s.live - {ptr}, s.spot);
    TotalRemove(s.live, ptr);
  }

  ghost function Below(n: nat): (r: set<int>)
    ensures forall i :: i in r <==> 0 <= i < n
    ensures |r| == n
    decreases n
  {
    if n == 0 then {} else Below(n - 1) + {n - 1}
  }

  ghost function Numbers(l: seq<int>, spot: map<int, (int, int)>): (r: set<int>)
    requires forall i :: 0 <= i < |l| ==> l[i] in spot
    decreases |l|
  {
    if l == [] then {} else {spot[l[0]].1} + Numbers(l[1..], spot)
  }

  /** Distinct chunks of one zone have distinct numbers. */
  lemma {:induction false} NumbersCount(l: seq<int>, spot: map<int, (int, int)>, z: Zone)
    requires Distinct(l) && forall i :: 0 <= i < |l| ==> l[i] in spot && l[i] == Address(z, spot[l[i]].1)
    ensures |Numbers(l, spot)| == |l|
    ensures forall n :: n in Numbers(l, spot) ==> exists i :: 0 <= i < |l| && spot[l[i]].1 == n
    decreases |l|
  {
    if l != [] {
      PopDistinct(l);
      NumbersCount(l[1..], spot, z);
      forall n | n in Numbers(l[1..], spot) ensures n != spot[l[0]].1 && exists i :: 0 <= i < |l| && spot[l[i]].1 == n {
        var i :| 0 <= i < |l[1..]| && spot[l[1..][i]].1 == n;
        assert l[i + 1] == l[1..][i];
      }
      forall n | n in Numbers(l, spot) ensures exists i :: 0 <= i < |l| && spot[l[i]].1 == n {
        if n == spot[l[0]].1 { assert 0 <= 0 < |l|; }
      }
    }
  }

  /** While a chunk of the zone is live, its chain does not hold all chunks handed out. */
  lemma FreedRoom(s: Slab, zp: int, p: int)
    requires Sound(s) && zp in s.zones && p in s.spot && s.spot[p].0 == zp && p in s.live
    ensures |s.zones[zp].freed| <= s.zones[zp].uindex
  {
    var z := s.zones[zp];
    var l := z.freed;
    assert ZoneOk(s.zoneSize, zp, z) && FreedAt(s.zones, s.spot, zp);
    SpotBelow(s, p);
    assert SpotAt(s.zones, s.live, s.spot, p);
    forall i | 0 <= i < |l|
      ensures l[i] in s.spot && l[i] == Address(z, s.spot[l[i]].1) && 0 <= s.spot[l[i]].1 <= z.uindex && l[i] != p
    {
      assert l[i] in l;
      SpotBelow(s, l[i]);
    }
    NumbersCount(l, s.spot, z);
    var all := Below(z.uindex + 1) - {s.spot[p].1};
    forall n | n in Numbers(l, s.spot) ensures n in all {
      var i :| 0 <= i < |l| && s.spot[l[i]].1 == n;
    }
    SubsetSize(Numbers(l, s.spot), all);
  }

  lemma {:induction false} SubsetSize(a: set<int>, b: set<int>)
    requires a <= b
    ensures |a| <= |b|
    decreases |a|
  {
    if a != {} {
      HasMember(a);
      var e :| e in a;
      SubsetSize(a - {e}, b - {e});
    }
  }

  /** A whole zone has no live chunk. */
  lemma WholeIsDead(s: Slab, zp: int)
    requires Sound(s) && zp in s.zones && s.zones[zp].nfree == s.zones[zp].nmax
    ensures forall p :: p in s.spot && s.spot[p].0 == zp ==> p !in s.live
  {
    assert ZoneOk(s.zoneSize, zp, s.zones[zp]);
    forall p | p in s.spot && s.spot[p].0 == zp ensures p !in s.live {
      if p in s.live { FreedRoom(s, zp, p); }
    }
  }

  lemma RetireChunks(zones: map<int, Zone>, live: map<int, int>, spot: map<int, (int, int)>, zp: int)
    requires ChunkInv(zones, live, spot) && zp in zones
    ensures ChunkInv(zones - {zp}, live, spot - SpotsOf(spot, zp))
  {
    var zones', spot' := zones - {zp}, spot - SpotsOf(spot, zp);
    forall q | q in spot' ensures SpotAt(zones', live, spot', q) { assert SpotAt(zones, live, spot, q); }
    forall y | y in zones' ensures FreedAt(zones', spot', y) { assert FreedAt(zones, spot, y); }
    forall y, i | y in zones' && 0 <= i <= zones'[y].uindex ensures HandedAt(zones', spot', y, i) {
      assert HandedAt(zones, spot, y, i);
    }
  }

  lemma RetireList(zones: map<int, Zone>, arrays: seq<seq<int>>, cached: seq<int>, zp: int)
    requires ListInv(zones, arrays, cached) && zp in zones && 0 <= zones[zp].index < NZONES
    ensures ListInv(zones - {zp}, arrays[zones[zp].index := Dropped(arrays[zones[zp].index], zp)], [zp] + cached)
  {
    var k := zones[zp].index;
    var zones', arrays' := zones - {zp}, arrays[k := Dropped(arrays[k], zp)];
    assert ListedAt(zones, arrays, k);
    DroppedMembers(arrays[k], zp);
    forall j | 0 <= j < NZONES ensures ListedAt(zones', arrays', j) { assert ListedAt(zones, arrays, j); }
  }

  lemma RetireKeeps(s: Slab, zp: int)
    requires Sound(s) && zp in s.zones && s.zones[zp].nfree == s.zones[zp].nmax
    ensures 0 <= s.zones[zp].index < |s.arrays| && Sound(Retire(s, zp))
  {
    assert ZoneOk(s.zoneSize, zp, s.zones[zp]);
    WholeIsDead(s, zp);
    RetireChunks(s.zones, s.live, s.spot, zp);
    RetireList(s.zones, s.arrays, s.cached, zp);
    var r := Retire(s, zp);
    forall ptr | ptr in r.live && ptr !in r.spot ensures BigAt(r.live, s.usage, s.owner, ptr) {
      assert BigAt(s.live, s.usage, s.owner, ptr);
    }
  }

  lemma ReleaseKeeps(s: Slab)
    requires Sound(s) && s.cached != []
    ensures Sound(Release(s))
  {
    DropCached(s);
    var c, zp, n := s.(cached := s.cached[1..]), s.cached[0], ZonePages(s);
    ReleasePages(c, zp);
  }

  lemma ReleasePages(s: Slab, zp: int)
    requires Sound(s) && zp !in s.zones && zp !in s.cached && HeldAt(ZonePages(s), s.usage, s.owner, zp)
    ensures Sound(s.(usage := ClearUsage(s.usage, zp, ZonePages(s)), runs := FreeRuns(s.runs, zp, ZonePages(s)),
       owner := Assign(s.owner, zp, ZonePages(s), Unused)))
  {
    ReleasedPages(s, zp);
  }

  lemma ReleasedPages(s: Slab, zp: int)
    requires Sound(s) && zp !in s.zones && zp !in s.cached && HeldAt(ZonePages(s), s.usage, s.owner, zp)
    ensures var n := ZonePages(s);
      PageInv(n, s.zones, s.cached, ClearUsage(s.usage, zp, n), FreeRuns(s.runs, zp, n), s.live, s.spot, Assign(s.owner, zp, n, Unused))
  {
    var n := ZonePages(s);
    var usage', owner' := ClearUsage(s.usage, zp, n), Assign(s.owner, zp, n, Unused);
    forall q | q in Span(zp, n) ensures q !in Pages(s.runs) && q in s.owner && s.owner[q] == ByZone(zp) {
      assert PageOfZone(s.usage, s.owner, zp, q);
    }
    FreeAdds(s.runs, zp, n);
    forall y | y in s.zones || y in s.cached ensures HeldAt(n, usage', owner', y) {
      HeldApart(s, zp, y, usage', owner');
    }
    forall ptr | ptr in s.live && ptr !in s.spot ensures BigAt(s.live, usage', owner', ptr) {
      BigApart(s, zp, ptr, usage', owner');
    }
  }

  lemma BigApart(s: Slab, zp: int, ptr: int, usage': map<int, Usage>, owner': map<int, Owner>)
    requires Sound(s) && ptr in s.live && ptr !in s.spot && HeldAt(ZonePages(s), s.usage, s.owner, zp)
    requires forall q :: q in s.owner && !(zp <= q < zp + ZonePages(s)) ==> q in owner' && owner'[q] == s.owner[q]
    requires forall q :: q in s.usage && !(zp <= q < zp + ZonePages(s)) ==> q in usage' && usage'[q] == s.usage[q]
    ensures BigAt(s.live, usage', owner', ptr)
  {
    assert BigAt(s.live, s.usage, s.owner, ptr);
    forall q | ptr / PAGE <= q < ptr / PAGE + s.live[ptr] / PAGE ensures q in owner' && owner'[q] == ByBlock(ptr) {
      if zp <= q < zp + ZonePages(s) { HeldOwner(ZonePages(s), s.usage, s.owner, zp, q); }
    }
    var p := ptr / PAGE;
    if zp <= p < zp + ZonePages(s) { HeldOwner(ZonePages(s), s.usage, s.owner, zp, p); }
  }

  lemma HeldOwner(n: int, usage: map<int, Usage>, owner: map<int, Owner>, zp: int, p: int)
    requires HeldAt(n, usage, owner, zp) && zp <= p < zp + n
    ensures p in owner && owner[p] == ByZone(zp)
  {
    assert PageOfZone(usage, owner, zp, p);
  }

  lemma HeldApart(s: Slab, zp: int, y: int, usage': map<int, Usage>, owner': map<int, Owner>)
    requires Sound(s) && zp != y && (y in s.zones || y in s.cached) && HeldAt(ZonePages(s), s.usage, s.owner, zp)
    requires forall q :: q in s.owner && !(zp <= q < zp + ZonePages(s)) ==> q in owner' && owner'[q] == s.owner[q]
    requires forall q :: q in s.usage && !(zp <= q < zp + ZonePages(s)) ==> q in usage' && usage'[q] == s.usage[q]
    ensures HeldAt(ZonePages(s), usage', owner', y)
  {
    assert HeldAt(ZonePages(s), s.usage, s.owner, y);
    forall q | y <= q < y + ZonePages(s) ensures PageOfZone(usage', owner', y, q) {
      assert PageOfZone(s.usage, s.owner, y, q);
      if zp <= q < zp + ZonePages(s) { HeldOnce(s, zp, y, q); }
    }
  }

  lemma HeldOnce(s: Slab, zp: int, y: int, q: int)
    requires HeldAt(ZonePages(s), s.usage, s.owner, zp) && HeldAt(ZonePages(s), s.usage, s.owner, y)
    requires zp <= q < zp + ZonePages(s) && y <= q < y + ZonePages(s)
    ensures zp == y
  {
    assert PageOfZone(s.usage, s.owner, zp, q) && PageOfZone(s.usage, s.owner, y, q);
  }

  lemma FreeSmallKeeps(s: Slab, ptr: int)
    requires Inv(s) && ptr in s.live && ptr in s.spot
    ensures var zp := s.spot[ptr].0;
      && zp in s.zones && 0 <= s.zones[zp].index < |s.arrays| && Inv(FreeSmall(s, zp, ptr))
      && FreeSmall(s, zp, ptr).live == s.live - {ptr}
  {
    PutBackKeeps(s, ptr);
    var zp := s.spot[ptr].0;
    var c := PutBack(s, zp, ptr);
    if c.zones[zp].nfree == c.zones[zp].nmax && |c.arrays[c.zones[zp].index]| > 1 {
      RetireKeeps(c, zp);
      var r := Retire(c, zp);
      if |r.cached| > KEEP { ReleaseKeeps(r); }
    }
  }

  // ---- the two operations

  /** rt_malloc keeps the invariant; a successful request gets one more live block, of at least its size. */
  lemma MallocKeeps(s: Slab, size: nat)
    requires Inv(s)
    ensures var (r, p) := MallocStep(s, size);
      && Inv(r)
      && (p == 0 ==> r == s)
      && (p != 0 ==> p !in s.live && p in r.live && r.live == s.live[p := r.live[p]] && r.live[p] >= size > 0)
  {
    if size == 0 {
    } else if size >= ZoneLimit(s.zoneSize) {
      MallocLargeKeeps(s, size);
      RoundUpPages(size);
      if AllocStep(s.runs, RoundUp(size, PAGE) / PAGE).1 != 0 { LargeKeepsPages(s, RoundUp(size, PAGE) / PAGE); }
    } else {
      MallocSmallKeeps(s, size);
    }
  }

  lemma MallocSmallKeeps(s: Slab, size: nat)
    requires Inv(s) && 0 < size < ZoneLimit(s.zoneSize)
    ensures var (r, p) := MallocStep(s, size);
      && Inv(r)
      && (p == 0 ==> r == s)
      && (p != 0 ==> p !in s.live && p in r.live && r.live == s.live[p := r.live[p]] && r.live[p] >= size)
  {
    ClassBelowLimit(size, s.zoneSize);
    SmallestClass(size);
    TwoChunks(size, s.zoneSize);
    var (k, chunk) := ZoneIndex(size);
    if s.arrays[k] != [] { MallocListedKeeps(s, k); } else { OffsetSmall(chunk); MallocNewKeeps(s, k, chunk); }
  }

  lemma MallocListedKeeps(s: Slab, k: int)
    requires Inv(s) && 0 <= k < NZONES && s.arrays[k] != []
    ensures var zp := s.arrays[k][0];
      && zp in s.zones && 0 <= s.zones[zp].index < |s.arrays| && s.arrays[s.zones[zp].index] != []
      && (s.zones[zp].uindex + 1 == s.zones[zp].nmax ==> s.zones[zp].freed != [])
      && var (r, p) := MallocZone(s, zp);
         Inv(r) && p != 0 && p !in s.live && r.live == s.live[p := ChunkOf(k)]
  {
    ListedZone(s, k);
    MallocZoneKeeps(s, k);
    var zp := s.arrays[k][0];
    var (r, p) := MallocZone(s, zp);
    ChunkPositive(r, p);
  }

  lemma ChunkPositive(s: Slab, p: int)
    requires Sound(s) && p in s.live
    ensures p > 0
  {
    if p in s.spot { SpotUsage(s, p); assert HeldAt(ZonePages(s), s.usage, s.owner, s.spot[p].0); } else { assert BigAt(s.live, s.usage, s.owner, p); }
  }

  /** rt_free keeps the invariant and ends exactly the freed block. */
  lemma FreeKeeps(s: Slab, ptr: int)
    requires Inv(s) && ptr in s.live
    ensures Inv(FreeStep(s, ptr)) && FreeStep(s, ptr).live == s.live - {ptr}
  {
    LiveHasUsage(s, ptr);
    if ptr in s.spot { FreeSmallKeeps(s, ptr); } else { FreeLargeKeeps(s, ptr); }
  }

  // ---- blocks do not overlap

  lemma OwnersApart(owner: map<int, Owner>, a: int, n: int, o: Owner, b: int, m: int, o': Owner)
    requires n > 0 && m > 0 && o != o'
    requires forall p :: a <= p < a + n ==> p in owner && owner[p] == o
    requires forall p :: b <= p < b + m ==> p in owner && owner[p] == o'
    ensures a + n <= b || b + m <= a
  {
    var p := if a < b then b else a;
    var holder := if p in owner then owner[p] else Unused;
    assert !(a <= p < a + n && b <= p < b + m);
  }

  /** The pages that hold a live block, and their owner. */
  lemma Extent(s: Slab, p: int) returns (a: int, n: int, o: Owner)
    requires Sound(s) && p in s.live
    ensures n > 0 && (forall q :: a <= q < a + n ==> q in s.owner && s.owner[q] == o)
    ensures a * PAGE <= p && p + s.live[p] <= (a + n) * PAGE
    ensures o == if p in s.spot then ByZone(s.spot[p].0) else ByBlock(p)
  {
    if p in s.spot {
      SpotUsage(s, p);
      assert SpotAt(s.zones, s.live, s.spot, p);
      a, n, o := s.spot[p].0, ZonePages(s), ByZone(s.spot[p].0);
      forall q | a <= q < a + n ensures q in s.owner && s.owner[q] == o { HeldPage(s, a, q); }
    } else {
      assert BigAt(s.live, s.usage, s.owner, p);
      a, n, o := p / PAGE, s.live[p] / PAGE, ByBlock(p);
    }
  }

  /** Live blocks never overlap. */
  lemma LiveApart(s: Slab, p: int, q: int)
    requires Sound(s) && p in s.live && q in s.live && p != q
    ensures p + s.live[p] <= q || q + s.live[q] <= p
  {
    var a, n, o := Extent(s, p);
    var b, m, o' := Extent(s, q);
    if o != o' {
      OwnersApart(s.owner, a, n, o, b, m, o');
    } else {
      SameZoneApart(s, p, q);
    }
  }

  lemma SameZoneApart(s: Slab, p: int, q: int)
    requires Sound(s) && p in s.live && q in s.live && p != q && p in s.spot && q in s.spot && s.spot[p].0 == s.spot[q].0
    ensures p + s.live[p] <= q || q + s.live[q] <= p
  {
    assert SpotAt(s.zones, s.live, s.spot, p) && SpotAt(s.zones, s.live, s.spot, q);
    var z := s.zones[s.spot[p].0];
    assert ZoneOk(s.zoneSize, s.spot[p].0, z);
    var i, j := s.spot[p].1, s.spot[q].1;
    if i < j { ChunksApart(z, i, j); } else if j < i { ChunksApart(z, j, i); }
  }

  // ---- whole runs

  datatype Op = Malloc(size: nat) | Free(ptr: int)

  /** Callers only free what they hold. */
  ghost predicate Allowed(s: Slab, op: Op)
  {
    op.Free? ==> op.ptr == 0 || op.ptr in s.live
  }

  ghost function Apply(s: Slab, op: Op): Slab
    requires Inv(s) && Allowed(s, op)
  {
    match op
    case Malloc(size) => MallocStep(s, size).0
    case Free(ptr) => if ptr == 0 then s else FreeStep(s, ptr)
  }

  lemma ApplyKeeps(s: Slab, op: Op)
    requires Inv(s) && Allowed(s, op)
    ensures Inv(Apply(s, op))
  {
    match op
    case Malloc(size) => MallocKeeps(s, size);
    case Free(ptr) => if ptr != 0 { FreeKeeps(s, ptr); }
  }

  ghost predicate Runs(s: Slab, ops: seq<Op>)
    requires Inv(s)
    decreases |ops|
  {
    ops == [] || (Allowed(s, ops[0]) && (ApplyKeeps(s, ops[0]); Runs(Apply(s, ops[0]), ops[1..])))
  }

  ghost function After(s: Slab, ops: seq<Op>): Slab
    requires Inv(s) && Runs(s, ops)
    decreases |ops|
  {
    if ops == [] then s else (ApplyKeeps(s, ops[0]); After(Apply(s, ops[0]), ops[1..]))
  }

  /** Over whole runs every zone's counts are exact, its chunks are partitioned into live, freed and fresh
      ones, the class lists are exact and used_mem is the sum of the live sizes. */
  lemma {:induction false} EveryRunKeepsInv(s: Slab, ops: seq<Op>)
    requires Inv(s) && Runs(s, ops)
    ensures Inv(After(s, ops))
    decreases |ops|
  {
    if ops != [] {
      ApplyKeeps(s, ops[0]);
      EveryRunKeepsInv(Apply(s, ops[0]), ops[1..]);
    }
  }

  /** What the invariant says about chunk i of a zone: fresh ones were never handed out, and each of the
      others is either on the chain of freed chunks or live with the zone's chunk size. */
  lemma ChunkStates(s: Slab, zp: int, i: int)
    requires Inv(s) && zp in s.zones && 0 <= i < s.zones[zp].nmax
    ensures var z := s.zones[zp];
      && z.nfree == (z.nmax - 1 - z.uindex) + |z.freed|
      && (i <= z.uindex ==>
            (Address(z, i) in z.freed <==> Address(z, i) !in s.live)
            && (Address(z, i) in s.live ==> s.live[Address(z, i)] == z.size))
      && (i > z.uindex ==> Address(z, i) !in s.live && Address(z, i) !in z.freed)
  {
    var z := s.zones[zp];
    var p := Address(z, i);
    assert ZoneOk(s.zoneSize, zp, z) && FreedAt(s.zones, s.spot, zp);
    if i <= z.uindex {
      assert HandedAt(s.zones, s.spot, zp, i);
      assert SpotAt(s.zones, s.live, s.spot, p);
    } else {
      ChunkBounds(s.zoneSize, zp, z, i);
      PageOf(s.zoneSize, zp, p);
      HeldPage(s, zp, p / PAGE);
      if p in s.spot || p in s.live { LivePage(s, p); }
      if p in s.spot { SpotBelow(s, p); ChunksApart(z, s.spot[p].1, i); }
    }
  }

  /** rt_malloc fails only when the page allocator has no run that is long enough: for a large request
      no run of its pages, otherwise no free chunk, no kept zone and no run for a new zone. */
  lemma MallocFailsIff(s: Slab, size: nat)
    requires Inv(s) && size > 0
    ensures size >= ZoneLimit(s.zoneSize) ==>
      (MallocStep(s, size).1 == 0 <==> forall p :: !(Span(p, RoundUp(size, PAGE) / PAGE) <= Pages(s.runs)))
    ensures size < ZoneLimit(s.zoneSize) ==>
      && size < 16384 && 0 <= ZoneIndex(size).0 < |s.arrays|
      && (MallocStep(s, size).1 == 0 <==>
            s.arrays[ZoneIndex(size).0] == [] && s.cached == [] && forall p :: !(Span(p, ZonePages(s)) <= Pages(s.runs)))
  {
    MallocKeeps(s, size);
    RoundUpPages(size);
    AllocFailsIff(s.runs, RoundUp(size, PAGE) / PAGE);
    AllocFailsIff(s.runs, ZonePages(s));
    if size < ZoneLimit(s.zoneSize) {
      MallocSmallFails(s, size);
    } else {
      AllocTakes(s.runs, RoundUp(size, PAGE) / PAGE);
    }
  }

  lemma MallocSmallFails(s: Slab, size: nat)
    requires Inv(s) && 0 < size < ZoneLimit(s.zoneSize)
    ensures size < 16384 && 0 <= ZoneIndex(size).0 < |s.arrays|
    ensures MallocStep(s, size).1 == 0 <==>
      s.arrays[ZoneIndex(size).0] == [] && s.cached == [] && AllocRuns(s.runs, ZonePages(s)).1 == 0
  {
    ClassBelowLimit(size, s.zoneSize);
    SmallestClass(size);
    var (k, chunk) := ZoneIndex(size);
    OffsetSmall(chunk);
    AllocTakes(s.runs, ZonePages(s));
    if s.arrays[k] != [] {
      MallocListedKeeps(s, k);
    } else if s.cached != [] {
      DropCached(s);
    }
  }

  // ---- the start

  /** rt_system_heap_init over npages pages from page number start on: the page table takes the first ones. */
  ghost function Initial(start: int, npages: nat): Slab
    requires start > 0
  {
    var m := RoundUp(npages * 4, PAGE) / PAGE;
    var runs := AllocStep([Run(start, npages)], m).0;
    Slab(ZoneSizeFrom(MINZONE, npages * PAGE), map[], EmptyArrays(NZONES), [], map[], 0, 0, runs, map[], map[],
      Assign(Assign(map[], start, npages, Unused), start, m, Reserved))
  }

  function EmptyArrays(n: nat): (a: seq<seq<int>>)
    ensures |a| == n && forall k :: 0 <= k < n ==> a[k] == []
  {
    if n == 0 then [] else EmptyArrays(n - 1) + [[]]
  }

  lemma PageTableFits(npages: nat)
    requires npages > 0
    ensures 0 < RoundUp(npages * 4, PAGE) / PAGE <= npages
  {
  }

  lemma InitialInv(start: int, npages: nat, z: int)
    requires start > 0 && npages > 0 && z == ZoneSizeFrom(MINZONE, npages * PAGE) && IsZoneSize(z)
    ensures Inv(Initial(start, npages)) && Initial(start, npages).live == map[]
  {
    var s := Initial(start, npages);
    var m := RoundUp(npages * 4, PAGE) / PAGE;
    PageTableFits(npages);
    var l := [Run(start, npages)];
    assert l[1..] == [];
    AllocTakes(l, m);
    assert Pages(l) == Span(start, npages);
    assert AllocRuns(l, m).1 == start;
    forall k | 0 <= k < NZONES ensures ListedAt(s.zones, s.arrays, k) { }
    forall p ensures p in Pages(s.runs) <==> p in s.owner && s.owner[p] == Unused { }
  }

  // ---- what the in-place operations rely on

  lemma BigPagesHeld(s: Slab, ptr: int)
    requires Sound(s) && ptr in s.live && ptr !in s.spot
    ensures ptr / PAGE > 0 && ptr / PAGE in s.usage && s.usage[ptr / PAGE].Large? && s.usage[ptr / PAGE].count > 0
    ensures Span(ptr / PAGE, s.usage[ptr / PAGE].count) !! Pages(s.runs)
  {
    assert BigAt(s.live, s.usage, s.owner, ptr);
  }

  lemma WholeIsListed(s: Slab, zp: int)
    requires Sound(s) && zp in s.zones && s.zones[zp].nfree == s.zones[zp].nmax
    ensures 0 <= s.zones[zp].index < |s.arrays| && zp in s.arrays[s.zones[zp].index]
  {
    assert ZoneOk(s.zoneSize, zp, s.zones[zp]);
    assert ListedAt(s.zones, s.arrays, s.zones[zp].index);
  }

  lemma KeptPages(s: Slab)
    requires Sound(s) && s.cached != []
    ensures s.cached[0] > 0 && ZonePages(s) > 0 && Span(s.cached[0], ZonePages(s)) !! Pages(s.runs)
  {
    var zp := s.cached[0];
    assert zp in s.cached;
    assert HeldAt(ZonePages(s), s.usage, s.owner, zp);
    forall q | q in Span(zp, ZonePages(s)) ensures q !in Pages(s.runs) { assert PageOfZone(s.usage, s.owner, zp, q); }
  }
}
