/** The slab allocator as a state machine: zones of equal chunks over the page allocator. */
module SlabModel {
  import opened Basics
  import opened Ring
  import opened PageModel
  import opened SlabSizes

  /** An entry of the page table. */
  datatype Usage = Free | Small(offset: int) | Large(count: int)

  /** A zone header. freed lists the addresses on the chain of freed chunks. */
  datatype Zone = Zone(nfree: int, nmax: int, uindex: int, size: int, index: int, base: int, freed: seq<int>)

  /** Who holds a page. */
  datatype Owner = Unused | Reserved | ByZone(zp: int) | ByBlock(ptr: int)

  /** Zones are named by their first page. arrays are the zones with free chunks of each class, cached the
      whole zones kept for reuse. live maps each pointer handed out to its size, and spot each chunk that
      was ever handed out in the present zones to its zone and its number there. */
  datatype Slab = Slab(
    zoneSize: int, zones: map<int, Zone>, arrays: seq<seq<int>>, cached: seq<int>, usage: map<int, Usage>,
    used: int, maxUsed: int, runs: seq<Run>,
    live: map<int, int>, spot: map<int, (int, int)>, owner: map<int, Owner>)

  function ZonePages(s: Slab): int { s.zoneSize / PAGE }

  function Address(z: Zone, i: int): int { z.base + i * z.size }

  // ---- the steps

  function MarkUsage(usage: map<int, Usage>, zp: int, n: nat): (u: map<int, Usage>)
    ensures forall p :: p in u <==> p in usage || zp <= p < zp + n
    ensures forall p :: zp <= p < zp + n ==> u[p] == Small(p - zp)
    ensures forall p :: p in usage && !(zp <= p < zp + n) ==> u[p] == usage[p]
    decreases n
  {
    if n == 0 then usage else MarkUsage(usage, zp, n - 1)[zp + (n - 1) := Small(n - 1)]
  }

  function ClearUsage(usage: map<int, Usage>, zp: int, n: nat): (u: map<int, Usage>)
    ensures forall p :: p in u <==> p in usage || zp <= p < zp + n
    ensures forall p :: zp <= p < zp + n ==> u[p] == Free
    ensures forall p :: p in usage && !(zp <= p < zp + n) ==> u[p] == usage[p]
    decreases n
  {
    if n == 0 then usage else ClearUsage(usage, zp, n - 1)[zp + (n - 1) := Free]
  }

  ghost function Assign(owner: map<int, Owner>, p: int, n: nat, o: Owner): (r: map<int, Owner>)
    ensures forall q :: q in r <==> q in owner || p <= q < p + n
    ensures forall q :: p <= q < p + n ==> r[q] == o
    ensures forall q :: q in owner && !(p <= q < p + n) ==> r[q] == owner[q]
    decreases n
  {
    if n == 0 then owner else Assign(owner, p, n - 1, o)[p + (n - 1) := o]
  }

  function Charge(s: Slab, n: int): Slab
  {
    s.(used := s.used + n, maxUsed := Max(s.maxUsed, s.used + n))
  }

  /** A request of at least the zone limit gets whole pages. */
  ghost function MallocLarge(s: Slab, size: nat): (Slab, int)
  {
    var n := RoundUp(size, PAGE) / PAGE;
    var (runs, p) := AllocStep(s.runs, n);
    if p == 0 then (s, 0)
    else
      (Charge(s.(runs := runs, usage := s.usage[p := Large(n)], live := s.live[p * PAGE := n * PAGE],
                 owner := Assign(s.owner, p, n, ByBlock(p * PAGE))), n * PAGE), p * PAGE)
  }

  function HandOut(s: Slab, zp: int, ptr: int, size: int): Slab
  {
    Charge(s.(live := s.live[ptr := size]), size)
  }

  /** A zone of the class has a free chunk: a fresh one first, otherwise the last freed one. */
  function MallocZone(s: Slab, zp: int): (Slab, int)
    requires zp in s.zones && 0 <= s.zones[zp].index < |s.arrays| && s.arrays[s.zones[zp].index] != []
    requires s.zones[zp].uindex + 1 == s.zones[zp].nmax ==> s.zones[zp].freed != []
  {
    var z := s.zones[zp];
    var k := z.index;
    var arrays := if z.nfree - 1 == 0 then s.arrays[k := s.arrays[k][1..]] else s.arrays;
    if z.uindex + 1 != z.nmax then
      var p := Address(z, z.uindex + 1);
      (HandOut(s.(zones := s.zones[zp := z.(nfree := z.nfree - 1, uindex := z.uindex + 1)], arrays := arrays,
                  spot := s.spot[p := (zp, z.uindex + 1)]), zp, p, z.size), p)
    else
      var p := z.freed[0];
      (HandOut(s.(zones := s.zones[zp := z.(nfree := z.nfree - 1, freed := z.freed[1..])], arrays := arrays), zp, p, z.size), p)
  }

  /** A zone of class k with chunks of the given size in the pages from zp on gives its first chunk. */
  function OpenZone(s: Slab, zp: int, k: int, size: int): (Slab, int)
    requires size > 0 && 0 <= k < |s.arrays|
  {
    var nmax := MaxChunks(s.zoneSize, size);
    var base := zp * PAGE + ChunkOffset(size);
    (HandOut(s.(zones := s.zones[zp := Zone(nmax - 1, nmax, 0, size, k, base, [])], arrays := s.arrays[k := [zp] + s.arrays[k]],
                spot := s.spot[base := (zp, 0)]), zp, base, size), base)
  }

  /** The zone comes from the kept ones or from the page allocator. */
  ghost function MallocNew(s: Slab, k: int, size: int): (Slab, int)
    requires size > 0 && 0 <= k < |s.arrays| && s.zoneSize >= 0
  {
    if s.cached != [] then OpenZone(s.(cached := s.cached[1..]), s.cached[0], k, size)
    else
      var (runs, p) := AllocStep(s.runs, ZonePages(s));
      if p == 0 then (s, 0)
      else
        OpenZone(s.(runs := runs, usage := MarkUsage(s.usage, p, ZonePages(s)),
                    owner := Assign(s.owner, p, ZonePages(s), ByZone(p))), p, k, size)
  }

  /** rt_malloc. */
  ghost function MallocStep(s: Slab, size: nat): (Slab, int)
    requires Inv(s)
  {
    if size == 0 then (s, 0)
    else if size >= ZoneLimit(s.zoneSize) then MallocLarge(s, size)
    else
      ClassBelowLimit(size, s.zoneSize);
      SmallestClass(size);
      var (k, chunk) := ZoneIndex(size);
      if s.arrays[k] != [] then ListedZone(s, k); MallocZone(s, s.arrays[k][0])
      else MallocNew(s, k, chunk)
  }

  ghost function FreeLarge(s: Slab, ptr: int): Slab
    requires ptr / PAGE in s.usage && s.usage[ptr / PAGE].Large? && s.usage[ptr / PAGE].count >= 0
  {
    var p, n := ptr / PAGE, s.usage[ptr / PAGE].count;
    s.(usage := s.usage[p := Large(0)], used := s.used - n * PAGE, runs := FreeRuns(s.runs, p, n),
       live := s.live - {ptr}, owner := Assign(s.owner, p, n, Unused))
  }

  /** The chunk goes to the front of its zone's chain; a zone that was full is listed again. */
  function PutBack(s: Slab, zp: int, ptr: int): Slab
    requires zp in s.zones && 0 <= s.zones[zp].index < |s.arrays|
  {
    var z := s.zones[zp];
    s.(zones := s.zones[zp := z.(nfree := z.nfree + 1, freed := [ptr] + z.freed)],
       arrays := if z.nfree == 0 then s.arrays[z.index := [zp] + s.arrays[z.index]] else s.arrays,
       used := s.used - z.size, live := s.live - {ptr})
  }

  ghost function SpotsOf(spot: map<int, (int, int)>, zp: int): set<int>
  {
    set p | p in spot && spot[p].0 == zp
  }

  /** A zone that has become whole leaves its class if that has another zone, and is kept. */
  ghost function Retire(s: Slab, zp: int): Slab
    requires zp in s.zones && 0 <= s.zones[zp].index < |s.arrays|
  {
    var k := s.zones[zp].index;
    s.(zones := s.zones - {zp}, arrays := s.arrays[k := Dropped(s.arrays[k], zp)], cached := [zp] + s.cached,
       spot := s.spot - SpotsOf(s.spot, zp))
  }

  /** When more than two are kept, the last one kept goes back to the page allocator. */
  ghost function Release(s: Slab): Slab
    requires s.cached != [] && s.zoneSize >= 0
  {
    var zp := s.cached[0];
    s.(cached := s.cached[1..], usage := ClearUsage(s.usage, zp, ZonePages(s)), runs := FreeRuns(s.runs, zp, ZonePages(s)),
       owner := Assign(s.owner, zp, ZonePages(s), Unused))
  }

  const KEEP := 2

  ghost function FreeSmall(s: Slab, zp: int, ptr: int): Slab
    requires zp in s.zones && 0 <= s.zones[zp].index < |s.arrays| && s.zoneSize >= 0
  {
    var c := PutBack(s, zp, ptr);
    if c.zones[zp].nfree == c.zones[zp].nmax && |c.arrays[c.zones[zp].index]| > 1 then
      var r := Retire(c, zp);
      if |r.cached| > KEEP then Release(r) else r
    else c
  }

  /** rt_free of a live pointer: the page table says whether it is a block of pages or a chunk, and leads
      from a chunk to its zone. */
  ghost function FreeStep(s: Slab, ptr: int): Slab
    requires Inv(s) && ptr in s.live
  {
    LiveHasUsage(s, ptr);
    match s.usage[ptr / PAGE]
    case Large(n) => FreeLarge(s, ptr)
    case Small(o) => FreeSmall(s, ptr / PAGE - o, ptr)
    case Free => s
  }

  // ---- what every operation keeps

  ghost predicate ZoneOk(zoneSize: int, zp: int, z: Zone)
  {
    && zp > 0 && z.size > 0 && 0 <= z.index < NZONES && z.size == ChunkOf(z.index)
    && 2 <= z.nmax && 0 <= z.uindex < z.nmax
    && z.base == zp * PAGE + ChunkOffset(z.size) && z.base + z.nmax * z.size <= zp * PAGE + zoneSize
    && z.nfree == (z.nmax - 1 - z.uindex) + |z.freed|
    && Distinct(z.freed) && |z.freed| <= z.uindex + 1
  }

  ghost predicate ZonesInv(zoneSize: int, zones: map<int, Zone>)
  {
    IsZoneSize(zoneSize) && forall zp {:trigger ZoneOk(zoneSize, zp, zones[zp])} :: zp in zones ==> ZoneOk(zoneSize, zp, zones[zp])
  }

  /** A chunk that was handed out is either live or on its zone's chain of freed chunks. */
  ghost predicate SpotAt(zones: map<int, Zone>, live: map<int, int>, spot: map<int, (int, int)>, p: int)
    requires p in spot
  {
    var (zp, i) := spot[p];
    zp in zones && 0 <= i <= zones[zp].uindex && p == Address(zones[zp], i)
    && (p in live <==> p !in zones[zp].freed) && (p in live ==> live[p] == zones[zp].size)
  }

  ghost predicate FreedAt(zones: map<int, Zone>, spot: map<int, (int, int)>, zp: int)
    requires zp in zones
  {
    forall c :: c in zones[zp].freed ==> c in spot && spot[c].0 == zp
  }

  /** Chunk i of zone zp was handed out: it is at or below the fresh index. */
  ghost predicate HandedAt(zones: map<int, Zone>, spot: map<int, (int, int)>, zp: int, i: int)
    requires zp in zones
  {
    Address(zones[zp], i) in spot && spot[Address(zones[zp], i)] == (zp, i)
  }

  ghost predicate ChunkInv(zones: map<int, Zone>, live: map<int, int>, spot: map<int, (int, int)>)
  {
    && (forall p {:trigger SpotAt(zones, live, spot, p)} :: p in spot ==> SpotAt(zones, live, spot, p))
    && (forall zp {:trigger FreedAt(zones, spot, zp)} :: zp in zones ==> FreedAt(zones, spot, zp))
    && (forall zp, i {:trigger HandedAt(zones, spot, zp, i)} :: zp in zones && 0 <= i <= zones[zp].uindex ==> HandedAt(zones, spot, zp, i))
  }

  /** arrays[k] lists exactly the zones of class k that have free chunks; kept zones are no zones of a class. */
  ghost predicate ListInv(zones: map<int, Zone>, arrays: seq<seq<int>>, cached: seq<int>)
  {
    && |arrays| == NZONES
    && (forall k {:trigger ListedAt(zones, arrays, k)} :: 0 <= k < NZONES ==> ListedAt(zones, arrays, k))
    && Distinct(cached) && (forall zp :: zp in cached ==> zp !in zones)
  }

  ghost predicate ListedAt(zones: map<int, Zone>, arrays: seq<seq<int>>, k: int)
    requires 0 <= k < |arrays|
  {
    Distinct(arrays[k]) && forall zp :: zp in arrays[k] <==> zp in zones && zones[zp].index == k && zones[zp].nfree > 0
  }

  /** The pages of a zone are its own, and the page table leads from each of them to the zone. */
  ghost predicate HeldAt(n: int, usage: map<int, Usage>, owner: map<int, Owner>, zp: int)
  {
    zp > 0 && forall p :: zp <= p < zp + n ==> PageOfZone(usage, owner, zp, p)
  }

  ghost predicate PageOfZone(usage: map<int, Usage>, owner: map<int, Owner>, zp: int, p: int)
  {
    p in owner && owner[p] == ByZone(zp) && p in usage && usage[p] == Small(p - zp)
  }

  ghost predicate BigAt(live: map<int, int>, usage: map<int, Usage>, owner: map<int, Owner>, ptr: int)
    requires ptr in live
  {
    && ptr > 0 && ptr % PAGE == 0 && live[ptr] > 0 && live[ptr] % PAGE == 0
    && ptr / PAGE in usage && usage[ptr / PAGE] == Large(live[ptr] / PAGE)
    && forall p :: ptr / PAGE <= p < ptr / PAGE + live[ptr] / PAGE ==> p in owner && owner[p] == ByBlock(ptr)
  }

  ghost predicate PageInv(n: int, zones: map<int, Zone>, cached: seq<int>, usage: map<int, Usage>, runs: seq<Run>,
    live: map<int, int>, spot: map<int, (int, int)>, owner: map<int, Owner>)
  {
    && Canonical(runs)
    && (forall p :: p in Pages(runs) <==> p in owner && owner[p] == Unused)
    && (forall zp {:trigger HeldAt(n, usage, owner, zp)} :: zp in zones ==> HeldAt(n, usage, owner, zp))
    && (forall zp {:trigger HeldAt(n, usage, owner, zp)} :: zp in cached ==> HeldAt(n, usage, owner, zp))
    && (forall ptr {:trigger BigAt(live, usage, owner, ptr)} :: ptr in live && ptr !in spot ==> BigAt(live, usage, owner, ptr))
  }

  ghost function SumOver(keys: set<int>, m: map<int, int>): int
    requires keys <= m.Keys
    decreases |keys|
  {
    if keys == {} then 0
    else
      HasMember(keys);
      var k :| k in keys;
      m[k] + SumOver(keys - {k}, m)
  }

  /** The bytes in all live blocks. */
  ghost function Total(m: map<int, int>): int
  {
    SumOver(m.Keys, m)
  }

  lemma {:induction false} SumRemove(keys: set<int>, m: map<int, int>, k: int)
    requires keys <= m.Keys && k in keys
    ensures SumOver(keys, m) == m[k] + SumOver(keys - {k}, m)
    decreases |keys|
  {
    var j :| j in keys && SumOver(keys, m) == m[j] + SumOver(keys - {j}, m);
    if j != k {
      SumRemove(keys - {j}, m, k);
      SumRemove(keys - {k}, m, j);
      assert keys - {j} - {k} == keys - {k} - {j};
    }
  }

  lemma {:induction false} SumSame(keys: set<int>, m: map<int, int>, m': map<int, int>)
    requires keys <= m.Keys && keys <= m'.Keys && forall k :: k in keys ==> m[k] == m'[k]
    ensures SumOver(keys, m) == SumOver(keys, m')
    decreases |keys|
  {
    if keys != {} {
      HasMember(keys);
      var k :| k in keys;
      SumRemove(keys, m, k);
      SumSame(keys - {k}, m, m');
      SumRemove(keys, m', k);
    }
  }

  lemma TotalRemove(m: map<int, int>, k: int)
    requires k in m
    ensures Total(m) == m[k] + Total(m - {k})
  {
    SumRemove(m.Keys, m, k);
    SumSame(m.Keys - {k}, m, m - {k});
    assert (m - {k}).Keys == m.Keys - {k};
  }

  lemma TotalAdd(m: map<int, int>, k: int, v: int)
    requires k !in m
    ensures Total(m[k := v]) == Total(m) + v
  {
    TotalRemove(m[k := v], k);
    assert m[k := v] - {k} == m;
  }

  ghost predicate Sound(s: Slab)
  {
    && ZonesInv(s.zoneSize, s.zones)
    && ChunkInv(s.zones, s.live, s.spot)
    && ListInv(s.zones, s.arrays, s.cached)
    && PageInv(ZonePages(s), s.zones, s.cached, s.usage, s.runs, s.live, s.spot, s.owner)
    && s.used == Total(s.live) && s.used <= s.maxUsed
  }

  ghost predicate Inv(s: Slab)
  {
    Sound(s) && |s.cached| <= KEEP
  }

  // ---- addresses

  /** Chunks lie inside the zone, behind the header, and do not overlap. */
  lemma ChunkBounds(zoneSize: int, zp: int, z: Zone, i: int)
    requires ZoneOk(zoneSize, zp, z) && 0 <= i < z.nmax
    ensures zp * PAGE + ZONEHEADER <= Address(z, i) && Address(z, i) + z.size <= zp * PAGE + zoneSize
  {
    if i > 0 { Multiple(0, i, z.size); }
    Multiple(i, z.nmax, z.size);
  }

  lemma ChunksApart(z: Zone, i: int, j: int)
    requires z.size > 0 && i < j
    ensures Address(z, i) + z.size <= Address(z, j)
  {
    Multiple(i, j, z.size);
  }

  lemma PageOf(zoneSize: int, zp: int, a: int)
    requires IsZoneSize(zoneSize) && zp * PAGE <= a < zp * PAGE + zoneSize
    ensures zp <= a / PAGE < zp + zoneSize / PAGE
  {
  }

  /** The page table leads from a chunk that was handed out to its zone. */
  lemma SpotUsage(s: Slab, p: int)
    requires Sound(s) && p in s.spot
    ensures var zp := s.spot[p].0;
      && zp in s.zones && p / PAGE in s.usage && p / PAGE in s.owner
      && s.usage[p / PAGE] == Small(p / PAGE - zp) && s.owner[p / PAGE] == ByZone(zp)
      && zp * PAGE + ZONEHEADER <= p && p + s.zones[zp].size <= zp * PAGE + s.zoneSize
  {
    assert SpotAt(s.zones, s.live, s.spot, p);
    var (zp, i) := s.spot[p];
    assert ZoneOk(s.zoneSize, zp, s.zones[zp]);
    ChunkBounds(s.zoneSize, zp, s.zones[zp], i);
    PageOf(s.zoneSize, zp, p);
    assert HeldAt(ZonePages(s), s.usage, s.owner, zp);
    assert PageOfZone(s.usage, s.owner, zp, p / PAGE);
  }

  lemma LiveHasUsage(s: Slab, ptr: int)
    requires Sound(s) && ptr in s.live
    ensures ptr / PAGE in s.usage && !s.usage[ptr / PAGE].Free?
    ensures s.usage[ptr / PAGE].Large? <==> ptr !in s.spot
    ensures ptr !in s.spot ==> s.usage[ptr / PAGE].count >= 0 && BigAt(s.live, s.usage, s.owner, ptr)
    ensures ptr in s.spot ==>
      var zp := s.spot[ptr].0;
      && s.usage[ptr / PAGE] == Small(ptr / PAGE - zp) && zp in s.zones && 0 <= s.zones[zp].index < |s.arrays|
  {
    if ptr in s.spot {
      SpotUsage(s, ptr);
      assert ZoneOk(s.zoneSize, s.spot[ptr].0, s.zones[s.spot[ptr].0]);
    } else {
      assert BigAt(s.live, s.usage, s.owner, ptr);
    }
  }

  lemma ListedZone(s: Slab, k: int)
    requires Sound(s) && 0 <= k < NZONES && s.arrays[k] != []
    ensures var zp := s.arrays[k][0];
      && zp in s.zones && s.zones[zp].index == k && s.zones[zp].nfree > 0 && ZoneOk(s.zoneSize, zp, s.zones[zp])
      && (s.zones[zp].uindex + 1 == s.zones[zp].nmax ==> s.zones[zp].freed != [])
  {
    assert ListedAt(s.zones, s.arrays, k);
    assert s.arrays[k][0] in s.arrays[k];
  }
}
