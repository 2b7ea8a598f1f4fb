/** The size classes of the slab allocator and the layout of a zone. */
module SlabSizes {

  const PAGE := 4096
  const NZONES := 72
  const ZONELIMIT := 16 * 1024
  const MINZONE := 32 * 1024
  const MAXZONE := 128 * 1024
  const ZONEHEADER := 36  // sizeof(slab_zone) for four-byte words
  const MINCHUNK := 8

  function RoundUp(n: int, a: int): (r: int)
    requires a > 0
    ensures n <= r < n + a
  {
    (n + a - 1) - (n + a - 1) % a
  }

  /** zoneindex: the class of a request, and the chunk size of that class. */
  function ZoneIndex(n: int): (int, int)
    requires 0 <= n < 16384
  {
    if n < 128 then var s := RoundUp(n, 8); (s / 8 - 1, s)
    else if n < 256 then var s := RoundUp(n, 16); (s / 16 + 7, s)
    else if n < 8192 then
      if n < 512 then var s := RoundUp(n, 32); (s / 32 + 15, s)
      else if n < 1024 then var s := RoundUp(n, 64); (s / 64 + 23, s)
      else if n < 2048 then var s := RoundUp(n, 128); (s / 128 + 31, s)
      else if n < 4096 then var s := RoundUp(n, 256); (s / 256 + 39, s)
      else var s := RoundUp(n, 512); (s / 512 + 47, s)
    else var s := RoundUp(n, 1024); (s / 1024 + 55, s)
  }

  /** The chunk size of class i. */
  function ChunkOf(i: int): (s: int)
    requires 0 <= i < NZONES
  {
    if i < 16 then 8 * (i + 1)
    else if i < 24 then 16 * (i - 7)
    else if i < 32 then 32 * (i - 15)
    else if i < 40 then 64 * (i - 23)
    else if i < 48 then 128 * (i - 31)
    else if i < 56 then 256 * (i - 39)
    else if i < 64 then 512 * (i - 47)
    else 1024 * (i - 55)
  }

  /** A request gets the smallest class that holds it. */
  lemma SmallestClass(n: int)
    requires 1 <= n < 16384
    ensures var (i, s) := ZoneIndex(n);
      && 0 <= i < NZONES && s == ChunkOf(i) && n <= s
      && (i > 0 ==> ChunkOf(i - 1) < n)
  {
    if n < 512 { SmallestLow(n); } else if n < 1024 { Smallest512(n); } else if n < 2048 { Smallest1024(n); }
    else { SmallestHigh(n); }
  }

  lemma SmallestLow(n: int)
    requires 1 <= n < 512
    ensures var (i, s) := ZoneIndex(n);
      0 <= i < NZONES && s == ChunkOf(i) && n <= s && (i > 0 ==> ChunkOf(i - 1) < n)
  {
  }

  lemma Smallest512(n: int)
    requires 512 <= n < 1024
    ensures var (i, s) := ZoneIndex(n);
      0 <= i < NZONES && s == ChunkOf(i) && n <= s && (i > 0 ==> ChunkOf(i - 1) < n)
  {
  }

  lemma Smallest1024(n: int)
    requires 1024 <= n < 2048
    ensures var (i, s) := ZoneIndex(n);
      0 <= i < NZONES && s == ChunkOf(i) && n <= s && (i > 0 ==> ChunkOf(i - 1) < n)
  {
  }

  lemma SmallestHigh(n: int)
    requires 2048 <= n < 16384
    ensures var (i, s) := ZoneIndex(n);
      0 <= i < NZONES && s == ChunkOf(i) && n <= s && (i > 0 ==> ChunkOf(i - 1) < n)
  {
  }

  /** Every class is the class of its own chunk size, as far as that is still a slab request. */
  lemma ClassOfChunk(i: int)
    requires 0 <= i < NZONES - 1
    ensures ChunkOf(i) < 16384 && ZoneIndex(ChunkOf(i)) == (i, ChunkOf(i))
  {
    if i < 32 { ClassOfSmallChunk(i); } else if i < 48 { ClassOfMiddleChunk(i); } else { ClassOfBigChunk(i); }
  }

  lemma ClassOfSmallChunk(i: int)
    requires 0 <= i < 32
    ensures ChunkOf(i) < 16384 && ZoneIndex(ChunkOf(i)) == (i, ChunkOf(i))
  {
  }

  lemma ClassOfMiddleChunk(i: int)
    requires 32 <= i < 48
    ensures ChunkOf(i) < 16384 && ZoneIndex(ChunkOf(i)) == (i, ChunkOf(i))
  {
  }

  lemma ClassOfBigChunk(i: int)
    requires 48 <= i < NZONES - 1
    ensures ChunkOf(i) < 16384 && ZoneIndex(ChunkOf(i)) == (i, ChunkOf(i))
  {
  }

  // ---- zone sizes

  /** The loop of rt_system_heap_init over the zone size, for a heap of limsize bytes. */
  function ZoneSizeFrom(z: int, limsize: nat): int
    requires 0 < z <= MAXZONE
    decreases MAXZONE - z
  {
    if z < MAXZONE && z * 2 < limsize / 1024 && z * 2 <= MAXZONE then ZoneSizeFrom(z * 2, limsize) else z
  }

  predicate IsZoneSize(z: int)
  {
    z == MINZONE || z == 2 * MINZONE || z == MAXZONE
  }

  function ZoneLimit(zoneSize: int): int
  {
    if zoneSize / 4 > ZONELIMIT then ZONELIMIT else zoneSize / 4
  }

  method ZoneSizeFor(limsize: nat) returns (z: int)
    ensures z == ZoneSizeFrom(MINZONE, limsize) && IsZoneSize(z)
  {
    z := MINZONE;
    while z < MAXZONE && z * 2 < limsize / 1024
      invariant IsZoneSize(z) && ZoneSizeFrom(z, limsize) == ZoneSizeFrom(MINZONE, limsize)
      decreases MAXZONE - z
    {
      z := z * 2;
    }
  }

  /** The zone size is the first of the three that reaches half the heap size in kilobytes, taken as a number of bytes; a
      heap too big for that gets the biggest one. */
  lemma ZoneSizeMeaning(limsize: nat)
    ensures var z := ZoneSizeFrom(MINZONE, limsize);
      && IsZoneSize(z) && (z < MAXZONE ==> 2 * z >= limsize / 1024) && (z > MINZONE ==> z < limsize / 1024)
  {
  }

  predicate PowerOfTwo(n: int)
  {
    n == 1 || (n > 1 && n % 2 == 0 && PowerOfTwo(n / 2))
  }

  /** Offset of the chunks behind the zone header. */
  function ChunkOffset(size: int): (off: int)
    requires size > 0
    ensures off >= ZONEHEADER
  {
    if PowerOfTwo(size) then RoundUp(ZONEHEADER, size) else RoundUp(ZONEHEADER, MINCHUNK)
  }

  function MaxChunks(zoneSize: int, size: int): int
    requires size > 0
  {
    (zoneSize - ChunkOffset(size)) / size
  }

  lemma ClassBelowLimit(n: int, zoneSize: int)
    requires IsZoneSize(zoneSize) && 1 <= n < ZoneLimit(zoneSize)
    ensures n < 16384 && ZoneIndex(n).1 <= ZoneLimit(zoneSize)
  {
  }

  lemma OffsetSmall(size: int)
    requires size > 0
    ensures ZONEHEADER <= ChunkOffset(size) < ZONEHEADER + size + MINCHUNK
  {
  }

  /** Every new zone has room for at least two chunks, and its chunks fit into it. */
  lemma TwoChunks(n: int, zoneSize: int)
    requires IsZoneSize(zoneSize) && 1 <= n < ZoneLimit(zoneSize)
    ensures n < 16384
    ensures var s := ZoneIndex(n).1;
      s > 0 && MaxChunks(zoneSize, s) >= 2 && ChunkOffset(s) + MaxChunks(zoneSize, s) * s <= zoneSize
  {
    ClassBelowLimit(n, zoneSize);
    SmallestClass(n);
    var s := ZoneIndex(n).1;
    OffsetSmall(s);
    var room := zoneSize - ChunkOffset(s);
    assert room >= 2 * s;
    AtLeastTwo(room, s);
  }

  lemma AtLeastTwo(room: int, s: int)
    requires s > 0 && room >= 2 * s
    ensures room / s >= 2 && room / s * s <= room
  {
  }
}
