/** How the pointers of the slab allocator are aligned. */
module SlabAlignment {
  import opened Basics
  import opened PageModel
  import opened SlabSizes
  import opened SlabModel
  import opened SlabProofs

  // ---- multiples

  lemma MultipleTimes(x: int, b: int, a: int)
    requires a > 0 && b % a == 0
    ensures (x * b) % a == 0
  {
    assert x * b == (x * (b / a)) * a;
    MultipleOf(x * (b / a), a);
  }

  /** A power of two divides every larger one. */
  lemma {:induction false} Divides(a: int, b: int)
    requires 0 < a <= b && PowerOfTwo(a) && PowerOfTwo(b)
    ensures b % a == 0
    decreases b
  {
    if a > 1 && a < b {
      assert b / 2 >= a by { if b / 2 < a { HalfOrMore(a, b); } }
      Divides(a, b / 2);
      MultipleTimes(2, b / 2, a);
    }
  }

  /** No power of two lies strictly between a power of two and its double. */
  lemma {:induction false} HalfOrMore(a: int, b: int)
    requires 0 < a < b && PowerOfTwo(a) && PowerOfTwo(b)
    ensures b >= 2 * a
    decreases b
  {
    if a > 1 { HalfOrMore(a / 2, b / 2); }
  }

  lemma Powers()
    ensures PowerOfTwo(8) && PowerOfTwo(16) && PowerOfTwo(32) && PowerOfTwo(64) && PowerOfTwo(128) && PowerOfTwo(256)
    ensures PowerOfTwo(512) && PowerOfTwo(1024) && PowerOfTwo(2048) && PowerOfTwo(PAGE) && PowerOfTwo(8192) && PowerOfTwo(16384)
  {
    assert PowerOfTwo(1) && PowerOfTwo(2) && PowerOfTwo(4) && PowerOfTwo(8);
    assert PowerOfTwo(16) && PowerOfTwo(32) && PowerOfTwo(64) && PowerOfTwo(128);
    assert PowerOfTwo(256) && PowerOfTwo(512) && PowerOfTwo(1024) && PowerOfTwo(2048);
    assert PowerOfTwo(4096) && PowerOfTwo(8192) && PowerOfTwo(16384);
  }

  lemma RoundUpAligned(n: nat, a: int)
    requires a > 0
    ensures RoundUp(n, a) % a == 0
  {
    var m := n + a - 1;
    assert m - m % a == (m / a) * a;
    MultipleOf(m / a, a);
  }

  // ---- chunks

  lemma RoundUpExact(n: nat, a: int)
    requires a > 0 && n % a == 0
    ensures RoundUp(n, a) == n
  {
    assert n + a - 1 == (n / a) * a + (a - 1);
    Remainder(n + a - 1, n / a, a - 1, a);
  }

  lemma PowerRoundsToItself(n: nat, a: int)
    requires 0 < a <= n && PowerOfTwo(a) && PowerOfTwo(n)
    ensures RoundUp(n, a) == n
  {
    Divides(a, n);
    RoundUpExact(n, a);
  }

  /** What a request is rounded up to a multiple of. */
  function Granule(n: int): int
  {
    if n < 128 then 8 else if n < 256 then 16 else if n < 512 then 32 else if n < 1024 then 64
    else if n < 2048 then 128 else if n < 4096 then 256 else if n < 8192 then 512 else 1024
  }

  lemma ChunkIsRounded(n: int)
    requires 0 <= n < 16384
    ensures Granule(n) > 0 && ZoneIndex(n).1 == RoundUp(n, Granule(n))
  {
  }

  lemma GranulesArePowers(n: int)
    requires n >= 8
    ensures 0 < Granule(n) <= n && PowerOfTwo(Granule(n))
  {
    Powers();
  }

  /** A power of two of at least 8 bytes has its own chunk size. */
  lemma OwnChunk(n: int)
    requires 8 <= n < 16384 && PowerOfTwo(n)
    ensures ZoneIndex(n).1 == n
  {
    ChunkIsRounded(n);
    GranulesArePowers(n);
    PowerRoundsToItself(n, Granule(n));
  }

  lemma OffsetAndChunks(b: int, off: int, i: int, s: int)
    requires s > 0 && off % s == 0
    ensures (b + off + i * s) % s == b % s
  {
    assert off == (off / s) * s;
    AddMultiple(b, off / s, s);
    AddMultiple(b + off, i, s);
  }

  /** Chunks of a power-of-two size sit on multiples of it exactly when their zone does. */
  lemma ChunkAlignment(zoneSize: int, zp: int, z: Zone, i: int)
    requires ZoneOk(zoneSize, zp, z) && PowerOfTwo(z.size)
    ensures Address(z, i) % z.size == (zp * PAGE) % z.size
  {
    RoundUpAligned(ZONEHEADER, z.size);
    OffsetAndChunks(zp * PAGE, ChunkOffset(z.size), i, z.size);
  }

  /** Where the first run of at least m free pages begins; 0 if there is none. */
  function FirstFree(l: seq<Run>, m: nat): int
  {
    var i := FirstLong(l, m);
    if i < |l| then l[i].start else 0
  }

  /** The page with which the memory for a request begins: the start of the zone, or of the block. For a block it is
      the first long enough run of free pages, for a zone the first one listed for the class, or else kept, or else
      again the first long enough run. */
  ghost function ServingPage(s: Slab, n: nat): int
    requires Inv(s) && n > 0
  {
    if n >= ZoneLimit(s.zoneSize) then FirstFree(s.runs, RoundUp(n, PAGE) / PAGE)
    else
      ClassBelowLimit(n, s.zoneSize);
      SmallestClass(n);
      var k := ZoneIndex(n).0;
      if s.arrays[k] != [] then s.arrays[k][0]
      else if s.cached != [] then s.cached[0]
      else FirstFree(s.runs, ZonePages(s))
  }

  lemma NewPointer(s: Slab, k: int, size: int)
    requires size > 0 && 0 <= k < |s.arrays| && s.zoneSize >= 0 && MallocNew(s, k, size).1 != 0
    requires PowerOfTwo(size)
    ensures var zp := if s.cached != [] then s.cached[0] else FirstFree(s.runs, ZonePages(s));
      MallocNew(s, k, size).1 % size == (zp * PAGE) % size
  {
    AllocIsFirstLong(s.runs, ZonePages(s));
    FirstChunkAlignment(if s.cached != [] then s.cached[0] else FirstFree(s.runs, ZonePages(s)), size);
  }

  lemma FirstChunkAlignment(zp: int, size: int)
    requires size > 0 && PowerOfTwo(size)
    ensures (zp * PAGE + ChunkOffset(size)) % size == (zp * PAGE) % size
  {
    RoundUpAligned(ZONEHEADER, size);
    OffsetAndChunks(zp * PAGE, ChunkOffset(size), 0, size);
  }

  /** A zone that is listed gives one of its chunks. */
  lemma ZonePointer(s: Slab, k: int) returns (i: int)
    requires Inv(s) && 0 <= k < NZONES && s.arrays[k] != []
    ensures var zp := s.arrays[k][0];
      && zp in s.zones && 0 <= s.zones[zp].index < |s.arrays| && s.arrays[s.zones[zp].index] != []
      && (s.zones[zp].uindex + 1 == s.zones[zp].nmax ==> s.zones[zp].freed != [])
      && ZoneOk(s.zoneSize, zp, s.zones[zp]) && s.zones[zp].size == ChunkOf(k)
      && MallocZone(s, zp).1 == Address(s.zones[zp], i)
  {
    ListedZone(s, k);
    var zp := s.arrays[k][0];
    var z := s.zones[zp];
    if z.uindex + 1 != z.nmax {
      i := z.uindex + 1;
    } else {
      assert FreedAt(s.zones, s.spot, zp) && z.freed[0] in z.freed;
      SpotBelow(s, z.freed[0]);
      i := s.spot[z.freed[0]].1;
    }
  }

  lemma ListedPointer(s: Slab, k: int)
    requires Inv(s) && 0 <= k < NZONES && s.arrays[k] != [] && ChunkOf(k) > 0 && PowerOfTwo(ChunkOf(k))
    ensures var zp := s.arrays[k][0];
      && zp in s.zones && 0 <= s.zones[zp].index < |s.arrays| && s.arrays[s.zones[zp].index] != []
      && (s.zones[zp].uindex + 1 == s.zones[zp].nmax ==> s.zones[zp].freed != [])
      && MallocZone(s, zp).1 % ChunkOf(k) == (zp * PAGE) % ChunkOf(k)
  {
    var i := ZonePointer(s, k);
    var zp := s.arrays[k][0];
    ChunkAlignment(s.zoneSize, zp, s.zones[zp], i);
  }

  /** The pointer for a chunk of a power-of-two size is aligned as its zone is. */
  lemma SmallPointer(s: Slab, n: nat, chunk: int)
    requires Inv(s) && 0 < n < ZoneLimit(s.zoneSize) && MallocStep(s, n).1 != 0
    requires n < 16384 && chunk == ZoneIndex(n).1 > 0 && PowerOfTwo(chunk)
    ensures MallocStep(s, n).1 % chunk == (ServingPage(s, n) * PAGE) % chunk
  {
    SmallestClass(n);
    var k := ZoneIndex(n).0;
    if s.arrays[k] != [] { ListedPointer(s, k); } else { NewPointer(s, k, chunk); }
  }

  lemma LargePointer(s: Slab, n: nat)
    requires Inv(s) && n >= ZoneLimit(s.zoneSize) && MallocStep(s, n).1 != 0
    ensures MallocStep(s, n).1 == FirstFree(s.runs, RoundUp(n, PAGE) / PAGE) * PAGE
  {
    AllocIsFirstLong(s.runs, RoundUp(n, PAGE) / PAGE);
  }

  /** Every pointer is aligned as the page is that its memory begins with. */
  lemma PointerFollowsPage(s: Slab, n: nat)
    requires Inv(s) && n >= 8 && PowerOfTwo(n) && MallocStep(s, n).1 != 0
    ensures MallocStep(s, n).1 % n == (ServingPage(s, n) * PAGE) % n
  {
    if n < ZoneLimit(s.zoneSize) {
      ClassBelowLimit(n, s.zoneSize);
      OwnChunk(n);
      SmallPointer(s, n, n);
    } else {
      LargePointer(s, n);
    }
  }

  /** A page lies on a multiple of n bytes exactly if its number is a multiple of n / PAGE. */
  lemma PageAlignment(page: int, n: int)
    requires n > 0 && PowerOfTwo(n)
    ensures n <= PAGE ==> (page * PAGE) % n == 0
    ensures n >= PAGE ==> n / PAGE > 0 && ((page * PAGE) % n == 0 <==> page % (n / PAGE) == 0)
  {
    Powers();
    if n <= PAGE {
      Divides(n, PAGE);
      MultipleTimes(page, PAGE, n);
    }
    if n >= PAGE {
      Divides(PAGE, n);
      WholePages(page, n / PAGE);
    }
  }

  lemma WholePages(page: int, m: int)
    requires m > 0
    ensures (page * PAGE) % (m * PAGE) == 0 <==> page % m == 0
  {
    var q, r := page / m, page % m;
    assert page * PAGE == q * (m * PAGE) + r * PAGE;
    Remainder(page * PAGE, q, r * PAGE, m * PAGE);
  }

  lemma TinyRequests(n: int)
    requires 0 < n < 8 && PowerOfTwo(n)
    ensures n in {1, 2, 4} && ZoneIndex(n).1 == 8
  {
    assert !PowerOfTwo(3);
    assert !PowerOfTwo(6) && !PowerOfTwo(5) && !PowerOfTwo(7);
  }

  /** Requests below the least chunk get that. */
  lemma TinyPointer(s: Slab, n: nat)
    requires Inv(s) && 0 < n < 8 && PowerOfTwo(n) && MallocStep(s, n).1 != 0
    ensures MallocStep(s, n).1 % n == 0
  {
    TinyRequests(n);
    Powers();
    SmallPointer(s, n, 8);
    PageAlignment(ServingPage(s, n), 8);
    EighthsAreAligned(MallocStep(s, n).1, n);
  }

  lemma EighthsAreAligned(p: int, n: int)
    requires p % 8 == 0 && n in {1, 2, 4}
    ensures p % n == 0
  {
    var q := p / 8;
    if n == 1 { } else if n == 2 { assert p == 2 * (4 * q); } else { assert p == 4 * (2 * q); }
  }

  /** A power-of-two request gets a pointer that is a multiple of its size: always up to the page size, and beyond
      exactly if the number of the page that serves it is a multiple of its number of pages. For a request that goes to
      the page allocator that is the start of the first run of so many free pages. */
  lemma PowerOfTwoAlignment(s: Slab, n: nat)
    requires Inv(s) && n > 0 && PowerOfTwo(n) && MallocStep(s, n).1 != 0
    ensures n <= PAGE ==> MallocStep(s, n).1 % n == 0
    ensures n > PAGE ==> n / PAGE > 0 && (MallocStep(s, n).1 % n == 0 <==> ServingPage(s, n) % (n / PAGE) == 0)
    ensures n >= ZoneLimit(s.zoneSize) ==> ServingPage(s, n) == FirstFree(s.runs, n / PAGE)
  {
    if n < 8 {
      TinyPointer(s, n);
    } else {
      PointerFollowsPage(s, n);
      PageAlignment(ServingPage(s, n), n);
    }
    if n >= ZoneLimit(s.zoneSize) {
      Powers();
      PowerRoundsToItself(n, PAGE);
    }
  }

  lemma InitialRuns()
    ensures Inv(Initial(2, 10)) && Initial(2, 10).zoneSize == MINZONE && Initial(2, 10).runs == [Run(3, 9)]
  {
    InitialInv(2, 10, MINZONE);
    var l := [Run(2, 10)];
    assert AllocRuns(l, 1) == ([Run(3, 9)] + l[1..], 2);
    assert RoundUp(10 * 4, PAGE) / PAGE == 1;
  }

  /** The first request of a fresh heap that begins on page 2 shows that larger ones need not be aligned. */
  lemma MisalignedRun()
    ensures var s := Initial(2, 10);
      Inv(s) && PowerOfTwo(8192) && MallocStep(s, 8192).1 == 3 * PAGE && MallocStep(s, 8192).1 % 8192 != 0
  {
    Powers();
    InitialRuns();
    var s := Initial(2, 10);
    assert RoundUp(8192, PAGE) / PAGE == 2;
    assert AllocRuns([Run(3, 9)], 2).1 == 3;
    FirstLarge(s);
  }

  lemma FirstLarge(s: Slab)
    requires Inv(s) && s.zoneSize == MINZONE && AllocStep(s.runs, RoundUp(8192, PAGE) / PAGE).1 == 3
    ensures MallocStep(s, 8192).1 == 3 * PAGE
  {
  }

  // ---- every live block

  lemma ChunkSizesByEight(i: int)
    requires 0 <= i < NZONES
    ensures ChunkOf(i) > 0 && ChunkOf(i) % 8 == 0
  {
  }

  lemma EightDivides(x: int, s: int)
    requires s > 0 && s % 8 == 0 && x % s == 0
    ensures x % 8 == 0
  {
    var q, m := x / s, s / 8;
    assert x == (q * m) * 8;
  }

  lemma OffsetByEight(s: int)
    requires s > 0 && s % 8 == 0
    ensures ChunkOffset(s) % 8 == 0
  {
    RoundUpAligned(ZONEHEADER, s);
    RoundUpAligned(ZONEHEADER, MINCHUNK);
    if PowerOfTwo(s) { EightDivides(ChunkOffset(s), s); }
  }

  lemma AddressByEight(zp: int, off: int, i: int, s: int)
    requires off % 8 == 0 && s % 8 == 0
    ensures (zp * PAGE + off + i * s) % 8 == 0
  {
    assert i * s == (i * (s / 8)) * 8;
  }

  lemma ChunkByEight(zoneSize: int, zp: int, z: Zone, i: int)
    requires ZoneOk(zoneSize, zp, z)
    ensures Address(z, i) % 8 == 0
  {
    ChunkSizesByEight(z.index);
    OffsetByEight(z.size);
    AddressByEight(zp, ChunkOffset(z.size), i, z.size);
  }

  lemma SpotByEight(s: Slab, p: int)
    requires Sound(s) && p in s.spot
    ensures p % 8 == 0
  {
    SpotBelow(s, p);
    var (zp, i) := s.spot[p];
    ChunkByEight(s.zoneSize, zp, s.zones[zp], i);
  }

  lemma PagesByEight(p: int)
    requires p % PAGE == 0
    ensures p % 8 == 0
  {
    EightDivides(p, PAGE);
  }

  /** Every live block starts on a multiple of eight, and blocks of whole pages on a page. */
  lemma LiveAligned(s: Slab, p: int)
    requires Inv(s) && p in s.live
    ensures p % 8 == 0 && (p !in s.spot ==> p % PAGE == 0)
  {
    if p in s.spot {
      SpotByEight(s, p);
    } else {
      assert BigAt(s.live, s.usage, s.owner, p);
      PagesByEight(p);
    }
  }
}
