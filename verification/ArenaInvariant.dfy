/** The allocator invariant: in every chunk, free blocks and live regions tile the bytes. */
module ArenaInvariant {
  import opened Options
  import opened FreeList
  import opened Arena
  import opened Modular

  // ------------------------------------------------------------------ padding

  /** Padding rounds up to the next multiple of the alignment. */
  lemma PadRoundsUp(size: nat, alignment: nat)
    requires alignment > 0
    ensures Multiple(Pad(size, alignment), alignment)
    ensures size <= Pad(size, alignment) < size + alignment
    ensures Pad(size, alignment) == size <==> Multiple(size, alignment)
  {
    var r := size % alignment;
    MultipleIsMod(size, alignment);
    MultipleIsMod(Pad(size, alignment), alignment);
    if r == 0 {
      DivModUnique(alignment, alignment, 1, 0);
    } else {
      DivModUnique(alignment - r, alignment, 0, alignment - r);
      assert Pad(size, alignment) == (size / alignment + 1) * alignment;
      MultipleMod(size / alignment + 1, alignment);
    }
  }

  // ------------------------------------------------------------ live regions

  lemma LiveAtAdd(live: Live, p: Addr, size: nat, c: nat, x: int)
    requires p !in live
    ensures LiveAt(live[p := size], c, x) <==> LiveAt(live, c, x) || InRegion(p, size, c, x)
  {
    var more := live[p := size];
    if LiveAt(live, c, x) {
      var q :| q in live && InRegion(q, live[q], c, x);
      assert q in more && InRegion(q, more[q], c, x);
    }
    if InRegion(p, size, c, x) {
      assert p in more && InRegion(p, more[p], c, x);
    }
  }

  lemma LiveAtTrim(a: Arena, live: Live, p: Addr, offset: nat, c: nat, x: int)
    requires a.alignment > 0 && LiveOk(a, live)
    requires p in live && p.offset <= offset <= p.offset + live[p]
    ensures LiveAt(Trim(live, p, offset), c, x) <==>
            LiveAt(live, c, x) && !InRegion(Addr(p.chunk, offset), p.offset + live[p] - offset, c, x)
  {
    var less := Trim(live, p, offset);
    if LiveAt(less, c, x) {
      var q :| q in less && InRegion(q, less[q], c, x);
      assert q in live && InRegion(q, live[q], c, x);
      assert q != p ==> Disjoint(q, live[q], p, live[p]);
    }
    if LiveAt(live, c, x) && !InRegion(Addr(p.chunk, offset), p.offset + live[p] - offset, c, x) {
      var q :| q in live && InRegion(q, live[q], c, x);
      assert q in less && InRegion(q, less[q], c, x);
    }
  }

  /** A block of free bytes is disjoint from every live region. */
  lemma FreeIsNotLive(a: Arena, live: Live, c: nat, i: nat, size: nat, q: Addr)
    requires Valid(a, live) && c < |a.chunks| && i < |a.chunks[c].free|
    requires 0 < size <= a.chunks[c].free[i].size && q in live
    ensures Disjoint(Addr(c, a.chunks[c].free[i].offset), size, q, live[q])
  {
    var ch := a.chunks[c];
    var b := ch.free[i];
    if q.chunk == c {
      assert RegionOk(a, q, live[q]);
      assert Tiled(ch, c, live);
      OverlapWitness(b.offset, size, q.offset, live[q]);
      var x := if b.offset <= q.offset then q.offset else b.offset;
      assert b.offset <= x < b.offset + size ==> Covers(ch.free, x);
      assert q.offset <= x < q.offset + live[q] ==> InRegion(q, live[q], c, x) && LiveAt(live, c, x);
    }
  }

  lemma OverlapWitness(p: nat, psize: nat, q: nat, qsize: nat)
    requires psize > 0 && qsize > 0
    ensures var x := if p <= q then q else p;
            p + psize <= q || q + qsize <= p || (p <= x < p + psize && q <= x < q + qsize)
  {
  }

  // --------------------------------------------------------------- allocation

  lemma FreshChunkKeeps(a: Arena, size: nat, live: Live)
    requires Valid(a, live) && 0 < size <= HALF && NewChunk(a, size).Some?
    ensures Valid(NewChunk(a, size).value, live)
  {
    var b := NewChunk(a, size).value;
    var n := |a.chunks|;
    var ch := b.chunks[n];
    assert forall c :: 0 <= c < n ==> b.chunks[c] == a.chunks[c];
    forall x | 0 <= x < ch.capacity ensures Covers(ch.free, x) <==> !LiveAt(live, n, x) {
      CoversOne(ch.free[0], x);
      assert forall p :: p in live ==> RegionOk(a, p, live[p]);
    }
    forall p | p in live ensures RegionOk(b, p, live[p]) {
      assert RegionOk(a, p, live[p]);
    }
    forall c | 0 <= c < |b.chunks| ensures Tiled(b.chunks[c], c, live) {
      assert c < n ==> Tiled(a.chunks[c], c, live);
    }
  }

  lemma ChooseKeeps(a: Arena, size: nat, live: Live)
    requires Valid(a, live) && 0 < size <= HALF && Choose(a, size).Some?
    ensures Valid(Choose(a, size).value.arena, live)
  {
    if InnerFit(a.chunks, size, |a.chunks|).None? && LastFit(a.chunks, size, |a.chunks|).None? {
      FreshChunkKeeps(a, size, live);
    }
  }

  lemma CarvedChunkOk(ch: Chunk, i: nat, size: nat, alignment: nat)
    requires alignment > 0 && ChunkOk(ch, alignment) && i < |ch.free| && size <= ch.free[i].size
    requires Multiple(size, alignment)
    ensures ChunkOk(CarveChunk(ch, i, size), alignment)
  {
    CarveNormal(ch.free, i, size);
    MultipleSum(ch.free[i].offset, size, alignment);
    var fs := Carve(ch.free, i, size);
    forall k | 0 <= k < |fs| ensures fs[k].End() <= ch.capacity && Multiple(fs[k].offset, alignment) {
      assert k < i ==> fs[k] == ch.free[k];
    }
  }

  /** Taking the front of a free block adds exactly one live region, disjoint from the rest. */
  lemma CarveKeeps(a: Arena, live: Live, c: nat, i: nat, size: nat)
    requires Valid(a, live) && c < |a.chunks| && i < |a.chunks[c].free|
    requires 0 < size <= a.chunks[c].free[i].size && Multiple(size, a.alignment)
    ensures var p := Addr(c, a.chunks[c].free[i].offset);
            && p !in live
            && Valid(a.(chunks := a.chunks[c := CarveChunk(a.chunks[c], i, size)]), live[p := size])
  {
    hide Covers, LiveAt, Carve, Normal, Within;
    var ch := a.chunks[c];
    var p := Addr(c, ch.free[i].offset);
    var a' := a.(chunks := a.chunks[c := CarveChunk(ch, i, size)]);
    CarvedChunkOk(ch, i, size, a.alignment);
    forall q | q in live ensures Disjoint(p, size, q, live[q]) && q != p {
      FreeIsNotLive(a, live, c, i, size, q);
      assert RegionOk(a, q, live[q]);
    }
    assert forall q :: q in live ==> RegionOk(a, q, live[q]);
    CarveTiles(a, live, c, i, size);
    forall d | 0 <= d < |a'.chunks| && d != c ensures Tiled(a'.chunks[d], d, live[p := size]) {
      assert Tiled(a.chunks[d], d, live);
      forall x ensures LiveAt(live[p := size], d, x) <==> LiveAt(live, d, x) {
        LiveAtAdd(live, p, size, d, x);
      }
    }
  }

  lemma CarveTiles(a: Arena, live: Live, c: nat, i: nat, size: nat)
    requires Valid(a, live) && c < |a.chunks| && i < |a.chunks[c].free|
    requires 0 < size <= a.chunks[c].free[i].size
    requires Addr(c, a.chunks[c].free[i].offset) !in live
    ensures Tiled(CarveChunk(a.chunks[c], i, size), c, live[Addr(c, a.chunks[c].free[i].offset) := size])
  {
    var ch := a.chunks[c];
    var p := Addr(c, ch.free[i].offset);
    var ch' := CarveChunk(ch, i, size);
    forall x | 0 <= x < ch'.capacity ensures Covers(ch'.free, x) <==> !LiveAt(live[p := size], c, x) {
      CarveCovers(ch.free, i, size, x);
      LiveAtAdd(live, p, size, c, x);
      assert Tiled(ch, c, live);
      assert p.offset <= x < p.offset + size ==> Covers(ch.free, x);
    }
  }

  /** Allocation hands out one new region and keeps the partition. */
  lemma AllocKeeps(a: Arena, rawSize: nat, live: Live)
    requires Valid(a, live) && rawSize > 0 && Alloc(a, rawSize).Some?
    ensures var (a', p) := Alloc(a, rawSize).value;
            p !in live && Valid(a', live[p := Pad(rawSize, a.alignment)])
  {
    var size := Pad(rawSize, a.alignment);
    PadRoundsUp(rawSize, a.alignment);
    ChooseKeeps(a, size, live);
    var Choice(b, c, i) := Choose(a, size).value;
    CarveKeeps(b, live, c, i, size);
  }

  // ------------------------------------------------------------------ release

  /** Returning the tail of a live region (all of it, or what an in-place reuse leaves over)
      removes exactly those bytes from the live ones and keeps the partition. */
  lemma FreeKeeps(a: Arena, live: Live, p: Addr, offset: nat, rawSize: nat)
    requires Valid(a, live) && p in live && rawSize > 0
    requires p.offset <= offset && Multiple(offset, a.alignment)
    requires offset + Pad(rawSize, a.alignment) == p.offset + live[p]
    requires Free(a, Addr(p.chunk, offset), rawSize).Some?
    ensures Valid(Free(a, Addr(p.chunk, offset), rawSize).value, Trim(live, p, offset))
  {
    hide Covers, LiveAt, Disjoint, Release, ReleaseEdit, Normal, Within, Pad, Tiled;
    var size := Pad(rawSize, a.alignment);
    PadRoundsUp(rawSize, a.alignment);
    var a' := Free(a, Addr(p.chunk, offset), rawSize).value;
    var live' := Trim(live, p, offset);
    assert RegionOk(a, p, live[p]);
    ReleasedChunkOk(a, live, p, offset, size);
    forall d | 0 <= d < |a'.chunks| ensures Tiled(a'.chunks[d], d, live') {
      FreeTiles(a, live, p, offset, size, d);
    }
    TrimLiveOk(a, live, p, offset);
    assert forall q :: q in live' ==> RegionOk(a, q, live'[q]);
  }

  lemma TrimLiveOk(a: Arena, live: Live, p: Addr, offset: nat)
    requires a.alignment > 0 && LiveOk(a, live) && p in live
    requires p.offset <= offset < p.offset + live[p] && Multiple(offset, a.alignment)
    ensures LiveOk(a, Trim(live, p, offset))
  {
    var live' := Trim(live, p, offset);
    assert RegionOk(a, p, live[p]);
    MultipleSum(offset - p.offset, p.offset, a.alignment);
    forall q | q in live' ensures RegionOk(a, q, live'[q]) {
      assert RegionOk(a, q, live[q]);
    }
    forall q, r | q in live' && r in live' && q != r ensures Disjoint(q, live'[q], r, live'[r]) {
      assert Disjoint(q, live[q], r, live[r]);
    }
  }

  lemma TailIsNotFree(a: Arena, live: Live, p: Addr, x: int)
    requires Valid(a, live) && p in live && p.offset <= x < p.offset + live[p]
    ensures p.chunk < |a.chunks| && 0 <= x < a.chunks[p.chunk].capacity
    ensures !Covers(a.chunks[p.chunk].free, x)
  {
    assert RegionOk(a, p, live[p]);
    assert ChunkOk(a.chunks[p.chunk], a.alignment);
    assert InRegion(p, live[p], p.chunk, x);
    assert Tiled(a.chunks[p.chunk], p.chunk, live);
  }

  lemma ReleasedChunkOk(a: Arena, live: Live, p: Addr, offset: nat, size: nat)
    requires Valid(a, live) && p in live && size > 0
    requires p.offset <= offset && offset + size == p.offset + live[p]
    requires Multiple(offset, a.alignment)
    ensures p.chunk < |a.chunks|
    ensures var ch := a.chunks[p.chunk];
            var e := ReleaseEdit(ch.free, offset, size);
            e.hi - e.lo == 1 || |ch.free| < MAX_FREE_BLOCKS ==>
              ChunkOk(ch.(free := Release(ch.free, offset, size)), a.alignment)
  {
    assert RegionOk(a, p, live[p]);
    var ch := a.chunks[p.chunk];
    assert ChunkOk(ch, a.alignment);
    forall x | offset <= x < offset + size ensures !Covers(ch.free, x) {
      TailIsNotFree(a, live, p, x);
    }
    UncoveredIsClear(ch.free, offset, size);
    ReleaseNormal(ch.free, offset, size);
    ReleaseWithin(ch.free, offset, size, ch.capacity);
    ReleaseAligned(ch.free, offset, size, a.alignment);
  }

  lemma FreeTiles(a: Arena, live: Live, p: Addr, offset: nat, size: nat, d: nat)
    requires Valid(a, live) && p in live && size > 0 && d < |a.chunks|
    requires p.offset <= offset && offset + size == p.offset + live[p]
    ensures p.chunk < |a.chunks|
    ensures var ch := a.chunks[d];
            var fs := if d == p.chunk then Release(ch.free, offset, size) else ch.free;
            Tiled(ch.(free := fs), d, Trim(live, p, offset))
  {
    assert RegionOk(a, p, live[p]);
    var ch := a.chunks[d];
    assert Tiled(ch, d, live);
    forall x | 0 <= x < ch.capacity
      ensures d == p.chunk ==>
        (Covers(Release(ch.free, offset, size), x) <==> !LiveAt(Trim(live, p, offset), d, x))
      ensures d != p.chunk ==> (Covers(ch.free, x) <==> !LiveAt(Trim(live, p, offset), d, x))
    {
      LiveAtTrim(a, live, p, offset, d, x);
      ReleaseCovers(ch.free, offset, size, x);
      assert d == p.chunk && p.offset <= x < p.offset + live[p] ==> InRegion(p, live[p], d, x) && LiveAt(live, d, x);
    }
  }

  // ------------------------------------------------------------- consequences

  /** The live regions determine the free lists: in whatever order regions were taken and
      returned, chunks of the same capacity with the same live bytes have the same list. */
  lemma FreeListDeterminedByLive(a: Arena, b: Arena, live: Live, c: nat)
    requires Valid(a, live) && Valid(b, live) && c < |a.chunks| && c < |b.chunks|
    requires a.chunks[c].capacity == b.chunks[c].capacity
    ensures a.chunks[c].free == b.chunks[c].free
  {
    var p, q := a.chunks[c], b.chunks[c];
    assert ChunkOk(p, a.alignment) && ChunkOk(q, b.alignment);
    assert Tiled(p, c, live) && Tiled(q, c, live);
    forall x ensures Covers(p.free, x) <==> Covers(q.free, x) {
      CoversInside(p.free, p.capacity, x);
      CoversInside(q.free, q.capacity, x);
    }
    NormalFormIsUnique(p.free, q.free);
  }

  lemma CoversInside(fs: seq<Block>, limit: nat, x: int)
    requires Within(fs, limit)
    ensures Covers(fs, x) ==> 0 <= x < limit
  {
  }

  /** Block `i` is the tightest fit among the first `n`, the latest of equals. */
  predicate TightestFit(fs: seq<Block>, size: nat, n: nat, i: nat)
    requires n <= |fs|
  {
    && i < n && size <= fs[i].size
    && forall k :: 0 <= k < n && size <= fs[k].size ==>
         fs[i].size < fs[k].size || (fs[i].size == fs[k].size && k <= i)
  }

  predicate NoFit(fs: seq<Block>, size: nat, n: nat)
    requires n <= |fs|
  {
    forall k :: 0 <= k < n ==> fs[k].size < size
  }

  lemma {:induction false} BestInnerIsTightest(fs: seq<Block>, size: nat, n: nat)
    requires n <= |fs|
    ensures match BestInner(fs, size, n)
            case Some(i) => TightestFit(fs, size, n, i)
            case None => NoFit(fs, size, n)
  {
    if n > 0 {
      BestInnerIsTightest(fs, size, n - 1);
    }
  }

  /** An inner allocation uses the last chunk in which some inner block fits, and there the
      tightest one; the fit is not compared across chunks. */
  lemma {:induction false} InnerFitUsesLastChunk(chunks: seq<Chunk>, size: nat, n: nat)
    requires n <= |chunks|
    ensures match InnerFit(chunks, size, n)
            case Some(p) =>
              && p.0 < n
              && TightestFit(chunks[p.0].free, size, InnerCount(chunks[p.0]), p.1)
              && forall c :: p.0 < c < n ==> NoFit(chunks[c].free, size, InnerCount(chunks[c]))
            case None => forall c :: 0 <= c < n ==> NoFit(chunks[c].free, size, InnerCount(chunks[c]))
  {
    if n > 0 {
      BestInnerIsTightest(chunks[n - 1].free, size, InnerCount(chunks[n - 1]));
      InnerFitUsesLastChunk(chunks, size, n - 1);
    }
  }

  function Growth(ch: Chunk, size: nat): nat
    requires ch.free != []
  {
    if Reuse(ch, size) < 0 then -Reuse(ch, size) else 0
  }

  /** When no inner block fits, the chosen chunk's high-water mark grows by the least amount
      any last block offers, and of those that need no growth it wastes the least. */
  lemma {:induction false} LastFitGrowsLeast(chunks: seq<Chunk>, size: nat, n: nat, c: nat)
    requires n <= |chunks| && c < n && LastFits(chunks[c], size)
    requires forall d :: 0 <= d < n && LastFits(chunks[d], size) ==> Reuse(chunks[d], size) > INT64_MIN
    ensures var r := LastFit(chunks, size, n);
            && r.Some?
            && Growth(chunks[r.value], size) <= Growth(chunks[c], size)
            && (Growth(chunks[c], size) == 0 ==> Reuse(chunks[r.value], size) <= Reuse(chunks[c], size))
  {
    if c < n - 1 {
      LastFitGrowsLeast(chunks, size, n - 1, c);
    } else if n > 1 && LastFit(chunks, size, n - 1).Some? {
      LastFitGrowsLeast(chunks, size, n - 1, LastFit(chunks, size, n - 1).value);
    }
  }

  /** In a valid arena the reuse factors fit a signed 64-bit word. */
  lemma ReuseInRange(a: Arena, live: Live, size: nat, d: nat)
    requires Valid(a, live) && d < |a.chunks| && LastFits(a.chunks[d], size)
    ensures INT64_MIN < Reuse(a.chunks[d], size) <= HALF
  {
    assert ChunkOk(a.chunks[d], a.alignment);
  }

  /** Allocation aborts for want of space only when all chunks are in use and none has a
      block that is large enough. */
  lemma ChooseFailsOnlyWhenFull(a: Arena, live: Live, size: nat)
    requires Valid(a, live) && size <= HALF && Choose(a, size).None?
    ensures |a.chunks| == MAX_CHUNKS
    ensures forall c, i :: 0 <= c < |a.chunks| && 0 <= i < |a.chunks[c].free| ==> a.chunks[c].free[i].size < size
  {
    forall c, i | 0 <= c < |a.chunks| && 0 <= i < |a.chunks[c].free|
      ensures a.chunks[c].free[i].size < size
    {
      InnerFitUsesLastChunk(a.chunks, size, |a.chunks|);
      assert NoFit(a.chunks[c].free, size, InnerCount(a.chunks[c]));
      forall d | 0 <= d < |a.chunks| && LastFits(a.chunks[d], size) ensures Reuse(a.chunks[d], size) > INT64_MIN {
        ReuseInRange(a, live, size, d);
      }
      if LastFits(a.chunks[c], size) {
        LastFitGrowsLeast(a.chunks, size, |a.chunks|, c);
      }
    }
  }

  // --------------------------------------------------------------- whole runs

  datatype Op = Take(size: nat) | Give(at: Addr)

  /** One allocation, or one release of a live region; the second component is the map of
      live regions. `None` when the step aborts or releases what is not live. */
  ghost function Step(a: Arena, live: Live, op: Op): (r: Option<(Arena, Live)>)
    requires a.alignment > 0
    ensures r.Some? ==> r.value.0.alignment == a.alignment
  {
    match op
    case Take(size) =>
      if size == 0 || Alloc(a, size).None? then None
      else
        var (b, p) := Alloc(a, size).value;
        Some((b, live[p := Pad(size, a.alignment)]))
    case Give(p) =>
      if p !in live || p.chunk >= |a.chunks| || Free(a, p, live[p]).None? then None
      else Some((Free(a, p, live[p]).value, live - {p}))
  }

  ghost function Run(a: Arena, live: Live, ops: seq<Op>): Option<(Arena, Live)>
    requires a.alignment > 0
    decreases |ops|
  {
    if ops == [] then Some((a, live)) else
    var next := Step(a, live, ops[0]);
    if next.None? then None else Run(next.value.0, next.value.1, ops[1..])
  }

  lemma EmptyArenaValid(alignment: nat, maxChunkSize: nat)
    requires alignment > 0 && maxChunkSize <= HALF
    ensures Valid(Arena(alignment, maxChunkSize, []), map[])
  {
  }

  lemma StepKeepsPartition(a: Arena, live: Live, op: Op)
    requires Valid(a, live) && Step(a, live, op).Some?
    ensures Valid(Step(a, live, op).value.0, Step(a, live, op).value.1)
  {
    match op
    case Take(size) => AllocKeeps(a, size, live);
    case Give(p) =>
      assert RegionOk(a, p, live[p]);
      PadRoundsUp(live[p], a.alignment);
      FreeKeeps(a, live, p, p.offset, live[p]);
  }

  lemma {:induction false} RunKeepsPartition(a: Arena, live: Live, ops: seq<Op>)
    requires Valid(a, live)
    ensures Run(a, live, ops).Some? ==> Valid(Run(a, live, ops).value.0, Run(a, live, ops).value.1)
    decreases |ops|
  {
    if ops == [] || Step(a, live, ops[0]).None? {
    } else {
      StepKeepsPartition(a, live, ops[0]);
      var (b, more) := Step(a, live, ops[0]).value;
      RunKeepsPartition(b, more, ops[1..]);
    }
  }

  /** Two runs from the empty arena that end with the same live regions and the same chunk
      capacities end with the same free lists. */
  lemma RunOrderIrrelevant(alignment: nat, maxChunkSize: nat, ops1: seq<Op>, ops2: seq<Op>)
    requires alignment > 0 && maxChunkSize <= HALF
    requires var start := Arena(alignment, maxChunkSize, []);
             var r1, r2 := Run(start, map[], ops1), Run(start, map[], ops2);
             && r1.Some? && r2.Some? && r1.value.1 == r2.value.1
             && |r1.value.0.chunks| == |r2.value.0.chunks|
             && forall c :: 0 <= c < |r1.value.0.chunks| ==>
                  r1.value.0.chunks[c].capacity == r2.value.0.chunks[c].capacity
    ensures var start := Arena(alignment, maxChunkSize, []);
            var a1, a2 := Run(start, map[], ops1).value.0, Run(start, map[], ops2).value.0;
            forall c :: 0 <= c < |a1.chunks| ==> a1.chunks[c].free == a2.chunks[c].free
  {
    var start := Arena(alignment, maxChunkSize, []);
    EmptyArenaValid(alignment, maxChunkSize);
    RunKeepsPartition(start, map[], ops1);
    RunKeepsPartition(start, map[], ops2);
    var (a1, live) := Run(start, map[], ops1).value;
    var a2 := Run(start, map[], ops2).value.0;
    forall c | 0 <= c < |a1.chunks| ensures a1.chunks[c].free == a2.chunks[c].free {
      FreeListDeterminedByLive(a1, a2, live, c);
    }
  }
}
