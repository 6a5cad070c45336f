/** What one allocation does, in terms of the arena before it: which block is taken, and when a
    high-water mark rises or a chunk is opened. */
module BestFit {
  import opened Options
  import opened FreeList
  import opened Arena
  import opened ArenaInvariant

  /** A block other than the last one of its chunk, and large enough. */
  predicate InnerRoom(ch: Chunk, i: nat, size: nat) {
    i + 1 < |ch.free| && size <= ch.free[i].size
  }

  ghost predicate SomeInnerRoom(ch: Chunk, size: nat) {
    exists i: nat :: InnerRoom(ch, i, size)
  }

  /** No other inner block is a tighter fit, and no later one an equally tight fit. */
  ghost predicate Tightest(ch: Chunk, i: nat, size: nat) {
    && InnerRoom(ch, i, size)
    && forall k: nat :: InnerRoom(ch, k, size) ==>
         ch.free[i].size < ch.free[k].size || (ch.free[i].size == ch.free[k].size && k <= i)
  }

  predicate LastRoom(ch: Chunk, size: nat) {
    ch.free != [] && size <= ch.free[|ch.free| - 1].size
  }

  /** Where the last block of a chunk would end after it has given `size` bytes. */
  function LastEnd(ch: Chunk, size: nat): nat
    requires ch.free != []
  {
    ch.free[|ch.free| - 1].offset + size
  }

  /** The last block of `c` raises its high-water mark by no more than that of `d` would; and if
      that of `d` needs no raise, it leaves no more space below the mark. */
  predicate GrowsNoMore(c: Chunk, d: Chunk, size: nat)
    requires c.free != [] && d.free != []
  {
    && (LastEnd(c, size) > c.maxSize ==> LastEnd(c, size) - c.maxSize <= LastEnd(d, size) - d.maxSize)
    && (LastEnd(d, size) <= d.maxSize ==> c.maxSize - LastEnd(c, size) <= d.maxSize - LastEnd(d, size))
  }

  /** Blocks other than the last one lie below the high-water mark. */
  lemma InnerBelowMark(a: Arena, live: Live, c: nat, i: nat)
    requires Valid(a, live) && c < |a.chunks| && i + 1 < |a.chunks[c].free|
    ensures a.chunks[c].free[i].End() <= a.chunks[c].maxSize
  {
    var ch := a.chunks[c];
    var x := ch.free[i].End();
    assert ChunkOk(ch, a.alignment) && Tiled(ch, c, live);
    assert x < ch.free[i + 1].offset <= ch.free[i + 1].End() <= ch.capacity;
    forall k | 0 <= k < |ch.free| ensures !(ch.free[k].offset <= x < ch.free[k].End()) {
      assert k > i ==> x < ch.free[k].offset;
      assert k < i ==> ch.free[k].End() < ch.free[i].offset;
    }
    assert LiveAt(live, c, x);
    var p :| p in live && InRegion(p, live[p], c, x);
    assert RegionOk(a, p, live[p]);
  }

  /** With room in an inner block, the region starts at the tightest one of the last chunk that
      has one: no chunk is opened and no high-water mark rises. */
  lemma InnerFirst(a: Arena, live: Live, rawSize: nat, c: nat, i: nat)
    requires Valid(a, live) && c < |a.chunks| && Tightest(a.chunks[c], i, Pad(rawSize, a.alignment))
    requires forall d :: c < d < |a.chunks| ==> !SomeInnerRoom(a.chunks[d], Pad(rawSize, a.alignment))
    ensures match Alloc(a, rawSize)
            case Some((b, p)) =>
              && p == Addr(c, a.chunks[c].free[i].offset) && |b.chunks| == |a.chunks|
              && forall d :: 0 <= d < |a.chunks| ==>
                   b.chunks[d].maxSize == a.chunks[d].maxSize && b.chunks[d].capacity == a.chunks[d].capacity
            case None => a.chunks[c].free[i].size == Pad(rawSize, a.alignment) && |a.chunks[c].free| == MAX_FREE_BLOCKS
  {
    hide Pad;
    var size := Pad(rawSize, a.alignment);
    assert ChunkOk(a.chunks[c], a.alignment) && a.chunks[c].free[i].End() <= HALF;
    InnerBelowMark(a, live, c, i);
    InnerFitUsesLastChunk(a.chunks, size, |a.chunks|);
    assert InnerFit(a.chunks, size, |a.chunks|) == Some((c, i)) by {
      TheInnerFit(a.chunks, size, c, i);
    }
  }

  lemma TheInnerFit(chunks: seq<Chunk>, size: nat, c: nat, i: nat)
    requires c < |chunks| && Tightest(chunks[c], i, size)
    requires forall d :: c < d < |chunks| ==> !SomeInnerRoom(chunks[d], size)
    ensures InnerFit(chunks, size, |chunks|) == Some((c, i))
  {
    hide InnerFit;
    InnerFitUsesLastChunk(chunks, size, |chunks|);
    var r := InnerFit(chunks, size, |chunks|);
    assert !NoFit(chunks[c].free, size, InnerCount(chunks[c]));
    assert r.Some?;
    assert InnerRoom(chunks[r.value.0], r.value.1, size);
    assert SomeInnerRoom(chunks[r.value.0], size);
    assert r.value.0 == c;
  }

  lemma InnerFitHasRoom(chunks: seq<Chunk>, size: nat)
    ensures var r := InnerFit(chunks, size, |chunks|);
            r.Some? ==> r.value.0 < |chunks| && SomeInnerRoom(chunks[r.value.0], size)
  {
    hide InnerFit;
    var r := InnerFit(chunks, size, |chunks|);
    if r.Some? {
      assert InnerRoom(chunks[r.value.0], r.value.1, size);
    }
  }

  lemma NoInnerFit(chunks: seq<Chunk>, size: nat)
    requires forall d :: 0 <= d < |chunks| ==> !SomeInnerRoom(chunks[d], size)
    ensures InnerFit(chunks, size, |chunks|) == None
  {
    hide InnerFit, SomeInnerRoom;
    InnerFitHasRoom(chunks, size);
  }

  /** The region comes from the front of the last block of chunk `r`. */
  ghost predicate TakesLast(a: Arena, b: Arena, p: Addr, r: nat, size: nat) {
    && p.chunk == r < |a.chunks| == |b.chunks| && LastRoom(a.chunks[r], size)
    && p.offset + size == LastEnd(a.chunks[r], size)
    && b.chunks[r].maxSize == Max(a.chunks[r].maxSize, p.offset + size)
    && b.chunks[r].capacity == a.chunks[r].capacity
    && forall d :: 0 <= d < |a.chunks| && d != r ==> b.chunks[d] == a.chunks[d]
  }

  lemma LastIsTaken(a: Arena, rawSize: nat, r: nat)
    requires a.alignment > 0 && Pad(rawSize, a.alignment) <= HALF && r < |a.chunks|
    requires InnerFit(a.chunks, Pad(rawSize, a.alignment), |a.chunks|) == None
    requires LastFit(a.chunks, Pad(rawSize, a.alignment), |a.chunks|) == Some(r)
    ensures match Alloc(a, rawSize)
            case Some((b, p)) => TakesLast(a, b, p, r, Pad(rawSize, a.alignment))
            case None => |a.chunks[r].free| >= MAX_FREE_BLOCKS
  {
    hide Pad, InnerFit, LastFit;
  }

  /** With room in last blocks only, the last block is taken that raises the high-water mark of
      its chunk least; the other chunks stay as they are, and none is opened. */
  lemma LastGrowsLeast(a: Arena, live: Live, rawSize: nat)
    requires Valid(a, live) && exists c :: 0 <= c < |a.chunks| && LastRoom(a.chunks[c], Pad(rawSize, a.alignment))
    requires forall d :: 0 <= d < |a.chunks| ==> !SomeInnerRoom(a.chunks[d], Pad(rawSize, a.alignment))
    ensures match Alloc(a, rawSize)
            case Some((b, p)) =>
              var size := Pad(rawSize, a.alignment);
              && TakesLast(a, b, p, p.chunk, size)
              && (forall d :: 0 <= d < |a.chunks| && LastRoom(a.chunks[d], size) ==>
                    GrowsNoMore(a.chunks[p.chunk], a.chunks[d], size))
            case None => exists c :: 0 <= c < |a.chunks| && |a.chunks[c].free| == MAX_FREE_BLOCKS
  {
    hide Pad, Growth, Alloc, GrowsNoMore, SomeInnerRoom, LastFit, InnerFit;
    var size := Pad(rawSize, a.alignment);
    var c :| 0 <= c < |a.chunks| && LastRoom(a.chunks[c], size);
    LastIsSmall(a, live, c, size);
    NoInnerFit(a.chunks, size);
    LeastLast(a, live, size, c);
    var r := LastFit(a.chunks, size, |a.chunks|).value;
    LastIsTaken(a, rawSize, r);
    assert ChunkOk(a.chunks[r], a.alignment);
    forall d | 0 <= d < |a.chunks| && LastRoom(a.chunks[d], size)
      ensures GrowsNoMore(a.chunks[r], a.chunks[d], size)
    {
      LeastLast(a, live, size, d);
    }
  }

  lemma LastIsSmall(a: Arena, live: Live, c: nat, size: nat)
    requires Valid(a, live) && c < |a.chunks| && LastRoom(a.chunks[c], size)
    ensures size <= HALF
  {
    assert ChunkOk(a.chunks[c], a.alignment);
    assert a.chunks[c].free[|a.chunks[c].free| - 1].End() <= HALF;
  }

  lemma LeastLast(a: Arena, live: Live, size: nat, d: nat)
    requires Valid(a, live) && d < |a.chunks| && LastRoom(a.chunks[d], size)
    ensures var r := LastFit(a.chunks, size, |a.chunks|);
            && r.Some? && LastRoom(a.chunks[r.value], size)
            && GrowsNoMore(a.chunks[r.value], a.chunks[d], size)
  {
    hide LastFit, Valid;
    forall e | 0 <= e < |a.chunks| && LastFits(a.chunks[e], size) ensures Reuse(a.chunks[e], size) > INT64_MIN {
      ReuseInRange(a, live, size, e);
    }
    LastFitGrowsLeast(a.chunks, size, |a.chunks|, d);
  }

  /** With no room in any block a chunk is opened, of the size asked for or the usual one if that
      is larger, and the last possible chunk of half the address range; there are at most 16. */
  lemma NewChunkLast(a: Arena, live: Live, rawSize: nat)
    requires Valid(a, live) && Pad(rawSize, a.alignment) <= HALF
    requires forall d :: 0 <= d < |a.chunks| ==>
      !SomeInnerRoom(a.chunks[d], Pad(rawSize, a.alignment)) && !LastRoom(a.chunks[d], Pad(rawSize, a.alignment))
    ensures match Alloc(a, rawSize)
            case Some((b, p)) =>
              var size, n := Pad(rawSize, a.alignment), |a.chunks|;
              && n < 16 && p == Addr(n, 0) && |b.chunks| == n + 1 && b.chunks[..n] == a.chunks
              && b.chunks[n].maxSize == size
              && b.chunks[n].capacity == if n == 15 then HALF else if size < a.maxChunkSize then a.maxChunkSize
                else size
            case None => |a.chunks| == 16
  {
    hide Pad, LastFit;
    var size := Pad(rawSize, a.alignment);
    NoInnerFit(a.chunks, size);
    assert LastFit(a.chunks, size, |a.chunks|).None?;
  }
}
