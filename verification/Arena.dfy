/** The multi-chunk best-fit allocator, as a function of its state.

    An arena is a list of chunks, each with its free list. Allocation takes the best-fitting
    block that is not the last of its chunk, else the last block that wastes or grows least,
    else opens a new chunk. `None` stands for the calls that abort, for the two calls on a
    completely full free list that would shift in a slot past the end of the block array, and
    for requests above half the address range, which would wrap around. */
module Arena {
  import opened Options
  import opened FreeList
  import opened Modular

  const MAX_FREE_BLOCKS: nat := 256
  const MAX_CHUNKS: nat := 16
  const SIZE_MAX: nat := 0xFFFF_FFFF_FFFF_FFFF
  const HALF: nat := SIZE_MAX / 2
  const INT64_MIN: int := -0x8000_0000_0000_0000

  /** `capacity` is the size of the free block the chunk was created with. */
  datatype Chunk = Chunk(free: seq<Block>, maxSize: nat, capacity: nat)

  datatype Addr = Addr(chunk: nat, offset: nat)

  datatype Arena = Arena(alignment: nat, maxChunkSize: nat, chunks: seq<Chunk>)

  function Pad(size: nat, alignment: nat): nat
    requires alignment > 0
  {
    size + (alignment - size % alignment) % alignment
  }

  // --------------------------------------------------------- choosing a block

  /** Best fit among the first `n` blocks; of equal sizes the last one wins. */
  function BestInner(fs: seq<Block>, size: nat, n: nat): (r: Option<nat>)
    requires n <= |fs|
    ensures r.Some? ==> r.value < n && size <= fs[r.value].size
  {
    if n == 0 then None else
    var r := BestInner(fs, size, n - 1);
    if size <= fs[n - 1].size && (r.None? || fs[n - 1].size <= fs[r.value].size) then Some(n - 1) else r
  }

  function InnerCount(ch: Chunk): nat {
    if ch.free == [] then 0 else |ch.free| - 1
  }

  /** The best inner block of the last chunk that has one. */
  function InnerFit(chunks: seq<Chunk>, size: nat, n: nat): (r: Option<(nat, nat)>)
    requires n <= |chunks|
    ensures r.Some? ==> r.value.0 < n
    ensures r.Some? ==> r.value.1 < InnerCount(chunks[r.value.0])
    ensures r.Some? ==> size <= chunks[r.value.0].free[r.value.1].size
  {
    if n == 0 then None else
    match BestInner(chunks[n - 1].free, size, InnerCount(chunks[n - 1]))
    case Some(i) => Some((n - 1, i))
    case None => InnerFit(chunks, size, n - 1)
  }

  predicate LastFits(ch: Chunk, size: nat) {
    ch.free != [] && size <= ch.free[|ch.free| - 1].size
  }

  /** Space below the high-water mark left over (or, when negative, missing) if the region
      went into the chunk's last block. */
  function Reuse(ch: Chunk, size: nat): int
    requires ch.free != []
  {
    ch.maxSize - ch.free[|ch.free| - 1].offset - size
  }

  predicate BetterReuse(best: int, reuse: int) {
    (best < 0 && reuse > best) || (reuse >= 0 && reuse < best)
  }

  function BestReuse(chunks: seq<Chunk>, size: nat, r: Option<nat>): int
    requires r.Some? ==> r.value < |chunks| && LastFits(chunks[r.value], size)
  {
    match r case None => INT64_MIN case Some(c) => Reuse(chunks[c], size)
  }

  function LastFit(chunks: seq<Chunk>, size: nat, n: nat): (r: Option<nat>)
    requires n <= |chunks|
    ensures r.Some? ==> r.value < n && LastFits(chunks[r.value], size)
  {
    if n == 0 then None else
    var r := LastFit(chunks, size, n - 1);
    var ch := chunks[n - 1];
    if LastFits(ch, size) && BetterReuse(BestReuse(chunks, size, r), Reuse(ch, size)) then Some(n - 1) else r
  }

  function FreshSize(a: Arena, minSize: nat): nat {
    if |a.chunks| == MAX_CHUNKS - 1 then HALF
    else if minSize >= a.maxChunkSize then minSize else a.maxChunkSize
  }

  function NewChunk(a: Arena, minSize: nat): Option<Arena> {
    if |a.chunks| >= MAX_CHUNKS then None
    else
      var capacity := FreshSize(a, minSize);
      Some(a.(chunks := a.chunks + [Chunk([Block(0, capacity)], 0, capacity)]))
  }

  datatype Choice = Choice(arena: Arena, chunk: nat, block: nat)

  predicate Fits(ch: Choice, size: nat) {
    && ch.chunk < |ch.arena.chunks|
    && ch.block < |ch.arena.chunks[ch.chunk].free|
    && size <= ch.arena.chunks[ch.chunk].free[ch.block].size
  }

  function Choose(a: Arena, size: nat): (r: Option<Choice>)
    requires size <= HALF
    ensures r.Some? ==> Fits(r.value, size)
  {
    match InnerFit(a.chunks, size, |a.chunks|)
    case Some(p) => Some(Choice(a, p.0, p.1))
    case None =>
      match LastFit(a.chunks, size, |a.chunks|)
      case Some(c) => Some(Choice(a, c, |a.chunks[c].free| - 1))
      case None =>
        match NewChunk(a, size)
        case Some(b) => Some(Choice(b, |a.chunks|, 0))
        case None => None
  }

  // ------------------------------------------------------ allocate and release

  function Max(x: nat, y: nat): nat {
    if x >= y then x else y
  }

  function CarveChunk(ch: Chunk, block: nat, size: nat): Chunk
    requires block < |ch.free| && size <= ch.free[block].size
  {
    ch.(free := Carve(ch.free, block, size), maxSize := Max(ch.maxSize, ch.free[block].offset + size))
  }

  function Alloc(a: Arena, rawSize: nat): Option<(Arena, Addr)>
    requires a.alignment > 0
  {
    var size := Pad(rawSize, a.alignment);
    if size > HALF then None else
    match Choose(a, size)
    case None => None
    case Some(Choice(b, c, i)) =>
      var ch := b.chunks[c];
      if ch.free[i].size == size && |ch.free| >= MAX_FREE_BLOCKS then None
      else Some((b.(chunks := b.chunks[c := CarveChunk(ch, i, size)]), Addr(c, ch.free[i].offset)))
  }

  function Free(a: Arena, addr: Addr, rawSize: nat): Option<Arena>
    requires a.alignment > 0 && addr.chunk < |a.chunks|
  {
    var size := Pad(rawSize, a.alignment);
    var ch := a.chunks[addr.chunk];
    var e := ReleaseEdit(ch.free, addr.offset, size);
    if e.hi - e.lo != 1 && |ch.free| >= MAX_FREE_BLOCKS then None
    else Some(a.(chunks := a.chunks[addr.chunk := ch.(free := Release(ch.free, addr.offset, size))]))
  }

  function Reset(a: Arena): Arena {
    a.(chunks := [])
  }

  // --------------------------------------------------------------- invariants

  ghost predicate ChunkOk(ch: Chunk, alignment: nat)
    requires alignment > 0
  {
    && Normal(ch.free)
    && Within(ch.free, ch.capacity)
    && Aligned(ch.free, alignment)
    && ch.maxSize <= ch.capacity <= HALF
    && |ch.free| <= MAX_FREE_BLOCKS
  }

  ghost predicate ArenaOk(a: Arena) {
    && a.alignment > 0
    && a.maxChunkSize <= HALF
    && |a.chunks| <= MAX_CHUNKS
    && forall c :: 0 <= c < |a.chunks| ==> ChunkOk(a.chunks[c], a.alignment)
  }

  /** The regions handed out and not yet returned: address to (padded) size. */
  type Live = map<Addr, nat>

  ghost predicate InRegion(p: Addr, size: nat, c: nat, x: int) {
    p.chunk == c && p.offset <= x < p.offset + size
  }

  ghost predicate LiveAt(live: Live, c: nat, x: int) {
    exists p :: p in live && InRegion(p, live[p], c, x)
  }

  predicate Disjoint(p: Addr, psize: nat, q: Addr, qsize: nat) {
    p.chunk != q.chunk || p.offset + psize <= q.offset || q.offset + qsize <= p.offset
  }

  ghost predicate RegionOk(a: Arena, p: Addr, size: nat)
    requires a.alignment > 0
  {
    && p.chunk < |a.chunks|
    && 0 < size
    && Multiple(size, a.alignment)
    && Multiple(p.offset, a.alignment)
    && p.offset + size <= a.chunks[p.chunk].maxSize
  }

  /** Every byte of chunk `c` is either free or in a live region, never both. */
  ghost predicate Tiled(ch: Chunk, c: nat, live: Live) {
    forall x :: 0 <= x < ch.capacity ==> (Covers(ch.free, x) <==> !LiveAt(live, c, x))
  }

  ghost predicate LiveOk(a: Arena, live: Live)
    requires a.alignment > 0
  {
    && (forall p :: p in live ==> RegionOk(a, p, live[p]))
    && (forall p, q :: p in live && q in live && p != q ==> Disjoint(p, live[p], q, live[q]))
  }

  ghost predicate Partition(a: Arena, live: Live)
    requires a.alignment > 0
  {
    && LiveOk(a, live)
    && forall c :: 0 <= c < |a.chunks| ==> Tiled(a.chunks[c], c, live)
  }

  ghost predicate Valid(a: Arena, live: Live) {
    ArenaOk(a) && Partition(a, live)
  }

  /** The live regions after the tail of region `p` from `offset` on is returned. */
  function Trim(live: Live, p: Addr, offset: nat): Live
    requires p in live && p.offset <= offset
  {
    if offset == p.offset then live - {p} else live[p := offset - p.offset]
  }
}
