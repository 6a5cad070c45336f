/** The dynamic tensor allocator over its block arrays, proved against `Arena`. */
module DynTallocr {
  import opened Options
  import opened FreeList
  import opened Arena
  import opened ArenaInvariant

  const TWO_64: int := SIZE_MAX + 1

  /** The value of a wrapped 64-bit difference read as a signed word. */
  function AsInt64(x: int): int {
    var u := x % TWO_64;
    if u <= HALF then u else u - TWO_64
  }

  lemma AsInt64Exact(x: int)
    requires INT64_MIN <= x <= HALF
    ensures AsInt64(x) == x
  {
  }

  lemma {:induction false} InsertPosIs(fs: seq<Block>, offset: nat, pos: nat)
    requires pos <= |fs|
    requires forall k :: 0 <= k < pos ==> fs[k].offset < offset
    requires pos < |fs| ==> offset <= fs[pos].offset
    ensures InsertPos(fs, offset) == pos
  {
    if pos > 0 {
      InsertPosIs(fs[1..], offset, pos - 1);
    }
  }

  lemma {:induction false} FirstTouchIs(fs: seq<Block>, offset: nat, size: nat, pos: nat)
    requires pos <= |fs|
    requires forall k :: 0 <= k < pos ==> !Touches(fs[k], offset, size)
    requires pos < |fs| ==> Touches(fs[pos], offset, size)
    ensures FirstTouch(fs, offset, size) == pos
  {
    if pos > 0 {
      FirstTouchIs(fs[1..], offset, size, pos - 1);
    }
  }

  class ChunkBuffer {
    const blocks: array<Block>
    var n: nat
    var maxSize: nat
    ghost const capacity: nat

    constructor (size: nat)
      ensures Valid() && Model() == Chunk([Block(0, size)], 0, size)
      ensures fresh(blocks)
    {
      blocks := new Block[MAX_FREE_BLOCKS];
      n := 1;
      maxSize := 0;
      capacity := size;
      new;
      blocks[0] := Block(0, size);
      assert blocks[..1] == [Block(0, size)];
    }

    ghost predicate Valid()
      reads this, blocks
    {
      blocks.Length == MAX_FREE_BLOCKS && n <= MAX_FREE_BLOCKS
    }

    ghost function Blocks(): seq<Block>
      reads this, blocks
      requires Valid()
    {
      blocks[..n]
    }

    ghost function Model(): Chunk
      reads this, blocks
      requires Valid()
    {
      Chunk(Blocks(), maxSize, capacity)
    }

    method FindPos(offset: nat) returns (pos: nat)
      requires Valid()
      ensures pos == InsertPos(Blocks(), offset)
    {
      pos := 0;
      while pos < n && blocks[pos].offset < offset
        invariant pos <= n
        invariant forall k :: 0 <= k < pos ==> blocks[k].offset < offset
      {
        pos := pos + 1;
      }
      InsertPosIs(Blocks(), offset, pos);
    }

    /** Makes room at `pos` by shifting the blocks from there on up by one. */
    method ShiftUp(pos: nat)
      requires Valid() && pos <= n < MAX_FREE_BLOCKS
      modifies blocks
      ensures forall k :: 0 <= k < pos ==> blocks[k] == old(blocks[k])
      ensures forall k :: pos < k <= n ==> blocks[k] == old(blocks[k - 1])
    {
      var i := n;
      while i > pos
        invariant pos <= i <= n
        invariant forall k :: 0 <= k < i ==> blocks[k] == old(blocks[k])
        invariant forall k :: i < k <= n ==> blocks[k] == old(blocks[k - 1])
      {
        blocks[i] := blocks[i - 1];
        i := i - 1;
      }
    }

    /** Inserts a block at its place in address order; refused when the array is full. */
    method InsertBlock(offset: nat, size: nat) returns (ok: bool)
      requires Valid()
      modifies this`n, blocks
      ensures Valid()
      ensures ok == (old(n) < MAX_FREE_BLOCKS)
      ensures var p := InsertPos(old(Blocks()), offset);
              ok ==> Blocks() == Splice(old(Blocks()), p, p, Block(offset, size))
      ensures !ok ==> Blocks() == old(Blocks())
    {
      if n >= MAX_FREE_BLOCKS {
        return false;
      }
      hide Splice, InsertPos;
      ghost var was := Blocks();
      var pos := FindPos(offset);
      ShiftUp(pos);
      blocks[pos] := Block(offset, size);
      n := n + 1;
      SpliceInsert(was, Blocks(), pos, Block(offset, size));
      return true;
    }

    /** Shifts the blocks after `idx` down by one. The shift reads one slot past the last
        block, so that slot must exist. */
    method RemoveBlock(idx: nat)
      requires Valid() && idx < n < MAX_FREE_BLOCKS
      modifies this`n, blocks
      ensures Valid()
      ensures Blocks() == RemoveAt(old(Blocks()), idx)
    {
      ghost var was := Blocks();
      var i := idx;
      while i < n
        invariant idx <= i <= n && n == old(n)
        invariant forall k :: 0 <= k < idx ==> blocks[k] == was[k]
        invariant forall k :: idx <= k < i && k + 1 < n ==> blocks[k] == was[k + 1]
        invariant forall k :: i <= k < n ==> blocks[k] == was[k]
      {
        blocks[i] := blocks[i + 1];
        i := i + 1;
      }
      n := n - 1;
      assert blocks[..n] == RemoveAt(was, idx);
    }

    /** The best-fitting block other than the last one. */
    method BestBlock(size: nat) returns (best: int)
      requires Valid() && Within(Blocks(), HALF)
      ensures match BestInner(Blocks(), size, InnerCount(Model()))
              case Some(i) => best == i
              case None => best == -1
    {
      ghost var fs := Blocks();
      best := -1;
      var bestSize := SIZE_MAX;
      var i := 0;
      while i < n - 1
        invariant 0 <= i <= InnerCount(Model())
        invariant BestInner(fs, size, i).Some? ==> best == BestInner(fs, size, i).value && bestSize == fs[best].size
        invariant BestInner(fs, size, i).None? ==> best == -1 && bestSize == SIZE_MAX
      {
        var b := blocks[i];
        assert b == fs[i] && b.End() <= HALF;
        if b.size >= size && b.size <= bestSize {
          best, bestSize := i, b.size;
        }
        i := i + 1;
      }
    }

    /** Whether the last block has room, and the space under the high-water mark it would
        leave; the difference of unsigned words is read as a signed one. */
    method LastReuse(size: nat) returns (fits: bool, reuse: int)
      requires Valid() && n > 0 && size <= HALF
      requires Within(Blocks(), HALF) && maxSize <= HALF
      ensures fits == LastFits(Model(), size)
      ensures fits ==> reuse == Reuse(Model(), size)
    {
      var b := blocks[n - 1];
      assert b == Blocks()[n - 1];
      reuse := AsInt64(maxSize - b.offset - size);
      fits := b.size >= size;
      if fits {
        AsInt64Exact(maxSize - b.offset - size);
      }
    }

    /** Takes `size` bytes from the front of block `idx`. */
    method TakeFrom(idx: nat, size: nat) returns (offset: nat)
      requires Valid() && idx < n && size <= blocks[idx].size
      requires blocks[idx].size == size ==> n < MAX_FREE_BLOCKS
      modifies this, blocks
      ensures Valid()
      ensures offset == old(blocks[idx].offset)
      ensures Model() == CarveChunk(old(Model()), idx, size)
    {
      ghost var was := Blocks();
      offset := blocks[idx].offset;
      blocks[idx] := Block(blocks[idx].offset + size, blocks[idx].size - size);
      assert Blocks() == was[idx := Block(was[idx].offset + size, was[idx].size - size)];
      if blocks[idx].size == 0 {
        RemoveBlock(idx);
        assert Blocks() == RemoveAt(was, idx);
      }
      maxSize := Max(maxSize, offset + size);
    }

    /** Gives a region back to the free list. */
    method Return(offset: nat, size: nat) returns (ok: bool)
      requires Valid()
      modifies this`n, blocks
      ensures Valid()
      ensures var e := ReleaseEdit(old(Blocks()), offset, size);
              ok == (e.hi - e.lo == 1 || old(n) < MAX_FREE_BLOCKS)
      ensures ok ==> Blocks() == Release(old(Blocks()), offset, size)
    {
      hide Splice, InsertPos;
      ghost var was := Blocks();
      var i := 0;
      while i < n
        invariant i <= n && Blocks() == was && n == old(n)
        invariant forall k :: 0 <= k < i ==> !Touches(was[k], offset, size)
      {
        var block := blocks[i];
        if block.End() == offset {
          FirstTouchIs(was, offset, size, i);
          ok := GrowUp(i, size);
          return;
        }
        if offset + size == block.offset {
          FirstTouchIs(was, offset, size, i);
          GrowDown(i, offset, size);
          return true;
        }
        i := i + 1;
      }
      FirstTouchIs(was, offset, size, i);
      ok := InsertBlock(offset, size);
    }

    /** Extends block `i` downwards. The previous block cannot end where the region starts:
        the scan has already passed it. */
    method GrowDown(i: nat, offset: nat, size: nat)
      requires Valid() && i < n
      requires i > 0 ==> blocks[i - 1].End() != offset
      modifies blocks
      ensures Blocks() == Splice(old(Blocks()), i, i + 1, Block(offset, old(Blocks())[i].size + size))
    {
      blocks[i] := Block(offset, blocks[i].size + size);
      if i > 0 {
        var prev := blocks[i - 1];
        if prev.End() == offset {
          assert false;
        }
      }
    }

    /** Extends block `i` upwards, swallowing its successor when the gap closes. */
    method GrowUp(i: nat, size: nat) returns (ok: bool)
      requires Valid() && i < n
      modifies this`n, blocks
      ensures Valid()
      ensures var was := old(Blocks());
              var closes := i + 1 < |was| && was[i].End() + size == was[i + 1].offset;
              && ok == (!closes || old(n) < MAX_FREE_BLOCKS)
              && (ok && closes ==>
                   Blocks() == Splice(was, i, i + 2, Block(was[i].offset, was[i].size + size + was[i + 1].size)))
              && (ok && !closes ==> Blocks() == Splice(was, i, i + 1, Block(was[i].offset, was[i].size + size)))
    {
      hide Splice, RemoveAt;
      ghost var was := Blocks();
      Extend(i, size);
      if i + 1 < n {
        var next := blocks[i + 1];
        if blocks[i].End() == next.offset {
          if n >= MAX_FREE_BLOCKS {
            return false;
          }
          Swallow(i);
          SpliceTwo(was, i, Block(was[i].offset, was[i].size + size), next.size);
          return true;
        }
      }
      SpliceOne(was, i, Block(was[i].offset, was[i].size + size));
      return true;
    }

    method Extend(i: nat, size: nat)
      requires Valid() && i < n
      modifies blocks
      ensures Valid()
      ensures var was := old(Blocks()); Blocks() == was[i := Block(was[i].offset, was[i].size + size)]
    {
      blocks[i] := Block(blocks[i].offset, blocks[i].size + size);
    }

    /** Adds the following block to block `i`. */
    method Swallow(i: nat)
      requires Valid() && i + 1 < n < MAX_FREE_BLOCKS
      modifies this`n, blocks
      ensures Valid()
      ensures var was := old(Blocks());
              Blocks() == RemoveAt(was[i := Block(was[i].offset, was[i].size + was[i + 1].size)], i + 1)
    {
      hide RemoveAt;
      var next := blocks[i + 1];
      Extend(i, next.size);
      RemoveBlock(i + 1);
    }
  }

  lemma SpliceInsert(fs: seq<Block>, gs: seq<Block>, pos: nat, b: Block)
    requires pos <= |fs| && |gs| == |fs| + 1 && gs[pos] == b
    requires forall k :: 0 <= k < pos ==> gs[k] == fs[k]
    requires forall k :: pos < k < |gs| ==> gs[k] == fs[k - 1]
    ensures gs == Splice(fs, pos, pos, b)
  {
  }

  lemma SpliceOne(fs: seq<Block>, i: nat, b: Block)
    requires i < |fs|
    ensures Splice(fs, i, i + 1, b) == fs[i := b]
  {
  }

  /** Growing a block, then swallowing its successor, replaces both by their union. */
  lemma SpliceTwo(fs: seq<Block>, i: nat, b: Block, size: nat)
    requires i + 1 < |fs|
    ensures var c := Block(b.offset, b.size + size);
            RemoveAt(fs[i := b][i := c], i + 1) == Splice(fs, i, i + 2, c)
  {
  }

  lemma InnerFitNone(chunks: seq<Chunk>, size: nat)
    ensures InnerFit(chunks, size, 0) == None
  {
  }

  lemma InnerFitStep(chunks: seq<Chunk>, size: nat, c: nat)
    requires c < |chunks|
    ensures InnerFit(chunks, size, c + 1) ==
      match BestInner(chunks[c].free, size, InnerCount(chunks[c]))
      case Some(i) => Some((c, i))
      case None => InnerFit(chunks, size, c)
  {
  }

  lemma LastFitNone(chunks: seq<Chunk>, size: nat)
    ensures LastFit(chunks, size, 0) == None && BestReuse(chunks, size, None) == INT64_MIN
  {
  }

  /** One step of the scan over last blocks. */
  lemma LastFitStep(chunks: seq<Chunk>, size: nat, c: nat)
    requires c < |chunks|
    ensures var best := BestReuse(chunks, size, LastFit(chunks, size, c));
            var taken := LastFits(chunks[c], size) && BetterReuse(best, Reuse(chunks[c], size));
            && LastFit(chunks, size, c + 1) == (if taken then Some(c) else LastFit(chunks, size, c))
            && BestReuse(chunks, size, LastFit(chunks, size, c + 1)) == (if taken then Reuse(chunks[c], size) else best)
  {
  }

  lemma ChunkBelowHalf(ch: Chunk, alignment: nat)
    requires alignment > 0 && ChunkOk(ch, alignment)
    ensures Within(ch.free, HALF) && ch.maxSize <= HALF
  {
  }

  class Allocator {
    const alignment: nat
    const maxChunkSize: nat
    var chunks: seq<ChunkBuffer>
    ghost var model: Arena
    ghost var Repr: set<object>

    constructor (alignment: nat, maxBufferSize: nat)
      requires alignment > 0
      ensures Valid() && fresh(Repr)
      ensures model == Arena(alignment, if maxBufferSize <= HALF then maxBufferSize else HALF, [])
    {
      this.alignment := alignment;
      this.maxChunkSize := if maxBufferSize <= HALF then maxBufferSize else HALF;
      chunks := [];
      model := Arena(alignment, if maxBufferSize <= HALF then maxBufferSize else HALF, []);
      Repr := {this};
    }

    ghost predicate Valid()
      reads this, Repr
      ensures Valid() ==> this in Repr
    {
      && this in Repr
      && alignment > 0
      && model.alignment == alignment && model.maxChunkSize == maxChunkSize
      && |model.chunks| == |chunks|
      && (forall i :: 0 <= i < |chunks| ==>
           && chunks[i] in Repr && chunks[i].blocks in Repr
           && chunks[i].Valid() && chunks[i].Model() == model.chunks[i])
      && (forall i, j :: 0 <= i < j < |chunks| ==> chunks[i] != chunks[j] && chunks[i].blocks != chunks[j].blocks)
    }

    /** The scan over all but the last block of every chunk. */
    method FindInner(size: nat) returns (chunk: int, block: int)
      requires Valid() && ArenaOk(model)
      ensures match InnerFit(model.chunks, size, |model.chunks|)
              case Some(p) => chunk == p.0 && block == p.1
              case None => chunk == -1 && block == -1
    {
      hide Normal, Aligned, Within, InnerFit, BestInner;
      chunk, block := -1, -1;
      assert InnerFit(model.chunks, size, 0) == None by { InnerFitNone(model.chunks, size); }
      for c := 0 to |chunks|
        invariant InnerFit(model.chunks, size, c).Some? ==> (chunk, block) == InnerFit(model.chunks, size, c).value
        invariant InnerFit(model.chunks, size, c).None? ==> chunk == -1 && block == -1
      {
        assert ChunkOk(model.chunks[c], alignment);
        ChunkBelowHalf(model.chunks[c], alignment);
        InnerFitStep(model.chunks, size, c);
        var i := chunks[c].BestBlock(size);
        if i != -1 {
          chunk, block := c, i;
        }
      }
    }

    /** The scan over the last block of every chunk. */
    method FindLast(size: nat) returns (chunk: int, block: int)
      requires Valid() && ArenaOk(model) && size <= HALF
      ensures match LastFit(model.chunks, size, |model.chunks|)
              case Some(c) => chunk == c && block == |model.chunks[c].free| - 1
              case None => chunk == -1 && block == -1
    {
      hide Normal, Aligned, Within, LastFit, BestReuse, Reuse;
      chunk, block := -1, -1;
      var bestReuse := INT64_MIN;
      LastFitNone(model.chunks, size);
      for c := 0 to |chunks|
        invariant bestReuse == BestReuse(model.chunks, size, LastFit(model.chunks, size, c))
        invariant LastFit(model.chunks, size, c).Some? ==>
          chunk == LastFit(model.chunks, size, c).value && block == |model.chunks[chunk].free| - 1
        invariant LastFit(model.chunks, size, c).None? ==> chunk == -1 && block == -1
      {
        assert ChunkOk(model.chunks[c], alignment);
        ChunkBelowHalf(model.chunks[c], alignment);
        LastFitStep(model.chunks, size, c);
        var ch := chunks[c];
        if ch.n > 0 {
          var fits, reuse := ch.LastReuse(size);
          var betterReuse := bestReuse < 0 && reuse > bestReuse;
          var betterFit := reuse >= 0 && reuse < bestReuse;
          if fits && (betterReuse || betterFit) {
            chunk, block, bestReuse := c, ch.n - 1, reuse;
          }
        }
      }
    }

    method NewChunkBuffer(minSize: nat) returns (idx: int)
      requires Valid()
      modifies this
      ensures Valid() && fresh(Repr - old(Repr))
      ensures match NewChunk(old(model), minSize)
              case Some(a) => model == a && idx == |old(chunks)|
              case None => model == old(model) && idx == -1
    {
      if |chunks| >= MAX_CHUNKS {
        return -1;
      }
      var size := if minSize >= maxChunkSize then minSize else maxChunkSize;
      if |chunks| == MAX_CHUNKS - 1 {
        size := HALF;
      }
      var chunk := new ChunkBuffer(size);
      idx := |chunks|;
      AddChunk(chunk);
    }

    method AddChunk(chunk: ChunkBuffer)
      requires Valid() && chunk.Valid() && {chunk, chunk.blocks} !! Repr
      modifies this
      ensures Valid() && Repr == old(Repr) + {chunk, chunk.blocks}
      ensures chunks == old(chunks) + [chunk]
      ensures model == old(model).(chunks := old(model).chunks + [chunk.Model()])
    {
      ghost var cs, ms := chunks, model.chunks;
      chunks := chunks + [chunk];
      model := model.(chunks := model.chunks + [chunk.Model()]);
      Repr := Repr + {chunk, chunk.blocks};
      assert forall i :: 0 <= i < |cs| ==> chunks[i] == cs[i] && model.chunks[i] == ms[i];
    }

    /** Where a region of `size` bytes goes; opens a new chunk when none has room. */
    method ChooseBlock(size: nat) returns (chunk: int, block: int)
      requires Valid() && ArenaOk(model) && size <= HALF
      modifies this
      ensures Valid() && fresh(Repr - old(Repr))
      ensures match Choose(old(model), size)
              case Some(c) => model == c.arena && chunk == c.chunk && block == c.block
              case None => chunk == -1
    {
      chunk, block := FindInner(size);
      if block == -1 {
        chunk, block := FindLast(size);
      }
      if block == -1 {
        chunk := NewChunkBuffer(size);
        block := 0;
      }
    }

    method AllocTensor(rawSize: nat) returns (r: Option<Addr>)
      requires Valid() && ArenaOk(model) && Pad(rawSize, alignment) <= HALF
      modifies Repr
      ensures Valid() && fresh(Repr - old(Repr))
      ensures match Alloc(old(model), rawSize)
              case Some(x) => r == Some(x.1) && model == x.0
              case None => r.None?
    {
      var size := Pad(rawSize, alignment);
      var chunk, block := ChooseBlock(size);
      if chunk == -1 {
        return None;
      }
      if chunks[chunk].blocks[block].size == size && chunks[chunk].n >= MAX_FREE_BLOCKS {
        return None;
      }
      var offset := CarveAt(chunk, block, size);
      return Some(Addr(chunk, offset));
    }

    method CarveAt(chunk: nat, block: nat, size: nat) returns (offset: nat)
      requires Valid() && chunk < |chunks| && block < |model.chunks[chunk].free|
      requires size <= model.chunks[chunk].free[block].size
      requires model.chunks[chunk].free[block].size == size ==> |model.chunks[chunk].free| < MAX_FREE_BLOCKS
      modifies Repr
      ensures Valid() && Repr == old(Repr)
      ensures offset == old(model).chunks[chunk].free[block].offset
      ensures var was := old(model);
              model == was.(chunks := was.chunks[chunk := CarveChunk(was.chunks[chunk], block, size)])
    {
      var ch := chunks[chunk];
      offset := ch.TakeFrom(block, size);
      model := model.(chunks := model.chunks[chunk := ch.Model()]);
      assert forall i :: 0 <= i < |chunks| && i != chunk ==> chunks[i] != ch && chunks[i].blocks != ch.blocks;
    }

    method FreeTensor(addr: Addr, rawSize: nat) returns (ok: bool)
      requires Valid() && addr.chunk < |chunks|
      modifies Repr
      ensures ok ==> Valid() && chunks == old(chunks) && Repr == old(Repr)
      ensures match Free(old(model), addr, rawSize)
              case Some(a) => ok && model == a
              case None => !ok
    {
      var size := Pad(rawSize, alignment);
      var ch := chunks[addr.chunk];
      ok := ch.Return(addr.offset, size);
      if ok {
        model := model.(chunks := model.chunks[addr.chunk := ch.Model()]);
        assert forall i :: 0 <= i < |chunks| && i != addr.chunk ==> chunks[i] != ch && chunks[i].blocks != ch.blocks;
      }
    }

    method ResetAll()
      requires Valid()
      modifies this
      ensures Valid() && model == Reset(old(model))
    {
      chunks := [];
      model := Reset(model);
    }
  }
}
