/** The free-block list of one allocator chunk, as a value.

    A list is in normal form when it is sorted by address, has no empty block, and no two
    blocks touch. A set of free bytes has exactly one normal form (`NormalFormIsUnique`),
    so proving that the operations keep normal form and stating which bytes they cover
    determines their results completely. */
module FreeList {
  import opened Modular

  datatype Block = Block(offset: nat, size: nat) {
    function End(): nat {
      offset + size
    }
  }

  /** Byte `x` of the chunk is free. */
  ghost predicate Covers(fs: seq<Block>, x: int) {
    exists i :: 0 <= i < |fs| && fs[i].offset <= x < fs[i].End()
  }

  ghost predicate Normal(fs: seq<Block>) {
    && (forall i :: 0 <= i < |fs| ==> fs[i].size > 0)
    && (forall i, j :: 0 <= i < j < |fs| ==> fs[i].End() < fs[j].offset)
  }

  ghost predicate Within(fs: seq<Block>, limit: nat) {
    forall i :: 0 <= i < |fs| ==> fs[i].End() <= limit
  }

  ghost predicate Aligned(fs: seq<Block>, alignment: nat)
    requires alignment > 0
  {
    forall i :: 0 <= i < |fs| ==> Multiple(fs[i].offset, alignment)
  }

  /** No byte of the region is free. */
  ghost predicate Clear(fs: seq<Block>, offset: nat, size: nat) {
    forall i :: 0 <= i < |fs| ==> fs[i].End() <= offset || offset + size <= fs[i].offset
  }

  function RemoveAt(fs: seq<Block>, idx: nat): seq<Block>
    requires idx < |fs|
  {
    fs[..idx] + fs[idx + 1..]
  }

  /** Replaces blocks `lo..hi` by the single block `b`. */
  function Splice(fs: seq<Block>, lo: nat, hi: nat, b: Block): seq<Block>
    requires lo <= hi <= |fs|
  {
    fs[..lo] + [b] + fs[hi..]
  }

  /** Where a block starting at `offset` belongs in a list sorted by offset. */
  function InsertPos(fs: seq<Block>, offset: nat): (pos: nat)
    ensures pos <= |fs|
    ensures forall k :: 0 <= k < pos ==> fs[k].offset < offset
    ensures pos < |fs| ==> offset <= fs[pos].offset
  {
    if fs == [] || offset <= fs[0].offset then 0 else 1 + InsertPos(fs[1..], offset)
  }

  predicate Touches(b: Block, offset: nat, size: nat) {
    b.End() == offset || offset + size == b.offset
  }

  /** The first block that touches the region, or `|fs|`. */
  function FirstTouch(fs: seq<Block>, offset: nat, size: nat): (pos: nat)
    ensures pos <= |fs|
    ensures forall k :: 0 <= k < pos ==> !Touches(fs[k], offset, size)
    ensures pos < |fs| ==> Touches(fs[pos], offset, size)
  {
    if fs == [] || Touches(fs[0], offset, size) then 0 else 1 + FirstTouch(fs[1..], offset, size)
  }

  /** One edit of the list: blocks `lo..hi` become the single block `b`. */
  datatype Edit = Edit(lo: nat, hi: nat, b: Block)

  /** Where a returned region goes: it is merged with the first block it touches, and that
      block with its successor when the gap closes; a region that touches nothing becomes a
      block of its own, in address order. */
  function ReleaseEdit(fs: seq<Block>, offset: nat, size: nat): (e: Edit)
    ensures e.lo <= e.hi <= |fs|
  {
    var i := FirstTouch(fs, offset, size);
    if i == |fs| then
      var p := InsertPos(fs, offset);
      Edit(p, p, Block(offset, size))
    else if fs[i].End() == offset then
      if i + 1 < |fs| && offset + size == fs[i + 1].offset then
        Edit(i, i + 2, Block(fs[i].offset, fs[i].size + size + fs[i + 1].size))
      else
        Edit(i, i + 1, Block(fs[i].offset, fs[i].size + size))
    else
      Edit(i, i + 1, Block(offset, fs[i].size + size))
  }

  function Release(fs: seq<Block>, offset: nat, size: nat): seq<Block> {
    var e := ReleaseEdit(fs, offset, size);
    Splice(fs, e.lo, e.hi, e.b)
  }

  /** Takes `size` bytes from the front of block `idx`; an exhausted block disappears. */
  function Carve(fs: seq<Block>, idx: nat, size: nat): seq<Block>
    requires idx < |fs| && size <= fs[idx].size
  {
    if fs[idx].size == size then RemoveAt(fs, idx)
    else Splice(fs, idx, idx + 1, Block(fs[idx].offset + size, fs[idx].size - size))
  }

  // ---------------------------------------------------------------- coverage

  lemma CoversConcat(a: seq<Block>, b: seq<Block>, x: int)
    ensures Covers(a + b, x) <==> Covers(a, x) || Covers(b, x)
  {
    if Covers(a, x) {
      var i :| 0 <= i < |a| && a[i].offset <= x < a[i].End();
      assert (a + b)[i] == a[i];
    }
    if Covers(b, x) {
      var i :| 0 <= i < |b| && b[i].offset <= x < b[i].End();
      assert (a + b)[|a| + i] == b[i];
    }
  }

  lemma CoversOne(b: Block, x: int)
    ensures Covers([b], x) <==> b.offset <= x < b.End()
  {
    assert [b][0] == b;
  }

  lemma CoversParts(a: seq<Block>, b: Block, c: seq<Block>, x: int)
    ensures Covers(a + [b] + c, x) <==> Covers(a, x) || b.offset <= x < b.End() || Covers(c, x)
  {
    CoversConcat(a + [b], c, x);
    CoversConcat(a, [b], x);
    CoversOne(b, x);
  }

  /** A region none of whose bytes is covered lies beside every (non-empty) block. */
  lemma UncoveredIsClear(fs: seq<Block>, offset: nat, size: nat)
    requires Normal(fs) && size > 0
    requires forall x :: offset <= x < offset + size ==> !Covers(fs, x)
    ensures Clear(fs, offset, size)
  {
    forall i | 0 <= i < |fs|
      ensures fs[i].End() <= offset || offset + size <= fs[i].offset
    {
      var b := fs[i];
      if b.End() > offset && offset + size > b.offset {
        var x := if b.offset <= offset then offset else b.offset;
        assert Covers(fs, x);
      }
    }
  }

  lemma {:induction false} NormalFormIsUnique(a: seq<Block>, b: seq<Block>)
    requires Normal(a) && Normal(b)
    requires forall x :: Covers(a, x) <==> Covers(b, x)
    ensures a == b
  {
    EmptyTogether(a, b);
    EmptyTogether(b, a);
    if a != [] {
      SameFirstBlock(a, b);
      forall x ensures Covers(a[1..], x) <==> Covers(b[1..], x) {
        TailCoverage(a, x);
        TailCoverage(b, x);
      }
      NormalFormIsUnique(a[1..], b[1..]);
      assert a == [a[0]] + a[1..] && b == [b[0]] + b[1..];
    }
  }

  lemma EmptyTogether(a: seq<Block>, b: seq<Block>)
    requires Normal(a)
    requires forall x :: Covers(a, x) <==> Covers(b, x)
    ensures a != [] ==> b != []
  {
    if a != [] {
      assert Covers(a, a[0].offset);
    }
  }

  lemma TailCoverage(a: seq<Block>, x: int)
    requires a != [] && Normal(a)
    ensures Covers(a[1..], x) <==> Covers(a, x) && x >= a[0].End()
  {
    assert a == [a[0]] + a[1..];
    CoversConcat([a[0]], a[1..], x);
    CoversOne(a[0], x);
    if Covers(a[1..], x) {
      var i :| 0 <= i < |a[1..]| && a[1..][i].offset <= x < a[1..][i].End();
      assert a[i + 1] == a[1..][i];
      assert a[0].End() < a[i + 1].offset;
    }
  }

  lemma SameFirstBlock(a: seq<Block>, b: seq<Block>)
    requires a != [] && b != [] && Normal(a) && Normal(b)
    requires forall x :: Covers(a, x) <==> Covers(b, x)
    ensures a[0] == b[0]
  {
    FirstBlockBounds(a, b);
    FirstBlockBounds(b, a);
  }

  lemma FirstBlockBounds(a: seq<Block>, b: seq<Block>)
    requires a != [] && b != [] && Normal(a) && Normal(b)
    requires forall x :: Covers(a, x) <==> Covers(b, x)
    ensures b[0].offset <= a[0].offset
    ensures b[0].offset == a[0].offset ==> a[0].End() <= b[0].End()
  {
    assert Covers(a, a[0].offset);
    assert Covers(b, a[0].offset);
    var x := b[0].End();
    assert a[0].offset <= x < a[0].End() ==> Covers(a, x);
    EndNotCovered(b);
  }

  lemma EndNotCovered(b: seq<Block>)
    requires b != [] && Normal(b)
    ensures !Covers(b, b[0].End())
  {
    forall i | 0 <= i < |b| ensures !(b[i].offset <= b[0].End() < b[i].End()) {
      assert i > 0 ==> b[0].End() < b[i].offset;
    }
  }

  // ----------------------------------------------------------------- release

  /** The scan stops at the first block that touches the region. Where that block begins at the
      region's end, and the previous block is examined, no block of the list ends at the region's
      start: earlier ones have been passed, later ones lie higher. Where some block does end
      there, the scan stops at that block, and merges on both sides from it. */
  lemma PreviousMergeNeverApplies(fs: seq<Block>, offset: nat, size: nat)
    requires Normal(fs)
    ensures var i := FirstTouch(fs, offset, size);
            i < |fs| && fs[i].End() != offset ==> forall k :: 0 <= k < |fs| ==> fs[k].End() != offset
    ensures forall k :: 0 <= k < |fs| && fs[k].End() == offset ==>
      FirstTouch(fs, offset, size) == k && ReleaseEdit(fs, offset, size).lo == k
      && (k + 1 < |fs| && offset + size == fs[k + 1].offset ==> ReleaseEdit(fs, offset, size).hi == k + 2)
  {
    hide FirstTouch, ReleaseEdit, Normal;
    forall k | 0 <= k < |fs| && fs[k].End() == offset
      ensures FirstTouch(fs, offset, size) == k && ReleaseEdit(fs, offset, size).lo == k
      ensures k + 1 < |fs| && offset + size == fs[k + 1].offset ==> ReleaseEdit(fs, offset, size).hi == k + 2
    {
      ScanStopsAt(fs, offset, size, k);
    }
  }

  lemma ScanStopsAt(fs: seq<Block>, offset: nat, size: nat, k: nat)
    requires Normal(fs) && k < |fs| && fs[k].End() == offset
    ensures FirstTouch(fs, offset, size) == k && ReleaseEdit(fs, offset, size).lo == k
    ensures k + 1 < |fs| && offset + size == fs[k + 1].offset ==> ReleaseEdit(fs, offset, size).hi == k + 2
  {
    hide FirstTouch;
    assert Touches(fs[k], offset, size);
    forall j | 0 <= j < k ensures !Touches(fs[j], offset, size) {
      assert fs[j].End() < fs[k].offset;
    }
  }

  lemma SpliceCovers(fs: seq<Block>, lo: nat, hi: nat, b: Block, x: int)
    requires lo <= hi <= |fs|
    ensures Covers(Splice(fs, lo, hi, b), x) <==>
            Covers(fs[..lo], x) || b.offset <= x < b.End() || Covers(fs[hi..], x)
    ensures Covers(fs, x) <==> Covers(fs[..lo], x) || Covers(fs[lo..hi], x) || Covers(fs[hi..], x)
  {
    CoversParts(fs[..lo], b, fs[hi..], x);
    CoversConcat(fs[..lo] + fs[lo..hi], fs[hi..], x);
    CoversConcat(fs[..lo], fs[lo..hi], x);
    assert fs == fs[..lo] + fs[lo..hi] + fs[hi..];
  }

  lemma EditCovers(fs: seq<Block>, offset: nat, size: nat, x: int)
    ensures var e := ReleaseEdit(fs, offset, size);
            e.b.offset <= x < e.b.End() <==> Covers(fs[e.lo..e.hi], x) || offset <= x < offset + size
  {
    var e := ReleaseEdit(fs, offset, size);
    var mid := fs[e.lo..e.hi];
    if |mid| == 1 {
      CoversOne(mid[0], x);
      assert mid == [mid[0]];
    } else if |mid| == 2 {
      CoversConcat([mid[0]], [mid[1]], x);
      CoversOne(mid[0], x);
      CoversOne(mid[1], x);
      assert mid == [mid[0]] + [mid[1]];
    }
  }

  lemma ReleaseCovers(fs: seq<Block>, offset: nat, size: nat, x: int)
    ensures Covers(Release(fs, offset, size), x) <==> Covers(fs, x) || offset <= x < offset + size
  {
    var e := ReleaseEdit(fs, offset, size);
    EditCovers(fs, offset, size, x);
    SpliceCovers(fs, e.lo, e.hi, e.b, x);
  }

  lemma NormalJoin(a: seq<Block>, b: seq<Block>)
    requires Normal(a) && Normal(b)
    requires forall i, j :: 0 <= i < |a| && 0 <= j < |b| ==> a[i].End() < b[j].offset
    ensures Normal(a + b)
  {
  }

  lemma SpliceNormal(fs: seq<Block>, lo: nat, hi: nat, b: Block)
    requires Normal(fs) && lo <= hi <= |fs| && b.size > 0
    requires forall k :: 0 <= k < lo ==> fs[k].End() < b.offset
    requires forall k :: hi <= k < |fs| ==> b.End() < fs[k].offset
    ensures Normal(Splice(fs, lo, hi, b))
  {
    NormalJoin(fs[..lo], [b]);
    var front, back := fs[..lo] + [b], fs[hi..];
    forall i, j | 0 <= i < |front| && 0 <= j < |back| ensures front[i].End() < back[j].offset {
      assert back[j] == fs[hi + j];
    }
    NormalJoin(front, back);
  }

  lemma EditSeparated(fs: seq<Block>, offset: nat, size: nat, k: nat)
    requires Normal(fs) && Clear(fs, offset, size) && k < |fs|
    ensures var e := ReleaseEdit(fs, offset, size);
            && (k < e.lo ==> fs[k].End() < e.b.offset)
            && (k >= e.hi ==> e.b.End() < fs[k].offset)
  {
    var i := FirstTouch(fs, offset, size);
    if k < i {
      assert !Touches(fs[k], offset, size);
      assert i < |fs| ==> fs[k].End() < fs[i].offset;
    } else if i + 1 < k {
      assert fs[i].End() < fs[i + 1].offset && fs[i + 1].End() < fs[k].offset;
    }
  }

  lemma ReleaseNormal(fs: seq<Block>, offset: nat, size: nat)
    requires Normal(fs) && size > 0 && Clear(fs, offset, size)
    ensures Normal(Release(fs, offset, size))
  {
    var e := ReleaseEdit(fs, offset, size);
    forall k | 0 <= k < |fs|
      ensures k < e.lo ==> fs[k].End() < e.b.offset
      ensures k >= e.hi ==> e.b.End() < fs[k].offset
    {
      EditSeparated(fs, offset, size, k);
    }
    SpliceNormal(fs, e.lo, e.hi, e.b);
  }

  lemma ReleaseWithin(fs: seq<Block>, offset: nat, size: nat, limit: nat)
    requires Within(fs, limit) && offset + size <= limit
    ensures Within(Release(fs, offset, size), limit)
  {
  }

  lemma ReleaseAligned(fs: seq<Block>, offset: nat, size: nat, alignment: nat)
    requires alignment > 0 && Aligned(fs, alignment) && Multiple(offset, alignment)
    ensures Aligned(Release(fs, offset, size), alignment)
  {
    hide Multiple;
  }

  // ------------------------------------------------------------------- carve

  lemma CarveNormal(fs: seq<Block>, idx: nat, size: nat)
    requires Normal(fs) && idx < |fs| && size <= fs[idx].size
    ensures Normal(Carve(fs, idx, size))
  {
  }

  lemma CarveCovers(fs: seq<Block>, idx: nat, size: nat, x: int)
    requires Normal(fs) && idx < |fs| && size <= fs[idx].size
    ensures Covers(Carve(fs, idx, size), x) <==>
            Covers(fs, x) && !(fs[idx].offset <= x < fs[idx].offset + size)
  {
    assert fs == fs[..idx] + [fs[idx]] + fs[idx + 1..];
    CoversParts(fs[..idx], fs[idx], fs[idx + 1..], x);
    var r := Carve(fs, idx, size);
    if fs[idx].size == size {
      CoversConcat(fs[..idx], fs[idx + 1..], x);
    } else {
      var rest := Block(fs[idx].offset + size, fs[idx].size - size);
      assert r == fs[..idx] + [rest] + fs[idx + 1..];
      CoversParts(fs[..idx], rest, fs[idx + 1..], x);
    }
    NeighboursAvoid(fs, idx, x);
  }

  lemma NeighboursAvoid(fs: seq<Block>, idx: nat, x: int)
    requires Normal(fs) && idx < |fs|
    ensures fs[idx].offset <= x < fs[idx].End() ==> !Covers(fs[..idx], x) && !Covers(fs[idx + 1..], x)
  {
    assert forall i :: 0 <= i < idx ==> fs[..idx][i].End() < fs[idx].offset;
    var after := fs[idx + 1..];
    assert forall i :: 0 <= i < |after| ==> fs[idx].End() < after[i].offset;
  }
}
