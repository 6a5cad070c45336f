/** The unified key/value cache: cells that hold a position and the set of sequences that
    contain it. */
module KvCache {
  import opened Options

  const POS_MAX: int := 0x7fff_ffff

  datatype Cell = Cell(pos: int, ids: set<int>)

  const EMPTY: Cell := Cell(-1, {})

  /** A cell has a position exactly when some sequence holds it. */
  predicate CellOk(c: Cell) {
    -1 <= c.pos < POS_MAX && (c.pos >= 0 <==> c.ids != {})
  }

  predicate CellsOk(cells: seq<Cell>) {
    forall i :: 0 <= i < |cells| ==> CellOk(cells[i])
  }

  /** What a decoding batch asks for: per token its position and the sequences it extends. */
  datatype Batch = Batch(tokens: seq<int>, pos: seq<int>, ids: seq<seq<int>>) {
    predicate Ok() {
      && |tokens| == |pos| == |ids|
      && forall i :: 0 <= i < |pos| ==> 0 <= pos[i] < POS_MAX && ids[i] != []
    }
  }

  // ------------------------------------------------------------ free runs

  predicate FreeRun(cells: seq<Cell>, h: nat, n: nat) {
    h + n <= |cells| && forall i :: h <= i < h + n ==> cells[i].pos < 0
  }

  function IdSet(ids: seq<int>): set<int> {
    set k | 0 <= k < |ids| :: ids[k]
  }

  /** The cells after the batch is entered from cell `h` on. */
  function Enter(cells: seq<Cell>, h: nat, b: Batch): seq<Cell>
    requires b.Ok() && h + |b.pos| <= |cells|
  {
    seq(|cells|, i requires 0 <= i < |cells| =>
      if h <= i < h + |b.pos| then Cell(b.pos[i - h], cells[i].ids + IdSet(b.ids[i - h])) else cells[i])
  }

  lemma EnterKeepsOk(cells: seq<Cell>, h: nat, b: Batch)
    requires b.Ok() && h + |b.pos| <= |cells| && CellsOk(cells)
    ensures CellsOk(Enter(cells, h, b))
  {
    forall i | h <= i < h + |b.pos| ensures CellOk(Enter(cells, h, b)[i]) {
      assert b.ids[i - h][0] in IdSet(b.ids[i - h]);
    }
  }

  /** Of the places for a run of `n` cells, `at` is the first from `start` on, or, when there is none
      up to the end, the first from the front. */
  ghost predicate FirstFrom(cells: seq<Cell>, start: nat, at: nat, n: nat) {
    && (forall h :: start <= h < at ==> !FreeRun(cells, h, n))
    && (at < start ==> forall h :: (start <= h <= |cells| || 0 <= h < at) ==> !FreeRun(cells, h, n))
  }

  /** An occupied cell rules out every run that contains it. */
  lemma OccupiedBlocks(cells: seq<Cell>, at: nat, n: nat, s: nat)
    requires at < |cells| && cells[at].pos >= 0 && s <= at < s + n
    ensures !FreeRun(cells, s, n)
  {
  }

  // --------------------------------------------------- removing and copying

  function Low(p: int): int {
    if p < 0 then 0 else p
  }

  function High(p: int): int {
    if p < 0 then POS_MAX else p
  }

  function RmCell(c: Cell, id: int, p0: int, p1: int): Cell {
    if !(Low(p0) <= c.pos < High(p1)) || (id >= 0 && id !in c.ids) then c
    else
      var ids := if id < 0 then {} else c.ids - {id};
      Cell(if ids == {} then -1 else c.pos, ids)
  }

  function CpCell(c: Cell, src: int, dst: int, p0: int, p1: int): Cell {
    if src in c.ids && Low(p0) <= c.pos < High(p1) then Cell(c.pos, c.ids + {dst}) else c
  }

  /** The position lies in the range; a negative bound leaves that side open. */
  predicate InRange(pos: int, p0: int, p1: int) {
    0 <= pos && p0 <= pos && (if p1 < 0 then pos < POS_MAX else pos < p1)
  }

  /** Cell `c` becomes `d` when a range is taken out of sequence `id`, or out of all. */
  predicate Removed(c: Cell, d: Cell, id: int, p0: int, p1: int) {
    if !InRange(c.pos, p0, p1) then d == c
    else if id < 0 then d == EMPTY
    else d.ids == c.ids - {id} && d.pos == if id in c.ids && c.ids == {id} then -1 else c.pos
  }

  /** The cell loses its last sequence, or all of them. */
  predicate Freed(c: Cell, id: int, p0: int, p1: int) {
    InRange(c.pos, p0, p1) && (id < 0 || c.ids == {id})
  }

  lemma RmCellRemoves(c: Cell, id: int, p0: int, p1: int)
    ensures Removed(c, RmCell(c, id, p0, p1), id, p0, p1)
  {
    if id >= 0 && id in c.ids {
      assert c.ids - {id} == {} <==> c.ids == {id};
    }
  }

  /** Cell `c` becomes `d` when a range of one sequence is copied to another. */
  predicate Copied(c: Cell, d: Cell, src: int, dst: int, p0: int, p1: int) {
    d.pos == c.pos && d.ids == if src in c.ids && InRange(c.pos, p0, p1) then c.ids + {dst} else c.ids
  }

  lemma RmCellAll(c: Cell, id: int)
    requires CellOk(c) && id >= 0
    ensures RmCell(c, id, -1, -1) == Cell(if c.ids - {id} == {} then -1 else c.pos, c.ids - {id})
    ensures CellOk(RmCell(c, id, -1, -1))
  {
  }

  lemma CpCellAll(c: Cell, src: int, dst: int)
    requires CellOk(c)
    ensures CpCell(c, src, dst, -1, -1) == Cell(c.pos, if src in c.ids then c.ids + {dst} else c.ids)
    ensures CellOk(CpCell(c, src, dst, -1, -1))
  {
  }

  class Cache {
    var head: nat
    var n: nat
    const cells: array<Cell>

    constructor (size: nat)
      ensures fresh(cells) && cells.Length == size && head == 0
      ensures forall i :: 0 <= i < size ==> cells[i] == EMPTY
    {
      cells := new Cell[size](_ => EMPTY);
      head, n := 0, 0;
    }

    /** Looks for a run of free cells for the batch, from `head` on and then round from the
        start, and enters the batch there. */
    method FindSlot(b: Batch) returns (ok: bool)
      requires b.Ok() && head <= cells.Length
      modifies this`head, cells
      ensures head <= cells.Length
      ensures ok <==> exists h :: 0 <= h <= cells.Length && FreeRun(old(cells[..]), h, |b.pos|)
      ensures ok ==> FreeRun(old(cells[..]), head, |b.pos|) && cells[..] == Enter(old(cells[..]), head, b)
      ensures ok ==> FirstFrom(old(cells[..]), old(head), head, |b.pos|)
      ensures !ok ==> cells[..] == old(cells[..])
    {
      var nCtx, nTokens := cells.Length, |b.pos|;
      if nTokens > nCtx {
        return false;
      }
      ok := SearchSlot(nTokens);
      if !ok {
        return;
      }
      ghost var was, h := cells[..], head;
      for i := 0 to nTokens
        invariant head == h
        invariant forall k :: 0 <= k < |was| && !(h <= k < h + i) ==> cells[k] == was[k]
        invariant forall k :: h <= k < h + i ==> cells[k] == Enter(was, h, b)[k]
      {
        cells[head + i] := Cell(b.pos[i], cells[head + i].ids);
        var ids := b.ids[i];
        for j := 0 to |ids|
          invariant head == h
          invariant forall k :: 0 <= k < |was| && !(h <= k < h + i + 1) ==> cells[k] == was[k]
          invariant forall k :: h <= k < h + i ==> cells[k] == Enter(was, h, b)[k]
          invariant cells[h + i] == Cell(b.pos[i], was[h + i].ids + IdSet(ids[..j]))
        {
          cells[head + i] := Cell(cells[head + i].pos, cells[head + i].ids + {ids[j]});
          assert ids[..j + 1] == ids[..j] + [ids[j]];
          IdSetGrows(ids, j);
        }
        assert ids[..|ids|] == ids;
      }
      assert cells[..] == Enter(was, h, b);
      return true;
    }

    /** The search: `tested` counts the cells gone past. */
    method SearchSlot(nTokens: nat) returns (found: bool)
      requires head <= cells.Length && nTokens <= cells.Length
      modifies this`head
      ensures head <= cells.Length
      ensures found ==> FreeRun(cells[..], head, nTokens) && FirstFrom(cells[..], old(head), head, nTokens)
      ensures !found ==> forall h :: 0 <= h <= cells.Length ==> !FreeRun(cells[..], h, nTokens)
    {
      var nCtx := cells.Length;
      ghost var start := head;
      ghost var laps := 0;
      var tested := 0;
      while true
        invariant head <= nCtx && 0 <= laps <= 2
        invariant laps == 0 ==> tested == head - start && start <= head && Ruled(start, head, nTokens)
        invariant laps == 1 ==>
          tested == nCtx - start + head && Ruled(start, nCtx + 1, nTokens) && Ruled(0, head, nTokens)
        invariant laps == 2 ==> head == 0 && tested >= nCtx && Ruled(0, nCtx + 1, nTokens)
        decreases 2 - laps, nCtx - head
      {
        if head + nTokens > nCtx {
          tested := tested + (nCtx - head);
          assert Ruled(head, nCtx + 1, nTokens);
          head := 0;
          laps := laps + 1;
          continue;
        }
        found := true;
        var i := 0;
        while i < nTokens
          invariant 0 <= i <= nTokens
          invariant forall k :: head <= k < head + i ==> cells[k].pos < 0
        {
          if cells[head + i].pos >= 0 {
            found := false;
            break;
          }
          i := i + 1;
        }
        if found {
          return true;
        }
        assert Ruled(head, head + i + 1, nTokens) by { RuledByOccupied(head, i, nTokens); }
        head := head + i + 1;
        tested := tested + i + 1;
        if tested >= nCtx {
          return false;
        }
      }
    }

    /** No run starts in `lo..hi`. */
    ghost predicate Ruled(lo: nat, hi: nat, n: nat)
      reads cells
    {
      forall s :: lo <= s < hi ==> !FreeRun(cells[..], s, n)
    }

    lemma RuledByOccupied(h: nat, i: nat, n: nat)
      requires h + n <= cells.Length && i < n && cells[h + i].pos >= 0
      ensures Ruled(h, h + i + 1, n)
    {
      forall s | h <= s < h + i + 1 ensures !FreeRun(cells[..], s, n) {
        OccupiedBlocks(cells[..], h + i, n, s);
      }
    }

    lemma IdSetGrows(ids: seq<int>, j: nat)
      requires j < |ids|
      ensures IdSet(ids[..j] + [ids[j]]) == IdSet(ids[..j]) + {ids[j]}
    {
      var t := ids[..j] + [ids[j]];
      forall x ensures x in IdSet(t) <==> x in IdSet(ids[..j]) + {ids[j]} {
        if x == ids[j] {
          assert t[j] == x;
        }
        if x in IdSet(ids[..j]) {
          var k :| 0 <= k < j && ids[..j][k] == x;
          assert t[k] == x;
        }
      }
    }

    /** One past the last cell in use, but at least 1. */
    method CellMax() returns (m: nat)
      requires cells.Length >= 1
      ensures 1 <= m <= cells.Length
      ensures forall i :: m <= i < cells.Length ==> !(cells[i].pos >= 0 && cells[i].ids != {})
      ensures m > 1 ==> cells[m - 1].pos >= 0 && cells[m - 1].ids != {}
    {
      var i := cells.Length - 1;
      while i > 0
        invariant 0 <= i < cells.Length
        invariant forall k :: i < k < cells.Length ==> !(cells[k].pos >= 0 && cells[k].ids != {})
      {
        if cells[i].pos >= 0 && cells[i].ids != {} {
          return i + 1;
        }
        i := i - 1;
      }
      return 1;
    }

    method ClearAll()
      modifies this`head, cells
      ensures head == 0 && forall i :: 0 <= i < cells.Length ==> cells[i] == EMPTY
    {
      for i := 0 to cells.Length
        invariant forall k :: 0 <= k < i ==> cells[k] == EMPTY
      {
        cells[i] := EMPTY;
      }
      head := 0;
    }

    /** Takes the cells of a position range out of one sequence (of all, for a negative id);
        the search starts at the first cell that became free. */
    method SeqRm(id: int, p0: int, p1: int)
      requires head <= cells.Length
      modifies this`head, cells
      ensures head <= cells.Length
      ensures forall i :: 0 <= i < cells.Length ==> cells[i] == RmCell(old(cells[i]), id, p0, p1)
      ensures forall i :: 0 <= i < cells.Length ==> Removed(old(cells[i]), cells[i], id, p0, p1)
      ensures (forall i :: 0 <= i < cells.Length ==> !Freed(old(cells[i]), id, p0, p1)) ==> head == old(head)
      ensures forall i :: 0 <= i < cells.Length && Freed(old(cells[i]), id, p0, p1) ==>
        head <= i && Freed(old(cells[..])[head], id, p0, p1)
    {
      forall c ensures Removed(c, RmCell(c, id, p0, p1), id, p0, p1) {
        RmCellRemoves(c, id, p0, p1);
      }
      ghost var head0 := head;
      var newHead := cells.Length;
      for i := 0 to cells.Length
        invariant 0 <= newHead <= cells.Length && head == head0 <= cells.Length
        invariant forall k :: 0 <= k < i && k < newHead ==> !Freed(old(cells[k]), id, p0, p1)
        invariant newHead < cells.Length ==> newHead < i && Freed(old(cells[newHead]), id, p0, p1)
        invariant forall k :: 0 <= k < i ==> cells[k] == RmCell(old(cells[k]), id, p0, p1)
        invariant forall k :: i <= k < cells.Length ==> cells[k] == old(cells[k])
      {
        if Low(p0) <= cells[i].pos < High(p1) {
          if id < 0 {
            cells[i] := Cell(cells[i].pos, {});
          } else if id in cells[i].ids {
            cells[i] := Cell(cells[i].pos, cells[i].ids - {id});
          } else {
            continue;
          }
          if cells[i].ids == {} {
            cells[i] := Cell(-1, cells[i].ids);
            if newHead == cells.Length {
              newHead := i;
            }
          }
        }
      }
      if newHead != cells.Length {
        head := newHead;
      }
    }

    method SeqCp(src: int, dst: int, p0: int, p1: int)
      modifies this`head, cells
      ensures head == 0
      ensures forall i :: 0 <= i < cells.Length ==> cells[i] == CpCell(old(cells[i]), src, dst, p0, p1)
      ensures forall i :: 0 <= i < cells.Length ==> Copied(old(cells[i]), cells[i], src, dst, p0, p1)
    {
      head := 0;
      for i := 0 to cells.Length
        invariant head == 0
        invariant forall k :: 0 <= k < i ==> cells[k] == CpCell(old(cells[k]), src, dst, p0, p1)
        invariant forall k :: i <= k < cells.Length ==> cells[k] == old(cells[k])
      {
        if src in cells[i].ids && Low(p0) <= cells[i].pos < High(p1) {
          cells[i] := Cell(cells[i].pos, cells[i].ids + {dst});
        }
      }
    }
  }
}
