/** The beam update: every active decoder takes over the history of the decoder its candidate
    came from, by way of shadow sequences. */
module Beam {
  import opened KvCache

  const MAX_DECODERS: nat := 8

  /** Sequence ids of decoders; ids from `MAX_DECODERS` on are shadows. */
  predicate OnlyDecoders(cells: seq<Cell>) {
    forall i, k :: 0 <= i < |cells| && k in cells[i].ids ==> 0 <= k < MAX_DECODERS
  }

  predicate ChoiceOk(active: seq<bool>, choice: seq<nat>) {
    && |active| == |choice| <= MAX_DECODERS
    && forall j :: 0 <= j < |choice| ==> choice[j] < MAX_DECODERS
  }

  /** The simultaneous assignment: an active decoder holds a cell afterwards exactly when the
      decoder it continues held it before; all others hold what they held. */
  predicate HoldsAfter(ids: set<int>, active: seq<bool>, choice: seq<nat>, k: int)
    requires ChoiceOk(active, choice)
  {
    if 0 <= k < |active| && active[k] then choice[k] in ids else k in ids
  }

  function BeamCell(c: Cell, active: seq<bool>, choice: seq<nat>): Cell
    requires ChoiceOk(active, choice)
  {
    Reheld(c, set k | 0 <= k < MAX_DECODERS && HoldsAfter(c.ids, active, choice, k))
  }

  /** The cell with other holders; without holders it is free. */
  function Reheld(c: Cell, ids: set<int>): Cell {
    Cell(if ids == {} then -1 else c.pos, ids)
  }

  /** Holders after the first loop has copied the choices of decoders below `m` to shadows. */
  function Shadowed(ids: set<int>, active: seq<bool>, choice: seq<nat>, m: nat): set<int>
    requires ChoiceOk(active, choice) && m <= |active|
  {
    set k | 0 <= k < 2 * MAX_DECODERS && HeldShadowed(ids, active, choice, m, k)
  }

  predicate HeldShadowed(ids: set<int>, active: seq<bool>, choice: seq<nat>, m: nat, k: int)
    requires ChoiceOk(active, choice) && m <= |active| && 0 <= k < 2 * MAX_DECODERS
  {
    if k < MAX_DECODERS then k in ids
    else k - MAX_DECODERS < m && active[k - MAX_DECODERS] && choice[k - MAX_DECODERS] in ids
  }

  /** Holders after the second loop has settled decoders below `m`. */
  function Settled(ids: set<int>, active: seq<bool>, choice: seq<nat>, m: nat): set<int>
    requires ChoiceOk(active, choice) && m <= |active|
  {
    set k | 0 <= k < 2 * MAX_DECODERS && HeldSettled(ids, active, choice, m, k)
  }

  predicate HeldSettled(ids: set<int>, active: seq<bool>, choice: seq<nat>, m: nat, k: int)
    requires ChoiceOk(active, choice) && m <= |active| && 0 <= k < 2 * MAX_DECODERS
  {
    if k < MAX_DECODERS then
      if k < m && active[k] then choice[k] in ids else k in ids
    else m <= k - MAX_DECODERS < |active| && active[k - MAX_DECODERS] && choice[k - MAX_DECODERS] in ids
  }

  predicate SmallIds(c: Cell) {
    forall k :: k in c.ids ==> 0 <= k < MAX_DECODERS
  }

  lemma ShadowStep(c: Cell, active: seq<bool>, choice: seq<nat>, m: nat)
    requires ChoiceOk(active, choice) && m < |active| && CellOk(c) && SmallIds(c)
    ensures CellOk(Reheld(c, Shadowed(c.ids, active, choice, m)))
    ensures var x := Reheld(c, Shadowed(c.ids, active, choice, m));
            Reheld(c, Shadowed(c.ids, active, choice, m + 1)) ==
            if active[m] then CpCell(x, choice[m], MAX_DECODERS + m, -1, -1) else x
  {
    var x := Reheld(c, Shadowed(c.ids, active, choice, m));
    ShadowedEmpty(c, active, choice, m);
    CpCellAll(x, choice[m], MAX_DECODERS + m);
    assert choice[m] in x.ids <==> choice[m] in c.ids;
    assert Shadowed(c.ids, active, choice, m + 1) ==
           if active[m] && choice[m] in c.ids then x.ids + {MAX_DECODERS + m} else x.ids;
  }

  lemma ShadowedEmpty(c: Cell, active: seq<bool>, choice: seq<nat>, m: nat)
    requires ChoiceOk(active, choice) && m <= |active| && CellOk(c) && SmallIds(c)
    ensures Shadowed(c.ids, active, choice, m) == {} <==> c.ids == {}
    ensures CellOk(Reheld(c, Shadowed(c.ids, active, choice, m)))
    ensures Shadowed(c.ids, active, choice, 0) == c.ids
  {
    assert c.ids <= Shadowed(c.ids, active, choice, m);
  }

  lemma SettledStart(c: Cell, active: seq<bool>, choice: seq<nat>)
    requires ChoiceOk(active, choice) && SmallIds(c)
    ensures Settled(c.ids, active, choice, 0) == Shadowed(c.ids, active, choice, |active|)
  {
  }

  lemma SettledEnd(c: Cell, active: seq<bool>, choice: seq<nat>)
    requires ChoiceOk(active, choice) && SmallIds(c)
    ensures Reheld(c, Settled(c.ids, active, choice, |active|)) == BeamCell(c, active, choice)
  {
  }

  lemma SettledCellOk(c: Cell, active: seq<bool>, choice: seq<nat>, m: nat)
    requires ChoiceOk(active, choice) && m <= |active| && CellOk(c)
    ensures CellOk(Reheld(c, Settled(c.ids, active, choice, m)))
  {
    if c.ids == {} {
      assert Settled(c.ids, active, choice, m) == {};
    }
  }

  /** Remove decoder `m`, copy its shadow to it, remove the shadow. */
  lemma SettleStep(c: Cell, active: seq<bool>, choice: seq<nat>, m: nat)
    requires ChoiceOk(active, choice) && m < |active| && active[m] && CellOk(c) && SmallIds(c)
    ensures var s := MAX_DECODERS + m;
            var x := Reheld(c, Settled(c.ids, active, choice, m));
            var y := CpCell(RmCell(x, m, -1, -1), s, m, -1, -1);
            RmCell(y, s, -1, -1) == Reheld(c, Settled(c.ids, active, choice, m + 1))
  {
    var s := MAX_DECODERS + m;
    var x := Reheld(c, Settled(c.ids, active, choice, m));
    SettledCellOk(c, active, choice, m);
    RmCellAll(x, m);
    var y := RmCell(x, m, -1, -1);
    CpCellAll(y, s, m);
    var z := CpCell(y, s, m, -1, -1);
    RmCellAll(z, s);
    assert s in x.ids <==> choice[m] in c.ids;
    assert Settled(c.ids, active, choice, m + 1) == z.ids - {s};
  }

  lemma SettleSkip(c: Cell, active: seq<bool>, choice: seq<nat>, m: nat)
    requires ChoiceOk(active, choice) && m < |active| && !active[m]
    ensures Settled(c.ids, active, choice, m + 1) == Settled(c.ids, active, choice, m)
    ensures Shadowed(c.ids, active, choice, m + 1) == Shadowed(c.ids, active, choice, m)
  {
  }

  /** The two loops over the decoders. */
  method Shuffle(kv: Cache, active: seq<bool>, choice: seq<nat>)
    requires ChoiceOk(active, choice) && kv.head <= kv.cells.Length
    requires CellsOk(kv.cells[..]) && OnlyDecoders(kv.cells[..])
    modifies kv`head, kv.cells
    ensures kv.head <= kv.cells.Length
    ensures forall i :: 0 <= i < kv.cells.Length ==> kv.cells[i] == BeamCell(old(kv.cells[i]), active, choice)
  {
    hide Shadowed, Settled, CpCell, RmCell, Reheld, BeamCell;
    ghost var was := kv.cells[..];
    forall i | 0 <= i < |was|
      ensures SmallIds(was[i]) && was[i] == Reheld(was[i], Shadowed(was[i].ids, active, choice, 0))
    {
      StartsUnshadowed(was[i], active, choice);
    }
    for j := 0 to |active|
      invariant kv.head <= kv.cells.Length
      invariant forall i :: 0 <= i < |was| ==> kv.cells[i] == Reheld(was[i], Shadowed(was[i].ids, active, choice, j))
    {
      forall i | 0 <= i < |was|
        ensures Reheld(was[i], Shadowed(was[i].ids, active, choice, j + 1)) ==
                if active[j] then CpCell(kv.cells[i], choice[j], MAX_DECODERS + j, -1, -1) else kv.cells[i]
      {
        ShadowStep(was[i], active, choice, j);
      }
      if !active[j] {
        continue;
      }
      kv.SeqCp(choice[j], MAX_DECODERS + j, -1, -1);
    }
    forall i | 0 <= i < |was| ensures kv.cells[i] == Reheld(was[i], Settled(was[i].ids, active, choice, 0)) {
      SettledStart(was[i], active, choice);
    }
    for j := 0 to |active|
      invariant kv.head <= kv.cells.Length
      invariant forall i :: 0 <= i < |was| ==> kv.cells[i] == Reheld(was[i], Settled(was[i].ids, active, choice, j))
    {
      if !active[j] {
        forall i | 0 <= i < |was| {
          SettleSkip(was[i], active, choice, j);
        }
        continue;
      }
      forall i | 0 <= i < |was|
        ensures RmCell(CpCell(RmCell(kv.cells[i], j, -1, -1), MAX_DECODERS + j, j, -1, -1), MAX_DECODERS + j, -1, -1)
             == Reheld(was[i], Settled(was[i].ids, active, choice, j + 1))
      {
        SettleStep(was[i], active, choice, j);
      }
      kv.SeqRm(j, -1, -1);
      kv.SeqCp(MAX_DECODERS + j, j, -1, -1);
      kv.SeqRm(MAX_DECODERS + j, -1, -1);
    }
    forall i | 0 <= i < |was| ensures kv.cells[i] == BeamCell(was[i], active, choice) {
      SettledEnd(was[i], active, choice);
    }
  }

  lemma StartsUnshadowed(c: Cell, active: seq<bool>, choice: seq<nat>)
    requires ChoiceOk(active, choice) && CellOk(c) && forall k :: k in c.ids ==> 0 <= k < MAX_DECODERS
    ensures SmallIds(c) && c == Reheld(c, Shadowed(c.ids, active, choice, 0))
  {
    ShadowedEmpty(c, active, choice, 0);
  }

  /** Afterwards no shadow is left, positions and holders still agree, and a cell was freed
      exactly when none of its holders is continued and no inactive decoder holds it. */
  lemma ShuffleIsClean(c: Cell, active: seq<bool>, choice: seq<nat>)
    requires ChoiceOk(active, choice) && CellOk(c) && SmallIds(c)
    ensures CellOk(BeamCell(c, active, choice)) && SmallIds(BeamCell(c, active, choice))
    ensures BeamCell(c, active, choice).pos < 0 <==>
            forall k :: 0 <= k < MAX_DECODERS ==> !HoldsAfter(c.ids, active, choice, k)
    ensures forall k :: 0 <= k < MAX_DECODERS ==>
            (k in BeamCell(c, active, choice).ids <==> HoldsAfter(c.ids, active, choice, k))
  {
    var d := BeamCell(c, active, choice);
    forall k | 0 <= k < MAX_DECODERS ensures k in d.ids <==> HoldsAfter(c.ids, active, choice, k) {
    }
    if d.ids == {} {
      assert forall k :: 0 <= k < MAX_DECODERS ==> k !in d.ids;
    } else {
      var k: int :| k in d.ids;
      assert HoldsAfter(c.ids, active, choice, k);
    }
  }
}
