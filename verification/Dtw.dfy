/** Dynamic time warping with backtrace: the cheapest way to walk through a cost matrix. */
module Dtw {

  datatype Cost = Inf | Fin(v: real)

  predicate Less(a: Cost, b: Cost) {
    a.Fin? && (b.Inf? || a.v < b.v)
  }

  predicate AtMost(a: Cost, b: Cost) {
    !Less(b, a)
  }

  function Plus(x: real, c: Cost): Cost {
    if c.Inf? then Inf else Fin(x + c.v)
  }

  /** The move into a cell: 0 from the diagonal, 1 from above, 2 from the left. */
  function Move(c0: Cost, c1: Cost, c2: Cost): (t: int)
    ensures 0 <= t <= 2
  {
    if Less(c0, c1) && Less(c0, c2) then 0 else if Less(c1, c0) && Less(c1, c2) then 1 else 2
  }

  function Chosen(c0: Cost, c1: Cost, c2: Cost): Cost {
    var t := Move(c0, c1, c2);
    if t == 0 then c0 else if t == 1 then c1 else c2
  }

  /** The diagonal and the upper predecessor tie strictly below the left one. */
  predicate Tied(c0: Cost, c1: Cost, c2: Cost) {
    c0 == c1 && Less(c0, c2)
  }

  /** The chosen predecessor is a cheapest one exactly when there is no such tie. */
  lemma ChosenIsLeast(c0: Cost, c1: Cost, c2: Cost)
    ensures !Tied(c0, c1, c2) <==>
            AtMost(Chosen(c0, c1, c2), c0) && AtMost(Chosen(c0, c1, c2), c1) && AtMost(Chosen(c0, c1, c2), c2)
    ensures Tied(c0, c1, c2) ==> Chosen(c0, c1, c2) == c2
  {
  }

  // ------------------------------------------------------------------ the table

  type Matrix = seq<seq<real>>

  predicate Shaped(x: Matrix, n: nat, m: nat) {
    n > 0 && m > 0 && |x| == n && forall i :: 0 <= i < n ==> |x[i]| == m
  }

  function CostAt(x: Matrix, n: nat, m: nat, i: nat, j: nat): Cost
    requires Shaped(x, n, m) && i <= n && j <= m
    decreases i + j
  {
    if i == 0 && j == 0 then Fin(0.0)
    else if i == 0 || j == 0 then Inf
    else Plus(x[i - 1][j - 1],
              Chosen(CostAt(x, n, m, i - 1, j - 1), CostAt(x, n, m, i - 1, j), CostAt(x, n, m, i, j - 1)))
  }

  function MoveAt(x: Matrix, n: nat, m: nat, i: nat, j: nat): (t: int)
    requires Shaped(x, n, m) && 1 <= i <= n && 1 <= j <= m
    ensures 0 <= t <= 2
  {
    Move(CostAt(x, n, m, i - 1, j - 1), CostAt(x, n, m, i - 1, j), CostAt(x, n, m, i, j - 1))
  }

  predicate TiedAt(x: Matrix, n: nat, m: nat, i: nat, j: nat)
    requires Shaped(x, n, m) && 1 <= i <= n && 1 <= j <= m
  {
    Tied(CostAt(x, n, m, i - 1, j - 1), CostAt(x, n, m, i - 1, j), CostAt(x, n, m, i, j - 1))
  }

  /** Inner cells are finite, and no move from one leads onto the border, but for the last. */
  lemma {:induction false} MovesStayInside(x: Matrix, n: nat, m: nat, i: nat, j: nat)
    requires Shaped(x, n, m) && 1 <= i <= n && 1 <= j <= m
    ensures CostAt(x, n, m, i, j).Fin?
    ensures i == 1 && j == 1 ==> MoveAt(x, n, m, i, j) == 0
    ensures i == 1 && j > 1 ==> MoveAt(x, n, m, i, j) == 2
    ensures i > 1 && j == 1 ==> MoveAt(x, n, m, i, j) == 1
    decreases i + j
  {
    if i > 1 {
      MovesStayInside(x, n, m, i - 1, j);
    }
    if j > 1 {
      MovesStayInside(x, n, m, i, j - 1);
    }
    if i > 1 && j > 1 {
      MovesStayInside(x, n, m, i - 1, j - 1);
    }
  }

  // -------------------------------------------------------------------- paths

  predicate UnitStep(a: (int, int), b: (int, int)) {
    b == (a.0 + 1, a.1 + 1) || b == (a.0 + 1, a.1) || b == (a.0, a.1 + 1)
  }

  /** A walk from the first cell to cell `(i, j)` by unit steps right, down, or both. */
  predicate Path(p: seq<(int, int)>, i: int, j: int) {
    && p != [] && p[0] == (0, 0) && p[|p| - 1] == (i, j)
    && forall k :: 0 <= k < |p| - 1 ==> UnitStep(p[k], p[k + 1])
  }

  function Sum(x: Matrix, n: nat, m: nat, p: seq<(int, int)>): real
    requires Shaped(x, n, m) && Within(p, n, m)
  {
    if p == [] then 0.0
    else
      var last := p[|p| - 1];
      Sum(x, n, m, p[..|p| - 1]) + x[last.0][last.1]
  }

  predicate Within(p: seq<(int, int)>, n: nat, m: nat) {
    forall k :: 0 <= k < |p| ==> 0 <= p[k].0 < n && 0 <= p[k].1 < m
  }

  lemma PathCut(p: seq<(int, int)>, i: int, j: int) returns (q: seq<(int, int)>, a: int, b: int)
    requires Path(p, i, j) && |p| > 1
    ensures p == q + [(i, j)] && |q| == |p| - 1 && q != [] && q[|q| - 1] == (a, b)
    ensures Path(q, a, b) && UnitStep((a, b), (i, j))
  {
    q := p[..|p| - 1];
    a, b := q[|q| - 1].0, q[|q| - 1].1;
    assert forall k :: 0 <= k < |q| ==> q[k] == p[k];
    assert UnitStep(p[|p| - 2], p[|p| - 1]);
  }

  lemma PathExtend(q: seq<(int, int)>, a: int, b: int, i: int, j: int)
    requires Path(q, a, b) && UnitStep((a, b), (i, j))
    ensures Path(q + [(i, j)], i, j)
  {
    var p := q + [(i, j)];
    assert forall k :: 0 <= k < |q| ==> q[k] == p[k];
  }

  lemma SumExtend(x: Matrix, n: nat, m: nat, q: seq<(int, int)>, i: nat, j: nat)
    requires Shaped(x, n, m) && Within(q, n, m) && i < n && j < m
    ensures Within(q + [(i, j)], n, m) && Sum(x, n, m, q + [(i, j)]) == Sum(x, n, m, q) + x[i][j]
  {
    assert (q + [(i, j)])[..|q|] == q;
  }

  lemma {:induction false} PathWithin(p: seq<(int, int)>, i: int, j: int)
    requires Path(p, i, j)
    ensures p != [] && 0 <= i && 0 <= j && Within(p, i + 1, j + 1)
    ensures |p| == 1 ==> i == 0 && j == 0
    decreases |p|
  {
    if |p| > 1 {
      var q, a, b := PathCut(p, i, j);
      PathWithin(q, a, b);
    }
  }

  /** The path the backtrace follows. */
  function PathTo(x: Matrix, n: nat, m: nat, i: nat, j: nat): seq<(int, int)>
    requires Shaped(x, n, m) && 1 <= i <= n && 1 <= j <= m
    decreases i + j
  {
    MovesStayInside(x, n, m, i, j);
    var before :=
      if i == 1 && j == 1 then []
      else
        var t := MoveAt(x, n, m, i, j);
        if t == 0 then PathTo(x, n, m, i - 1, j - 1)
        else if t == 1 then PathTo(x, n, m, i - 1, j)
        else PathTo(x, n, m, i, j - 1);
    before + [(i - 1, j - 1)]
  }

  lemma {:induction false} PathToIsPath(x: Matrix, n: nat, m: nat, i: nat, j: nat)
    requires Shaped(x, n, m) && 1 <= i <= n && 1 <= j <= m
    ensures Path(PathTo(x, n, m, i, j), i - 1, j - 1) && |PathTo(x, n, m, i, j)| <= i + j - 1
    ensures Within(PathTo(x, n, m, i, j), n, m) && CostAt(x, n, m, i, j) == Fin(Sum(x, n, m, PathTo(x, n, m, i, j)))
    decreases i + j
  {
    hide Path, Sum, Within, CostAt, Shaped;
    MovesStayInside(x, n, m, i, j);
    CellIs(x, n, m, i, j);
    if i == 1 && j == 1 {
      OneCell(x, n, m);
    } else {
      var t := MoveAt(x, n, m, i, j);
      var a, b := if t == 2 then i else i - 1, if t == 1 then j else j - 1;
      PathToIsPath(x, n, m, a, b);
      PathExtend(PathTo(x, n, m, a, b), a - 1, b - 1, i - 1, j - 1);
      SumExtend(x, n, m, PathTo(x, n, m, a, b), i - 1, j - 1);
    }
  }

  lemma OneCell(x: Matrix, n: nat, m: nat)
    requires Shaped(x, n, m)
    ensures PathTo(x, n, m, 1, 1) == [(0, 0)] && Path([(0, 0)], 0, 0) && Within([(0, 0)], n, m)
    ensures CostAt(x, n, m, 1, 1) == Fin(x[0][0]) && Sum(x, n, m, [(0, 0)]) == x[0][0]
  {
    SumExtend(x, n, m, [], 0, 0);
    assert [] + [(0, 0)] == [(0, 0)];
  }

  lemma CellIs(x: Matrix, n: nat, m: nat, i: nat, j: nat)
    requires Shaped(x, n, m) && 1 <= i <= n && 1 <= j <= m
    ensures var c0, c1, c2 := CostAt(x, n, m, i - 1, j - 1), CostAt(x, n, m, i - 1, j), CostAt(x, n, m, i, j - 1);
            CostAt(x, n, m, i, j) == Plus(x[i - 1][j - 1], Chosen(c0, c1, c2))
              && MoveAt(x, n, m, i, j) == Move(c0, c1, c2)
  {
  }

  // --------------------------------------------------------------- optimality

  predicate NoTie(x: Matrix, n: nat, m: nat)
    requires Shaped(x, n, m)
  {
    forall i, j :: 1 <= i <= n && 1 <= j <= m ==> !TiedAt(x, n, m, i, j)
  }

  lemma {:induction false} CheapestBelow(x: Matrix, n: nat, m: nat, p: seq<(int, int)>, i: nat, j: nat)
    requires Shaped(x, n, m) && i < n && j < m && Path(p, i, j) && Within(p, n, m) && NoTie(x, n, m)
    ensures AtMost(CostAt(x, n, m, i + 1, j + 1), Fin(Sum(x, n, m, p)))
    decreases |p|
  {
    hide NoTie, CostAt, Path, Within, Sum, Shaped;
    PathWithin(p, i, j);
    MovesStayInside(x, n, m, i + 1, j + 1);
    if |p| == 1 {
      assert p == [(0, 0)] by { PathStart(p, i, j); }
      OneCell(x, n, m);
    } else {
      var q, a, b := PathCut(p, i, j);
      PathWithin(q, a, b);
      CutWithin(q, (i, j), n, m);
      CheapestBelow(x, n, m, q, a, b);
      SumExtend(x, n, m, q, i, j);
      NotTied(x, n, m, i + 1, j + 1);
      CellIs(x, n, m, i + 1, j + 1);
      ChosenIsLeast(CostAt(x, n, m, i, j), CostAt(x, n, m, i, j + 1), CostAt(x, n, m, i + 1, j));
    }
  }

  lemma PathStart(p: seq<(int, int)>, i: int, j: int)
    requires Path(p, i, j) && |p| == 1
    ensures p == [(0, 0)]
  {
  }

  lemma CutWithin(q: seq<(int, int)>, last: (int, int), n: nat, m: nat)
    requires Within(q + [last], n, m) && q != []
    ensures Within(q, n, m) && 0 <= q[|q| - 1].0 < n && 0 <= q[|q| - 1].1 < m
  {
    assert forall k :: 0 <= k < |q| ==> (q + [last])[k] == q[k];
  }

  lemma NotTied(x: Matrix, n: nat, m: nat, i: nat, j: nat)
    requires Shaped(x, n, m) && 1 <= i <= n && 1 <= j <= m && NoTie(x, n, m)
    ensures !TiedAt(x, n, m, i, j)
  {
  }

  /** No path to cell `(i, j)` is cheaper than the table says. */
  ghost predicate Optimal(x: Matrix, n: nat, m: nat, i: nat, j: nat)
    requires Shaped(x, n, m) && i < n && j < m
  {
    forall p :: Path(p, i, j) && Within(p, n, m) ==> AtMost(CostAt(x, n, m, i + 1, j + 1), Fin(Sum(x, n, m, p)))
  }

  /** Every cell of the table is optimal exactly when no cell's diagonal and upper predecessors
      tie strictly below its left one. */
  lemma OptimalIffNoTie(x: Matrix, n: nat, m: nat)
    requires Shaped(x, n, m)
    ensures (forall i: nat, j: nat :: i < n && j < m ==> Optimal(x, n, m, i, j)) <==> NoTie(x, n, m)
  {
    if NoTie(x, n, m) {
      forall i: nat, j: nat | i < n && j < m ensures Optimal(x, n, m, i, j) {
        forall p | Path(p, i, j) && Within(p, n, m)
          ensures AtMost(CostAt(x, n, m, i + 1, j + 1), Fin(Sum(x, n, m, p)))
        {
          CheapestBelow(x, n, m, p, i, j);
        }
      }
    } else {
      var i, j :| 1 <= i <= n && 1 <= j <= m && TiedAt(x, n, m, i, j);
      TieIsDearer(x, n, m, i, j);
    }
  }

  /** At a tie the table takes the left predecessor, although the diagonal one is cheaper. */
  lemma TieIsDearer(x: Matrix, n: nat, m: nat, i: nat, j: nat)
    requires Shaped(x, n, m) && 1 <= i <= n && 1 <= j <= m && TiedAt(x, n, m, i, j)
    ensures !Optimal(x, n, m, i - 1, j - 1)
  {
    hide CostAt, Path, Within, Sum, Shaped;
    MovesStayInside(x, n, m, i, j);
    DiagonalInside(x, n, m, i, j);
    CellIs(x, n, m, i, j);
    var q := PathTo(x, n, m, i - 1, j - 1);
    PathToIsPath(x, n, m, i - 1, j - 1);
    PathExtend(q, i - 2, j - 2, i - 1, j - 1);
    SumExtend(x, n, m, q, i - 1, j - 1);
    assert !AtMost(CostAt(x, n, m, i, j), Fin(Sum(x, n, m, q + [(i - 1, j - 1)])));
  }

  lemma DiagonalInside(x: Matrix, n: nat, m: nat, i: nat, j: nat)
    requires Shaped(x, n, m) && 1 <= i <= n && 1 <= j <= m && TiedAt(x, n, m, i, j)
    ensures i > 1 && j > 1
  {
    MovesStayInside(x, n, m, i, j);
  }

  /** The smallest case in which the result is not a cheapest path. */
  lemma TieCanMissTheCheapest()
    ensures var x: Matrix := [[0.0, 0.0], [1.0, 0.0]];
            && Shaped(x, 2, 2) && Path([(0, 0), (1, 1)], 1, 1) && Within([(0, 0), (1, 1)], 2, 2)
            && Sum(x, 2, 2, [(0, 0), (1, 1)]) == 0.0 && CostAt(x, 2, 2, 2, 2) == Fin(1.0)
  {
    var x: Matrix := [[0.0, 0.0], [1.0, 0.0]];
    assert CostAt(x, 2, 2, 1, 1) == Fin(0.0);
    assert CostAt(x, 2, 2, 1, 2) == Fin(0.0);
    assert CostAt(x, 2, 2, 2, 1) == Fin(1.0);
    var p: seq<(int, int)> := [(0, 0), (1, 1)];
    assert p[..1] == [(0, 0)] && p[..1][..0] == [];
    assert Sum(x, 2, 2, p[..1]) == 0.0;
  }

  // -------------------------------------------------------------- the procedure

  method FillTables(x: Matrix, n: nat, m: nat) returns (cost: array2<Cost>, trace: array2<int>)
    requires Shaped(x, n, m)
    ensures fresh(cost) && fresh(trace)
    ensures cost.Length0 == trace.Length0 == n + 1 && cost.Length1 == trace.Length1 == m + 1
    ensures forall i, j :: 0 <= i <= n && 0 <= j <= m ==> cost[i, j] == CostAt(x, n, m, i, j)
    ensures forall i, j :: 1 <= i <= n && 1 <= j <= m ==> trace[i, j] == MoveAt(x, n, m, i, j)
  {
    cost := new Cost[n + 1, m + 1]((_, _) => Inf);
    trace := new int[n + 1, m + 1]((_, _) => -1);
    cost[0, 0] := Fin(0.0);
    for j := 1 to m + 1
      invariant forall i, k :: 0 <= i <= n && 0 <= k < j ==> cost[i, k] == CostAt(x, n, m, i, k)
      invariant forall k :: j <= k <= m ==> cost[0, k] == Inf
      invariant forall i, k :: 1 <= i <= n && 1 <= k < j ==> trace[i, k] == MoveAt(x, n, m, i, k)
    {
      FillColumn(x, n, m, j, cost, trace);
    }
  }

  lemma BorderIs(x: Matrix, n: nat, m: nat, j: nat)
    requires Shaped(x, n, m) && 1 <= j <= m
    ensures CostAt(x, n, m, 0, j) == Inf
  {
  }

  method FillColumn(x: Matrix, n: nat, m: nat, j: nat, cost: array2<Cost>, trace: array2<int>)
    requires Shaped(x, n, m) && 1 <= j <= m && cost as object != trace
    requires cost.Length0 == trace.Length0 == n + 1 && cost.Length1 == trace.Length1 == m + 1
    requires forall i, k :: 0 <= i <= n && k == j - 1 ==> cost[i, k] == CostAt(x, n, m, i, k)
    requires cost[0, j] == Inf
    modifies cost, trace
    ensures forall i :: 0 <= i <= n ==> cost[i, j] == CostAt(x, n, m, i, j)
    ensures forall i :: 1 <= i <= n ==> trace[i, j] == MoveAt(x, n, m, i, j)
    ensures forall i, k :: 0 <= i <= n && 0 <= k <= m && k != j ==>
      cost[i, k] == old(cost[i, k]) && trace[i, k] == old(trace[i, k])
  {
    hide CostAt, MoveAt, Less;
    BorderIs(x, n, m, j);
    for i := 1 to n + 1
      invariant forall a :: 0 <= a < i ==> cost[a, j] == CostAt(x, n, m, a, j)
      invariant forall a :: 1 <= a < i ==> trace[a, j] == MoveAt(x, n, m, a, j)
      invariant forall a, k :: 0 <= a <= n && 0 <= k <= m && k != j ==>
        cost[a, k] == old(cost[a, k]) && trace[a, k] == old(trace[a, k])
    {
      CellIs(x, n, m, i, j);
      var c0, c1, c2 := cost[i - 1, j - 1], cost[i - 1, j], cost[i, j - 1];
      var c, t;
      if Less(c0, c1) && Less(c0, c2) {
        c, t := c0, 0;
      } else if Less(c1, c0) && Less(c1, c2) {
        c, t := c1, 1;
      } else {
        c, t := c2, 2;
      }
      cost[i, j] := Plus(x[i - 1][j - 1], c);
      trace[i, j] := t;
    }
  }

  /** Follows the moves back from the last cell, filling rows from the last one up. */
  method Backtrace(x: Matrix, n: nat, m: nat, trace: array2<int>) returns (r: seq<(int, int)>)
    requires Shaped(x, n, m) && trace.Length0 == n + 1 && trace.Length1 == m + 1
    requires forall i, j :: 1 <= i <= n && 1 <= j <= m ==> trace[i, j] == MoveAt(x, n, m, i, j)
    modifies trace
    ensures r == PathTo(x, n, m, n, m)
  {
    hide MoveAt, CostAt;
    for k := 0 to m + 1
      invariant forall i, j :: 1 <= i <= n && 1 <= j <= m ==> trace[i, j] == MoveAt(x, n, m, i, j)
    {
      trace[0, k] := 2;
    }
    for k := 0 to n + 1
      invariant forall i, j :: 1 <= i <= n && 1 <= j <= m ==> trace[i, j] == MoveAt(x, n, m, i, j)
    {
      trace[k, 0] := 1;
    }
    r := Follow(x, n, m, trace);
  }

  lemma PathToStep(x: Matrix, n: nat, m: nat, i: nat, j: nat, done: seq<(int, int)>)
    requires Shaped(x, n, m) && 1 <= i <= n && 1 <= j <= m
    ensures var t := MoveAt(x, n, m, i, j);
            var a, b := if t == 2 then i else i - 1, if t == 1 then j else j - 1;
            && (a > 0 <==> b > 0) && (a == 0 <==> i == j == 1)
            && PathTo(x, n, m, i, j) + done ==
              (if a == 0 then [] else PathTo(x, n, m, a, b)) + ([(i - 1, j - 1)] + done)
  {
    hide MoveAt, CostAt;
    MovesStayInside(x, n, m, i, j);
  }

  method Follow(x: Matrix, n: nat, m: nat, trace: array2<int>) returns (r: seq<(int, int)>)
    requires Shaped(x, n, m) && trace.Length0 == n + 1 && trace.Length1 == m + 1
    requires forall i, j :: 1 <= i <= n && 1 <= j <= m ==> trace[i, j] == MoveAt(x, n, m, i, j)
    ensures r == PathTo(x, n, m, n, m)
  {
    hide MoveAt, CostAt, PathTo;
    var rows := n + m - 1;
    var bt := new int[rows, 2];
    var row := rows - 1;
    var i, j := n, m;
    ghost var done: seq<(int, int)> := [];
    while i > 0 || j > 0
      invariant 0 <= i <= n && 0 <= j <= m && (i > 0 <==> j > 0)
      invariant -1 <= row < rows && row + 1 >= i + j - 1
      invariant |done| == rows - 1 - row && forall k :: 0 <= k < |done| ==>
        done[k] == (bt[row + 1 + k, 0], bt[row + 1 + k, 1])
      invariant i > 0 ==> PathTo(x, n, m, i, j) + done == PathTo(x, n, m, n, m)
      invariant i == 0 ==> done == PathTo(x, n, m, n, m)
      decreases i + j
    {
      bt[row, 0] := i - 1;
      bt[row, 1] := j - 1;
      row := row - 1;
      PathToStep(x, n, m, i, j, done);
      done := [(i - 1, j - 1)] + done;
      var t := trace[i, j];
      assert t == MoveAt(x, n, m, i, j);
      if t == 0 {
        i, j := i - 1, j - 1;
      } else if t == 1 {
        i := i - 1;
      } else {
        j := j - 1;
      }
    }
    r := seq(rows - 1 - row, k requires 0 <= k < rows - 1 - row && 0 <= row + 1 && bt.Length0 == rows
      && bt.Length1 == 2 reads bt =>
      (bt[row + 1 + k, 0], bt[row + 1 + k, 1]));
    assert r == done;
  }

  /** The found path runs from the first to the last cell by unit steps, has at most
      `n + m - 1` cells, costs what the table says, and is a cheapest one if no cell ties. */
  method DtwAndBacktrace(x: Matrix, n: nat, m: nat) returns (r: seq<(int, int)>)
    requires Shaped(x, n, m)
    ensures Path(r, n - 1, m - 1) && |r| <= n + m - 1
    ensures Within(r, n, m) && CostAt(x, n, m, n, m) == Fin(Sum(x, n, m, r))
    ensures NoTie(x, n, m) ==>
      forall p :: Path(p, n - 1, m - 1) && Within(p, n, m) ==> Sum(x, n, m, r) <= Sum(x, n, m, p)
  {
    hide NoTie, Path, CostAt;
    var cost, trace := FillTables(x, n, m);
    r := Backtrace(x, n, m, trace);
    PathToIsPath(x, n, m, n, m);
    if NoTie(x, n, m) {
      CheapestOfAll(x, n, m, r);
    }
  }

  /** Without ties, a path that costs what the table says is a cheapest one. */
  lemma CheapestOfAll(x: Matrix, n: nat, m: nat, r: seq<(int, int)>)
    requires Shaped(x, n, m) && NoTie(x, n, m)
    requires Within(r, n, m) && CostAt(x, n, m, n, m) == Fin(Sum(x, n, m, r))
    ensures forall p :: Path(p, n - 1, m - 1) && Within(p, n, m) ==> Sum(x, n, m, r) <= Sum(x, n, m, p)
  {
    hide NoTie, Path, CostAt, Sum, Within;
    forall p | Path(p, n - 1, m - 1) && Within(p, n, m) ensures Sum(x, n, m, r) <= Sum(x, n, m, p) {
      CheapestBelow(x, n, m, p, n - 1, m - 1);
    }
  }
}
