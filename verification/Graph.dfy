/** Computation graphs as the memory planner sees them, and how often tensors are still used. */
module Graph {
  import opened Options

  /** `GGML_OP_NONE`, the operations that may run in place, and all others. */
  datatype Op = NoOp | Inplace | OutOfPlace

  datatype Layout = Layout(kind: nat, ne: seq<int>, nb: seq<int>)

  datatype Tensor = Tensor(
    op: Op,
    layout: Layout,
    viewSrc: Option<nat>,
    srcs: seq<Option<nat>>,
    input: bool,
    output: bool,
    hasData: bool)

  /** `nodes` and `leafs` index `tensors`. */
  datatype Graph = Graph(
    tensors: seq<Tensor>,
    nodes: seq<nat>,
    leafs: seq<nat>)
  {
    predicate Has(t: nat) {
      t < |tensors|
    }

    predicate IsView(t: nat)
      requires Has(t)
    {
      tensors[t].viewSrc.Some?
    }

    /** The planner owns the memory of tensors that are no views and have no data yet. */
    predicate Plain(t: nat) {
      Has(t) && tensors[t].viewSrc.None? && !tensors[t].hasData
    }

    ghost predicate InRange() {
      && (forall i :: 0 <= i < |nodes| ==> Has(nodes[i]))
      && (forall i :: 0 <= i < |leafs| ==> Has(leafs[i]))
      && (forall t, j :: 0 <= t < |tensors| && 0 <= j < |tensors[t].srcs| && tensors[t].srcs[j].Some? ==>
            Has(tensors[t].srcs[j].value))
      && (forall t :: 0 <= t < |tensors| && tensors[t].viewSrc.Some? ==> Has(tensors[t].viewSrc.value))
    }

    function Srcs(i: nat): seq<Option<nat>>
      requires i < |nodes| && Has(nodes[i])
    {
      tensors[nodes[i]].srcs
    }

    ghost predicate IsSource(i: nat, t: nat)
      requires i < |nodes| && Has(nodes[i])
    {
      Some(t) in Srcs(i)
    }

    /** The tensor whose memory `t` denotes. */
    function Root(t: nat): nat
      requires Has(t)
    {
      if tensors[t].viewSrc.Some? then tensors[t].viewSrc.value else t
    }

    /** Node `k` reads the memory of `r`, directly or through a view. */
    ghost predicate Reads(k: nat, r: nat)
      requires InRange() && k < |nodes|
    {
      exists s :: Has(s) && IsSource(k, s) && Root(s) == r
    }

    ghost predicate ReadFrom(k: nat, r: nat)
      requires InRange()
    {
      exists i :: k <= i < |nodes| && Reads(i, r)
    }

    /** A view counted in its base's view counter. */
    predicate CountedView(v: nat, r: nat) {
      Has(v) && tensors[v].viewSrc == Some(r) && tensors[v].op != NoOp
    }

    /** Placed before any node is planned: leafs, and the inputs the graph mentions. */
    ghost predicate StartBorn(r: nat)
      requires InRange()
    {
      r in leafs || (Has(r) && tensors[r].input && (r in nodes || exists i :: 0 <= i < |nodes| && IsSource(i, r)))
    }

    ghost predicate BornBefore(r: nat, k: nat)
      requires InRange() && k <= |nodes|
    {
      StartBorn(r) || r in nodes[..k]
    }

    /** What the planner assumes of the graphs it is given. */
    ghost predicate Ok() {
      && InRange()
      // nodes are distinct and in topological order, also with respect to view bases
      && (forall i, k :: 0 <= i < k < |nodes| ==> nodes[i] != nodes[k])
      && (forall i, k :: 0 <= i <= k < |nodes| ==> !IsSource(i, nodes[k]))
      && (forall i, k :: 0 <= i <= k < |nodes| ==> !CountedView(nodes[i], nodes[k]))
      // leafs and inputs compute nothing
      && (forall t :: 0 <= t < |tensors| && (t in leafs || tensors[t].input) ==> tensors[t].op == NoOp)
      // a view's base is not itself a view
      && (forall t :: 0 <= t < |tensors| && tensors[t].viewSrc.Some? ==>
        tensors[tensors[t].viewSrc.value].viewSrc.None?)
      // sources the planner must place are nodes, leafs or inputs
      && (forall i: nat, t: nat :: i < |nodes| && Plain(t) && IsSource(i, t) ==>
        t in nodes || t in leafs || tensors[t].input)
      // a view of planned memory that is read is a counted node, and its base is a node or a leaf
      && (forall i: nat, v: nat :: i < |nodes| && Has(v) && IsSource(i, v) && IsView(v) && Plain(Root(v)) ==>
            v in nodes && tensors[v].op != NoOp && (Root(v) in nodes || Root(v) in leafs))
    }
  }

  // ----------------------------------------------------------------- counting

  function UsesIn(s: seq<Option<nat>>, t: nat): nat {
    if s == [] then 0 else (if s[0] == Some(t) then 1 else 0) + UsesIn(s[1..], t)
  }

  /** How often node `i` and later ones name `t` as a source. */
  function Uses(g: Graph, t: nat, i: nat): nat
    requires g.InRange() && i <= |g.nodes|
    decreases |g.nodes| - i
  {
    if i == |g.nodes| then 0 else UsesIn(g.Srcs(i), t) + Uses(g, t, i + 1)
  }

  /** The planner is at source `j` of node `i`; `(|nodes|, 0)` is the end. */
  ghost predicate At(g: Graph, i: nat, j: nat)
    requires g.InRange()
  {
    i <= |g.nodes| && (if i < |g.nodes| then j <= |g.Srcs(i)| else j == 0)
  }

  /** Uses of `t` that are still to come at `(i, j)`. */
  ghost function Rem(g: Graph, t: nat, i: nat, j: nat): nat
    requires g.InRange() && At(g, i, j)
  {
    if i == |g.nodes| then 0 else UsesIn(g.Srcs(i)[j..], t) + Uses(g, t, i + 1)
  }

  /** A view counts until the last of its uses (if it has any) is behind. */
  ghost predicate Undead(g: Graph, v: nat, i: nat, j: nat)
    requires g.InRange() && At(g, i, j)
  {
    Uses(g, v, 0) == 0 || Rem(g, v, i, j) > 0
  }

  ghost function ViewCount(g: Graph, r: nat, i: nat, j: nat, n: nat): nat
    requires g.InRange() && At(g, i, j) && n <= |g.nodes|
  {
    if n == 0 then 0 else
    ViewCount(g, r, i, j, n - 1) +
    (if g.CountedView(g.nodes[n - 1], r) && Undead(g, g.nodes[n - 1], i, j) then 1 else 0)
  }

  /** Views of `r` among the first `n` nodes, dead or not. */
  ghost function AllViews(g: Graph, r: nat, n: nat): nat
    requires g.InRange() && n <= |g.nodes|
  {
    if n == 0 then 0 else
    AllViews(g, r, n - 1) + (if g.CountedView(g.nodes[n - 1], r) then 1 else 0)
  }

  /** Nothing of `r` is still to be read and its region has been given back (or passed on). */
  ghost predicate Released(g: Graph, r: nat, i: nat, j: nat)
    requires g.InRange() && At(g, i, j) && g.Has(r)
  {
    && !g.tensors[r].output
    && Rem(g, r, i, j) == 0
    && ViewCount(g, r, i, j, |g.nodes|) == 0
    && (Uses(g, r, 0) > 0 || AllViews(g, r, |g.nodes|) > 0)
  }

  // ------------------------------------------------------- facts about counts

  lemma {:induction false} UsesInZero(s: seq<Option<nat>>, t: nat)
    ensures UsesIn(s, t) == 0 <==> Some(t) !in s
  {
    if s != [] {
      UsesInZero(s[1..], t);
      assert s == [s[0]] + s[1..];
    }
  }

  lemma {:induction false} UsesInSuffix(s: seq<Option<nat>>, j: nat, t: nat)
    requires j <= |s|
    ensures UsesIn(s[j..], t) <= UsesIn(s, t)
  {
    if j == 0 {
      assert s[0..] == s;
    } else {
      UsesInSuffix(s[1..], j - 1, t);
      assert s[1..][j - 1..] == s[j..];
    }
  }

  lemma RemStart(g: Graph, t: nat, i: nat)
    requires g.InRange() && i <= |g.nodes|
    ensures At(g, i, 0) && Rem(g, t, i, 0) == Uses(g, t, i)
  {
    if i < |g.nodes| {
      assert g.Srcs(i)[0..] == g.Srcs(i);
    }
  }

  lemma RemEnd(g: Graph, t: nat, i: nat)
    requires g.InRange() && i < |g.nodes|
    ensures Rem(g, t, i, |g.Srcs(i)|) == Uses(g, t, i + 1) == Rem(g, t, i + 1, 0)
  {
    RemStart(g, t, i + 1);
    assert g.Srcs(i)[|g.Srcs(i)|..] == [];
  }

  lemma RemStep(g: Graph, t: nat, i: nat, j: nat)
    requires g.InRange() && i < |g.nodes| && j < |g.Srcs(i)|
    ensures Rem(g, t, i, j) == Rem(g, t, i, j + 1) + (if g.Srcs(i)[j] == Some(t) then 1 else 0)
  {
    var s := g.Srcs(i);
    assert s[j..][1..] == s[j + 1..];
  }

  lemma {:induction false} UsesAntitone(g: Graph, t: nat, i: nat, k: nat)
    requires g.InRange() && i <= k <= |g.nodes|
    ensures Uses(g, t, k) <= Uses(g, t, i)
    decreases k - i
  {
    if i < k {
      UsesAntitone(g, t, i + 1, k);
    }
  }

  lemma {:induction false} UsesIffSource(g: Graph, t: nat, i: nat)
    requires g.InRange() && i <= |g.nodes|
    ensures Uses(g, t, i) > 0 <==> exists k :: i <= k < |g.nodes| && g.IsSource(k, t)
    decreases |g.nodes| - i
  {
    if i < |g.nodes| {
      UsesInZero(g.Srcs(i), t);
      UsesIffSource(g, t, i + 1);
      assert g.IsSource(i, t) <==> UsesIn(g.Srcs(i), t) > 0;
    }
  }

  lemma RemBounds(g: Graph, t: nat, i: nat, j: nat)
    requires g.InRange() && i < |g.nodes| && j <= |g.Srcs(i)|
    ensures Rem(g, t, i, j) <= Rem(g, t, i, 0) == Uses(g, t, i) <= Uses(g, t, 0)
    ensures Uses(g, t, i + 1) <= Rem(g, t, i, j)
  {
    RemStart(g, t, i);
    UsesAntitone(g, t, 0, i);
    UsesInSuffix(g.Srcs(i), j, t);
  }

  /** No node up to `i` uses `t`: all of its uses are still to come. */
  lemma {:induction false} UnusedPrefix(g: Graph, t: nat, i: nat)
    requires g.InRange() && i <= |g.nodes|
    requires forall k :: 0 <= k < i ==> !g.IsSource(k, t)
    ensures Uses(g, t, i) == Uses(g, t, 0)
  {
    if i > 0 {
      UnusedPrefix(g, t, i - 1);
      UsesInZero(g.Srcs(i - 1), t);
      assert !g.IsSource(i - 1, t);
    }
  }

  // ------------------------------------------------------------ views of a base

  lemma {:induction false} ViewCountBound(g: Graph, r: nat, i: nat, j: nat, n: nat)
    requires g.InRange() && At(g, i, j) && n <= |g.nodes|
    ensures ViewCount(g, r, i, j, n) <= AllViews(g, r, n)
  {
    if n > 0 {
      ViewCountBound(g, r, i, j, n - 1);
    }
  }

  lemma {:induction false} ViewCountPositive(g: Graph, r: nat, i: nat, j: nat, n: nat, k: nat)
    requires g.InRange() && At(g, i, j) && k < n <= |g.nodes|
    requires g.CountedView(g.nodes[k], r) && Undead(g, g.nodes[k], i, j)
    ensures ViewCount(g, r, i, j, n) > 0
  {
    if k < n - 1 {
      ViewCountPositive(g, r, i, j, n - 1, k);
    }
  }

  lemma {:induction false} AllViewsPositive(g: Graph, r: nat, n: nat, k: nat)
    requires g.InRange() && k < n <= |g.nodes| && g.CountedView(g.nodes[k], r)
    ensures AllViews(g, r, n) > 0
  {
    if k < n - 1 {
      AllViewsPositive(g, r, n - 1, k);
    }
  }

  /** When no view has been used up, the view count is complete. */
  lemma {:induction false} ViewCountFull(g: Graph, r: nat, i: nat, j: nat, n: nat)
    requires g.InRange() && At(g, i, j) && n <= |g.nodes|
    requires forall k :: 0 <= k < n && g.CountedView(g.nodes[k], r) ==> Undead(g, g.nodes[k], i, j)
    ensures ViewCount(g, r, i, j, n) == AllViews(g, r, n)
  {
    if n > 0 {
      ViewCountFull(g, r, i, j, n - 1);
    }
  }

  /** Two planner positions at which the same views of `r` are alive have the same count. */
  lemma {:induction false} ViewCountSame(g: Graph, r: nat, i: nat, j: nat, i': nat, j': nat, n: nat)
    requires g.InRange() && At(g, i, j) && At(g, i', j') && n <= |g.nodes|
    requires forall k :: 0 <= k < n && g.CountedView(g.nodes[k], r) ==>
      (Undead(g, g.nodes[k], i, j) <==> Undead(g, g.nodes[k], i', j'))
    ensures ViewCount(g, r, i, j, n) == ViewCount(g, r, i', j', n)
  {
    if n > 0 {
      ViewCountSame(g, r, i, j, i', j', n - 1);
    }
  }

  /** The death of one view lowers its base's count by one. */
  lemma {:induction false} ViewCountDrops(g: Graph, r: nat, i: nat, j: nat, n: nat, m: nat)
    requires g.Ok() && i < |g.nodes| && j < |g.Srcs(i)| && m < n <= |g.nodes|
    requires g.Srcs(i)[j] == Some(g.nodes[m]) && g.CountedView(g.nodes[m], r)
    requires Rem(g, g.nodes[m], i, j + 1) == 0
    ensures ViewCount(g, r, i, j, n) == ViewCount(g, r, i, j + 1, n) + 1
  {
    hide Rem, Uses;
    RemStep(g, g.nodes[m], i, j);
    RemBounds(g, g.nodes[m], i, j);
    if m < n - 1 {
      ViewCountDrops(g, r, i, j, n - 1, m);
      OtherViewsSame(g, n - 1, i, j, m);
    } else {
      forall k | 0 <= k < n - 1
        ensures Undead(g, g.nodes[k], i, j) <==> Undead(g, g.nodes[k], i, j + 1)
      {
        OtherViewsSame(g, k, i, j, m);
      }
      ViewCountSame(g, r, i, j, i, j + 1, n - 1);
    }
  }

  lemma OtherViewsSame(g: Graph, k: nat, i: nat, j: nat, m: nat)
    requires g.Ok() && i < |g.nodes| && j < |g.Srcs(i)| && m < |g.nodes| && k < |g.nodes| && k != m
    requires g.Srcs(i)[j] == Some(g.nodes[m])
    ensures Undead(g, g.nodes[k], i, j) <==> Undead(g, g.nodes[k], i, j + 1)
  {
    RemStep(g, g.nodes[k], i, j);
    assert g.nodes[k] != g.nodes[m];
  }

  lemma RemDeadView(g: Graph, r: nat, i: nat, j: nat)
    requires g.Ok() && i < |g.nodes| && j < |g.Srcs(i)|
    requires g.Srcs(i)[j].Some? ==>
      !g.CountedView(g.Srcs(i)[j].value, r) || Rem(g, g.Srcs(i)[j].value, i, j + 1) > 0
    ensures ViewCount(g, r, i, j, |g.nodes|) == ViewCount(g, r, i, j + 1, |g.nodes|)
  {
    forall k | 0 <= k < |g.nodes| && g.CountedView(g.nodes[k], r)
      ensures Undead(g, g.nodes[k], i, j) <==> Undead(g, g.nodes[k], i, j + 1)
    {
      RemStep(g, g.nodes[k], i, j);
    }
    ViewCountSame(g, r, i, j, i, j + 1, |g.nodes|);
  }

  /** Positions at the end of one node and at the start of the next agree. */
  lemma NextNode(g: Graph, r: nat, i: nat)
    requires g.InRange() && i < |g.nodes|
    ensures At(g, i, |g.Srcs(i)|) && At(g, i + 1, 0)
    ensures Rem(g, r, i, |g.Srcs(i)|) == Rem(g, r, i + 1, 0)
    ensures ViewCount(g, r, i, |g.Srcs(i)|, |g.nodes|) == ViewCount(g, r, i + 1, 0, |g.nodes|)
  {
    RemEnd(g, r, i);
    forall k | 0 <= k < |g.nodes|
      ensures Undead(g, g.nodes[k], i, |g.Srcs(i)|) <==> Undead(g, g.nodes[k], i + 1, 0)
    {
      RemEnd(g, g.nodes[k], i);
    }
    ViewCountSame(g, r, i, |g.Srcs(i)|, i + 1, 0, |g.nodes|);
  }

  // ---------------------------------------------- reading, and being released

  /** Memory that some later node reads is not released. */
  lemma ReadIsNotReleased(g: Graph, r: nat, k: nat)
    requires g.Ok() && k < |g.nodes| && g.Plain(r) && g.ReadFrom(k, r)
    ensures At(g, k, 0) && !Released(g, r, k, 0)
  {
    hide Rem, ViewCount;
    RemStart(g, r, k);
    var i :| k <= i < |g.nodes| && g.Reads(i, r);
    var s :| g.Has(s) && g.IsSource(i, s) && g.Root(s) == r;
    if s != r {
      ReadViewCounts(g, r, k, i, s);
    } else {
      UsesIffSource(g, r, k);
    }
  }

  /** Memory that no node reads at all is never released: it was asked for by the graph alone. */
  lemma UnreadIsNotReleased(g: Graph, r: nat, k: nat)
    requires g.Ok() && k <= |g.nodes| && g.Plain(r) && !g.ReadFrom(0, r)
    ensures At(g, k, 0) && !Released(g, r, k, 0)
  {
    hide Rem;
    UsedIsRead(g, r, r);
    forall m | 0 <= m < |g.nodes| && g.CountedView(g.nodes[m], r) ensures Undead(g, g.nodes[m], k, 0) {
      UsedIsRead(g, r, g.nodes[m]);
    }
    ViewCountFull(g, r, k, 0, |g.nodes|);
  }

  lemma UsedIsRead(g: Graph, r: nat, s: nat)
    requires g.Ok() && g.Has(r) && g.Has(s) && g.Root(s) == r
    ensures Uses(g, s, 0) > 0 ==> g.ReadFrom(0, r)
  {
    UsesIffSource(g, s, 0);
    if Uses(g, s, 0) > 0 {
      var i :| 0 <= i < |g.nodes| && g.IsSource(i, s);
      assert g.Reads(i, r);
    }
  }

  /** One direct use left and no live view: node `k` is the last reader, and it reads `r` itself. */
  lemma LastUse(g: Graph, r: nat, k: nat)
    requires g.Ok() && k < |g.nodes| && g.Plain(r) && g.IsSource(k, r)
    requires At(g, k, 0) && Rem(g, r, k, 0) == 1 && ViewCount(g, r, k, 0, |g.nodes|) == 0
    ensures !g.ReadFrom(k + 1, r)
    ensures forall s :: g.Has(s) && g.IsSource(k, s) && g.Root(s) == r ==> s == r
  {
    hide Rem, ViewCount;
    RemStart(g, r, k);
    UsesInZero(g.Srcs(k), r);
    UsesIffSource(g, r, k + 1);
    forall i, s | k <= i < |g.nodes| && g.Has(s) && g.IsSource(i, s) && g.Root(s) == r
      ensures s == r && i == k
    {
      if s != r {
        ReadViewCounts(g, r, k, i, s);
      }
    }
  }

  /** A view that node `k` or a later one reads keeps its base's count positive. */
  lemma ReadViewCounts(g: Graph, r: nat, k: nat, i: nat, s: nat)
    requires g.Ok() && k <= i < |g.nodes| && g.Plain(r) && g.Has(s) && g.IsSource(i, s) && g.Root(s) == r && s != r
    ensures At(g, k, 0) && ViewCount(g, r, k, 0, |g.nodes|) > 0
  {
    hide Rem, ViewCount;
    UsesIffSource(g, s, k);
    RemStart(g, s, k);
    var m :| 0 <= m < |g.nodes| && g.nodes[m] == s;
    ViewCountPositive(g, r, k, 0, |g.nodes|, m);
  }

  /** A tensor is not released when it comes into being: its readers all lie ahead. */
  lemma BirthNotReleased(g: Graph, m: nat, i: nat, j: nat)
    requires g.Ok() && i <= m < |g.nodes| && j <= |g.Srcs(i)|
    ensures !Released(g, g.nodes[m], i, j)
  {
    var r := g.nodes[m];
    UsesAhead(g, r, m, i, j);
    forall k | 0 <= k < |g.nodes| && g.CountedView(g.nodes[k], r)
      ensures Undead(g, g.nodes[k], i, j)
    {
      assert m < k;
      UsesAhead(g, g.nodes[k], k, i, j);
    }
    ViewCountFull(g, r, i, j, |g.nodes|);
  }

  lemma UsesAhead(g: Graph, t: nat, m: nat, i: nat, j: nat)
    requires g.Ok() && i <= m < |g.nodes| && g.nodes[m] == t && j <= |g.Srcs(i)|
    ensures Rem(g, t, i, j) == Uses(g, t, 0)
  {
    UnusedPrefix(g, t, i + 1);
    RemBounds(g, t, i, j);
    UsesAntitone(g, t, i, i + 1);
  }

  /** At the very start nothing is released. */
  lemma StartNotReleased(g: Graph, r: nat)
    requires g.Ok() && g.Has(r)
    ensures At(g, 0, 0) && !Released(g, r, 0, 0)
  {
    RemStart(g, r, 0);
    forall k | 0 <= k < |g.nodes| ensures Undead(g, g.nodes[k], 0, 0) {
      RemStart(g, g.nodes[k], 0);
    }
    ViewCountFull(g, r, 0, 0, |g.nodes|);
  }
}
