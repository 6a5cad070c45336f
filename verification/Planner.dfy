/** The graph memory planner: places every tensor of a graph, reusing memory whose readers
    are all behind, and proves that no memory still to be read is overwritten. */
module Planner {
  import opened Options
  import opened Graph
  import opened Arena
  import opened ArenaInvariant
  import opened Ownership
  import opened Liveness
  import opened Placement

  /** An output, or a view of one. */
  predicate OutputMemory(g: Graph, t: nat)
    requires g.Has(t) && g.Has(g.Root(t))
  {
    g.tensors[t].output || (g.IsView(t) && g.tensors[g.Root(t)].output)
  }

  /** An operand whose memory the node may take over. */
  predicate Reusable(g: Graph, values: seq<HashNode>, node: nat, parent: nat)
    requires |values| == |g.tensors| && g.Has(node) && g.Has(parent)
  {
    && values[parent].owned
    && !g.tensors[parent].output
    && g.tensors[node].layout == g.tensors[parent].layout
    && values[parent].children == 1 && values[parent].views == 0
  }

  /** The first reusable operand from source `j` on. */
  function FirstReusable(g: Graph, values: seq<HashNode>, node: nat, j: nat): Option<nat>
    requires |values| == |g.tensors| && g.Has(node) && j <= |g.tensors[node].srcs|
    requires forall k :: 0 <= k < |g.tensors[node].srcs| && g.tensors[node].srcs[k].Some? ==>
      g.Has(g.tensors[node].srcs[k].value)
    decreases |g.tensors[node].srcs| - j
  {
    if j == |g.tensors[node].srcs| then None
    else if g.tensors[node].srcs[j].Some? && Reusable(g, values, node, g.tensors[node].srcs[j].value)
    then g.tensors[node].srcs[j]
    else FirstReusable(g, values, node, j + 1)
  }

  /** The operand whose region the node takes over, if its operation can run in place. */
  function ReuseChoice(g: Graph, values: seq<HashNode>, node: nat): Option<nat>
    requires |values| == |g.tensors| && g.Has(node)
    requires forall k :: 0 <= k < |g.tensors[node].srcs| && g.tensors[node].srcs[k].Some? ==>
      g.Has(g.tensors[node].srcs[k].value)
  {
    if g.tensors[node].op == Inplace then FirstReusable(g, values, node, 0) else None
  }

  /** Source `k` is `p`, and none from source `j` up to it is reusable. */
  predicate FirstFrom(g: Graph, values: seq<HashNode>, node: nat, p: nat, j: nat, k: nat)
    requires |values| == |g.tensors| && g.Has(node) && j <= k < |g.tensors[node].srcs|
    requires forall m :: 0 <= m < |g.tensors[node].srcs| && g.tensors[node].srcs[m].Some? ==>
      g.Has(g.tensors[node].srcs[m].value)
  {
    && g.tensors[node].srcs[k] == Some(p)
    && forall m :: j <= m < k && g.tensors[node].srcs[m].Some? ==>
         !Reusable(g, values, node, g.tensors[node].srcs[m].value)
  }

  lemma {:induction false} FirstReusableIsReusable(g: Graph, values: seq<HashNode>, node: nat, j: nat)
    requires |values| == |g.tensors| && g.Has(node) && j <= |g.tensors[node].srcs|
    requires forall k :: 0 <= k < |g.tensors[node].srcs| && g.tensors[node].srcs[k].Some? ==>
      g.Has(g.tensors[node].srcs[k].value)
    ensures match FirstReusable(g, values, node, j)
            case Some(p) => && Some(p) in g.tensors[node].srcs && g.Has(p) && Reusable(g, values, node, p)
                            && exists k :: j <= k < |g.tensors[node].srcs| && FirstFrom(g, values, node, p, j, k)
            case None => forall k :: j <= k < |g.tensors[node].srcs| && g.tensors[node].srcs[k].Some? ==>
                           !Reusable(g, values, node, g.tensors[node].srcs[k].value)
    decreases |g.tensors[node].srcs| - j
  {
    hide Reusable;
    if j < |g.tensors[node].srcs| {
      var src := g.tensors[node].srcs[j];
      if src.Some? && Reusable(g, values, node, src.value) {
        assert FirstFrom(g, values, node, src.value, j, j);
      } else {
        FirstReusableIsReusable(g, values, node, j + 1);
        var found := FirstReusable(g, values, node, j + 1);
        if found.Some? {
          var k :| j + 1 <= k < |g.tensors[node].srcs| && FirstFrom(g, values, node, found.value, j + 1, k);
          assert FirstFrom(g, values, node, found.value, j, k);
        }
      }
    }
  }

  // -------------------------------------------------------------- the guarantee

  /** Node `k` runs in place on its operand `r`, which nothing reads afterwards. */
  ghost predicate ReusedInPlace(g: Graph, k: nat, r: nat)
    requires g.InRange() && k < |g.nodes| && g.Has(r)
  {
    && g.IsSource(k, r)
    && g.tensors[g.nodes[k]].op == Inplace
    && g.tensors[g.nodes[k]].layout == g.tensors[r].layout
    && !g.tensors[r].output
    && !g.ReadFrom(k + 1, r)
  }

  /** The region node `k` writes stays clear of the region of `r`. */
  ghost predicate ClearOf(g: Graph, be: Backend, values: seq<HashNode>, k: nat, r: nat)
    requires g.InRange() && be.Ok(g) && NodesOk(g, be, values) && k < |g.nodes| && g.Has(r)
  {
    || Apart(PlaceOf(g, be, values, g.nodes[k]), PlaceOf(g, be, values, r))
    || ReusedInPlace(g, k, r)
  }

  /** When a node runs, nothing that is in being, and not released, is overwritten. */
  ghost predicate SafeUpTo(g: Graph, be: Backend, values: seq<HashNode>, n: nat)
    requires g.Ok() && be.Ok(g) && NodesOk(g, be, values) && n <= |g.nodes|
  {
    forall k, r :: 0 <= k < n && 0 <= r < |g.tensors| && SafePair(g, k, r) ==> ClearOf(g, be, values, k, r)
  }

  ghost predicate SafePair(g: Graph, k: nat, r: nat)
    requires g.Ok() && k < |g.nodes| && g.Has(r)
  {
    && g.Plain(g.nodes[k]) && g.Plain(r) && r != g.nodes[k]
    && At(g, k, 0) && g.BornBefore(r, k) && !Released(g, r, k, 0)
  }

  /** Its contents must survive until node `k` runs: node `k` or a later one still reads `r`,
      directly or through a view, or it is an output, or no node reads it at all. */
  ghost predicate Needed(g: Graph, k: nat, r: nat)
    requires g.InRange() && k <= |g.nodes| && g.Has(r)
  {
    g.ReadFrom(k, r) || g.tensors[r].output || !g.ReadFrom(0, r)
  }

  /** The promise in terms of the graph alone: when node `k` runs, its region overlaps no
      planned tensor in being that is still needed, except an operand it takes over as that
      operand's last reader. What is placed before the first node has memory of its own. */
  ghost predicate NoClobber(g: Graph, be: Backend, values: seq<HashNode>)
    requires g.Ok() && be.Ok(g) && NodesOk(g, be, values)
  {
    (forall k, r :: 0 <= k < |g.nodes| && 0 <= r < |g.tensors|
      && g.Plain(g.nodes[k]) && g.Plain(r) && r != g.nodes[k] && g.BornBefore(r, k)
      && Needed(g, k, r)
      ==> ClearOf(g, be, values, k, r)) && StartsApart(g, be, values)
  }

  /** Leafs and inputs overlap no other leaf or input. */
  ghost predicate StartsApart(g: Graph, be: Backend, values: seq<HashNode>)
    requires g.InRange() && be.Ok(g) && NodesOk(g, be, values)
  {
    forall r, u :: 0 <= r < |g.tensors| && 0 <= u < |g.tensors| && r != u
      && g.Plain(r) && g.Plain(u) && g.StartBorn(r) && g.StartBorn(u)
      ==> Apart(PlaceOf(g, be, values, r), PlaceOf(g, be, values, u))
  }

  lemma StartsAreApart(g: Graph, be: Backend, values: seq<HashNode>, lives: seq<Live>)
    requires g.Ok() && be.Ok(g) && Owned(g, be, values, lives) && At(g, 0, 0) && OwnExact(g, values, 0, 0, 0, None)
    ensures StartsApart(g, be, values)
  {
    hide Released, Apart, Backed, NoLeak;
    forall r | 0 <= r < |g.tensors| && g.Plain(r) && g.StartBorn(r) ensures values[r].owned {
      StartNotReleased(g, r);
      assert g.BornBefore(r, 0);
    }
  }

  lemma StartsKept(g: Graph, be: Backend, v: seq<HashNode>, w: seq<HashNode>, i: nat)
    requires g.InRange() && be.Ok(g) && NodesOk(g, be, v) && NodesOk(g, be, w) && i <= |g.nodes|
    requires StartsApart(g, be, v)
    requires forall t :: 0 <= t < |g.tensors| && g.BornBefore(t, i) ==>
      v[t].buffer == w[t].buffer && v[t].addr == w[t].addr
    ensures StartsApart(g, be, w)
  {
    hide Apart, Graph.StartBorn;
    forall r, u | 0 <= r < |g.tensors| && 0 <= u < |g.tensors| && r != u
      && g.Plain(r) && g.Plain(u) && g.StartBorn(r) && g.StartBorn(u)
      ensures Apart(PlaceOf(g, be, w, r), PlaceOf(g, be, w, u))
    {
      assert g.BornBefore(r, i) && g.BornBefore(u, i);
      assert PlaceOf(g, be, w, r) == PlaceOf(g, be, v, r) && PlaceOf(g, be, w, u) == PlaceOf(g, be, v, u);
    }
  }

  lemma NeededIsNotReleased(g: Graph, k: nat, r: nat)
    requires g.Ok() && k < |g.nodes| && g.Plain(r) && Needed(g, k, r)
    ensures At(g, k, 0) && !Released(g, r, k, 0)
  {
    if g.ReadFrom(k, r) {
      ReadIsNotReleased(g, r, k);
    } else if !g.tensors[r].output {
      UnreadIsNotReleased(g, r, k);
    }
  }

  lemma SafeIsNoClobber(g: Graph, be: Backend, values: seq<HashNode>)
    requires g.Ok() && be.Ok(g) && NodesOk(g, be, values)
    requires SafeUpTo(g, be, values, |g.nodes|) && StartsApart(g, be, values)
    ensures NoClobber(g, be, values)
  {
    hide StartsApart;
    forall k, r | 0 <= k < |g.nodes| && 0 <= r < |g.tensors|
      && g.Plain(g.nodes[k]) && g.Plain(r) && r != g.nodes[k] && g.BornBefore(r, k)
      && Needed(g, k, r)
      ensures ClearOf(g, be, values, k, r)
    {
      NeededIsNotReleased(g, k, r);
      assert SafePair(g, k, r);
    }
  }

  /** Places fixed before node `n` keep what was proved about the nodes before it. */
  lemma SafeKept(g: Graph, be: Backend, v: seq<HashNode>, w: seq<HashNode>, n: nat)
    requires g.Ok() && be.Ok(g) && NodesOk(g, be, v) && NodesOk(g, be, w) && n <= |g.nodes|
    requires SafeUpTo(g, be, v, n)
    requires forall t :: 0 <= t < |g.tensors| && g.BornBefore(t, n) ==>
      v[t].buffer == w[t].buffer && v[t].addr == w[t].addr
    ensures SafeUpTo(g, be, w, n)
  {
    forall k, r | 0 <= k < n && 0 <= r < |g.tensors| && SafePair(g, k, r) ensures ClearOf(g, be, w, k, r) {
      assert ClearOf(g, be, v, k, r);
      assert g.nodes[..n][k] == g.nodes[k];
      BornLater(g, r, k, n);
      assert PlaceOf(g, be, v, g.nodes[k]) == PlaceOf(g, be, w, g.nodes[k]);
    }
  }

  /** Right after node `i` has its place, everything it must not overwrite owns a region of
      its own, or has just been passed on to it. */
  lemma SafeStep(g: Graph, be: Backend, values: seq<HashNode>, lives: seq<Live>, i: nat, reused: Option<nat>)
    requires g.Ok() && be.Ok(g) && Owned(g, be, values, lives) && i < |g.nodes| && At(g, i, 0)
    requires SafeUpTo(g, be, values, i) && OwnExact(g, values, i, 0, i + 1, reused)
    requires reused.Some? ==> ReusedInPlace(g, i, reused.value)
    ensures SafeUpTo(g, be, values, i + 1)
  {
    forall r | 0 <= r < |g.tensors| && SafePair(g, i, r) ensures ClearOf(g, be, values, i, r) {
      if reused != Some(r) {
        BornGrows(g, i);
        BirthNotReleased(g, i, i, 0);
        assert Apart(PlaceOf(g, be, values, g.nodes[i]), PlaceOf(g, be, values, r));
      }
    }
  }

  // ------------------------------------------------------- the counting pass

  /** Counters after the pass has seen the views of the first `n` nodes and the uses before `(i, j)`. */
  ghost predicate CountedTo(g: Graph, values: seq<HashNode>, i: nat, j: nat, n: nat)
    requires g.InRange() && At(g, i, j) && n <= |g.nodes|
  {
    && |values| == |g.tensors|
    && (forall t :: 0 <= t < |values| ==> values[t].children == Uses(g, t, 0) - Rem(g, t, i, j))
    && (forall r :: 0 <= r < |values| && g.Plain(r) ==> values[r].views == AllViews(g, r, n))
    && (forall t :: 0 <= t < |values| && g.IsView(t) ==> values[t].views == 0)
  }

  /** Leafs, and the inputs seen so far, own a region. */
  ghost predicate InputsPlaced(g: Graph, values: seq<HashNode>, i: nat, seen: set<nat>)
    requires g.InRange() && i <= |g.nodes|
  {
    && |values| == |g.tensors|
    && forall r :: 0 <= r < |values| && g.Plain(r) ==>
         (values[r].owned <==> r in g.leafs || (g.tensors[r].input && (SeenBefore(g, r, i) || r in seen)))
  }

  /** The tensor has a place if it is to have one; nothing else changed. */
  ghost predicate OnlyPlaced(g: Graph, v: seq<HashNode>, w: seq<HashNode>, t: nat) {
    && |v| == |w| && t < |w|
    && (forall u :: 0 <= u < |v| ==> v[u].children == w[u].children && v[u].views == w[u].views)
    && (forall u :: 0 <= u < |v| && u != t ==> v[u] == w[u])
    && (g.Plain(t) ==> w[t].owned)
    && (!g.Plain(t) ==> w[t].owned == v[t].owned)
  }

  lemma CountedViewStep(g: Graph, values: seq<HashNode>, i: nat)
    requires g.Ok() && i < |g.nodes| && At(g, i, 0) && CountedTo(g, values, i, 0, i)
    ensures var v := g.nodes[i];
            var next := if g.IsView(v) && g.tensors[v].op != NoOp then AddViews(values, g.Root(v), 1) else values;
            CountedTo(g, next, i, 0, i + 1)
  {
    hide Rem;
    var v := g.nodes[i];
    var next := if g.IsView(v) && g.tensors[v].op != NoOp then AddViews(values, g.Root(v), 1) else values;
    forall r | 0 <= r < |values| && g.Plain(r) ensures next[r].views == AllViews(g, r, i + 1) {
      assert g.CountedView(v, r) <==> g.IsView(v) && g.tensors[v].op != NoOp && g.Root(v) == r;
    }
  }

  lemma CountedUseStep(g: Graph, values: seq<HashNode>, i: nat, j: nat)
    requires g.Ok() && i < |g.nodes| && j < |g.Srcs(i)| && CountedTo(g, values, i, j, i + 1)
    ensures var s := g.Srcs(i)[j];
            CountedTo(g, if s.Some? then AddChildren(values, s.value, 1) else values, i, j + 1, i + 1)
  {
    hide Rem;
    forall t | 0 <= t < |values|
      ensures Rem(g, t, i, j) == Rem(g, t, i, j + 1) + (if g.Srcs(i)[j] == Some(t) then 1 else 0)
    {
      RemStep(g, t, i, j);
    }
  }

  lemma CountedNodeDone(g: Graph, values: seq<HashNode>, i: nat, seen: set<nat>)
    requires g.Ok() && i < |g.nodes| && CountedTo(g, values, i, |g.Srcs(i)|, i + 1)
    requires InputsPlaced(g, values, i, seen)
    requires forall r :: r in seen <==> r == g.nodes[i] || g.IsSource(i, r)
    ensures At(g, i + 1, 0) && CountedTo(g, values, i + 1, 0, i + 1) && InputsPlaced(g, values, i + 1, {})
  {
    hide Rem, AllViews, Uses;
    forall t | 0 <= t < |values| ensures Rem(g, t, i, |g.Srcs(i)|) == Rem(g, t, i + 1, 0) {
      RemEnd(g, t, i);
    }
    forall r | 0 <= r < |values|
      ensures SeenBefore(g, r, i + 1) <==> SeenBefore(g, r, i) || r in seen
    {
      assert g.nodes[..i + 1] == g.nodes[..i] + [g.nodes[i]];
      if exists k :: 0 <= k < i + 1 && g.IsSource(k, r) {
        var k :| 0 <= k < i + 1 && g.IsSource(k, r);
        assert k == i || (k < i && g.IsSource(k, r));
      }
    }
  }

  /** The counting pass establishes what the main pass starts from. */
  lemma CountingDone(g: Graph, values: seq<HashNode>)
    requires g.Ok() && At(g, |g.nodes|, 0) && CountedTo(g, values, |g.nodes|, 0, |g.nodes|)
    requires InputsPlaced(g, values, |g.nodes|, {})
    ensures At(g, 0, 0) && CountOk(g, values, 0, 0) && OwnExact(g, values, 0, 0, 0, None)
  {
    forall t | 0 <= t < |values|
      ensures values[t].children == Rem(g, t, 0, 0)
      ensures ViewCount(g, t, 0, 0, |g.nodes|) == AllViews(g, t, |g.nodes|)
      ensures !Released(g, t, 0, 0)
      ensures g.BornBefore(t, 0) <==> t in g.leafs || (g.tensors[t].input && SeenBefore(g, t, |g.nodes|))
    {
      RemStart(g, t, 0);
      StartNotReleased(g, t);
      AllViewsAlive(g, t);
      assert g.nodes[..|g.nodes|] == g.nodes;
    }
  }

  lemma AllViewsAlive(g: Graph, r: nat)
    requires g.Ok()
    ensures At(g, 0, 0) && ViewCount(g, r, 0, 0, |g.nodes|) == AllViews(g, r, |g.nodes|)
  {
    forall k | 0 <= k < |g.nodes| ensures Undead(g, g.nodes[k], 0, 0) {
      RemStart(g, g.nodes[k], 0);
    }
    ViewCountFull(g, r, 0, 0, |g.nodes|);
  }

  // ---------------------------------------------------------- the main pass

  /** What `AllocateNode` did to the records when it placed node `i`. */
  ghost predicate PlacedNode(g: Graph, v: seq<HashNode>, w: seq<HashNode>, i: nat, reused: Option<nat>)
    requires g.InRange() && i < |g.nodes| && |v| == |g.tensors|
  {
    var node := g.nodes[i];
    if v[node].owned || !g.Plain(node) then reused.None? && w == v
    else
      && reused == ReuseChoice(g, v, node)
      && match reused
         case Some(u) => u < |v| && v[u].owned && w == Vacate(Occupy(v, node, v[u].buffer, v[u].addr), u)
         case None => |w| == |v| && w == Occupy(v, node, w[node].buffer, w[node].addr)
  }

  lemma AfterPlacing(g: Graph, v: seq<HashNode>, w: seq<HashNode>, i: nat, reused: Option<nat>)
    requires g.Ok() && i < |g.nodes| && At(g, i, 0)
    requires CountOk(g, v, i, 0) && OwnExact(g, v, i, 0, i, None)
    requires forall t :: 0 <= t < |v| && v[t].owned ==> g.Plain(t)
    requires PlacedNode(g, v, w, i, reused)
    ensures CountOk(g, w, i, 0) && OwnExact(g, w, i, 0, i + 1, reused)
    ensures reused.Some? ==> ReusedInPlace(g, i, reused.value)
    ensures forall t :: 0 <= t < |v| && g.BornBefore(t, i) ==> v[t].buffer == w[t].buffer && v[t].addr == w[t].addr
  {
    hide Rem, ViewCount, Released;
    var node := g.nodes[i];
    BirthNotReleased(g, i, i, 0);
    if reused.Some? {
      var u := reused.value;
      FirstReusableIsReusable(g, v, node, 0);
      assert g.IsSource(i, u);
      OwnAfterReuse(g, v, i, u, w);
      LastUse(g, u, i);
    } else {
      OwnAfterBirth(g, v, i, w);
    }
  }

  lemma SourceReady(g: Graph, v: seq<HashNode>, i: nat, j: nat, p: nat)
    requires g.Ok() && i < |g.nodes| && At(g, i, 0) && OwnExact(g, v, i, 0, i, None)
    requires j < |g.Srcs(i)| && g.Srcs(i)[j] == Some(p)
    ensures g.Has(p) && (g.Plain(p) ==> v[p].owned)
  {
    if g.Plain(p) {
      SourceInBeing(g, i, j, p);
      RemBounds(g, p, i, j);
    }
  }

  /** What the counters say about an operand is what the graph says about it. */
  lemma ReusableIsTakeable(g: Graph, v: seq<HashNode>, i: nat, u: nat)
    requires g.Ok() && i < |g.nodes| && At(g, i, 0) && g.IsSource(i, u)
    requires CountOk(g, v, i, 0) && OwnExact(g, v, i, 0, i, None)
    requires forall t :: 0 <= t < |v| && v[t].owned ==> g.Plain(t)
    requires g.tensors[g.nodes[i]].op == Inplace
    ensures g.Has(u) && (Reusable(g, v, g.nodes[i], u) <==> CanTake(g, i, u))
  {
    hide Rem, ViewCount, Released, OnlyUse, ViewIsOver;
    if g.Plain(u) {
      var j :| 0 <= j < |g.Srcs(i)| && g.Srcs(i)[j] == Some(u);
      SourceReady(g, v, i, j, u);
      OneLeft(g, i, u);
      NoneAlive(g, i, u, |g.nodes|);
    }
  }

  /** The operand whose region is taken over is the one the graph determines. */
  lemma ChoiceTakesOver(g: Graph, v: seq<HashNode>, i: nat)
    requires g.Ok() && i < |g.nodes| && At(g, i, 0)
    requires |v| == |g.tensors| && CountOk(g, v, i, 0) && OwnExact(g, v, i, 0, i, None)
    requires forall t :: 0 <= t < |v| && v[t].owned ==> g.Plain(t)
    ensures forall u :: 0 <= u < |v| ==> (TakesOver(g, i, u) <==> ReuseChoice(g, v, g.nodes[i]) == Some(u))
  {
    hide CountOk, OwnExact, Reusable, FirstReusable;
    var node := g.nodes[i];
    if g.tensors[node].op == Inplace {
      forall k | 0 <= k < |g.Srcs(i)| && g.Srcs(i)[k].Some?
        ensures Reusable(g, v, node, g.Srcs(i)[k].value) <==> CanTake(g, i, g.Srcs(i)[k].value)
      {
        assert g.IsSource(i, g.Srcs(i)[k].value);
        ReusableIsTakeable(g, v, i, g.Srcs(i)[k].value);
      }
      hide CanTake;
      FirstReusableIsReusable(g, v, node, 0);
      var found := FirstReusable(g, v, node, 0);
      if found.Some? {
        var k :| 0 <= k < |g.Srcs(i)| && FirstFrom(g, v, node, found.value, 0, k);
        assert FirstTake(g, i, k, found.value);
        OneFirstTake(g, i, k, found.value);
      }
    }
  }

  lemma OneFirstTake(g: Graph, i: nat, k: nat, u: nat)
    requires g.InRange() && i < |g.nodes| && k < |g.Srcs(i)| && FirstTake(g, i, k, u)
    ensures forall w: nat :: TakesOver(g, i, w) ==> w == u
  {
    hide CanTake;
    forall w: nat | TakesOver(g, i, w) ensures w == u {
      var j :| 0 <= j < |g.Srcs(i)| && FirstTake(g, i, j, w);
      assert j == k;
    }
  }

  lemma PlacedRight(g: Graph, v: seq<HashNode>, w: seq<HashNode>, i: nat, reused: Option<nat>, buffer: nat)
    requires g.Ok() && i < |g.nodes| && At(g, i, 0)
    requires CountOk(g, v, i, 0) && OwnExact(g, v, i, 0, i, None)
    requires forall t :: 0 <= t < |v| && v[t].owned ==> g.Plain(t)
    requires PlacedNode(g, v, w, i, reused) && |w| == |v|
    requires !v[g.nodes[i]].owned && g.Plain(g.nodes[i]) && reused.None? ==> w[g.nodes[i]].buffer == buffer
    ensures g.Plain(g.nodes[i]) && !g.StartBorn(g.nodes[i]) ==> NodePlaced(g, w, i, buffer)
  {
    hide CountOk, ReuseChoice, TakesOver, Graph.StartBorn;
    var node := g.nodes[i];
    if g.Plain(node) && !g.StartBorn(node) {
      assert !g.BornBefore(node, i);
      assert !v[node].owned;
      ChoiceTakesOver(g, v, i);
    }
  }

  /** Every planned tensor in being lies below the high-water mark of its chunk. */
  ghost predicate BornFit(g: Graph, be: Backend, values: seq<HashNode>, arenas: seq<Arena>, i: nat)
    requires g.InRange() && be.Ok(g) && NodesOk(g, be, values) && i <= |g.nodes|
  {
    forall t :: 0 <= t < |values| && g.Plain(t) && g.BornBefore(t, i) ==> FitsIn(arenas, PlaceOf(g, be, values, t))
  }

  /** From before node `i` (`v`, `a`), over its placement (`w`, `b`), to its end (`x`, `c`). */
  lemma FitStep(g: Graph, be: Backend, v: seq<HashNode>, w: seq<HashNode>, x: seq<HashNode>,
                a: seq<Arena>, b: seq<Arena>, c: seq<Arena>, i: nat)
    requires g.InRange() && be.Ok(g) && i < |g.nodes|
    requires NodesOk(g, be, v) && NodesOk(g, be, w) && NodesOk(g, be, x)
    requires Grown(a, b) && Grown(b, c) && SamePlan(w, x)
    requires forall t :: 0 <= t < |g.tensors| && g.BornBefore(t, i) ==>
      w[t].buffer == v[t].buffer && w[t].addr == v[t].addr
    requires g.Plain(g.nodes[i]) ==> FitsIn(b, PlaceOf(g, be, w, g.nodes[i]))
    ensures BornFit(g, be, v, a, i) ==> BornFit(g, be, x, c, i + 1)
  {
    BornGrows(g, i);
    if BornFit(g, be, v, a, i) {
      forall t | 0 <= t < |x| && g.Plain(t) && g.BornBefore(t, i + 1) ensures FitsIn(c, PlaceOf(g, be, x, t)) {
        assert PlaceOf(g, be, x, t) == PlaceOf(g, be, w, t);
        if g.BornBefore(t, i) {
          GrownFits(a, b, PlaceOf(g, be, v, t));
        }
        GrownFits(b, c, PlaceOf(g, be, w, t));
      }
    }
  }

  // -------------------------------------------------------------------- planner

  function EmptyArena(alignment: nat, maxSize: nat): Arena {
    Arena(alignment, if maxSize <= HALF then maxSize else HALF, [])
  }

  /** Views never own a region; so no operand whose region can be taken over is a view. */
  lemma ViewsNeverOwn(g: Graph, be: Backend, values: seq<HashNode>, lives: seq<Live>, node: nat, parent: nat)
    requires g.InRange() && be.Ok(g) && Owned(g, be, values, lives) && g.Has(node) && g.Has(parent)
    ensures g.IsView(parent) ==> !values[parent].owned && !Reusable(g, values, node, parent)
  {
    hide OwnersApart, NoLeak, Backs;
  }

  /** What can stop the planner, where the source aborts or asserts. */
  datatype Stop =
    | Exhausted(arena: nat, tensor: nat)
    | ListFull(arena: nat, addr: Addr, size: nat)
    | TooSmall(arena: nat, node: nat, parent: nat)

  /** The allocator has no room for a planned tensor, a region does not fit into a full free
      list any more, or an operand of the same layout needs less memory than the node. */
  predicate Stops(g: Graph, be: Backend, arenas: seq<Arena>, why: Stop) {
    && why.arena < |arenas| && why.arena < |be.sizes| && arenas[why.arena].alignment > 0
    && match why
       case Exhausted(a, t) => g.Plain(t) && t < |be.sizes[a]| && Alloc(arenas[a], be.sizes[a][t]).None?
       case ListFull(a, p, size) => p.chunk < |arenas[a].chunks| && Free(arenas[a], p, size).None?
       case TooSmall(a, node, parent) =>
         && g.Plain(node) && g.Has(parent) && Some(parent) in g.tensors[node].srcs
         && g.tensors[node].layout == g.tensors[parent].layout
         && node < |be.sizes[a]| && parent < |be.sizes[a]| && be.sizes[a][parent] < be.sizes[a][node]
  }

  ghost predicate Blocked(g: Graph, be: Backend, arenas: seq<Arena>) {
    exists why :: Stops(g, be, arenas, why)
  }

  class Gallocr {
    var values: seq<HashNode>
    var arenas: seq<Arena>
    ghost var lives: seq<Live>

    ghost predicate Inv(g: Graph, be: Backend)
      reads this
      requires be.Ok(g)
    {
      ArenasOk(be, arenas, lives) && Owned(g, be, values, lives)
    }

    /** One allocator per buffer type, with that type's largest buffer size. */
    constructor (be: Backend, maxSizes: seq<nat>)
      requires |maxSizes| == |be.alignments| && forall a :: 0 <= a < |be.alignments| ==> be.alignments[a] > 0
      ensures |arenas| == |be.alignments| && |lives| == |arenas|
      ensures forall a :: 0 <= a < |arenas| ==>
        arenas[a] == EmptyArena(be.alignments[a], maxSizes[a]) && lives[a] == map[]
    {
      values := [];
      arenas := seq(|be.alignments|, a requires 0 <= a < |be.alignments| == |maxSizes| =>
        EmptyArena(be.alignments[a], maxSizes[a]));
      lives := seq(|be.alignments|, a => map[]);
    }

    /** Empties all allocators. */
    method ResetArenas(be: Backend)
      requires |arenas| == |be.alignments|
      requires forall a :: 0 <= a < |arenas| ==> Fitting(be, a, arenas[a])
      modifies this
      ensures ArenasOk(be, arenas, lives) && values == old(values)
      ensures forall a :: 0 <= a < |arenas| ==> arenas[a] == Reset(old(arenas)[a]) && lives[a] == map[]
    {
      arenas := seq(|arenas|, a requires 0 <= a < |arenas| reads this => Reset(arenas[a]));
      lives := seq(|arenas|, a => map[]);
    }

    /** Gives the surplus of a reused region back to its allocator. */
    method FreeExtraSpace(g: Graph, be: Backend, node: nat, parent: nat) returns (ok: bool)
      requires be.Ok(g) && NodesOk(g, be, values) && ArenasOk(be, arenas, lives)
      requires g.Has(node) && g.Has(parent) && values[node].buffer == values[parent].buffer
      requires Backs(lives, PlaceOf(g, be, values, parent))
      requires g.Plain(node) && Some(parent) in g.tensors[node].srcs
      requires g.tensors[node].layout == g.tensors[parent].layout
      modifies this`arenas, this`lives
      ensures var p := PlaceOf(g, be, values, parent);
              ok ==> be.sizes[p.arena][node] <= p.size && ArenasOk(be, arenas, lives)
                     && lives == Grant(be, old(lives), p.arena, p.addr, node)
      ensures ok ==> Grown(old(arenas), arenas)
      ensures !ok ==> Blocked(g, be, arenas)
    {
      hide Free, Valid;
      ghost var p := PlaceOf(g, be, values, parent);
      PlacedInChunk(be, arenas, lives, p);
      var a := be.arenaOf[values[parent].buffer];
      var parentSize := be.sizes[a][parent];
      var nodeSize := be.sizes[be.arenaOf[values[node].buffer]][node];
      if parentSize < nodeSize {
        assert Stops(g, be, arenas, TooSmall(a, node, parent));
        return false;
      }
      var b := Shrink(arenas[a], values[parent].addr, parentSize, nodeSize);
      if b.None? {
        assert Stops(g, be, arenas, ListFull(a, Addr(p.addr.chunk, p.addr.offset + nodeSize), parentSize - nodeSize));
        return false;
      }
      ShrinkKeeps(g, be, arenas, lives, p, node, b.value);
      ShrinkGrows(arenas[a], p.addr, parentSize, nodeSize);
      UpdateGrown(arenas, a, b.value);
      arenas := arenas[a := b.value];
      lives := Grant(be, lives, a, p.addr, node);
      return true;
    }

    /** Takes over the region of the first reusable operand, if there is one. */
    method TryReuse(g: Graph, be: Backend, node: nat) returns (ok: bool, reused: Option<nat>)
      requires g.InRange() && be.Ok(g) && Inv(g, be) && g.Plain(node) && !values[node].owned
      modifies this
      ensures ok ==> Inv(g, be) && reused == FirstReusable(g, old(values), node, 0)
      ensures ok && reused.Some? ==>
        var u := reused.value;
        && u < |old(values)| && old(values)[u].owned
        && values == Vacate(Occupy(old(values), node, old(values)[u].buffer, old(values)[u].addr), u)
      ensures ok && reused.None? ==> values == old(values) && arenas == old(arenas) && lives == old(lives)
      ensures ok ==> Grown(old(arenas), arenas)
      ensures !ok ==> Blocked(g, be, arenas)
    {
      hide Valid, Backs, OwnersApart, NoLeak, Blocked;
      var srcs := g.tensors[node].srcs;
      for j := 0 to |srcs|
        invariant values == old(values) && arenas == old(arenas) && lives == old(lives)
        invariant FirstReusable(g, values, node, 0) == FirstReusable(g, values, node, j)
      {
        if srcs[j].None? {
          continue;
        }
        var parent := srcs[j].value;
        if !values[parent].owned {
          continue;
        }
        if OutputMemory(g, parent) {
          continue;
        }
        if g.tensors[node].layout != g.tensors[parent].layout {
          continue;
        }
        if values[parent].children == 1 && values[parent].views == 0 {
          if g.IsView(parent) {
            // only tensors with a region of their own are owners
            assert false;
          } else {
            ok := TakeOver(g, be, node, parent);
            return ok, Some(parent);
          }
        }
      }
      return true, None;
    }

    method TakeOver(g: Graph, be: Backend, node: nat, parent: nat) returns (ok: bool)
      requires be.Ok(g) && Inv(g, be) && g.Plain(node) && !values[node].owned
      requires parent < |values| && values[parent].owned && Some(parent) in g.tensors[node].srcs
      requires g.tensors[node].layout == g.tensors[parent].layout
      modifies this
      ensures ok ==> Inv(g, be)
      ensures ok ==>
        values == Vacate(Occupy(old(values), node, old(values)[parent].buffer, old(values)[parent].addr), parent)
      ensures ok ==> Grown(old(arenas), arenas)
      ensures !ok ==> Blocked(g, be, arenas)
    {
      hide Valid, OwnersApart, NoLeak, Apart, Blocked;
      ghost var before := values;
      values := Vacate(Occupy(values, node, values[parent].buffer, values[parent].addr), parent);
      assert PlaceOf(g, be, values, parent) == PlaceOf(g, be, before, parent);
      ghost var arenas0, lives0 := arenas, lives;
      ok := FreeExtraSpace(g, be, node, parent);
      if ok {
        PassOwned(g, be, before, arenas0, lives0, node, parent);
      }
    }

    /** Gives a tensor a place unless it has one, has data, or is a view. */
    method AllocateNode(g: Graph, be: Backend, node: nat, buffer: nat) returns (ok: bool, ghost reused: Option<nat>)
      requires g.InRange() && be.Ok(g) && Inv(g, be) && g.Has(node) && buffer < |be.arenaOf|
      modifies this
      ensures ok ==> Inv(g, be)
      ensures ok && (old(values)[node].owned || !g.Plain(node)) ==>
        reused.None? && values == old(values) && arenas == old(arenas) && lives == old(lives)
      ensures ok && !old(values)[node].owned && g.Plain(node) ==>
        && reused == ReuseChoice(g, old(values), node)
        && (reused.Some? ==>
             var u := reused.value;
             && u < |old(values)| && old(values)[u].owned
             && values == Vacate(Occupy(old(values), node, old(values)[u].buffer, old(values)[u].addr), u))
        && (reused.None? ==>
             && values == Occupy(old(values), node, buffer, values[node].addr)
             && Alloc(old(arenas)[be.arenaOf[buffer]], be.sizes[be.arenaOf[buffer]][node])
                == Some((arenas[be.arenaOf[buffer]], values[node].addr)))
      ensures ok ==> Grown(old(arenas), arenas)
      ensures !ok ==> Blocked(g, be, arenas)
    {
      hide Alloc, Valid, OwnersApart, NoLeak, Apart;
      reused := None;
      if values[node].owned || g.tensors[node].hasData || g.IsView(node) {
        return true, None;
      }
      if g.tensors[node].op == Inplace {
        var taken;
        ok, taken := TryReuse(g, be, node);
        reused := taken;
        if !ok || taken.Some? {
          return;
        }
      }
      var a := be.arenaOf[buffer];
      var r := Alloc(arenas[a], be.sizes[a][node]);
      if r.None? {
        assert Stops(g, be, arenas, Exhausted(a, node));
        return false, None;
      }
      FreshOwned(g, be, values, arenas, lives, node, buffer, r.value.0, r.value.1);
      AllocGrows(arenas[a], be.sizes[a][node]);
      UpdateGrown(arenas, a, r.value.0);
      values := Occupy(values, node, buffer, r.value.1);
      arenas := arenas[a := r.value.0];
      lives := Grant(be, lives, a, r.value.1, node);
      return true, None;
    }

    /** Returns a tensor's region, unless it is a graph output. */
    method FreeNode(g: Graph, be: Backend, node: nat) returns (ok: bool)
      requires be.Ok(g) && Inv(g, be) && node < |values| && values[node].owned
      modifies this
      ensures ok ==> Inv(g, be)
      ensures ok ==> values == if g.tensors[node].output then old(values) else Vacate(old(values), node)
      ensures ok ==> Grown(old(arenas), arenas)
      ensures !ok ==> Blocked(g, be, arenas)
    {
      hide Free, Valid, OwnersApart, NoLeak, Apart;
      if g.tensors[node].output {
        return true;
      }
      ghost var p := PlaceOf(g, be, values, node);
      PlacedInChunk(be, arenas, lives, p);
      var a := be.arenaOf[values[node].buffer];
      var b := Free(arenas[a], values[node].addr, be.sizes[a][node]);
      if b.None? {
        assert Stops(g, be, arenas, ListFull(a, p.addr, be.sizes[a][node]));
        return false;
      }
      DropArenas(g, be, arenas, lives, p, node, b.value);
      DropOwned(g, be, values, arenas, lives, node);
      FreeGrows(arenas[a], p.addr, be.sizes[a][node]);
      UpdateGrown(arenas, a, b.value);
      arenas := arenas[a := b.value];
      lives := lives[a := lives[a] - {p.addr}];
      values := Vacate(values, node);
      return true;
    }

    /** One use of `parent` is behind: adjust the counters, and return its region, or the
        region it is a view of, when nothing needs that any more. */
    method UpdateParent(g: Graph, be: Backend, parent: nat) returns (ok: bool)
      requires g.InRange() && be.Ok(g) && Inv(g, be) && g.Has(parent)
      modifies this
      ensures ok ==> Inv(g, be) && values == AfterUse(g, old(values), parent)
      ensures ok ==> Grown(old(arenas), arenas)
      ensures !ok ==> Blocked(g, be, arenas)
    {
      hide Owned, ArenasOk, Blocked;
      CountersOnly(g, be, values, parent);
      var node := values[parent];
      values := AddChildren(values, parent, -1);
      if values[parent].children == 0 && values[parent].views == 0 {
        if g.IsView(parent) {
          var base := g.Root(parent);
          CountersOnly(g, be, values, base);
          values := AddViews(values, base, -1);
          if values[base].views == 0 && values[base].children == 0 && values[base].owned {
            ok := FreeNode(g, be, base);
            return;
          }
        } else if values[parent].owned {
          ok := FreeNode(g, be, parent);
          return;
        }
      }
      return true;
    }

    /** Owners are not affected by a change of a counter. */
    lemma CountersOnly(g: Graph, be: Backend, v: seq<HashNode>, t: nat)
      requires be.Ok(g) && Owned(g, be, v, lives) && t < |g.tensors|
      ensures |v| == |g.tensors|
      ensures forall d :: Owned(g, be, AddChildren(v, t, d), lives) && Owned(g, be, AddViews(v, t, d), lives)
    {
      forall d ensures Owned(g, be, AddChildren(v, t, d), lives) && Owned(g, be, AddViews(v, t, d), lives) {
        CountersDoNotOwn(g, be, v, AddChildren(v, t, d), lives);
        CountersDoNotOwn(g, be, v, AddViews(v, t, d), lives);
      }
    }

    /** Places a tensor that computes nothing: no reuse is attempted. */
    method PlaceInput(g: Graph, be: Backend, t: nat, buffer: nat) returns (ok: bool)
      requires g.InRange() && be.Ok(g) && Inv(g, be) && g.Has(t) && buffer < |be.arenaOf|
      requires g.tensors[t].op == NoOp
      modifies this
      ensures ok ==> Inv(g, be) && OnlyPlaced(g, old(values), values, t) && GivenIn(old(values), values, buffer)
      ensures ok ==> Grown(old(arenas), arenas)
      ensures !ok ==> Blocked(g, be, arenas)
    {
      hide Alloc, Valid, OwnersApart, NoLeak, Apart, Backs, Blocked;
      ghost var reused;
      ok, reused := AllocateNode(g, be, t, buffer);
    }

    /** Counts the views and uses of node `i`, and places the inputs it mentions. */
    method CountNode(g: Graph, be: Backend, i: nat, buffer: nat) returns (ok: bool)
      requires g.Ok() && be.Ok(g) && Inv(g, be) && i < |g.nodes| && At(g, i, 0) && buffer < |be.arenaOf|
      requires CountedTo(g, values, i, 0, i) && InputsPlaced(g, values, i, {})
      modifies this
      ensures ok ==> Inv(g, be) && At(g, i + 1, 0)
      ensures ok ==> CountedTo(g, values, i + 1, 0, i + 1) && InputsPlaced(g, values, i + 1, {})
      ensures ok ==> GivenIn(old(values), values, buffer)
      ensures !ok ==> Blocked(g, be, arenas)
    {
      hide Owned, ArenasOk, Rem, AllViews, Uses, SeenBefore, Blocked, GivenIn;
      ghost var before := values;
      var node := g.nodes[i];
      CountedViewStep(g, values, i);
      if g.IsView(node) && g.tensors[node].op != NoOp {
        CountersOnly(g, be, values, g.Root(node));
        values := AddViews(values, g.Root(node), 1);
      }
      SameIsGiven(before, values, buffer);
      ghost var seen := {node};
      if g.tensors[node].input {
        ghost var v := values;
        ok := PlaceInput(g, be, node, buffer);
        if !ok {
          return;
        }
        GivenTwice(before, v, values, buffer);
      }
      var srcs := g.Srcs(i);
      for j := 0 to |srcs|
        invariant Inv(g, be) && CountedTo(g, values, i, j, i + 1) && InputsPlaced(g, values, i, seen)
        invariant forall r :: r in seen <==> r == node || Some(r) in srcs[..j]
        invariant GivenIn(before, values, buffer)
      {
        CountedUseStep(g, values, i, j);
        assert srcs[..j + 1] == srcs[..j] + [srcs[j]];
        if srcs[j].None? {
          continue;
        }
        ghost var v := values;
        ok := CountUse(g, be, i, j, srcs[j].value, buffer, seen);
        if !ok {
          return;
        }
        GivenTwice(before, v, values, buffer);
        seen := seen + {srcs[j].value};
      }
      assert srcs[..|srcs|] == srcs;
      CountedNodeDone(g, values, i, seen);
      return true;
    }

    method CountUse(g: Graph, be: Backend, i: nat, j: nat, src: nat, buffer: nat, ghost seen: set<nat>)
      returns (ok: bool)
      requires g.Ok() && be.Ok(g) && Inv(g, be) && i < |g.nodes| && j < |g.Srcs(i)| && buffer < |be.arenaOf|
      requires g.Srcs(i)[j] == Some(src) && InputsPlaced(g, values, i, seen)
      requires CountedTo(g, AddChildren(values, src, 1), i, j + 1, i + 1)
      modifies this
      ensures ok ==> Inv(g, be) && CountedTo(g, values, i, j + 1, i + 1) && InputsPlaced(g, values, i, seen + {src})
      ensures ok ==> GivenIn(old(values), values, buffer)
      ensures !ok ==> Blocked(g, be, arenas)
    {
      hide Owned, ArenasOk, Rem, AllViews, Uses, SeenBefore, Blocked;
      CountersOnly(g, be, values, src);
      ghost var before := values;
      values := AddChildren(values, src, 1);
      SameIsGiven(before, values, buffer);
      if g.tensors[src].input {
        ghost var v := values;
        ok := PlaceInput(g, be, src, buffer);
        if ok {
          GivenTwice(before, v, values, buffer);
        }
      } else {
        ok := true;
      }
    }

    lemma SameIsGiven(v: seq<HashNode>, w: seq<HashNode>, buffer: nat)
      requires SamePlaces(v, w)
      ensures GivenIn(v, w, buffer)
    {
    }

    /** Plans node `i`: gives it a place, then releases what it was the last to use. */
    method PlanNode(g: Graph, be: Backend, i: nat, buffer: nat) returns (ok: bool)
      requires g.Ok() && be.Ok(g) && Inv(g, be) && i < |g.nodes| && At(g, i, 0) && buffer < |be.arenaOf|
      requires CountOk(g, values, i, 0) && OwnExact(g, values, i, 0, i, None) && SafeUpTo(g, be, values, i)
      modifies this
      ensures ok ==> Inv(g, be) && At(g, i + 1, 0)
      ensures ok ==> CountOk(g, values, i + 1, 0) && OwnExact(g, values, i + 1, 0, i + 1, None)
      ensures ok ==> SafeUpTo(g, be, values, i + 1)
      ensures ok && BornFit(g, be, old(values), old(arenas), i) ==> BornFit(g, be, values, arenas, i + 1)
      ensures ok ==> forall t :: 0 <= t < |g.tensors| && g.BornBefore(t, i) ==>
        values[t].buffer == old(values)[t].buffer && values[t].addr == old(values)[t].addr
      ensures ok && g.Plain(g.nodes[i]) && !g.StartBorn(g.nodes[i]) ==> NodePlaced(g, values, i, buffer)
      ensures !ok ==> Blocked(g, be, arenas)
    {
      hide ArenasOk, Owned, CountOk, OwnExact, SafeUpTo, Grown, Blocked, NodePlaced, Graph.StartBorn;
      ghost var reused;
      ghost var v, a := values, arenas;
      assert NodesOk(g, be, values) by { NodesOfOwned(g, be, values); }
      ok, reused := PlaceNode(g, be, i, buffer);
      if !ok {
        return;
      }
      ghost var w, b := values, arenas;
      NodesOfOwned(g, be, values);
      OwnedNodeFits(g, be, values, i, reused);
      ok := ReleaseSources(g, be, i, reused);
      if ok {
        NodesOfOwned(g, be, values);
        FitStep(g, be, v, w, values, a, b, arenas, i);
        if g.Plain(g.nodes[i]) && !g.StartBorn(g.nodes[i]) {
          NodePlacedKept(g, w, values, i, buffer);
        }
      }
    }

    lemma NodesOfOwned(g: Graph, be: Backend, v: seq<HashNode>)
      requires be.Ok(g) && Owned(g, be, v, lives)
      ensures NodesOk(g, be, v)
    {
    }

    lemma OwnedNodeFits(g: Graph, be: Backend, v: seq<HashNode>, i: nat, reused: Option<nat>)
      requires g.Ok() && be.Ok(g) && ArenasOk(be, arenas, lives) && Owned(g, be, v, lives)
      requires i < |g.nodes| && At(g, i, 0) && OwnExact(g, v, i, 0, i + 1, reused)
      requires reused.Some? ==> g.IsSource(i, reused.value)
      ensures g.Plain(g.nodes[i]) ==> FitsIn(arenas, PlaceOf(g, be, v, g.nodes[i]))
    {
      BornGrows(g, i);
      BirthNotReleased(g, i, i, 0);
      if g.Plain(g.nodes[i]) {
        LiveFits(be, arenas, lives, PlaceOf(g, be, v, g.nodes[i]));
      }
    }

    method PlaceNode(g: Graph, be: Backend, i: nat, buffer: nat) returns (ok: bool, ghost reused: Option<nat>)
      requires g.Ok() && be.Ok(g) && Inv(g, be) && i < |g.nodes| && At(g, i, 0) && buffer < |be.arenaOf|
      requires CountOk(g, values, i, 0) && OwnExact(g, values, i, 0, i, None) && SafeUpTo(g, be, values, i)
      modifies this
      ensures ok ==> Inv(g, be)
      ensures ok ==> CountOk(g, values, i, 0) && OwnExact(g, values, i, 0, i + 1, reused)
      ensures ok ==> SafeUpTo(g, be, values, i + 1)
      ensures ok && reused.Some? ==> g.IsSource(i, reused.value)
      ensures ok ==> forall t :: 0 <= t < |g.tensors| && g.BornBefore(t, i) ==>
        values[t].buffer == old(values)[t].buffer && values[t].addr == old(values)[t].addr
      ensures ok && g.Plain(g.nodes[i]) && !g.StartBorn(g.nodes[i]) ==> NodePlaced(g, values, i, buffer)
      ensures ok ==> Grown(old(arenas), arenas)
      ensures !ok ==> Blocked(g, be, arenas)
    {
      hide ArenasOk, OwnersApart, NoLeak, Backs, Rem, ViewCount, Released, Alloc, SafeUpTo, Apart, Blocked, NodePlaced,
        Graph.StartBorn;
      reused := None;
      var srcs := g.Srcs(i);
      ghost var before := values;
      for j := 0 to |srcs|
        invariant Inv(g, be) && values == before && arenas == old(arenas)
      {
        if srcs[j].None? {
          continue;
        }
        // the sources have their places already
        SourceReady(g, values, i, j, srcs[j].value);
        ghost var none;
        ok, none := AllocateNode(g, be, srcs[j].value, buffer);
        if !ok {
          return;
        }
      }
      ok, reused := AllocateNode(g, be, g.nodes[i], buffer);
      if !ok {
        return;
      }
      assert PlacedNode(g, before, values, i, reused);
      AfterPlacing(g, before, values, i, reused);
      PlacedRight(g, before, values, i, reused, buffer);
      SafeKept(g, be, before, values, i);
      SafeStep(g, be, values, lives, i, reused);
    }

    method ReleaseSources(g: Graph, be: Backend, i: nat, ghost reused: Option<nat>) returns (ok: bool)
      requires g.Ok() && be.Ok(g) && Inv(g, be) && i < |g.nodes| && At(g, i, 0)
      requires CountOk(g, values, i, 0) && OwnExact(g, values, i, 0, i + 1, reused)
      requires SafeUpTo(g, be, values, i + 1)
      modifies this
      ensures ok ==> Inv(g, be) && At(g, i + 1, 0)
      ensures ok ==> CountOk(g, values, i + 1, 0) && OwnExact(g, values, i + 1, 0, i + 1, None)
      ensures ok ==> SafeUpTo(g, be, values, i + 1) && SamePlan(old(values), values)
      ensures ok ==> Grown(old(arenas), arenas)
      ensures !ok ==> Blocked(g, be, arenas)
    {
      hide ArenasOk, OwnersApart, NoLeak, Backs, Rem, ViewCount, Released, SafeUpTo, CountOk, OwnExact, AfterUse,
        Blocked;
      var srcs := g.Srcs(i);
      ghost var before := values;
      for j := 0 to |srcs|
        invariant Inv(g, be) && SamePlan(before, values) && Grown(old(arenas), arenas)
        invariant CountOk(g, values, i, j) && OwnExact(g, values, i, j, i + 1, reused)
      {
        if srcs[j].None? {
          NoSource(g, values, i, j, i + 1, reused);
          continue;
        }
        AfterUseKeeps(g, values, i, j, i + 1, reused, srcs[j].value);
        AfterUseSamePlan(g, values, srcs[j].value);
        ghost var a := arenas;
        ok := UpdateParent(g, be, srcs[j].value);
        if !ok {
          return;
        }
        GrownTrans(old(arenas), a, arenas);
      }
      NodeDone(g, values, i, reused);
      SafeKept(g, be, before, values, i + 1);
      return true;
    }

    /** Clears all records and gives the leafs their places. */
    method PlaceLeafs(g: Graph, be: Backend, leafBuffers: Option<seq<nat>>) returns (ok: bool)
      requires g.Ok() && be.Ok(g) && BuffersOk(be, leafBuffers, |g.leafs|)
      requires ArenasOk(be, arenas, lives) && forall a :: 0 <= a < |lives| ==> lives[a] == map[]
      modifies this
      ensures ok ==> Inv(g, be)
      ensures ok ==> forall t :: 0 <= t < |values| ==> values[t].children == 0 && values[t].views == 0
      ensures ok ==> forall r :: 0 <= r < |values| && g.Plain(r) ==> (values[r].owned <==> r in g.leafs)
      ensures ok ==> LeafBuffers(g, values, leafBuffers, |g.leafs|)
      ensures !ok ==> Blocked(g, be, arenas)
    {
      hide ArenasOk, OwnersApart, Backs, Backed, NoLeak, Blocked, GivenIn, LeafBuffers, IdAt;
      values := seq(|g.tensors|, _ => BLANK);
      NothingOwned(g, be, values);
      assert LeafBuffers(g, values, leafBuffers, 0) by { NoBuffers(g, values, leafBuffers); }
      for i := 0 to |g.leafs|
        invariant Inv(g, be)
        invariant forall t :: 0 <= t < |values| ==> values[t].children == 0 && values[t].views == 0
        invariant forall r :: 0 <= r < |values| && g.Plain(r) ==> (values[r].owned <==> r in g.leafs[..i])
        invariant LeafBuffers(g, values, leafBuffers, i)
      {
        assert g.leafs[..i + 1] == g.leafs[..i] + [g.leafs[i]];
        ghost var v := values;
        ok := PlaceInput(g, be, g.leafs[i], BufferOf(leafBuffers, i));
        if !ok {
          return;
        }
        BufferIsAt(leafBuffers, i);
        LeafGiven(g, v, values, leafBuffers, i, BufferOf(leafBuffers, i));
      }
      assert g.leafs[..|g.leafs|] == g.leafs;
      return true;
    }

    /** The counting pass over all nodes. */
    method CountAll(g: Graph, be: Backend, nodeBuffers: Option<seq<nat>>, ghost leafBuffers: Option<seq<nat>>)
      returns (ok: bool)
      requires g.Ok() && be.Ok(g) && BuffersOk(be, nodeBuffers, |g.nodes|) && Inv(g, be)
      requires forall t :: 0 <= t < |values| ==> values[t].children == 0 && values[t].views == 0
      requires forall r :: 0 <= r < |values| && g.Plain(r) ==> (values[r].owned <==> r in g.leafs)
      requires |values| == |g.tensors| && LeafBuffers(g, values, leafBuffers, |g.leafs|)
      modifies this
      ensures ok ==> Inv(g, be) && At(g, 0, 0)
      ensures ok ==> CountOk(g, values, 0, 0) && OwnExact(g, values, 0, 0, 0, None)
      ensures ok ==> LeafBuffers(g, values, leafBuffers, |g.leafs|) && InputBuffers(g, values, nodeBuffers, |g.nodes|)
      ensures !ok ==> Blocked(g, be, arenas)
    {
      hide ArenasOk, OwnersApart, Backs, Rem, ViewCount, Released, Blocked, GivenIn, LeafBuffers, InputBuffers, IdAt,
        SeenBefore;
      CountingStarts(g, values);
      NoBuffers(g, values, nodeBuffers);
      for i := 0 to |g.nodes|
        invariant Inv(g, be) && At(g, i, 0)
        invariant CountedTo(g, values, i, 0, i) && InputsPlaced(g, values, i, {})
        invariant LeafBuffers(g, values, leafBuffers, |g.leafs|) && InputBuffers(g, values, nodeBuffers, i)
      {
        ghost var before := values;
        ok := CountNode(g, be, i, BufferOf(nodeBuffers, i));
        if !ok {
          return;
        }
        BufferIsAt(nodeBuffers, i);
        LeafsKept(g, before, values, leafBuffers, BufferOf(nodeBuffers, i));
        InputsGiven(g, before, values, nodeBuffers, i, BufferOf(nodeBuffers, i));
      }
      CountingDone(g, values);
      return true;
    }

    /** Plans a whole graph on empty allocators. Buffer ids default to the first buffer. */
    method AllocGraphImpl(g: Graph, be: Backend, nodeBuffers: Option<seq<nat>>, leafBuffers: Option<seq<nat>>)
      returns (ok: bool)
      requires g.Ok() && be.Ok(g) && BuffersOk(be, nodeBuffers, |g.nodes|) && BuffersOk(be, leafBuffers, |g.leafs|)
      requires ArenasOk(be, arenas, lives) && forall a :: 0 <= a < |lives| ==> lives[a] == map[]
      modifies this
      ensures ok ==> Inv(g, be) && At(g, |g.nodes|, 0)
      ensures ok ==> NoClobber(g, be, values)
      ensures ok ==> CountOk(g, values, |g.nodes|, 0) && OwnExact(g, values, |g.nodes|, 0, |g.nodes|, None)
      ensures ok ==> BornFit(g, be, values, arenas, |g.nodes|)
      ensures ok ==> InItsBuffers(g, values, nodeBuffers, leafBuffers)
      ensures !ok ==> Blocked(g, be, arenas)
    {
      hide ArenasOk, OwnersApart, Backs, Rem, ViewCount, Released, SafeUpTo, NoClobber, Blocked, StartsApart,
        LeafBuffers, InputBuffers, NodeBuffers, NodePlaced, IdAt, Graph.StartBorn, CountOk, OwnExact, BornFit, NoLeak;
      ok := PlaceLeafs(g, be, leafBuffers);
      if !ok {
        return;
      }
      ok := CountAll(g, be, nodeBuffers, leafBuffers);
      if !ok {
        return;
      }
      NoBuffers(g, values, nodeBuffers);
      StartsAreApart(g, be, values, lives);
      assert SafeUpTo(g, be, values, 0) by { SafeEmpty(g, be, values); }
      assert BornFit(g, be, values, arenas, 0) by { StartFit(g, be, values); }
      for i := 0 to |g.nodes|
        invariant Inv(g, be) && At(g, i, 0)
        invariant CountOk(g, values, i, 0) && OwnExact(g, values, i, 0, i, None)
        invariant SafeUpTo(g, be, values, i) && BornFit(g, be, values, arenas, i)
        invariant StartsApart(g, be, values)
        invariant LeafBuffers(g, values, leafBuffers, |g.leafs|) && InputBuffers(g, values, nodeBuffers, |g.nodes|)
        invariant NodeBuffers(g, values, nodeBuffers, i)
      {
        ghost var before := values;
        ok := PlanNode(g, be, i, BufferOf(nodeBuffers, i));
        if !ok {
          return;
        }
        StartsKept(g, be, before, values, i);
        BufferIsAt(nodeBuffers, i);
        StartBuffersKept(g, before, values, nodeBuffers, leafBuffers);
        NodeBuffersGrow(g, before, values, nodeBuffers, i, BufferOf(nodeBuffers, i));
      }
      SafeIsNoClobber(g, be, values);
      return true;
    }

    lemma NoBuffers(g: Graph, v: seq<HashNode>, ids: Option<seq<nat>>)
      requires g.InRange() && |v| == |g.tensors|
      ensures LeafBuffers(g, v, ids, 0) && InputBuffers(g, v, ids, 0) && NodeBuffers(g, v, ids, 0)
    {
    }

    lemma BufferIsAt(ids: Option<seq<nat>>, i: nat)
      requires ids.Some? ==> i < |ids.value|
      ensures IdAt(ids, i, BufferOf(ids, i))
    {
    }

    lemma NothingOwned(g: Graph, be: Backend, v: seq<HashNode>)
      requires be.Ok(g) && |v| == |g.tensors| && forall t :: 0 <= t < |v| ==> v[t] == BLANK
      requires forall a :: 0 <= a < |lives| ==> lives[a] == map[]
      ensures Owned(g, be, v, lives)
    {
    }

    lemma StartFit(g: Graph, be: Backend, v: seq<HashNode>)
      requires g.Ok() && be.Ok(g) && ArenasOk(be, arenas, lives) && Owned(g, be, v, lives)
      requires At(g, 0, 0) && OwnExact(g, v, 0, 0, 0, None)
      ensures BornFit(g, be, v, arenas, 0)
    {
      forall t | 0 <= t < |v| && g.Plain(t) && g.BornBefore(t, 0) ensures FitsIn(arenas, PlaceOf(g, be, v, t)) {
        StartNotReleased(g, t);
        LiveFits(be, arenas, lives, PlaceOf(g, be, v, t));
      }
    }

    lemma SafeEmpty(g: Graph, be: Backend, v: seq<HashNode>)
      requires g.Ok() && be.Ok(g) && NodesOk(g, be, v)
      ensures SafeUpTo(g, be, v, 0)
    {
    }

    lemma CountingStarts(g: Graph, v: seq<HashNode>)
      requires g.Ok() && |v| == |g.tensors|
      requires forall t :: 0 <= t < |v| ==> v[t].children == 0 && v[t].views == 0
      requires forall r :: 0 <= r < |v| && g.Plain(r) ==> (v[r].owned <==> r in g.leafs)
      ensures At(g, 0, 0) && CountedTo(g, v, 0, 0, 0) && InputsPlaced(g, v, 0, {})
    {
      forall t | 0 <= t < |v| ensures Rem(g, t, 0, 0) == Uses(g, t, 0) {
        RemStart(g, t, 0);
      }
    }
  }

  predicate Fitting(be: Backend, a: nat, arena: Arena)
    requires a < |be.alignments|
  {
    arena.alignment == be.alignments[a] > 0 && arena.maxChunkSize <= HALF
  }

  /** Every planned tensor is where the buffer ids say: a leaf by its first listing, an input that
      is no leaf by the first node that is it or mentions it, and any other node by its own number,
      unless it has the place of the operand it takes over. */
  ghost predicate InItsBuffers(g: Graph, values: seq<HashNode>, nodeIds: Option<seq<nat>>, leafIds: Option<seq<nat>>)
    requires g.InRange() && |values| == |g.tensors|
  {
    && LeafBuffers(g, values, leafIds, |g.leafs|) && InputBuffers(g, values, nodeIds, |g.nodes|)
    && NodeBuffers(g, values, nodeIds, |g.nodes|)
  }

  predicate BuffersOk(be: Backend, ids: Option<seq<nat>>, n: nat) {
    && be.arenaOf != []
    && (ids.Some? ==> n <= |ids.value| && forall i :: 0 <= i < n ==> ids.value[i] < |be.arenaOf|)
  }

  function BufferOf(ids: Option<seq<nat>>, i: nat): nat
    requires ids.Some? ==> i < |ids.value|
  {
    match ids case Some(s) => s[i] case None => 0
  }
}
