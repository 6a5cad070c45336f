/** What the planner's counters and ownership flags mean at each point of its walk. */
module Liveness {
  import opened Options
  import opened Graph
  import opened Arena
  import opened Ownership

  /** The child counters hold the uses still to come, and the view counters the views that
      are still alive. */
  ghost predicate CountOk(g: Graph, values: seq<HashNode>, i: nat, j: nat)
    requires g.InRange() && At(g, i, j)
  {
    && |values| == |g.tensors|
    && (forall t :: 0 <= t < |values| ==> values[t].children == Rem(g, t, i, j))
    && (forall r :: 0 <= r < |values| && g.Plain(r) ==> values[r].views == ViewCount(g, r, i, j, |g.nodes|))
    && (forall t :: 0 <= t < |values| && g.IsView(t) ==> values[t].views == 0)
  }

  /** Exactly the tensors that have come into being and are not released own a region. The
      operand `reused` has passed its region on to the node now being processed. */
  ghost predicate OwnExact(g: Graph, values: seq<HashNode>, i: nat, j: nat, born: nat, reused: Option<nat>)
    requires g.InRange() && At(g, i, j) && born <= |g.nodes|
  {
    && |values| == |g.tensors|
    && (forall r :: 0 <= r < |values| && g.Plain(r) ==>
          (values[r].owned <==> g.BornBefore(r, born) && !Released(g, r, i, j) && reused != Some(r)))
    && (reused.Some? ==> g.Plain(reused.value) && PassedOn(g, reused.value, i, j))
  }

  /** A tensor whose region was taken over by node `i`: no view is alive, and no use remains
      after node `i`. */
  ghost predicate PassedOn(g: Graph, u: nat, i: nat, j: nat)
    requires g.InRange() && At(g, i, j) && g.Has(u)
  {
    && i < |g.nodes|
    && !g.tensors[u].output
    && ViewCount(g, u, i, j, |g.nodes|) == 0
    && Uses(g, u, i + 1) == 0 < Uses(g, u, 0)
  }

  function AddChildren(values: seq<HashNode>, t: nat, d: int): seq<HashNode>
    requires t < |values|
  {
    values[t := values[t].(children := values[t].children + d)]
  }

  function AddViews(values: seq<HashNode>, t: nat, d: int): seq<HashNode>
    requires t < |values|
  {
    values[t := values[t].(views := values[t].views + d)]
  }

  // --------------------------------------------------- one source is used up

  /** A source with further uses, or with live views, only loses a child. */
  lemma UseStep(g: Graph, values: seq<HashNode>, i: nat, j: nat, p: nat)
    requires g.Ok() && i < |g.nodes| && j < |g.Srcs(i)| && g.Srcs(i)[j] == Some(p)
    requires CountOk(g, values, i, j)
    requires !g.IsView(p) || Rem(g, p, i, j + 1) > 0
    ensures CountOk(g, AddChildren(values, p, -1), i, j + 1)
  {
    var next := AddChildren(values, p, -1);
    forall t | 0 <= t < |values|
      ensures next[t].children == Rem(g, t, i, j + 1)
      ensures g.Plain(t) ==> next[t].views == ViewCount(g, t, i, j + 1, |g.nodes|)
    {
      RemStep(g, t, i, j);
      RemDeadView(g, t, i, j);
    }
  }

  /** The last use of a view also lowers the view count of its base. */
  lemma ViewStep(g: Graph, values: seq<HashNode>, i: nat, j: nat, p: nat)
    requires g.Ok() && i < |g.nodes| && j < |g.Srcs(i)| && g.Srcs(i)[j] == Some(p)
    requires CountOk(g, values, i, j) && g.IsView(p) && Rem(g, p, i, j + 1) == 0
    ensures CountOk(g, AddViews(AddChildren(values, p, -1), g.Root(p), -1), i, j + 1)
    ensures g.Plain(g.Root(p)) ==> ViewCount(g, g.Root(p), i, j, |g.nodes|) > 0
  {
    var next := AddViews(AddChildren(values, p, -1), g.Root(p), -1);
    forall t | 0 <= t < |values|
      ensures next[t].children == Rem(g, t, i, j + 1)
    {
      RemStep(g, t, i, j);
    }
    forall t | 0 <= t < |values| && g.Plain(t)
      ensures next[t].views == ViewCount(g, t, i, j + 1, |g.nodes|)
      ensures t == g.Root(p) ==> ViewCount(g, g.Root(p), i, j, |g.nodes|) > 0
    {
      if t == g.Root(p) {
        UsedViewDies(g, i, j, p);
      } else {
        RemDeadView(g, t, i, j);
      }
    }
  }

  lemma UsedViewDies(g: Graph, i: nat, j: nat, p: nat)
    requires g.Ok() && i < |g.nodes| && j < |g.Srcs(i)| && g.Srcs(i)[j] == Some(p)
    requires g.Has(p) && g.IsView(p) && g.Plain(g.Root(p)) && Rem(g, p, i, j + 1) == 0
    ensures ViewCount(g, g.Root(p), i, j, |g.nodes|) == ViewCount(g, g.Root(p), i, j + 1, |g.nodes|) + 1
    ensures AllViews(g, g.Root(p), |g.nodes|) > 0
    ensures g.BornBefore(g.Root(p), i)
  {
    assert g.IsSource(i, p);
    var m :| 0 <= m < |g.nodes| && g.nodes[m] == p;
    ViewCountDrops(g, g.Root(p), i, j, |g.nodes|, m);
    AllViewsPositive(g, g.Root(p), |g.nodes|, m);
    assert m < i;
    if g.Root(p) in g.nodes {
      var b :| 0 <= b < |g.nodes| && g.nodes[b] == g.Root(p);
      assert g.CountedView(g.nodes[m], g.nodes[b]);
      assert g.nodes[..i][b] == g.Root(p);
    }
  }

  /** Release flags of tensors that this use does not concern stay as they are. */
  lemma ReleasedElsewhere(g: Graph, i: nat, j: nat, p: nat, r: nat)
    requires g.Ok() && i < |g.nodes| && j < |g.Srcs(i)| && g.Srcs(i)[j] == Some(p) && g.Has(p)
    requires g.Plain(r) && r != p && (!g.IsView(p) || g.Root(p) != r || Rem(g, p, i, j + 1) > 0)
    ensures Released(g, r, i, j) <==> Released(g, r, i, j + 1)
    ensures ViewCount(g, r, i, j, |g.nodes|) == ViewCount(g, r, i, j + 1, |g.nodes|)
  {
    RemStep(g, r, i, j);
    RemDeadView(g, r, i, j);
  }

  /** A planned source of node `i` is in being, and not released before its last use. */
  lemma SourceInBeing(g: Graph, i: nat, j: nat, p: nat)
    requires g.Ok() && i < |g.nodes| && j < |g.Srcs(i)| && g.Srcs(i)[j] == Some(p) && g.Plain(p)
    ensures g.BornBefore(p, i) && Rem(g, p, i, j) > 0
    ensures Uses(g, p, 0) > 0
  {
    RemStep(g, p, i, j);
    RemBounds(g, p, i, j);
    assert g.IsSource(i, p);
    if p in g.nodes {
      var m :| 0 <= m < |g.nodes| && g.nodes[m] == p;
      assert m < i;
      assert g.nodes[..i][m] == p;
    }
  }

  /** Using a plain source: its region is due for release exactly when this was the last use,
      no view is alive, and it is no output. */
  lemma PlainUse(g: Graph, i: nat, j: nat, p: nat)
    requires g.Ok() && i < |g.nodes| && j < |g.Srcs(i)| && g.Srcs(i)[j] == Some(p) && g.Plain(p)
    ensures !Released(g, p, i, j)
    ensures ViewCount(g, p, i, j, |g.nodes|) == ViewCount(g, p, i, j + 1, |g.nodes|)
    ensures Released(g, p, i, j + 1) <==>
            (Rem(g, p, i, j + 1) == 0 && ViewCount(g, p, i, j + 1, |g.nodes|) == 0 && !g.tensors[p].output)
  {
    SourceInBeing(g, i, j, p);
    RemDeadView(g, p, i, j);
  }

  /** The last use of a view: its base is due for release exactly when nothing else needs it. */
  lemma BaseUse(g: Graph, i: nat, j: nat, p: nat)
    requires g.Ok() && i < |g.nodes| && j < |g.Srcs(i)| && g.Srcs(i)[j] == Some(p)
    requires g.Has(p) && g.IsView(p) && g.Plain(g.Root(p)) && Rem(g, p, i, j + 1) == 0
    ensures !Released(g, g.Root(p), i, j) && g.BornBefore(g.Root(p), i)
    ensures ViewCount(g, g.Root(p), i, j, |g.nodes|) > 0
    ensures var b := g.Root(p);
            Released(g, b, i, j + 1) <==>
            (Rem(g, b, i, j + 1) == 0 && ViewCount(g, b, i, j + 1, |g.nodes|) == 0 && !g.tensors[b].output)
  {
    UsedViewDies(g, i, j, p);
  }

  // ------------------------------------------------- ownership follows liveness

  /** A plain source is used: `drop` says whether its region is given back. */
  lemma OwnAfterPlainUse(g: Graph, values: seq<HashNode>, i: nat, j: nat, born: nat, reused: Option<nat>,
                         p: nat, next: seq<HashNode>)
    requires g.Ok() && i < |g.nodes| && j < |g.Srcs(i)| && g.Srcs(i)[j] == Some(p) && g.Plain(p)
    requires i <= born <= |g.nodes| && OwnExact(g, values, i, j, born, reused) && |next| == |values|
    requires forall r :: 0 <= r < |values| && r != p ==> next[r].owned == values[r].owned
    requires next[p].owned == (values[p].owned &&
      (Rem(g, p, i, j + 1) > 0 || ViewCount(g, p, i, j + 1, |g.nodes|) > 0 || g.tensors[p].output))
    ensures OwnExact(g, next, i, j + 1, born, reused)
  {
    PlainUse(g, i, j, p);
    forall r | 0 <= r < |values| && g.Plain(r)
      ensures next[r].owned <==> g.BornBefore(r, born) && !Released(g, r, i, j + 1) && reused != Some(r)
      ensures ViewCount(g, r, i, j, |g.nodes|) == ViewCount(g, r, i, j + 1, |g.nodes|)
    {
      if r != p {
        ReleasedElsewhere(g, i, j, p, r);
      }
    }
  }

  /** A view is used up: its base may be given back. */
  lemma OwnAfterViewUse(g: Graph, values: seq<HashNode>, i: nat, j: nat, born: nat, reused: Option<nat>,
                        p: nat, next: seq<HashNode>)
    requires g.Ok() && i < |g.nodes| && j < |g.Srcs(i)| && g.Srcs(i)[j] == Some(p)
    requires g.Has(p) && g.IsView(p) && Rem(g, p, i, j + 1) == 0
    requires i <= born <= |g.nodes| && OwnExact(g, values, i, j, born, reused) && |next| == |values|
    requires var b := g.Root(p);
             && (forall r :: 0 <= r < |values| && r != b ==> next[r].owned == values[r].owned)
             && (g.Plain(b) ==> (next[b].owned <==> (values[b].owned &&
                  (Rem(g, b, i, j + 1) > 0 || ViewCount(g, b, i, j + 1, |g.nodes|) > 0 || g.tensors[b].output))))
    ensures OwnExact(g, next, i, j + 1, born, reused)
  {
    var b := g.Root(p);
    if g.Plain(b) {
      BaseUse(g, i, j, p);
    }
    forall r | 0 <= r < |values| && g.Plain(r)
      ensures next[r].owned <==> g.BornBefore(r, born) && !Released(g, r, i, j + 1) && reused != Some(r)
      ensures r != b ==> ViewCount(g, r, i, j, |g.nodes|) == ViewCount(g, r, i, j + 1, |g.nodes|)
    {
      if r != b {
        ReleasedElsewhere(g, i, j, p, r);
      }
    }
  }

  /** A use that ends nothing leaves all owners in place. */
  lemma OwnAfterQuietUse(g: Graph, values: seq<HashNode>, i: nat, j: nat, born: nat, reused: Option<nat>,
                         p: nat, next: seq<HashNode>)
    requires g.Ok() && i < |g.nodes| && j < |g.Srcs(i)| && g.Srcs(i)[j] == Some(p) && g.Has(p) && !g.Plain(p)
    requires !g.IsView(p) || Rem(g, p, i, j + 1) > 0
    requires i <= born <= |g.nodes| && OwnExact(g, values, i, j, born, reused) && |next| == |values|
    requires forall r :: 0 <= r < |values| ==> next[r].owned == values[r].owned
    ensures OwnExact(g, next, i, j + 1, born, reused)
  {
    forall r | 0 <= r < |values| && g.Plain(r)
      ensures next[r].owned <==> g.BornBefore(r, born) && !Released(g, r, i, j + 1) && reused != Some(r)
      ensures ViewCount(g, r, i, j, |g.nodes|) == ViewCount(g, r, i, j + 1, |g.nodes|)
    {
      ReleasedElsewhere(g, i, j, p, r);
    }
  }

  /** An absent source changes nothing. */
  lemma NoSource(g: Graph, values: seq<HashNode>, i: nat, j: nat, born: nat, reused: Option<nat>)
    requires g.Ok() && i < |g.nodes| && j < |g.Srcs(i)| && g.Srcs(i)[j].None?
    requires born <= |g.nodes| && CountOk(g, values, i, j) && OwnExact(g, values, i, j, born, reused)
    ensures CountOk(g, values, i, j + 1) && OwnExact(g, values, i, j + 1, born, reused)
  {
    forall t | 0 <= t < |values|
      ensures Rem(g, t, i, j) == Rem(g, t, i, j + 1)
      ensures ViewCount(g, t, i, j, |g.nodes|) == ViewCount(g, t, i, j + 1, |g.nodes|)
    {
      RemStep(g, t, i, j);
      RemDeadView(g, t, i, j);
    }
  }

  /** After the last source of a node, a passed-on operand counts as released. */
  lemma NodeDone(g: Graph, values: seq<HashNode>, i: nat, reused: Option<nat>)
    requires g.Ok() && i < |g.nodes|
    requires CountOk(g, values, i, |g.Srcs(i)|) && OwnExact(g, values, i, |g.Srcs(i)|, i + 1, reused)
    ensures At(g, i + 1, 0)
    ensures CountOk(g, values, i + 1, 0) && OwnExact(g, values, i + 1, 0, i + 1, None)
  {
    forall t | 0 <= t < |values|
      ensures Rem(g, t, i, |g.Srcs(i)|) == Rem(g, t, i + 1, 0)
      ensures ViewCount(g, t, i, |g.Srcs(i)|, |g.nodes|) == ViewCount(g, t, i + 1, 0, |g.nodes|)
    {
      NextNode(g, t, i);
    }
    if reused.Some? {
      RemEnd(g, reused.value, i);
    }
  }

  // -------------------------------------------------- a node comes into being

  /** A node that takes a place of its own. */
  lemma OwnAfterBirth(g: Graph, values: seq<HashNode>, i: nat, next: seq<HashNode>)
    requires g.Ok() && i < |g.nodes| && OwnExact(g, values, i, 0, i, None) && |next| == |values|
    requires forall r :: 0 <= r < |values| && r != g.nodes[i] ==> next[r].owned == values[r].owned
    requires g.Plain(g.nodes[i]) ==> next[g.nodes[i]].owned
    ensures OwnExact(g, next, i, 0, i + 1, None)
  {
    BirthNotReleased(g, i, i, 0);
    BornGrows(g, i);
  }

  lemma BornGrows(g: Graph, i: nat)
    requires g.InRange() && i < |g.nodes|
    ensures forall r :: g.BornBefore(r, i + 1) <==> g.BornBefore(r, i) || r == g.nodes[i]
  {
    hide Graph.StartBorn;
    var now, next := g.nodes[..i], g.nodes[..i + 1];
    assert next == now + [g.nodes[i]];
    forall r ensures g.BornBefore(r, i + 1) <==> g.BornBefore(r, i) || r == g.nodes[i] {
      assert r in next <==> r in now || r == g.nodes[i];
    }
  }

  /** A node that takes over the region of an operand on its last use. */
  lemma OwnAfterReuse(g: Graph, values: seq<HashNode>, i: nat, u: nat, next: seq<HashNode>)
    requires g.Ok() && i < |g.nodes| && At(g, i, 0)
    requires CountOk(g, values, i, 0) && OwnExact(g, values, i, 0, i, None) && |next| == |values|
    requires g.Plain(u) && g.IsSource(i, u) && !g.tensors[u].output
    requires values[u].children == 1 && values[u].views == 0
    requires forall r :: 0 <= r < |values| && r != g.nodes[i] && r != u ==> next[r].owned == values[r].owned
    requires next[g.nodes[i]].owned && !next[u].owned
    ensures OwnExact(g, next, i, 0, i + 1, Some(u))
  {
    BirthNotReleased(g, i, i, 0);
    BornGrows(g, i);
    RemStart(g, u, i);
    UsesInZero(g.Srcs(i), u);
    RemBounds(g, u, i, 0);
    assert PassedOn(g, u, i, 0);
    forall r | 0 <= r < |values| && g.Plain(r)
      ensures next[r].owned <==> g.BornBefore(r, i + 1) && !Released(g, r, i, 0) && r != u
    {
      if r != g.nodes[i] && r != u {
        assert next[r].owned == values[r].owned;
      }
    }
  }

  // ------------------------------------------- the planner's step for one use

  /** The records after source `p` of a node has been used. */
  function AfterUse(g: Graph, values: seq<HashNode>, p: nat): seq<HashNode>
    requires |values| == |g.tensors| && g.Has(p) && g.Has(g.Root(p))
  {
    var dec := AddChildren(values, p, -1);
    if dec[p].children != 0 || dec[p].views != 0 then dec
    else if g.IsView(p) then AfterViewDeath(g, dec, g.Root(p))
    else if dec[p].owned && !g.tensors[p].output then Vacate(dec, p)
    else dec
  }

  function AfterViewDeath(g: Graph, values: seq<HashNode>, b: nat): seq<HashNode>
    requires |values| == |g.tensors| && g.Has(b)
  {
    var dec := AddViews(values, b, -1);
    if dec[b].views == 0 && dec[b].children == 0 && dec[b].owned && !g.tensors[b].output then Vacate(dec, b)
    else dec
  }

  lemma CountVacate(g: Graph, values: seq<HashNode>, i: nat, j: nat, t: nat)
    requires g.InRange() && At(g, i, j) && CountOk(g, values, i, j) && t < |values|
    ensures CountOk(g, Vacate(values, t), i, j)
  {
    hide Rem, ViewCount;
  }

  lemma AfterUseKeeps(g: Graph, values: seq<HashNode>, i: nat, j: nat, born: nat, reused: Option<nat>, p: nat)
    requires g.Ok() && i < |g.nodes| && j < |g.Srcs(i)| && g.Srcs(i)[j] == Some(p)
    requires i <= born <= |g.nodes| && CountOk(g, values, i, j) && OwnExact(g, values, i, j, born, reused)
    requires forall t :: 0 <= t < |values| && values[t].owned ==> g.Plain(t)
    ensures CountOk(g, AfterUse(g, values, p), i, j + 1)
    ensures OwnExact(g, AfterUse(g, values, p), i, j + 1, born, reused)
  {
    hide Rem, ViewCount, Released;
    RemStep(g, p, i, j);
    if !g.IsView(p) {
      AfterPlainUse(g, values, i, j, born, reused, p);
    } else if Rem(g, p, i, j + 1) > 0 {
      UseStep(g, values, i, j, p);
      OwnAfterQuietUse(g, values, i, j, born, reused, p, AfterUse(g, values, p));
    } else {
      AfterLastViewUse(g, values, i, j, born, reused, p);
    }
  }

  lemma AfterPlainUse(g: Graph, values: seq<HashNode>, i: nat, j: nat, born: nat, reused: Option<nat>, p: nat)
    requires g.Ok() && i < |g.nodes| && j < |g.Srcs(i)| && g.Srcs(i)[j] == Some(p) && !g.IsView(p)
    requires i <= born <= |g.nodes| && CountOk(g, values, i, j) && OwnExact(g, values, i, j, born, reused)
    requires values[p].owned ==> g.Plain(p)
    ensures CountOk(g, AfterUse(g, values, p), i, j + 1)
    ensures OwnExact(g, AfterUse(g, values, p), i, j + 1, born, reused)
  {
    hide Rem, ViewCount, Released;
    RemStep(g, p, i, j);
    UseStep(g, values, i, j, p);
    CountVacate(g, AddChildren(values, p, -1), i, j + 1, p);
    if g.Plain(p) {
      OwnAfterPlainUse(g, values, i, j, born, reused, p, AfterUse(g, values, p));
    } else {
      OwnAfterQuietUse(g, values, i, j, born, reused, p, AfterUse(g, values, p));
    }
  }

  lemma AfterLastViewUse(g: Graph, values: seq<HashNode>, i: nat, j: nat, born: nat, reused: Option<nat>, p: nat)
    requires g.Ok() && i < |g.nodes| && j < |g.Srcs(i)| && g.Srcs(i)[j] == Some(p) && g.Has(p) && g.IsView(p)
    requires i <= born <= |g.nodes| && CountOk(g, values, i, j) && OwnExact(g, values, i, j, born, reused)
    requires Rem(g, p, i, j + 1) == 0
    requires forall t :: 0 <= t < |values| && values[t].owned ==> g.Plain(t)
    ensures CountOk(g, AfterUse(g, values, p), i, j + 1)
    ensures OwnExact(g, AfterUse(g, values, p), i, j + 1, born, reused)
  {
    hide Rem, ViewCount, Released;
    RemStep(g, p, i, j);
    ViewStep(g, values, i, j, p);
    var b := g.Root(p);
    CountVacate(g, AddViews(AddChildren(values, p, -1), b, -1), i, j + 1, b);
    OwnAfterViewUse(g, values, i, j, born, reused, p, AfterUse(g, values, p));
  }

  /** Same planned place for every tensor. */
  predicate SamePlan(v: seq<HashNode>, w: seq<HashNode>) {
    |v| == |w| && forall t :: 0 <= t < |v| ==> v[t].buffer == w[t].buffer && v[t].addr == w[t].addr
  }

  lemma AfterUseSamePlan(g: Graph, values: seq<HashNode>, p: nat)
    requires |values| == |g.tensors| && g.Has(p) && g.Has(g.Root(p))
    ensures SamePlan(values, AfterUse(g, values, p))
  {
  }
}
