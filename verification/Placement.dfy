/** Which buffer a planned tensor is placed in, and which operand's memory a node takes over, in
    terms of the graph and the buffer ids alone. */
module Placement {
  import opened Options
  import opened Graph
  import opened Arena
  import opened Ownership
  import opened Liveness

  /** `b` is entry number `i` of the list, or 0 when there is no list. */
  predicate IdAt(ids: Option<seq<nat>>, i: nat, b: nat) {
    if ids.Some? then i < |ids.value| && b == ids.value[i] else b == 0
  }

  // ------------------------------------------------------------ leafs and inputs

  /** Leafs among the first `n` are in the buffer of their first listing. */
  ghost predicate LeafBuffers(g: Graph, values: seq<HashNode>, ids: Option<seq<nat>>, n: nat)
    requires |values| == |g.tensors| && n <= |g.leafs|
  {
    forall k :: 0 <= k < n && g.Plain(g.leafs[k]) && g.leafs[k] !in g.leafs[..k] ==>
      IdAt(ids, k, values[g.leafs[k]].buffer)
  }

  /** `r` is one of the first `i` nodes or a source of one. */
  ghost predicate SeenBefore(g: Graph, r: nat, i: nat)
    requires g.InRange() && i <= |g.nodes|
  {
    r in g.nodes[..i] || exists k :: 0 <= k < i && g.IsSource(k, r)
  }

  /** Node `i` is the first one that is `t` or mentions it. */
  ghost predicate FirstSeen(g: Graph, t: nat, i: nat)
    requires g.InRange() && i < |g.nodes|
  {
    (t == g.nodes[i] || g.IsSource(i, t)) && !SeenBefore(g, t, i)
  }

  /** Inputs that are no leafs are in the buffer of the node that mentions them first. */
  ghost predicate InputBuffers(g: Graph, values: seq<HashNode>, ids: Option<seq<nat>>, n: nat)
    requires g.InRange() && |values| == |g.tensors| && n <= |g.nodes|
  {
    forall t, i :: 0 <= i < n && 0 <= t < |values| && g.Plain(t) && g.tensors[t].input && t !in g.leafs ==>
      FirstSeen(g, t, i) ==> IdAt(ids, i, values[t].buffer)
  }

  /** What had a place keeps it; what gets one, gets it in this buffer. */
  predicate GivenIn(v: seq<HashNode>, w: seq<HashNode>, buffer: nat) {
    && |v| == |w|
    && forall t :: 0 <= t < |v| ==>
         if v[t].owned then w[t].owned && w[t].buffer == v[t].buffer && w[t].addr == v[t].addr
         else w[t].owned ==> w[t].buffer == buffer
  }

  lemma GivenTwice(v: seq<HashNode>, w: seq<HashNode>, x: seq<HashNode>, buffer: nat)
    requires GivenIn(v, w, buffer) && GivenIn(w, x, buffer)
    ensures GivenIn(v, x, buffer)
  {
  }

  lemma LeafGiven(g: Graph, v: seq<HashNode>, w: seq<HashNode>, ids: Option<seq<nat>>, i: nat, buffer: nat)
    requires g.InRange() && |v| == |g.tensors| && i < |g.leafs| && LeafBuffers(g, v, ids, i)
    requires forall r :: 0 <= r < |v| && g.Plain(r) ==> (v[r].owned <==> r in g.leafs[..i])
    requires GivenIn(v, w, buffer) && IdAt(ids, i, buffer) && (g.Plain(g.leafs[i]) ==> w[g.leafs[i]].owned)
    ensures LeafBuffers(g, w, ids, i + 1)
  {
    hide IdAt;
    forall k | 0 <= k < i + 1 && g.Plain(g.leafs[k]) && g.leafs[k] !in g.leafs[..k]
      ensures IdAt(ids, k, w[g.leafs[k]].buffer)
    {
      if k < i {
        assert g.leafs[..i][k] == g.leafs[k];
      }
    }
  }

  lemma LeafsKept(g: Graph, v: seq<HashNode>, w: seq<HashNode>, ids: Option<seq<nat>>, buffer: nat)
    requires g.InRange() && |v| == |g.tensors| && LeafBuffers(g, v, ids, |g.leafs|) && GivenIn(v, w, buffer)
    requires forall r :: 0 <= r < |v| && g.Plain(r) && r in g.leafs ==> v[r].owned
    ensures LeafBuffers(g, w, ids, |g.leafs|)
  {
    hide IdAt;
  }

  lemma InputsGiven(g: Graph, v: seq<HashNode>, w: seq<HashNode>, ids: Option<seq<nat>>, i: nat, buffer: nat)
    requires g.InRange() && |v| == |g.tensors| && i < |g.nodes| && InputBuffers(g, v, ids, i)
    requires GivenIn(v, w, buffer) && IdAt(ids, i, buffer)
    requires forall r :: 0 <= r < |v| && g.Plain(r) && g.tensors[r].input && r !in g.leafs ==>
      (v[r].owned <==> SeenBefore(g, r, i)) && (w[r].owned <==> SeenBefore(g, r, i + 1))
    ensures InputBuffers(g, w, ids, i + 1)
  {
    hide IdAt, SeenBefore;
    forall t, k | 0 <= k < i + 1 && 0 <= t < |w| && g.Plain(t) && g.tensors[t].input && t !in g.leafs
      && FirstSeen(g, t, k)
      ensures IdAt(ids, k, w[t].buffer)
    {
      NowSeen(g, t, k, i);
      if k < i {
        NowSeen(g, t, k, i - 1);
      }
    }
  }

  lemma NowSeen(g: Graph, t: nat, k: nat, i: nat)
    requires g.InRange() && k <= i < |g.nodes| && FirstSeen(g, t, k)
    ensures SeenBefore(g, t, i + 1)
  {
    if t == g.nodes[k] {
      assert g.nodes[..i + 1][k] == t;
    }
  }

  /** What is placed before the first node keeps its buffer for good. */
  lemma StartBuffersKept(g: Graph, v: seq<HashNode>, w: seq<HashNode>, nodeIds: Option<seq<nat>>,
                         leafIds: Option<seq<nat>>)
    requires g.InRange() && |v| == |w| == |g.tensors|
    requires LeafBuffers(g, v, leafIds, |g.leafs|) && InputBuffers(g, v, nodeIds, |g.nodes|)
    requires forall t :: 0 <= t < |v| && g.StartBorn(t) ==> v[t].buffer == w[t].buffer
    ensures LeafBuffers(g, w, leafIds, |g.leafs|) && InputBuffers(g, w, nodeIds, |g.nodes|)
  {
    hide IdAt;
    forall t, i | 0 <= i < |g.nodes| && 0 <= t < |w| && g.Plain(t) && g.tensors[t].input && t !in g.leafs
      && FirstSeen(g, t, i)
      ensures IdAt(nodeIds, i, w[t].buffer)
    {
      assert g.StartBorn(t);
    }
  }

  // --------------------------------------------------------------------- nodes

  /** Node `i` names `u` as a source exactly once, and no later node does. */
  ghost predicate OnlyUse(g: Graph, i: nat, u: nat)
    requires g.InRange() && i < |g.nodes|
  {
    && (exists j :: NamedOnce(g.Srcs(i), u, j))
    && forall k :: i < k < |g.nodes| ==> !g.IsSource(k, u)
  }

  predicate NamedOnce(srcs: seq<Option<nat>>, u: nat, j: int) {
    0 <= j < |srcs| && srcs[j] == Some(u) && forall k :: 0 <= k < |srcs| && srcs[k] == Some(u) ==> k == j
  }

  /** Every counted view of `u` is read by some node, but by none from node `i` on. */
  ghost predicate NoLiveView(g: Graph, i: nat, u: nat)
    requires g.InRange() && i < |g.nodes|
  {
    forall k :: 0 <= k < |g.nodes| && g.CountedView(g.nodes[k], u) ==> ViewIsOver(g, i, g.nodes[k])
  }

  ghost predicate ViewIsOver(g: Graph, i: nat, v: nat)
    requires g.InRange() && i <= |g.nodes|
  {
    (exists m :: 0 <= m < |g.nodes| && g.IsSource(m, v)) && forall m :: i <= m < |g.nodes| ==> !g.IsSource(m, v)
  }

  /** Node `i` can run in place on its operand `u`: nothing else needs that any more. */
  ghost predicate CanTake(g: Graph, i: nat, u: nat)
    requires g.InRange() && i < |g.nodes|
  {
    && g.Plain(u) && g.tensors[g.nodes[i]].op == Inplace
    && g.tensors[g.nodes[i]].layout == g.tensors[u].layout && !g.tensors[u].output
    && OnlyUse(g, i, u) && NoLiveView(g, i, u)
  }

  /** It is the first of its operands for which that holds. */
  ghost predicate TakesOver(g: Graph, i: nat, u: nat)
    requires g.InRange() && i < |g.nodes|
  {
    exists j :: 0 <= j < |g.Srcs(i)| && FirstTake(g, i, j, u)
  }

  ghost predicate FirstTake(g: Graph, i: nat, j: nat, u: nat)
    requires g.InRange() && i < |g.nodes| && j < |g.Srcs(i)|
  {
    && g.Srcs(i)[j] == Some(u) && CanTake(g, i, u)
    && forall k :: 0 <= k < j && g.Srcs(i)[k].Some? ==> !CanTake(g, i, g.Srcs(i)[k].value)
  }

  /** Node `i` has the place of the operand it takes over, or, when there is none, a place in the
      given buffer. */
  ghost predicate NodePlaced(g: Graph, values: seq<HashNode>, i: nat, buffer: nat)
    requires g.InRange() && |values| == |g.tensors| && i < |g.nodes|
  {
    var w := values[g.nodes[i]];
    && (forall u :: 0 <= u < |values| && TakesOver(g, i, u) ==>
      w.buffer == values[u].buffer && w.addr == values[u].addr)
    && ((forall u :: 0 <= u < |values| ==> !TakesOver(g, i, u)) ==> w.buffer == buffer)
  }

  /** The first `n` nodes, leafs and inputs apart, are placed by the ids at their own numbers. */
  ghost predicate NodeBuffers(g: Graph, values: seq<HashNode>, ids: Option<seq<nat>>, n: nat)
    requires g.InRange() && |values| == |g.tensors| && n <= |g.nodes|
  {
    forall i :: 0 <= i < n && g.Plain(g.nodes[i]) && !g.StartBorn(g.nodes[i]) ==> NodeInItsBuffer(g, values, ids, i)
  }

  ghost predicate NodeInItsBuffer(g: Graph, values: seq<HashNode>, ids: Option<seq<nat>>, i: nat)
    requires g.InRange() && |values| == |g.tensors| && i < |g.nodes|
  {
    exists b :: IdAt(ids, i, b) && NodePlaced(g, values, i, b)
  }

  lemma TakenIsBorn(g: Graph, i: nat, u: nat)
    requires g.Ok() && i < |g.nodes| && TakesOver(g, i, u)
    ensures g.Has(u) && g.BornBefore(u, i)
  {
    hide NoLiveView, OnlyUse;
    var j :| 0 <= j < |g.Srcs(i)| && FirstTake(g, i, j, u);
    assert g.IsSource(i, u);
    SourceInBeing(g, i, j, u);
  }

  /** A node's place depends only on those of tensors that are in being by then. */
  lemma NodePlacedKept(g: Graph, v: seq<HashNode>, w: seq<HashNode>, i: nat, buffer: nat)
    requires g.Ok() && |v| == |w| == |g.tensors| && i < |g.nodes| && NodePlaced(g, v, i, buffer)
    requires forall t :: 0 <= t < |v| && g.BornBefore(t, i + 1) ==> v[t].buffer == w[t].buffer && v[t].addr == w[t].addr
    ensures NodePlaced(g, w, i, buffer)
  {
    hide TakesOver;
    assert g.nodes[..i + 1][i] == g.nodes[i];
    forall u | 0 <= u < |w| && TakesOver(g, i, u) ensures v[u].buffer == w[u].buffer && v[u].addr == w[u].addr {
      TakenIsBorn(g, i, u);
      BornLater(g, u, i, i + 1);
    }
  }

  lemma BornLater(g: Graph, r: nat, k: nat, n: nat)
    requires g.InRange() && k <= n <= |g.nodes| && g.BornBefore(r, k)
    ensures g.BornBefore(r, n)
  {
    if r in g.nodes[..k] {
      var m :| 0 <= m < k && g.nodes[m] == r;
      assert g.nodes[..n][m] == r;
    }
  }

  lemma NodeBuffersGrow(g: Graph, v: seq<HashNode>, w: seq<HashNode>, ids: Option<seq<nat>>, i: nat, buffer: nat)
    requires g.Ok() && |v| == |w| == |g.tensors| && i < |g.nodes| && NodeBuffers(g, v, ids, i)
    requires forall t :: 0 <= t < |v| && g.BornBefore(t, i) ==> v[t].buffer == w[t].buffer && v[t].addr == w[t].addr
    requires IdAt(ids, i, buffer)
    requires g.Plain(g.nodes[i]) && !g.StartBorn(g.nodes[i]) ==> NodePlaced(g, w, i, buffer)
    ensures NodeBuffers(g, w, ids, i + 1)
  {
    hide NodePlaced, IdAt, Graph.StartBorn;
    forall k | 0 <= k < i + 1 && g.Plain(g.nodes[k]) && !g.StartBorn(g.nodes[k])
      ensures NodeInItsBuffer(g, w, ids, k)
    {
      if k < i {
        var b :| IdAt(ids, k, b) && NodePlaced(g, v, k, b);
        forall t | 0 <= t < |v| && g.BornBefore(t, k + 1) ensures v[t].buffer == w[t].buffer && v[t].addr == w[t].addr {
          BornLater(g, t, k + 1, i);
        }
        NodePlacedKept(g, v, w, k, b);
      }
    }
  }

  // ------------------------------------------------------ counters and the graph

  lemma {:induction false} UsesInOne(s: seq<Option<nat>>, t: nat)
    ensures UsesIn(s, t) == 1 <==> exists j :: NamedOnce(s, t, j)
  {
    if s != [] {
      var rest := s[1..];
      UsesInOne(rest, t);
      UsesInZero(rest, t);
      if s[0] == Some(t) {
        if UsesIn(s, t) == 1 {
          assert Some(t) !in rest;
          assert forall k :: 1 <= k < |s| ==> s[k] == rest[k - 1];
          assert NamedOnce(s, t, 0);
        }
        if j :| NamedOnce(s, t, j) {
          assert j == 0;
          assert forall k :: 0 <= k < |rest| ==> rest[k] == s[k + 1];
        }
      } else {
        if j :| NamedOnce(rest, t, j) {
          assert forall k :: 1 <= k < |s| ==> s[k] == rest[k - 1];
          assert NamedOnce(s, t, j + 1);
        }
        if j :| NamedOnce(s, t, j) {
          assert forall k :: 0 <= k < |rest| ==> rest[k] == s[k + 1];
          assert NamedOnce(rest, t, j - 1);
        }
      }
    }
  }

  /** One use left, and that at node `i`. */
  lemma OneLeft(g: Graph, i: nat, u: nat)
    requires g.InRange() && i < |g.nodes| && g.IsSource(i, u)
    ensures At(g, i, 0) && (Rem(g, u, i, 0) == 1 <==> OnlyUse(g, i, u))
  {
    assert g.Srcs(i)[0..] == g.Srcs(i);
    UsesInOne(g.Srcs(i), u);
    UsesInZero(g.Srcs(i), u);
    UsesIffSource(g, u, i + 1);
  }

  lemma {:induction false} NoneAlive(g: Graph, i: nat, u: nat, n: nat)
    requires g.InRange() && i <= |g.nodes| && n <= |g.nodes|
    ensures At(g, i, 0)
    ensures ViewCount(g, u, i, 0, n) == 0 <==>
            forall k :: 0 <= k < n && g.CountedView(g.nodes[k], u) ==> ViewIsOver(g, i, g.nodes[k])
  {
    hide ViewIsOver, Undead;
    if n > 0 {
      NoneAlive(g, i, u, n - 1);
      UndeadIsNotOver(g, i, g.nodes[n - 1]);
    }
  }

  lemma UndeadIsNotOver(g: Graph, i: nat, v: nat)
    requires g.InRange() && i <= |g.nodes|
    ensures At(g, i, 0) && (Undead(g, v, i, 0) <==> !ViewIsOver(g, i, v))
  {
    RemStart(g, v, i);
    UsesIffSource(g, v, 0);
    UsesIffSource(g, v, i);
  }

  /** What has been given back before node `i`, in terms of the graph: all that is no output, was
      named as a source or has a counted view, and has neither a use nor a live view left. */
  lemma ReleasedExactly(g: Graph, r: nat, i: nat)
    requires g.InRange() && g.Has(r) && i <= |g.nodes|
    ensures At(g, i, 0)
    ensures Released(g, r, i, 0) <==>
            && !g.tensors[r].output
            && ((exists k :: 0 <= k < |g.nodes| && g.IsSource(k, r))
                || exists k :: 0 <= k < |g.nodes| && g.CountedView(g.nodes[k], r))
            && (forall k :: i <= k < |g.nodes| ==> !g.IsSource(k, r))
            && (forall k :: 0 <= k < |g.nodes| && g.CountedView(g.nodes[k], r) ==> ViewIsOver(g, i, g.nodes[k]))
  {
    hide ViewIsOver, Rem, Uses, ViewCount;
    RemStart(g, r, i);
    UsesIffSource(g, r, 0);
    UsesIffSource(g, r, i);
    NoneAlive(g, i, r, |g.nodes|);
    SomeViews(g, r, |g.nodes|);
  }

  lemma {:induction false} SomeViews(g: Graph, r: nat, n: nat)
    requires g.InRange() && n <= |g.nodes|
    ensures AllViews(g, r, n) > 0 <==> exists k :: 0 <= k < n && g.CountedView(g.nodes[k], r)
  {
    if n > 0 {
      SomeViews(g, r, n - 1);
    }
  }
}
