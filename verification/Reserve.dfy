/** Reserving buffers for a planned graph, and replaying the plan on a later graph. */
module Reserve {
  import opened Options
  import opened FreeList
  import opened Graph
  import opened Arena
  import opened Modular
  import opened Ownership
  import opened Liveness
  import opened Placement
  import opened Planner

  const MAX_SRC: nat := 10

  /** The recorded place of one tensor; buffer -1 for tensors that bring their own memory. */
  datatype TensorAlloc = TensorAlloc(buffer: int, addr: Addr, sizeMax: nat)

  const UNPLACED: TensorAlloc := TensorAlloc(-1, Addr(0, SIZE_MAX), 0)

  datatype NodeAlloc = NodeAlloc(dst: TensorAlloc, srcs: seq<TensorAlloc>)

  predicate FixedSrcs(g: Graph) {
    forall t :: 0 <= t < |g.tensors| ==> |g.tensors[t].srcs| == MAX_SRC
  }

  function Record(g: Graph, be: Backend, values: seq<HashNode>, t: nat): TensorAlloc
    requires g.Has(t) && |values| == |g.tensors| && values[t].buffer < |be.arenaOf|
    requires be.arenaOf[values[t].buffer] < |be.sizes| && t < |be.sizes[be.arenaOf[values[t].buffer]]|
  {
    if g.Plain(t) then TensorAlloc(values[t].buffer, values[t].addr, be.sizes[be.arenaOf[values[t].buffer]][t])
    else UNPLACED
  }

  ghost predicate NodeRecorded(g: Graph, be: Backend, values: seq<HashNode>, i: nat, rec: NodeAlloc)
    requires g.InRange() && be.Ok(g) && NodesOk(g, be, values) && i < |g.nodes|
  {
    && rec.dst == Record(g, be, values, g.nodes[i])
    && |rec.srcs| == |g.Srcs(i)|
    && forall j :: 0 <= j < |rec.srcs| ==>
         rec.srcs[j] == match g.Srcs(i)[j] case Some(s) => Record(g, be, values, s) case None => UNPLACED
  }

  /** The size of real chunk `c` of a buffer; chunks that were never allocated have size 0. */
  function ChunkSize(chunks: seq<nat>, c: nat): nat {
    if c < |chunks| then chunks[c] else 0
  }

  predicate Holds(arena: Arena, chunks: seq<nat>) {
    forall c :: 0 <= c < |arena.chunks| ==> arena.chunks[c].maxSize <= ChunkSize(chunks, c)
  }

  /** The buffer is missing, or one of its chunks is smaller than the allocator's. */
  predicate Wanting(arena: Arena, buffer: Option<seq<nat>>) {
    buffer.None? || !Holds(arena, buffer.value)
  }

  /** The backend refuses memory for a buffer that needs it. */
  predicate RefusedBuffer(be: Backend, arenas: seq<Arena>, buffers: seq<Option<seq<nat>>>, granted: seq<bool>) {
    exists b :: 0 <= b < |granted| && b < |buffers| && b < |be.arenaOf| && be.arenaOf[b] < |arenas|
      && !granted[b] && Wanting(arenas[be.arenaOf[b]], buffers[b])
  }

  /** Every buffer is at least as large as its allocator's high-water marks. */
  predicate BuffersFit(be: Backend, arenas: seq<Arena>, buffers: seq<Option<seq<nat>>>, n: nat) {
    && n <= |be.arenaOf| == |buffers|
    && forall b :: 0 <= b < n ==>
         be.arenaOf[b] < |arenas| && buffers[b].Some? && Holds(arenas[be.arenaOf[b]], buffers[b].value)
  }

  /** The first `n` buffers are done: one whose allocator occurred before shares the buffer there;
      of the others, one that is large enough is kept, and any other is replaced by one with exactly
      the allocator's high-water marks. */
  predicate Enlarged(be: Backend, arenas: seq<Arena>, was: seq<Option<seq<nat>>>, now: seq<Option<seq<nat>>>, n: nat) {
    && n <= |be.arenaOf| == |was| == |now|
    && (forall b :: n <= b < |now| ==> now[b] == was[b])
    && forall b :: 0 <= b < n ==> be.arenaOf[b] < |arenas| && BufferDone(be, arenas, was, now, b)
  }

  predicate BufferDone(be: Backend, arenas: seq<Arena>, was: seq<Option<seq<nat>>>, now: seq<Option<seq<nat>>>, b: nat)
    requires b < |be.arenaOf| == |was| == |now| && be.arenaOf[b] < |arenas|
  {
    var a := be.arenaOf[b];
    && (forall j :: 0 <= j < b && be.arenaOf[j] == a ==> now[b] == now[j])
    && (FirstOfItsKind(be, b) ==>
          if Wanting(arenas[a], was[b]) then now[b].Some? && Marks(arenas[a], now[b].value) else now[b] == was[b])
  }

  predicate FirstOfItsKind(be: Backend, b: nat)
    requires b < |be.arenaOf|
  {
    forall k :: 0 <= k < b ==> be.arenaOf[k] != be.arenaOf[b]
  }

  predicate Marks(arena: Arena, chunks: seq<nat>) {
    |chunks| == |arena.chunks| && forall c :: 0 <= c < |chunks| ==> chunks[c] == arena.chunks[c].maxSize
  }

  // ------------------------------------------------------------ later graphs

  /** Same operations, wiring and flags; layouts, sizes and existing data may differ. */
  ghost predicate SameStructure(g: Graph, h: Graph) {
    && g.nodes == h.nodes && g.leafs == h.leafs && |g.tensors| == |h.tensors|
    && (forall t :: 0 <= t < |g.tensors| ==>
          var x, y := g.tensors[t], h.tensors[t];
          x.op == y.op && x.viewSrc == y.viewSrc && x.srcs == y.srcs && x.input == y.input && x.output == y.output)
  }

  /** The recorded place is good enough for tensor `t` of the new graph. */
  predicate Suits(h: Graph, be: Backend, t: nat, rec: TensorAlloc) {
    h.Plain(t) ==>
      && 0 <= rec.buffer < |be.arenaOf|
      && be.arenaOf[rec.buffer] < |be.sizes| && t < |be.sizes[be.arenaOf[rec.buffer]]|
      && be.sizes[be.arenaOf[rec.buffer]][t] <= rec.sizeMax
  }

  /** The nodes and their sources all suit; leafs are not looked at. */
  ghost predicate Accepts(h: Graph, be: Backend, nodeAllocs: seq<NodeAlloc>, nLeafs: nat)
    requires h.InRange()
  {
    && |nodeAllocs| == |h.nodes| && nLeafs == |h.leafs|
    && forall i :: 0 <= i < |h.nodes| ==> NodeSuits(h, be, i, nodeAllocs[i])
  }

  ghost predicate NodeSuits(h: Graph, be: Backend, i: nat, rec: NodeAlloc)
    requires h.InRange() && i < |h.nodes|
  {
    && Suits(h, be, h.nodes[i], rec.dst)
    && |rec.srcs| == |h.Srcs(i)|
    && forall j :: 0 <= j < |rec.srcs| && h.Srcs(i)[j].Some? ==> Suits(h, be, h.Srcs(i)[j].value, rec.srcs[j])
  }

  /** A node, or a source of one: what the reallocation test looks at. */
  ghost predicate Checked(g: Graph, t: nat)
    requires g.InRange()
  {
    t in g.nodes || exists i :: 0 <= i < |g.nodes| && g.IsSource(i, t)
  }

  /** Leaf `i` is tensor `t`, and its recorded place suits. */
  ghost predicate LeafSuits(h: Graph, bh: Backend, leafAllocs: seq<TensorAlloc>, i: nat, t: nat)
    requires h.InRange()
  {
    i < |h.leafs| && i < |leafAllocs| && h.leafs[i] == t && Suits(h, bh, t, leafAllocs[i])
  }

  /** What a replay can rely on: the tensors the test has looked at, and the leafs that were
      planned and have not grown. */
  ghost predicate Covered(h: Graph, bh: Backend, leafAllocs: seq<TensorAlloc>, t: nat)
    requires h.InRange()
  {
    Checked(h, t) || exists i :: LeafSuits(h, bh, leafAllocs, i, t)
  }

  /** What an accepted graph needs for a node or a source is no more than was planned for it. */
  lemma CheckedSuits(g: Graph, h: Graph, be: Backend, bh: Backend, values: seq<HashNode>,
                     nodeAllocs: seq<NodeAlloc>, nLeafs: nat, t: nat)
    requires g.InRange() && h.InRange() && SameStructure(g, h) && be.Ok(g) && NodesOk(g, be, values)
    requires |nodeAllocs| == |g.nodes| && forall i :: 0 <= i < |g.nodes| ==>
      NodeRecorded(g, be, values, i, nodeAllocs[i])
    requires Accepts(h, bh, nodeAllocs, nLeafs) && bh.arenaOf == be.arenaOf
    requires Checked(h, t) && h.Plain(t)
    ensures g.Plain(t)
    ensures var a := be.arenaOf[values[t].buffer];
            a < |bh.sizes| && t < |bh.sizes[a]| && bh.sizes[a][t] <= be.sizes[a][t]
  {
    if t in h.nodes {
      var i :| 0 <= i < |h.nodes| && h.nodes[i] == t;
      assert NodeSuits(h, bh, i, nodeAllocs[i]) && NodeRecorded(g, be, values, i, nodeAllocs[i]);
    } else {
      var i :| 0 <= i < |h.nodes| && h.IsSource(i, t);
      var j :| 0 <= j < |h.Srcs(i)| && h.Srcs(i)[j] == Some(t);
      assert g.Srcs(i) == h.Srcs(i);
      assert NodeSuits(h, bh, i, nodeAllocs[i]) && NodeRecorded(g, be, values, i, nodeAllocs[i]);
    }
  }

  /** For a graph of the same structure the test is exact: it is accepted if and only if every node
      and source without memory of its own was planned and needs no more than it did then. */
  lemma AcceptsExactly(g: Graph, h: Graph, be: Backend, bh: Backend, values: seq<HashNode>,
                       nodeAllocs: seq<NodeAlloc>, leafAllocs: seq<TensorAlloc>)
    requires g.InRange() && h.InRange() && SameStructure(g, h) && be.Ok(g) && bh.Ok(h)
    requires Recorded(g, be, values, nodeAllocs, leafAllocs)
    requires bh.arenaOf == be.arenaOf && bh.alignments == be.alignments
    ensures Accepts(h, bh, nodeAllocs, |leafAllocs|) <==>
            forall t :: 0 <= t < |h.tensors| && Checked(h, t) && h.Plain(t) ==> PlannedEnough(g, be, bh, values, t)
  {
    hide NodeRecorded, NodeSuits, Checked;
    if Accepts(h, bh, nodeAllocs, |leafAllocs|) {
      forall t | 0 <= t < |h.tensors| && Checked(h, t) && h.Plain(t) ensures PlannedEnough(g, be, bh, values, t) {
        CheckedSuits(g, h, be, bh, values, nodeAllocs, |leafAllocs|, t);
      }
    }
    if forall t :: 0 <= t < |h.tensors| && Checked(h, t) && h.Plain(t) ==> PlannedEnough(g, be, bh, values, t) {
      forall i | 0 <= i < |h.nodes| ensures NodeSuits(h, bh, i, nodeAllocs[i]) {
        EnoughSuits(g, h, be, bh, values, i, nodeAllocs[i]);
      }
    }
  }

  /** The tensor had no memory of its own when it was planned, and got at least what it needs now. */
  ghost predicate PlannedEnough(g: Graph, be: Backend, bh: Backend, values: seq<HashNode>, t: nat)
    requires g.InRange() && be.Ok(g) && NodesOk(g, be, values)
  {
    && g.Plain(t)
    && var a := be.arenaOf[values[t].buffer];
       a < |bh.sizes| && t < |bh.sizes[a]| && bh.sizes[a][t] <= be.sizes[a][t]
  }

  lemma EnoughSuits(g: Graph, h: Graph, be: Backend, bh: Backend, values: seq<HashNode>, i: nat, rec: NodeAlloc)
    requires g.InRange() && h.InRange() && SameStructure(g, h) && be.Ok(g) && NodesOk(g, be, values)
    requires i < |g.nodes| && NodeRecorded(g, be, values, i, rec) && bh.arenaOf == be.arenaOf
    requires forall t :: 0 <= t < |h.tensors| && Checked(h, t) && h.Plain(t) ==> PlannedEnough(g, be, bh, values, t)
    ensures NodeSuits(h, bh, i, rec)
  {
    assert Checked(h, h.nodes[i]);
    forall j | 0 <= j < |rec.srcs| && h.Srcs(i)[j].Some? ensures Suits(h, bh, h.Srcs(i)[j].value, rec.srcs[j]) {
      assert h.IsSource(i, h.Srcs(i)[j].value);
      assert Checked(h, h.Srcs(i)[j].value);
    }
  }

  lemma CoveredSuits(g: Graph, h: Graph, be: Backend, bh: Backend, values: seq<HashNode>,
                     nodeAllocs: seq<NodeAlloc>, leafAllocs: seq<TensorAlloc>, t: nat)
    requires g.InRange() && h.InRange() && SameStructure(g, h) && be.Ok(g)
    requires Recorded(g, be, values, nodeAllocs, leafAllocs)
    requires Accepts(h, bh, nodeAllocs, |leafAllocs|) && bh.arenaOf == be.arenaOf
    requires Covered(h, bh, leafAllocs, t) && h.Plain(t)
    ensures g.Plain(t)
    ensures var a := be.arenaOf[values[t].buffer];
            a < |bh.sizes| && t < |bh.sizes[a]| && bh.sizes[a][t] <= be.sizes[a][t]
  {
    hide NodeRecorded, Accepts, Checked;
    if Checked(h, t) {
      CheckedSuits(g, h, be, bh, values, nodeAllocs, |leafAllocs|, t);
    } else {
      var i: nat :| LeafSuits(h, bh, leafAllocs, i, t);
      assert leafAllocs[i] == Record(g, be, values, t);
    }
  }

  /** Whatever the plan covers exists by the time the last node runs. */
  lemma CoveredIsBorn(g: Graph, h: Graph, bh: Backend, leafAllocs: seq<TensorAlloc>, t: nat)
    requires g.Ok() && h.InRange() && SameStructure(g, h) && g.Plain(t)
    requires Checked(h, t) || t in h.leafs
    ensures g.BornBefore(t, |g.nodes|)
  {
    assert g.nodes[..|g.nodes|] == g.nodes;
    if t !in h.nodes && t !in h.leafs {
      var i :| 0 <= i < |h.nodes| && h.IsSource(i, t);
      assert g.IsSource(i, t);
    }
  }

  /** A leaf that brought its own memory when the plan was made and has none now. */
  ghost predicate LostLeaf(h: Graph, leafAllocs: seq<TensorAlloc>)
    requires h.InRange()
  {
    exists i :: 0 <= i < |h.leafs| && i < |leafAllocs| && h.Plain(h.leafs[i]) && leafAllocs[i].buffer < 0
  }

  /** The real chunk has room for tensor `t` at its recorded place. */
  predicate Room(bh: Backend, buffers: seq<Option<seq<nat>>>, t: nat, rec: TensorAlloc) {
    && 0 <= rec.buffer < |bh.arenaOf| && rec.buffer < |buffers| && buffers[rec.buffer].Some?
    && bh.arenaOf[rec.buffer] < |bh.sizes| && t < |bh.sizes[bh.arenaOf[rec.buffer]]|
    && rec.addr.offset + bh.sizes[bh.arenaOf[rec.buffer]][t] <= ChunkSize(buffers[rec.buffer].value, rec.addr.chunk)
  }

  /** A planned leaf that would reach past the end of its real chunk now. */
  ghost predicate Outgrown(h: Graph, bh: Backend, buffers: seq<Option<seq<nat>>>, leafAllocs: seq<TensorAlloc>)
    requires h.InRange()
  {
    exists i :: 0 <= i < |h.leafs| && i < |leafAllocs| && h.Plain(h.leafs[i]) && leafAllocs[i].buffer >= 0
      && !Room(bh, buffers, h.leafs[i], leafAllocs[i])
  }

  /** A plan suits the graph it was made for, leafs included. */
  lemma OwnPlanSuits(g: Graph, be: Backend, values: seq<HashNode>, nodeAllocs: seq<NodeAlloc>,
                     leafAllocs: seq<TensorAlloc>)
    requires g.InRange() && be.Ok(g) && Recorded(g, be, values, nodeAllocs, leafAllocs)
    ensures Accepts(g, be, nodeAllocs, |leafAllocs|) && !LostLeaf(g, leafAllocs)
    ensures forall t :: t in g.leafs ==> Covered(g, be, leafAllocs, t)
  {
    forall i | 0 <= i < |g.nodes| ensures NodeSuits(g, be, i, nodeAllocs[i]) {
      assert NodeRecorded(g, be, values, i, nodeAllocs[i]);
    }
    forall t | t in g.leafs ensures Covered(g, be, leafAllocs, t) {
      var i :| 0 <= i < |g.leafs| && g.leafs[i] == t;
      assert LeafSuits(g, be, leafAllocs, i, t);
    }
  }

  // ------------------------------------------------------- safety of a replay

  /** The operand region a node shares is one that nothing reads afterwards. */
  ghost predicate LastReader(h: Graph, k: nat, r: nat)
    requires h.InRange() && k < |h.nodes| && h.Has(r)
  {
    && h.IsSource(k, r)
    && h.tensors[h.nodes[k]].op == Inplace
    && !h.tensors[r].output
    && !h.ReadFrom(k + 1, r)
  }

  /** The non-overlap guarantee for the new graph in the places of the old plan. */
  ghost predicate ReplaySafe(h: Graph, bh: Backend, values: seq<HashNode>, leafAllocs: seq<TensorAlloc>)
    requires h.InRange() && bh.Ok(h) && NodesOk(h, bh, values)
  {
    && (forall k, r :: 0 <= k < |h.nodes| && 0 <= r < |h.tensors|
          && h.Plain(h.nodes[k]) && h.Plain(r) && Covered(h, bh, leafAllocs, r) && r != h.nodes[k] && h.BornBefore(r, k)
          && Needed(h, k, r)
          ==> Apart(PlaceOf(h, bh, values, h.nodes[k]), PlaceOf(h, bh, values, r)) || LastReader(h, k, r))
    && (forall r, u :: 0 <= r < |h.tensors| && 0 <= u < |h.tensors| && r != u
          && StartCovered(h, bh, leafAllocs, r) && StartCovered(h, bh, leafAllocs, u)
          ==> Apart(PlaceOf(h, bh, values, r), PlaceOf(h, bh, values, u)))
  }

  /** A planned leaf or input that the plan covers. */
  ghost predicate StartCovered(h: Graph, bh: Backend, leafAllocs: seq<TensorAlloc>, r: nat)
    requires h.InRange()
  {
    h.Plain(r) && h.StartBorn(r) && Covered(h, bh, leafAllocs, r)
  }

  lemma SameReads(g: Graph, h: Graph, k: nat, r: nat)
    requires g.InRange() && h.InRange() && SameStructure(g, h) && k <= |g.nodes|
    ensures g.ReadFrom(k, r) <==> h.ReadFrom(k, r)
    ensures g.BornBefore(r, k) <==> h.BornBefore(r, k)
  {
    forall i, s | 0 <= i < |g.nodes| && g.Has(s)
      ensures g.IsSource(i, s) <==> h.IsSource(i, s)
      ensures g.Root(s) == h.Root(s)
    {
    }
    forall i | 0 <= i < |g.nodes| ensures g.Reads(i, r) <==> h.Reads(i, r) {
      if g.Reads(i, r) {
        var s :| g.Has(s) && g.IsSource(i, s) && g.Root(s) == r;
        assert h.IsSource(i, s);
      }
      if h.Reads(i, r) {
        var s :| h.Has(s) && h.IsSource(i, s) && h.Root(s) == r;
        assert g.IsSource(i, s);
      }
    }
    if g.ReadFrom(k, r) {
      var i :| k <= i < |g.nodes| && g.Reads(i, r);
      assert h.Reads(i, r);
    }
    if h.ReadFrom(k, r) {
      var i :| k <= i < |h.nodes| && h.Reads(i, r);
      assert g.Reads(i, r);
    }
    SameStart(g, h, r);
  }

  lemma SameStart(g: Graph, h: Graph, r: nat)
    requires g.InRange() && h.InRange() && SameStructure(g, h)
    ensures g.StartBorn(r) <==> h.StartBorn(r)
  {
    assert forall i :: 0 <= i < |g.nodes| ==> (g.IsSource(i, r) <==> h.IsSource(i, r));
  }

  /** Smaller regions at the same places stay apart. */
  lemma ShrunkApart(p: Place, q: Place, p': Place, q': Place)
    requires Apart(p, q)
    requires p'.arena == p.arena && p'.addr == p.addr && p'.size <= p.size
    requires q'.arena == q.arena && q'.addr == q.addr && q'.size <= q.size
    ensures Apart(p', q')
  {
  }

  /** A graph the reallocation test lets through is as safe in the old places as the planned one. */
  lemma ReplayIsSafe(g: Graph, h: Graph, be: Backend, bh: Backend, values: seq<HashNode>,
                     nodeAllocs: seq<NodeAlloc>, leafAllocs: seq<TensorAlloc>)
    requires g.Ok() && h.InRange() && SameStructure(g, h)
    requires be.Ok(g) && bh.Ok(h) && bh.arenaOf == be.arenaOf && bh.alignments == be.alignments
    requires Recorded(g, be, values, nodeAllocs, leafAllocs) && NoClobber(g, be, values)
    requires Accepts(h, bh, nodeAllocs, |leafAllocs|)
    ensures NodesOk(h, bh, values) && ReplaySafe(h, bh, values, leafAllocs)
  {
    hide NodeRecorded, Accepts, Covered, Needed, StartCovered;
    forall k, r | 0 <= k < |h.nodes| && 0 <= r < |h.tensors|
      && h.Plain(h.nodes[k]) && h.Plain(r) && Covered(h, bh, leafAllocs, r) && r != h.nodes[k] && h.BornBefore(r, k)
      && Needed(h, k, r)
      ensures Apart(PlaceOf(h, bh, values, h.nodes[k]), PlaceOf(h, bh, values, r)) || LastReader(h, k, r)
    {
      ReplayPair(g, h, be, bh, values, nodeAllocs, leafAllocs, k, r);
    }
    forall r, u | 0 <= r < |h.tensors| && 0 <= u < |h.tensors| && r != u && StartCovered(h, bh, leafAllocs, r)
      && StartCovered(h, bh, leafAllocs, u)
      ensures Apart(PlaceOf(h, bh, values, r), PlaceOf(h, bh, values, u))
    {
      ReplayStarts(g, h, be, bh, values, nodeAllocs, leafAllocs, r, u);
    }
  }

  lemma ReplayStarts(g: Graph, h: Graph, be: Backend, bh: Backend, values: seq<HashNode>,
                     nodeAllocs: seq<NodeAlloc>, leafAllocs: seq<TensorAlloc>, r: nat, u: nat)
    requires g.Ok() && h.InRange() && SameStructure(g, h)
    requires be.Ok(g) && bh.Ok(h) && bh.arenaOf == be.arenaOf && bh.alignments == be.alignments
    requires Recorded(g, be, values, nodeAllocs, leafAllocs) && StartsApart(g, be, values)
    requires Accepts(h, bh, nodeAllocs, |leafAllocs|) && h.Has(r) && h.Has(u) && r != u
    requires StartCovered(h, bh, leafAllocs, r) && StartCovered(h, bh, leafAllocs, u)
    ensures Apart(PlaceOf(h, bh, values, r), PlaceOf(h, bh, values, u))
  {
    hide NodeRecorded, Accepts, Graph.StartBorn, Covered, Apart;
    SameStart(g, h, r);
    SameStart(g, h, u);
    CoveredSuits(g, h, be, bh, values, nodeAllocs, leafAllocs, r);
    CoveredSuits(g, h, be, bh, values, nodeAllocs, leafAllocs, u);
    ShrunkApart(PlaceOf(g, be, values, r), PlaceOf(g, be, values, u),
                PlaceOf(h, bh, values, r), PlaceOf(h, bh, values, u));
  }

  lemma ReplayPair(g: Graph, h: Graph, be: Backend, bh: Backend, values: seq<HashNode>,
                   nodeAllocs: seq<NodeAlloc>, leafAllocs: seq<TensorAlloc>, k: nat, r: nat)
    requires g.Ok() && h.InRange() && SameStructure(g, h)
    requires be.Ok(g) && bh.Ok(h) && bh.arenaOf == be.arenaOf && bh.alignments == be.alignments
    requires Recorded(g, be, values, nodeAllocs, leafAllocs) && NoClobber(g, be, values)
    requires Accepts(h, bh, nodeAllocs, |leafAllocs|)
    requires k < |h.nodes| && h.Has(r) && h.Plain(h.nodes[k]) && h.Plain(r) && Covered(h, bh, leafAllocs, r)
    requires r != h.nodes[k] && h.BornBefore(r, k) && Needed(h, k, r)
    ensures Apart(PlaceOf(h, bh, values, h.nodes[k]), PlaceOf(h, bh, values, r)) || LastReader(h, k, r)
  {
    hide NodeRecorded, Accepts, Graph.ReadFrom, Graph.BornBefore;
    SameReads(g, h, 0, r);
    SameReads(g, h, k, r);
    SameReads(g, h, k + 1, r);
    CoveredSuits(g, h, be, bh, values, nodeAllocs, leafAllocs, r);
    CoveredSuits(g, h, be, bh, values, nodeAllocs, leafAllocs, h.nodes[k]);
    assert ClearOf(g, be, values, k, r);
    if Apart(PlaceOf(g, be, values, g.nodes[k]), PlaceOf(g, be, values, r)) {
      ShrunkApart(PlaceOf(g, be, values, g.nodes[k]), PlaceOf(g, be, values, r),
                  PlaceOf(h, bh, values, h.nodes[k]), PlaceOf(h, bh, values, r));
    } else {
      assert ReusedInPlace(g, k, r);
      assert h.Srcs(k) == g.Srcs(k);
    }
  }

  /** The region lies inside the real chunk it is placed in. */
  predicate InsideBuffer(buffers: seq<Option<seq<nat>>>, buffer: nat, addr: Addr, size: nat) {
    && buffer < |buffers| && buffers[buffer].Some?
    && addr.chunk < |buffers[buffer].value|
    && addr.offset + size <= buffers[buffer].value[addr.chunk]
  }

  lemma FitsInside(be: Backend, arenas: seq<Arena>, buffers: seq<Option<seq<nat>>>, buffer: nat, p: Place, size: nat)
    requires buffer < |be.arenaOf| && p.arena == be.arenaOf[buffer]
    requires BuffersFit(be, arenas, buffers, |be.arenaOf|) && FitsIn(arenas, p) && 0 < size <= p.size
    ensures InsideBuffer(buffers, buffer, p.addr, size)
  {
    assert Holds(arenas[p.arena], buffers[buffer].value);
  }

  /** The tensor needs as much in one backend as in the other. */
  predicate SameSizes(b: Backend, c: Backend, t: nat) {
    |b.sizes| == |c.sizes| && forall a :: 0 <= a < |b.sizes| ==>
      |b.sizes[a]| == |c.sizes[a]| && (t < |b.sizes[a]| ==> b.sizes[a][t] == c.sizes[a][t])
  }

  /** The reallocation test only sees nodes and their sources: graphs that agree on these pass
      or fail together, whatever has become of the other leafs. */
  lemma LeafsAreNotChecked(h: Graph, k: Graph, bh: Backend, bk: Backend, nodeAllocs: seq<NodeAlloc>, nLeafs: nat)
    requires h.InRange() && k.InRange() && h.nodes == k.nodes && |h.leafs| == |k.leafs| && |h.tensors| == |k.tensors|
    requires bh.arenaOf == bk.arenaOf
    requires forall t :: 0 <= t < |h.tensors| && Checked(h, t) ==> h.tensors[t] == k.tensors[t] && SameSizes(bh, bk, t)
    ensures Accepts(h, bh, nodeAllocs, nLeafs) <==> Accepts(k, bk, nodeAllocs, nLeafs)
  {
    if |nodeAllocs| == |h.nodes| {
      forall i | 0 <= i < |h.nodes| ensures NodeSuits(h, bh, i, nodeAllocs[i]) <==> NodeSuits(k, bk, i, nodeAllocs[i]) {
        assert Checked(h, h.nodes[i]);
        forall j | 0 <= j < |h.Srcs(i)| && h.Srcs(i)[j].Some? ensures Checked(h, h.Srcs(i)[j].value) {
          assert h.IsSource(i, h.Srcs(i)[j].value);
        }
      }
    }
  }

  /** A graph of one leaf and nothing else. */
  function OneLeaf(): Graph {
    Graph([Tensor(NoOp, Layout(0, [], []), None, seq(MAX_SRC, _ => None), false, false, false)], [], [0])
  }

  function OneLeafBackend(alignment: nat, size: nat): Backend {
    Backend([0], [alignment], [[size]])
  }

  lemma OneLeafOk(alignment: nat, size: nat)
    requires 0 < alignment && 0 < size <= HALF && Multiple(size, alignment)
    ensures OneLeaf().Ok() && OneLeaf().Plain(0) && OneLeafBackend(alignment, size).Ok(OneLeaf())
    ensures !Checked(OneLeaf(), 0)
  {
    hide Multiple;
  }

  /** Why the size of a leaf no node reads matters: plan one of size `size`, let it grow to any
      size `now`, and the test still accepts the graph, but its placement aborts. */
  lemma GrownLeafEscapes(alignment: nat, maxSize: nat, size: nat, now: nat)
    requires 0 < alignment && 0 < size < now <= HALF && Multiple(size, alignment) && Multiple(now, alignment)
    ensures var g, be, bh := OneLeaf(), OneLeafBackend(alignment, size), OneLeafBackend(alignment, now);
            var values := [HashNode(0, 0, 0, Addr(0, 0), true)];
            var leafAllocs := [TensorAlloc(0, Addr(0, 0), size)];
            var buffers := [Some([size])];
            && g.Ok() && be.Ok(g) && bh.Ok(g) && Recorded(g, be, values, [], leafAllocs) && NoClobber(g, be, values)
            && (var r := Alloc(EmptyArena(alignment, maxSize), size);
                r.Some? && r.value.1 == values[0].addr && BuffersFit(be, [r.value.0], buffers, 1))
            && Accepts(g, bh, [], 1) && !LostLeaf(g, leafAllocs) && Outgrown(g, bh, buffers, leafAllocs)
  {
    hide Multiple, Alloc, Pad, Graph.Ok, Backend.Ok, Checked;
    OneLeafOk(alignment, size);
    OneLeafOk(alignment, now);
    PadExact(OneLeafBackend(alignment, size), OneLeaf(), 0, 0);
    FirstAlloc(alignment, if maxSize <= HALF then maxSize else HALF, size);
    OneLeafPlan(alignment, size, now);
    assert !Room(OneLeafBackend(alignment, now), [Some([size])], 0, TensorAlloc(0, Addr(0, 0), size));
  }

  lemma OneLeafPlan(alignment: nat, size: nat, now: nat)
    requires 0 < alignment && 0 < size < now
    requires OneLeaf().Ok() && OneLeafBackend(alignment, size).Ok(OneLeaf())
    ensures var g, be, values := OneLeaf(), OneLeafBackend(alignment, size), [HashNode(0, 0, 0, Addr(0, 0), true)];
            Recorded(g, be, values, [], [TensorAlloc(0, Addr(0, 0), size)]) && NoClobber(g, be, values)
    ensures Accepts(OneLeaf(), OneLeafBackend(alignment, now), [], 1)
  {
    hide Graph.Ok, Backend.Ok;
  }

  /** A leaf that no node reads, and a node that reads nothing. */
  function LeafAndNode(): Graph {
    var none: seq<Option<nat>> := seq(MAX_SRC, _ => None);
    Graph([Tensor(NoOp, Layout(0, [], []), None, none, false, false, false),
           Tensor(OutOfPlace, Layout(0, [], []), None, none, false, false, false)], [1], [0])
  }

  function TwoSizes(alignment: nat, leaf: nat, node: nat): Backend {
    Backend([0], [alignment], [[leaf, node]])
  }

  function LeafThenNode(size: nat): seq<HashNode> {
    [HashNode(0, 0, 0, Addr(0, 0), true), HashNode(0, 0, 0, Addr(0, size), true)]
  }

  function NodePlan(size: nat, node: nat): seq<NodeAlloc> {
    [NodeAlloc(TensorAlloc(0, Addr(0, size), node), seq(MAX_SRC, _ => UNPLACED))]
  }

  /** The silent case: with other memory behind it, a grown leaf that is still needed stays
      inside its chunk and is placed, and the node that lies there writes over it. */
  lemma GrownLeafOverlaps(alignment: nat, maxSize: nat, size: nat, node: nat, now: nat)
    requires 0 < alignment && 0 < size < now <= size + node && size + node <= maxSize && size + node <= HALF
    requires Multiple(size, alignment) && Multiple(now, alignment) && Multiple(node, alignment)
    ensures var g, be, bh := LeafAndNode(), TwoSizes(alignment, size, node), TwoSizes(alignment, now, node);
            var values, leafAllocs, buffers := LeafThenNode(size), [TensorAlloc(0, Addr(0, 0), size)],
              [Some([size + node])];
            && g.Ok() && be.Ok(g) && bh.Ok(g) && Recorded(g, be, values, NodePlan(size, node), leafAllocs)
            && NoClobber(g, be, values)
            && (var a := Alloc(EmptyArena(alignment, maxSize), size);
                && a.Some? && a.value.1 == values[0].addr
                && var b := Alloc(a.value.0, node);
                   b.Some? && b.value.1 == values[1].addr && BuffersFit(be, [b.value.0], buffers, 1))
            && Accepts(g, bh, NodePlan(size, node), 1)
            && !LostLeaf(g, leafAllocs) && !Outgrown(g, bh, buffers, leafAllocs)
            && Needed(g, 0, 0) && g.BornBefore(0, 0)
            && !Apart(PlaceOf(g, bh, values, g.nodes[0]), PlaceOf(g, bh, values, 0)) && !LastReader(g, 0, 0)
  {
    hide Multiple, Alloc, Pad, Graph.Ok, Backend.Ok, NoClobber, Recorded, Accepts, Graph.ReadFrom;
    LeafAndNodeOk(alignment, size, node);
    LeafAndNodeOk(alignment, now, node);
    PadExact(TwoSizes(alignment, size, node), LeafAndNode(), 0, 0);
    PadExact(TwoSizes(alignment, size, node), LeafAndNode(), 0, 1);
    TwoAllocs(alignment, if maxSize <= HALF then maxSize else HALF, size, node);
    LeafAndNodePlan(alignment, size, node, now);
    NothingRead();
    assert !LastReader(LeafAndNode(), 0, 0) by { assert !LeafAndNode().IsSource(0, 0); }
    assert !Apart(Place(0, Addr(0, size), node), Place(0, Addr(0, 0), now));
  }

  lemma LeafAndNodeOk(alignment: nat, size: nat, node: nat)
    requires 0 < alignment && 0 < size <= HALF && 0 < node <= HALF
    requires Multiple(size, alignment) && Multiple(node, alignment)
    ensures LeafAndNode().Ok() && TwoSizes(alignment, size, node).Ok(LeafAndNode())
  {
    hide Multiple, Graph.Ok;
    LeafAndNodeGraph();
  }

  lemma LeafAndNodeGraph()
    ensures LeafAndNode().Ok()
  {
    hide Graph.Ok;
    SourcelessOk(LeafAndNode());
  }

  lemma SourcelessOk(g: Graph)
    requires |g.tensors| == 2 && g.nodes == [1] && g.leafs == [0] && g.tensors[0].op == NoOp
    requires forall t :: 0 <= t < 2 ==> g.tensors[t].viewSrc.None? && !g.tensors[t].input
    requires forall t, j :: 0 <= t < 2 && 0 <= j < |g.tensors[t].srcs| ==> g.tensors[t].srcs[j].None?
    ensures g.Ok()
  {
  }

  lemma NothingRead()
    ensures LeafAndNode().InRange() && !LeafAndNode().ReadFrom(0, 0)
  {
    assert forall s :: !LeafAndNode().IsSource(0, s);
  }

  lemma LeafAndNodePlan(alignment: nat, size: nat, node: nat, now: nat)
    requires 0 < alignment && 0 < size && 0 < node
    requires LeafAndNode().Ok() && TwoSizes(alignment, size, node).Ok(LeafAndNode())
    ensures Recorded(LeafAndNode(), TwoSizes(alignment, size, node), LeafThenNode(size), NodePlan(size, node),
                     [TensorAlloc(0, Addr(0, 0), size)])
    ensures NoClobber(LeafAndNode(), TwoSizes(alignment, size, node), LeafThenNode(size))
    ensures Accepts(LeafAndNode(), TwoSizes(alignment, now, node), NodePlan(size, node), 1)
  {
    hide Graph.Ok, Backend.Ok, Graph.ReadFrom;
  }

  /** The second region of an allocator with room for both follows the first. */
  lemma TwoAllocs(alignment: nat, maxChunkSize: nat, size: nat, node: nat)
    requires 0 < alignment && 0 < size && 0 < node && size + node <= maxChunkSize <= HALF
    requires Pad(size, alignment) == size && Pad(node, alignment) == node
    ensures var a := Alloc(Arena(alignment, maxChunkSize, []), size);
            && a.Some? && a.value.1 == Addr(0, 0)
            && var b := Alloc(a.value.0, node);
               && b.Some? && b.value.1 == Addr(0, size)
               && |b.value.0.chunks| == 1 && b.value.0.chunks[0].maxSize == size + node
  {
    hide Pad;
    var rest := Arena(alignment, maxChunkSize, [Chunk([Block(size, maxChunkSize - size)], size, maxChunkSize)]);
    var whole := Arena(alignment, maxChunkSize, [Chunk([Block(0, maxChunkSize)], 0, maxChunkSize)]);
    assert [] + whole.chunks == whole.chunks;
    assert Choose(Arena(alignment, maxChunkSize, []), size) == Some(Choice(whole, 0, 0));
    assert Carve([Block(0, maxChunkSize)], 0, size) == rest.chunks[0].free;
    assert whole.chunks[0 := CarveChunk(whole.chunks[0], 0, size)] == rest.chunks;
    assert Alloc(Arena(alignment, maxChunkSize, []), size) == Some((rest, Addr(0, 0)));
    assert LastFit(rest.chunks, node, 1) == Some(0) && InnerFit(rest.chunks, node, 1) == None;
  }

  /** The first region of an empty allocator starts its first chunk. */
  lemma FirstAlloc(alignment: nat, maxChunkSize: nat, size: nat)
    requires 0 < alignment && 0 < size <= HALF && Pad(size, alignment) == size
    ensures var r := Alloc(Arena(alignment, maxChunkSize, []), size);
            && r.Some? && r.value.1 == Addr(0, 0)
            && |r.value.0.chunks| == 1 && r.value.0.chunks[0].maxSize == size
  {
  }

  // -------------------------------------------------------------- the allocator

  /** What becomes of a graph: no plan does for it, placing a tensor aborts (or looks a buffer
      up under the id -1), or every planned tensor has its address. */
  datatype Outcome = Refused | Stuck | Placed(data: seq<Option<(nat, Addr)>>)

  class GraphAllocator {
    const planner: Gallocr
    var nodeAllocs: seq<NodeAlloc>
    var leafAllocs: seq<TensorAlloc>
    var buffers: seq<Option<seq<nat>>>

    constructor (be: Backend, maxSizes: seq<nat>)
      requires |maxSizes| == |be.alignments| && forall a :: 0 <= a < |be.alignments| ==> be.alignments[a] > 0
      ensures fresh(planner) && Ready(be)
    {
      planner := new Gallocr(be, maxSizes);
      nodeAllocs, leafAllocs := [], [];
      buffers := seq(|be.arenaOf|, _ => None);
    }

    /** Allocators match the backend, and there is a slot for every buffer. */
    predicate Ready(be: Backend)
      reads this, planner
    {
      && |planner.arenas| == |be.alignments|
      && (forall a :: 0 <= a < |planner.arenas| ==> Fitting(be, a, planner.arenas[a]))
      && |buffers| == |be.arenaOf|
      && RecordsInRange(be, nodeAllocs)
    }

    /** The plan for `g` is in force: it is safe, recorded, and fits the real buffers. */
    ghost predicate Reserved(g: Graph, be: Backend)
      reads this, planner
      requires g.Ok() && be.Ok(g)
    {
      && planner.Inv(g, be)
      && NoClobber(g, be, planner.values)
      && BornFit(g, be, planner.values, planner.arenas, |g.nodes|)
      && Recorded(g, be, planner.values, nodeAllocs, leafAllocs)
      && BuffersFit(be, planner.arenas, buffers, |be.arenaOf|)
    }

    /** Plans the graph, records all places, and enlarges buffers where needed. `granted[b]`
        says whether the backend can provide memory for buffer `b`. */
    method ReserveN(g: Graph, be: Backend, nodeBuffers: Option<seq<nat>>, leafBuffers: Option<seq<nat>>,
                    granted: seq<bool>)
      returns (ok: bool)
      requires g.Ok() && be.Ok(g) && FixedSrcs(g) && Ready(be) && |granted| == |be.arenaOf|
      requires BuffersOk(be, nodeBuffers, |g.nodes|) && BuffersOk(be, leafBuffers, |g.leafs|)
      modifies this, planner
      ensures ok ==> Reserved(g, be) && Ready(be)
      ensures ok ==> InItsBuffers(g, planner.values, nodeBuffers, leafBuffers)
      ensures ok ==> Enlarged(be, planner.arenas, old(buffers), buffers, |be.arenaOf|)
      ensures !ok ==> Blocked(g, be, planner.arenas) || RefusedBuffer(be, planner.arenas, buffers, granted)
    {
      hide Blocked, RefusedBuffer, InItsBuffers, Enlarged;
      planner.ResetArenas(be);
      ok := planner.AllocGraphImpl(g, be, nodeBuffers, leafBuffers);
      if !ok {
        return;
      }
      RecordAll(g, be);
      ok := EnlargeBuffers(be, granted);
      RecordsRange(g, be, planner.values, nodeAllocs);
    }

    method RecordAll(g: Graph, be: Backend)
      requires g.Ok() && be.Ok(g) && NodesOk(g, be, planner.values)
      modifies this`nodeAllocs, this`leafAllocs
      ensures Recorded(g, be, planner.values, nodeAllocs, leafAllocs)
    {
      hide NodeRecorded, Record;
      nodeAllocs := [];
      for i := 0 to |g.nodes|
        invariant |nodeAllocs| == i
        invariant forall k :: 0 <= k < i ==> NodeRecorded(g, be, planner.values, k, nodeAllocs[k])
      {
        var rec := RecordNode(g, be, i);
        nodeAllocs := nodeAllocs + [rec];
      }
      leafAllocs := [];
      ghost var done := nodeAllocs;
      for i := 0 to |g.leafs|
        invariant |leafAllocs| == i && nodeAllocs == done
        invariant forall k :: 0 <= k < i ==> leafAllocs[k] == Record(g, be, planner.values, g.leafs[k])
      {
        leafAllocs := leafAllocs + [Record(g, be, planner.values, g.leafs[i])];
      }
    }

    method RecordNode(g: Graph, be: Backend, i: nat) returns (rec: NodeAlloc)
      requires g.Ok() && be.Ok(g) && NodesOk(g, be, planner.values) && i < |g.nodes|
      ensures NodeRecorded(g, be, planner.values, i, rec)
    {
      hide Record;
      var srcs := g.Srcs(i);
      var recs := [];
      for j := 0 to |srcs|
        invariant |recs| == j
        invariant forall k :: 0 <= k < j ==>
          recs[k] == match srcs[k] case Some(s) => Record(g, be, planner.values, s) case None => UNPLACED
      {
        recs := recs + [if srcs[j].Some? then Record(g, be, planner.values, srcs[j].value) else UNPLACED];
      }
      rec := NodeAlloc(Record(g, be, planner.values, g.nodes[i]), recs);
    }

    method EnlargeBuffers(be: Backend, granted: seq<bool>) returns (ok: bool)
      requires |buffers| == |be.arenaOf| == |granted|
      requires forall b :: 0 <= b < |be.arenaOf| ==> be.arenaOf[b] < |planner.arenas|
      modifies this`buffers
      ensures ok ==> BuffersFit(be, planner.arenas, buffers, |be.arenaOf|)
      ensures ok ==> Enlarged(be, planner.arenas, old(buffers), buffers, |be.arenaOf|)
      ensures !ok ==> RefusedBuffer(be, planner.arenas, buffers, granted)
    {
      hide BufferDone;
      ghost var was := buffers;
      for i := 0 to |buffers|
        invariant |buffers| == |be.arenaOf| && BuffersFit(be, planner.arenas, buffers, i)
        invariant Enlarged(be, planner.arenas, was, buffers, i)
      {
        ghost var before := buffers;
        var arena := planner.arenas[be.arenaOf[i]];
        // a buffer type that occurred before shares its buffer
        var j := 0;
        while j < i && be.arenaOf[j] != be.arenaOf[i]
          invariant j <= i && forall k :: 0 <= k < j ==> be.arenaOf[k] != be.arenaOf[i]
        {
          j := j + 1;
        }
        if j < i {
          buffers := buffers[i := buffers[j]];
        }
        var realloc := buffers[i].None?;
        for c := 0 to |arena.chunks|
          invariant buffers[i].None? ==> realloc
          invariant realloc ==> Wanting(arena, buffers[i])
          invariant !realloc ==> forall d :: 0 <= d < c ==> arena.chunks[d].maxSize <= ChunkSize(buffers[i].value, d)
        {
          var have := if buffers[i].Some? then ChunkSize(buffers[i].value, c) else 0;
          if arena.chunks[c].maxSize > have {
            realloc := true;
          }
        }
        if realloc {
          if !granted[i] {
            return false;
          }
          buffers := buffers[i := Some(seq(|arena.chunks|, c requires 0 <= c < |arena.chunks| =>
            arena.chunks[c].maxSize))];
        }
        OneEnlarged(be, planner.arenas, was, before, buffers, i, j);
      }
      return true;
    }

    lemma OneEnlarged(be: Backend, arenas: seq<Arena>, was: seq<Option<seq<nat>>>, before: seq<Option<seq<nat>>>,
                      now: seq<Option<seq<nat>>>, i: nat, j: nat)
      requires Enlarged(be, arenas, was, before, i) && i < |now| == |before| && be.arenaOf[i] < |arenas|
      requires j <= i && be.arenaOf[j] == be.arenaOf[i]
      requires forall k :: 0 <= k < j ==> be.arenaOf[k] != be.arenaOf[i]
      requires forall b :: 0 <= b < |now| && b != i ==> now[b] == before[b]
      requires j < i ==> now[i] == before[j]
      requires j == i ==>
        if Wanting(arenas[be.arenaOf[i]], was[i]) then now[i].Some? && Marks(arenas[be.arenaOf[i]], now[i].value)
        else now[i] == was[i]
      ensures Enlarged(be, arenas, was, now, i + 1)
    {
      hide Wanting, Marks, BufferDone;
      forall b | 0 <= b < i + 1 ensures be.arenaOf[b] < |arenas| && BufferDone(be, arenas, was, now, b) {
        if b < i {
          StaysDone(be, arenas, was, before, now, b);
        } else {
          NowDone(be, arenas, was, before, now, i, j);
        }
      }
    }

    lemma StaysDone(be: Backend, arenas: seq<Arena>, was: seq<Option<seq<nat>>>, before: seq<Option<seq<nat>>>,
                    now: seq<Option<seq<nat>>>, b: nat)
      requires b < |be.arenaOf| == |was| == |before| == |now| && be.arenaOf[b] < |arenas|
      requires BufferDone(be, arenas, was, before, b) && forall k :: 0 <= k <= b ==> now[k] == before[k]
      ensures BufferDone(be, arenas, was, now, b)
    {
      hide Wanting, Marks, FirstOfItsKind;
    }

    lemma NowDone(be: Backend, arenas: seq<Arena>, was: seq<Option<seq<nat>>>, before: seq<Option<seq<nat>>>,
                  now: seq<Option<seq<nat>>>, i: nat, j: nat)
      requires Enlarged(be, arenas, was, before, i) && i < |now| == |before| && be.arenaOf[i] < |arenas|
      requires j <= i && be.arenaOf[j] == be.arenaOf[i]
      requires forall k :: 0 <= k < j ==> be.arenaOf[k] != be.arenaOf[i]
      requires forall b :: 0 <= b < |now| && b != i ==> now[b] == before[b]
      requires j < i ==> now[i] == before[j]
      requires j == i ==>
        if Wanting(arenas[be.arenaOf[i]], was[i]) then now[i].Some? && Marks(arenas[be.arenaOf[i]], now[i].value)
        else now[i] == was[i]
      ensures BufferDone(be, arenas, was, now, i)
    {
      hide Wanting, Marks;
      forall k | 0 <= k < i && be.arenaOf[k] == be.arenaOf[i] ensures now[k] == now[i] {
        assert k >= j;
        assert BufferDone(be, arenas, was, before, k);
      }
    }

    /** Whether the recorded plan does not do for a graph. */
    method NeedsRealloc(h: Graph, bh: Backend) returns (needed: bool)
      requires h.InRange() && FixedSrcs(h) && bh.Ok(h) && RecordsInRange(bh, nodeAllocs)
      ensures needed <==> !Accepts(h, bh, nodeAllocs, |leafAllocs|)
    {
      if |nodeAllocs| != |h.nodes| || |leafAllocs| != |h.leafs| {
        return true;
      }
      for i := 0 to |h.nodes|
        invariant forall k :: 0 <= k < i ==> NodeSuits(h, bh, k, nodeAllocs[k])
      {
        var rec := nodeAllocs[i];
        if !Sufficient(h, bh, h.nodes[i], rec.dst) {
          assert !NodeSuits(h, bh, i, nodeAllocs[i]);
          return true;
        }
        var srcs := h.Srcs(i);
        for j := 0 to |srcs|
          invariant forall k :: 0 <= k < j && srcs[k].Some? ==> Suits(h, bh, srcs[k].value, rec.srcs[k])
        {
          if srcs[j].Some? && !Sufficient(h, bh, srcs[j].value, rec.srcs[j]) {
            assert !NodeSuits(h, bh, i, nodeAllocs[i]);
            return true;
          }
        }
      }
      return false;
    }

    /** Every planned tensor the graph mentions has the place it was planned, inside its buffer,
        and nothing the plan covers is overwritten while needed. */
    ghost predicate PlacedWell(h: Graph, bh: Backend, data: seq<Option<(nat, Addr)>>)
      reads this, planner
      requires h.InRange() && bh.Ok(h)
    {
      && NodesOk(h, bh, planner.values) && |data| == |h.tensors|
      && ReplaySafe(h, bh, planner.values, leafAllocs)
      && (forall t :: 0 <= t < |h.tensors| && h.Plain(t) && (Checked(h, t) || t in h.leafs) ==>
            && data[t] == Some((planner.values[t].buffer, planner.values[t].addr))
            && InsideAt(bh, buffers, planner.values, t))
    }

    /** Finds a place for a graph: the recorded one if the plan does for it, else, with a
        single buffer, by reserving anew for this graph. */
    method AllocGraph(ghost g: Graph, ghost be: Backend, h: Graph, bh: Backend, granted: seq<bool>)
      returns (r: Outcome)
      requires g.Ok() && be.Ok(g) && FixedSrcs(g) && bh.arenaOf == be.arenaOf && bh.alignments == be.alignments
      requires h.Ok() && bh.Ok(h) && FixedSrcs(h) && Ready(bh) && |granted| == |bh.arenaOf|
      requires Accepts(h, bh, nodeAllocs, |leafAllocs|) ==> Reserved(g, be) && SameStructure(g, h)
      modifies this, planner
      ensures old(Accepts(h, bh, nodeAllocs, |leafAllocs|)) ==>
        && unchanged(this) && unchanged(planner) && !r.Refused?
        && (r.Stuck? <==> LostLeaf(h, leafAllocs) || Outgrown(h, bh, buffers, leafAllocs))
      ensures old(!Accepts(h, bh, nodeAllocs, |leafAllocs|)) && |bh.arenaOf| > 1 ==>
        unchanged(this) && unchanged(planner) && r.Refused?
      ensures old(!Accepts(h, bh, nodeAllocs, |leafAllocs|)) && |bh.arenaOf| == 1 ==>
        && !r.Stuck?
        && (r.Placed? ==> Reserved(h, bh) && forall t :: t in h.leafs ==> Covered(h, bh, leafAllocs, t))
        && (r.Refused? ==>
             Blocked(h, bh, planner.arenas) || RefusedBuffer(bh, planner.arenas, buffers, granted))
      ensures r.Placed? ==> PlacedWell(h, bh, r.data) && Ready(bh)
    {
      hide Accepts, Reserved, PlacedWell, Covered, Blocked, RefusedBuffer, SameStructure, LostLeaf, Outgrown,
        RecordsInRange;
      var needed := NeedsRealloc(h, bh);
      if !needed {
        var data := Replay(g, be, h, bh);
        return match data case Some(places) => Placed(places) case None => Stuck;
      }
      if |buffers| != 1 {
        return Refused;
      }
      var ok := ReserveN(h, bh, None, None, granted);
      if !ok {
        return Refused;
      }
      OwnPlan(h, bh);
      var data := Replay(h, bh, h, bh);
      r := Placed(data.value);
    }

    lemma OwnPlan(g: Graph, be: Backend)
      requires g.Ok() && be.Ok(g) && Reserved(g, be)
      ensures SameStructure(g, g) && Accepts(g, be, nodeAllocs, |leafAllocs|)
      ensures !LostLeaf(g, leafAllocs) && !Outgrown(g, be, buffers, leafAllocs)
      ensures forall t :: t in g.leafs ==> Covered(g, be, leafAllocs, t)
    {
      hide NoClobber, BornFit, BuffersFit, Accepts, Covered, Room, InsideAt, Record, NodeRecorded;
      OwnPlanSuits(g, be, planner.values, nodeAllocs, leafAllocs);
      forall i | 0 <= i < |g.leafs| && g.Plain(g.leafs[i]) ensures Room(be, buffers, g.leafs[i], leafAllocs[i]) {
        assert g.leafs[i] in g.leafs;
        CoveredInside(g, be, g, be, g.leafs[i]);
        RoomIsInside(g, g, be, be, planner.values, buffers, g.leafs[i], leafAllocs[i]);
      }
    }

    /** Gives the tensors of a graph the plan does for their recorded places; fails exactly
        when a leaf has lost its memory or has outgrown its chunk. */
    method Replay(ghost g: Graph, ghost be: Backend, h: Graph, bh: Backend)
      returns (data: Option<seq<Option<(nat, Addr)>>>)
      requires g.Ok() && be.Ok(g) && FixedSrcs(g) && Reserved(g, be)
      requires h.InRange() && bh.Ok(h) && SameStructure(g, h) && bh.arenaOf == be.arenaOf
      requires bh.alignments == be.alignments
      requires Accepts(h, bh, nodeAllocs, |leafAllocs|)
      ensures data.None? <==> LostLeaf(h, leafAllocs) || Outgrown(h, bh, buffers, leafAllocs)
      ensures data.Some? ==> PlacedWell(h, bh, data.value)
    {
      hide NoClobber, ArenasOk, Owned, ReplaySafe, Accepts, SameStructure, Checked, NodeRecorded, LostLeaf, Outgrown;
      PlannerNodesOk(g, be);
      forall t | 0 <= t < |h.tensors| && Checked(h, t) && h.Plain(t)
        ensures g.Plain(t) && InsideAt(bh, buffers, planner.values, t)
      {
        CheckedSuits(g, h, be, bh, planner.values, nodeAllocs, |leafAllocs|, t);
        CoveredInside(g, be, h, bh, t);
      }
      ReplayIsSafe(g, h, be, bh, planner.values, nodeAllocs, leafAllocs);
      data := PlaceTensors(g, be, h, bh);
    }

    lemma CoveredInside(g: Graph, be: Backend, h: Graph, bh: Backend, t: nat)
      requires g.Ok() && be.Ok(g) && Reserved(g, be)
      requires h.InRange() && bh.Ok(h) && SameStructure(g, h) && bh.arenaOf == be.arenaOf
      requires Accepts(h, bh, nodeAllocs, |leafAllocs|)
      requires h.Plain(t) && Covered(h, bh, leafAllocs, t)
      ensures NodesOk(h, bh, planner.values) && InsideAt(bh, buffers, planner.values, t)
    {
      hide NoClobber, ArenasOk, Owned, Accepts, BuffersFit, Checked, Graph.BornBefore, NodeRecorded;
      PlannerNodesOk(g, be);
      CoveredSuits(g, h, be, bh, planner.values, nodeAllocs, leafAllocs, t);
      CoveredIsBorn(g, h, bh, leafAllocs, t);
      var p := PlaceOf(g, be, planner.values, t);
      FitsInside(be, planner.arenas, buffers, planner.values[t].buffer, p, bh.sizes[p.arena][t]);
    }

    lemma PlannerNodesOk(g: Graph, be: Backend)
      requires g.Ok() && be.Ok(g) && planner.Inv(g, be)
      ensures NodesOk(g, be, planner.values)
    {
    }

    /** First the leafs, then for each node its sources and the node itself; a tensor that
        has its address by then is left alone. */
    method PlaceTensors(ghost g: Graph, ghost be: Backend, h: Graph, bh: Backend)
      returns (r: Option<seq<Option<(nat, Addr)>>>)
      requires g.Ok() && h.InRange() && SameStructure(g, h) && be.Ok(g) && NodesOk(g, be, planner.values)
      requires bh.Ok(h) && bh.arenaOf == be.arenaOf
      requires FixedSrcs(g) && Recorded(g, be, planner.values, nodeAllocs, leafAllocs)
      requires forall t :: 0 <= t < |h.tensors| && Checked(h, t) && h.Plain(t) ==>
        g.Plain(t) && InsideAt(bh, buffers, planner.values, t)
      ensures r.None? <==> LostLeaf(h, leafAllocs) || Outgrown(h, bh, buffers, leafAllocs)
      ensures r.Some? ==> |r.value| == |h.tensors|
      ensures r.Some? ==> forall t :: 0 <= t < |h.tensors| && h.Plain(t) && (Checked(h, t) || t in h.leafs) ==>
        && r.value[t] == Some((planner.values[t].buffer, planner.values[t].addr))
        && InsideAt(bh, buffers, planner.values, t)
    {
      hide NodeRecorded, Addressed, Settled, Record, InitTensor, InsideAt, Room;
      var data: seq<Option<(nat, Addr)>> := seq(|h.tensors|, _ => None);
      assert Settled(g, bh, buffers, data, planner.values) by { NothingPlaced(g, bh, buffers, data, planner.values); }
      for i := 0 to |h.leafs|
        invariant |data| == |h.tensors|
        invariant Settled(g, bh, buffers, data, planner.values)
        invariant forall k :: 0 <= k < i && h.Plain(h.leafs[k]) ==>
          data[h.leafs[k]].Some? && Room(bh, buffers, h.leafs[k], leafAllocs[k])
      {
        InitStep(g, h, be, bh, buffers, data, planner.values, h.leafs[i], leafAllocs[i]);
        var next := InitTensor(h, bh, buffers, data, h.leafs[i], leafAllocs[i]);
        if next.None? {
          return None;
        }
        data := next.value;
      }
      RoomForAllLeafs(h, bh, buffers, leafAllocs);
      ghost var leafsPlaced := data;
      for i := 0 to |h.nodes|
        invariant |data| == |h.tensors|
        invariant Settled(g, bh, buffers, data, planner.values) && Extends(leafsPlaced, data)
        invariant forall k :: 0 <= k < i ==> Addressed(h, data, k)
      {
        ghost var before := data;
        data := PlaceNodeTensors(g, be, h, bh, data, i);
        forall k | 0 <= k < i ensures Addressed(h, data, k) {
          StillAddressed(h, before, data, k);
        }
      }
      forall t | 0 <= t < |h.tensors| && h.Plain(t) && (Checked(h, t) || t in h.leafs) ensures data[t].Some? {
        WhoIsPlaced(h, leafsPlaced, data, t);
      }
      AddressesAre(g, bh, buffers, data, planner.values);
      return Some(data);
    }

    method PlaceNodeTensors(ghost g: Graph, ghost be: Backend, h: Graph, bh: Backend,
                            before: seq<Option<(nat, Addr)>>, i: nat)
      returns (data: seq<Option<(nat, Addr)>>)
      requires g.Ok() && h.InRange() && SameStructure(g, h) && be.Ok(g) && NodesOk(g, be, planner.values)
      requires bh.Ok(h) && bh.arenaOf == be.arenaOf
      requires FixedSrcs(g) && Recorded(g, be, planner.values, nodeAllocs, leafAllocs) && i < |h.nodes|
      requires forall t :: 0 <= t < |h.tensors| && Checked(h, t) && h.Plain(t) ==>
        g.Plain(t) && InsideAt(bh, buffers, planner.values, t)
      requires |before| == |h.tensors| && Settled(g, bh, buffers, before, planner.values)
      ensures |data| == |h.tensors| && Settled(g, bh, buffers, data, planner.values) && Extends(before, data)
      ensures Addressed(h, data, i)
    {
      hide Settled, Record, InitTensor, InsideAt, Room;
      data := before;
      var srcs := h.Srcs(i);
      assert NodeRecorded(g, be, planner.values, i, nodeAllocs[i]);
      assert g.Srcs(i) == srcs;
      for j := 0 to |srcs|
        invariant |data| == |h.tensors| && Settled(g, bh, buffers, data, planner.values) && Extends(before, data)
        invariant forall k :: 0 <= k < j && srcs[k].Some? && h.Plain(srcs[k].value) ==> data[srcs[k].value].Some?
      {
        if srcs[j].Some? {
          assert h.IsSource(i, srcs[j].value);
          InitStep(g, h, be, bh, buffers, data, planner.values, srcs[j].value, nodeAllocs[i].srcs[j]);
          data := InitTensor(h, bh, buffers, data, srcs[j].value, nodeAllocs[i].srcs[j]).value;
        }
      }
      InitStep(g, h, be, bh, buffers, data, planner.values, h.nodes[i], nodeAllocs[i].dst);
      data := InitTensor(h, bh, buffers, data, h.nodes[i], nodeAllocs[i].dst).value;
    }
  }

  /** Tensor `t` lies inside its real chunk. */
  predicate InsideAt(bh: Backend, buffers: seq<Option<seq<nat>>>, values: seq<HashNode>, t: nat) {
    && t < |values| && values[t].buffer < |bh.arenaOf|
    && bh.arenaOf[values[t].buffer] < |bh.sizes| && t < |bh.sizes[bh.arenaOf[values[t].buffer]]|
    && InsideBuffer(buffers, values[t].buffer, values[t].addr, bh.sizes[bh.arenaOf[values[t].buffer]][t])
  }

  /** What has an address so far was planned, has the planned address, and lies inside its chunk. */
  predicate Settled(g: Graph, bh: Backend, buffers: seq<Option<seq<nat>>>, data: seq<Option<(nat, Addr)>>,
                    values: seq<HashNode>) {
    |data| == |values| && forall t :: 0 <= t < |data| && data[t].Some? ==>
      && data[t].value == (values[t].buffer, values[t].addr) && g.Plain(t) && InsideAt(bh, buffers, values, t)
  }

  /** Node `k` and its sources have their addresses. */
  ghost predicate Addressed(h: Graph, data: seq<Option<(nat, Addr)>>, k: nat)
    requires h.InRange() && k < |h.nodes| && |data| == |h.tensors|
  {
    && (h.Plain(h.nodes[k]) ==> data[h.nodes[k]].Some?)
    && forall s :: 0 <= s < |h.tensors| && h.IsSource(k, s) && h.Plain(s) ==> data[s].Some?
  }

  /** Addresses once given stay. */
  predicate Extends(v: seq<Option<(nat, Addr)>>, w: seq<Option<(nat, Addr)>>) {
    |v| == |w| && forall t :: 0 <= t < |v| && v[t].Some? ==> w[t] == v[t]
  }

  lemma NothingPlaced(g: Graph, bh: Backend, buffers: seq<Option<seq<nat>>>, data: seq<Option<(nat, Addr)>>,
                      values: seq<HashNode>)
    requires |data| == |values| && forall t :: 0 <= t < |data| ==> data[t].None?
    ensures Settled(g, bh, buffers, data, values)
  {
  }

  lemma StillAddressed(h: Graph, v: seq<Option<(nat, Addr)>>, w: seq<Option<(nat, Addr)>>, k: nat)
    requires h.InRange() && k < |h.nodes| && |v| == |h.tensors| && Extends(v, w) && Addressed(h, v, k)
    ensures Addressed(h, w, k)
  {
  }

  lemma WhoIsPlaced(h: Graph, v: seq<Option<(nat, Addr)>>, w: seq<Option<(nat, Addr)>>, t: nat)
    requires h.InRange() && |v| == |h.tensors| && Extends(v, w) && h.Plain(t) && (Checked(h, t) || t in h.leafs)
    requires forall k :: 0 <= k < |h.leafs| && h.Plain(h.leafs[k]) ==> v[h.leafs[k]].Some?
    requires forall k :: 0 <= k < |h.nodes| ==> Addressed(h, w, k)
    ensures w[t].Some?
  {
    if t in h.nodes {
      var i :| 0 <= i < |h.nodes| && h.nodes[i] == t;
      assert Addressed(h, w, i);
    } else if t !in h.leafs {
      var i :| 0 <= i < |h.nodes| && h.IsSource(i, t);
      assert Addressed(h, w, i);
    }
  }

  lemma AddressesAre(g: Graph, bh: Backend, buffers: seq<Option<seq<nat>>>, data: seq<Option<(nat, Addr)>>,
                     values: seq<HashNode>)
    requires Settled(g, bh, buffers, data, values)
    ensures forall t :: 0 <= t < |data| && data[t].Some? ==>
      data[t].value == (values[t].buffer, values[t].addr) && InsideAt(bh, buffers, values, t)
  {
  }

  lemma RecordPlaced(g: Graph, be: Backend, values: seq<HashNode>, t: nat)
    requires g.InRange() && be.Ok(g) && NodesOk(g, be, values) && g.Has(t)
    ensures g.Plain(t) ==>
      Record(g, be, values, t).buffer == values[t].buffer && Record(g, be, values, t).addr == values[t].addr
  {
  }

  /** For a recorded place, room in the real chunk means a planned tensor that lies inside it. */
  lemma RoomIsInside(g: Graph, h: Graph, be: Backend, bh: Backend, values: seq<HashNode>,
                     buffers: seq<Option<seq<nat>>>, t: nat, rec: TensorAlloc)
    requires g.InRange() && be.Ok(g) && NodesOk(g, be, values) && g.Has(t) && rec == Record(g, be, values, t)
    requires bh.Ok(h) && |h.tensors| == |g.tensors| && bh.arenaOf == be.arenaOf
    ensures Room(bh, buffers, t, rec) <==> g.Plain(t) && InsideAt(bh, buffers, values, t)
  {
  }

  lemma RoomForAllLeafs(h: Graph, bh: Backend, buffers: seq<Option<seq<nat>>>, leafAllocs: seq<TensorAlloc>)
    requires h.InRange() && |h.leafs| == |leafAllocs|
    requires forall k :: 0 <= k < |h.leafs| && h.Plain(h.leafs[k]) ==> Room(bh, buffers, h.leafs[k], leafAllocs[k])
    ensures !LostLeaf(h, leafAllocs) && !Outgrown(h, bh, buffers, leafAllocs)
  {
  }

  /** One tensor: it gets its recorded place, or there is no room for it there. */
  lemma InitStep(g: Graph, h: Graph, be: Backend, bh: Backend, buffers: seq<Option<seq<nat>>>,
                 data: seq<Option<(nat, Addr)>>, values: seq<HashNode>, t: nat, rec: TensorAlloc)
    requires g.InRange() && be.Ok(g) && NodesOk(g, be, values) && bh.Ok(h) && bh.arenaOf == be.arenaOf
    requires |g.tensors| == |h.tensors| == |data| && h.Has(t) && rec == Record(g, be, values, t)
    requires Settled(g, bh, buffers, data, values)
    ensures match InitTensor(h, bh, buffers, data, t, rec)
            case None => h.Plain(t) && !Room(bh, buffers, t, rec) && !(g.Plain(t) && InsideAt(bh, buffers, values, t))
            case Some(next) =>
              && |next| == |data| && Settled(g, bh, buffers, next, values) && Extends(data, next)
              && (h.Plain(t) ==> next[t].Some? && Room(bh, buffers, t, rec))
  {
    hide Room, InsideAt, Record;
    RoomIsInside(g, h, be, bh, values, buffers, t, rec);
    RecordPlaced(g, be, values, t);
  }

  function InitTensor(h: Graph, bh: Backend, buffers: seq<Option<seq<nat>>>, data: seq<Option<(nat, Addr)>>, t: nat,
                      rec: TensorAlloc): Option<seq<Option<(nat, Addr)>>>
    requires |data| == |h.tensors| && h.Has(t)
  {
    if h.Plain(t) && data[t].None? then
      if Room(bh, buffers, t, rec) then Some(data[t := Some((rec.buffer, rec.addr))]) else None
    else Some(data)
  }

  ghost predicate Recorded(g: Graph, be: Backend, values: seq<HashNode>, nodeAllocs: seq<NodeAlloc>,
                           leafAllocs: seq<TensorAlloc>)
    requires g.InRange() && be.Ok(g)
  {
    && NodesOk(g, be, values)
    && |nodeAllocs| == |g.nodes|
    && (forall i :: 0 <= i < |g.nodes| ==> NodeRecorded(g, be, values, i, nodeAllocs[i]))
    && |leafAllocs| == |g.leafs|
    && (forall i :: 0 <= i < |g.leafs| ==> leafAllocs[i] == Record(g, be, values, g.leafs[i]))
  }

  predicate RecordsInRange(be: Backend, nodeAllocs: seq<NodeAlloc>) {
    forall i :: 0 <= i < |nodeAllocs| ==>
      && nodeAllocs[i].dst.buffer < |be.arenaOf| && |nodeAllocs[i].srcs| == MAX_SRC
      && forall j :: 0 <= j < |nodeAllocs[i].srcs| ==> nodeAllocs[i].srcs[j].buffer < |be.arenaOf|
  }

  lemma RecordsRange(g: Graph, be: Backend, values: seq<HashNode>, nodeAllocs: seq<NodeAlloc>)
    requires g.InRange() && be.Ok(g) && NodesOk(g, be, values) && FixedSrcs(g) && |nodeAllocs| == |g.nodes|
    requires forall i :: 0 <= i < |g.nodes| ==> NodeRecorded(g, be, values, i, nodeAllocs[i])
    ensures RecordsInRange(be, nodeAllocs)
  {
    forall i | 0 <= i < |nodeAllocs|
      ensures nodeAllocs[i].dst.buffer < |be.arenaOf| && |nodeAllocs[i].srcs| == MAX_SRC
      ensures forall j :: 0 <= j < |nodeAllocs[i].srcs| ==> nodeAllocs[i].srcs[j].buffer < |be.arenaOf|
    {
      assert NodeRecorded(g, be, values, i, nodeAllocs[i]);
    }
  }

  /** The size test for one tensor. A tensor that had memory and now has none never passes. */
  predicate Sufficient(h: Graph, be: Backend, t: nat, rec: TensorAlloc)
    requires h.Has(t) && rec.buffer < |be.arenaOf|
    requires forall b :: 0 <= b < |be.arenaOf| ==> be.arenaOf[b] < |be.sizes| && t < |be.sizes[be.arenaOf[b]]|
  {
    if h.Plain(t) then rec.buffer >= 0 && rec.sizeMax >= be.sizes[be.arenaOf[rec.buffer]][t] else true
  }
}
