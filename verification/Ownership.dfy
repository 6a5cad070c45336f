/** Which tensor owns which live region, and how allocation, in-place reuse and release
    change that. */
module Ownership {
  import opened Options
  import opened Graph
  import opened FreeList
  import opened Arena
  import opened ArenaInvariant
  import opened Modular

  /** Buffer `b` is served by allocator `arenaOf[b]` (buffers of one type share it);
      `sizes[a][t]` is what tensor `t` needs in the buffer type of allocator `a`. */
  datatype Backend = Backend(arenaOf: seq<nat>, alignments: seq<nat>, sizes: seq<seq<nat>>) {
    ghost predicate Ok(g: Graph) {
      && arenaOf != []
      && |sizes| == |alignments|
      && (forall b :: 0 <= b < |arenaOf| ==> arenaOf[b] < |alignments|)
      && (forall a :: 0 <= a < |alignments| ==> (0 < alignments[a]) && |sizes[a]| == |g.tensors|)
      && (forall a, t :: 0 <= a < |alignments| && 0 <= t < |g.tensors| ==>
            0 < sizes[a][t] <= HALF && Multiple(sizes[a][t], alignments[a]))
    }
  }

  datatype HashNode = HashNode(children: int, views: int, buffer: nat, addr: Addr, owned: bool)

  const BLANK: HashNode := HashNode(0, 0, 0, Addr(0, 0), false)

  datatype Place = Place(arena: nat, addr: Addr, size: nat)

  predicate Apart(p: Place, q: Place) {
    p.arena != q.arena || Disjoint(p.addr, p.size, q.addr, q.size)
  }

  predicate NodesOk(g: Graph, be: Backend, values: seq<HashNode>) {
    |values| == |g.tensors| && forall t :: 0 <= t < |values| ==> values[t].buffer < |be.arenaOf|
  }

  ghost function PlaceOf(g: Graph, be: Backend, values: seq<HashNode>, t: nat): Place
    requires be.Ok(g) && NodesOk(g, be, values) && t < |values|
  {
    var a := be.arenaOf[values[t].buffer];
    Place(a, values[t].addr, be.sizes[a][t])
  }

  ghost predicate Backs(lives: seq<Live>, p: Place) {
    p.arena < |lives| && p.addr in lives[p.arena] && lives[p.arena][p.addr] == p.size
  }

  ghost predicate ArenasOk(be: Backend, arenas: seq<Arena>, lives: seq<Live>) {
    && |arenas| == |be.alignments| == |lives|
    && forall a :: 0 <= a < |arenas| ==> arenas[a].alignment == be.alignments[a] && Valid(arenas[a], lives[a])
  }

  /** Every owner is a planned tensor whose region is live. */
  ghost predicate Backed(g: Graph, be: Backend, values: seq<HashNode>, lives: seq<Live>)
    requires be.Ok(g) && NodesOk(g, be, values)
  {
    forall t :: 0 <= t < |values| && values[t].owned ==> g.Plain(t) && Backs(lives, PlaceOf(g, be, values, t))
  }

  ghost predicate OwnersApart(g: Graph, be: Backend, values: seq<HashNode>)
    requires be.Ok(g) && NodesOk(g, be, values)
  {
    forall t, u :: 0 <= t < |values| && 0 <= u < |values| && t != u && values[t].owned && values[u].owned ==>
      Apart(PlaceOf(g, be, values, t), PlaceOf(g, be, values, u))
  }

  /** No region is live without an owner. */
  ghost predicate NoLeak(g: Graph, be: Backend, values: seq<HashNode>, lives: seq<Live>)
    requires be.Ok(g) && NodesOk(g, be, values)
  {
    forall a, p :: 0 <= a < |lives| && p in lives[a] ==> HasOwner(g, be, values, a, p)
  }

  /** Live regions and owning tensors correspond one to one. */
  ghost predicate Owned(g: Graph, be: Backend, values: seq<HashNode>, lives: seq<Live>)
    requires be.Ok(g)
  {
    && NodesOk(g, be, values)
    && Backed(g, be, values, lives)
    && OwnersApart(g, be, values)
    && NoLeak(g, be, values, lives)
  }

  ghost predicate HasOwner(g: Graph, be: Backend, values: seq<HashNode>, a: nat, p: Addr)
    requires be.Ok(g) && NodesOk(g, be, values)
  {
    exists t :: 0 <= t < |values| && OwnerIs(g, be, values, a, p, t)
  }

  ghost predicate OwnerIs(g: Graph, be: Backend, values: seq<HashNode>, a: nat, p: Addr, t: nat)
    requires be.Ok(g) && NodesOk(g, be, values) && t < |values|
  {
    values[t].owned && be.arenaOf[values[t].buffer] == a && values[t].addr == p
  }

  function Occupy(values: seq<HashNode>, t: nat, buffer: nat, addr: Addr): seq<HashNode>
    requires t < |values|
  {
    values[t := values[t].(buffer := buffer, addr := addr, owned := true)]
  }

  function Vacate(values: seq<HashNode>, t: nat): seq<HashNode>
    requires t < |values|
  {
    values[t := values[t].(owned := false)]
  }

  /** Same places and owners; only the counters differ. */
  predicate SamePlaces(v: seq<HashNode>, w: seq<HashNode>) {
    |v| == |w| && forall t :: 0 <= t < |v| ==>
      v[t].buffer == w[t].buffer && v[t].addr == w[t].addr && v[t].owned == w[t].owned
  }

  lemma CountersDoNotOwn(g: Graph, be: Backend, v: seq<HashNode>, w: seq<HashNode>, lives: seq<Live>)
    requires be.Ok(g) && Owned(g, be, v, lives) && SamePlaces(v, w)
    ensures Owned(g, be, w, lives)
  {
    assert forall t :: 0 <= t < |w| ==> PlaceOf(g, be, w, t) == PlaceOf(g, be, v, t);
    forall a, p | 0 <= a < |lives| && p in lives[a] ensures HasOwner(g, be, w, a, p) {
      assert HasOwner(g, be, v, a, p);
      var t :| 0 <= t < |v| && OwnerIs(g, be, v, a, p, t);
      assert OwnerIs(g, be, w, a, p, t);
    }
  }

  lemma PadExact(be: Backend, g: Graph, a: nat, t: nat)
    requires be.Ok(g) && a < |be.alignments| && t < |g.tensors|
    ensures Pad(be.sizes[a][t], be.alignments[a]) == be.sizes[a][t]
  {
    PadRoundsUp(be.sizes[a][t], be.alignments[a]);
  }

  // ------------------------------------------------------- a region of its own

  lemma FreshArena(g: Graph, be: Backend, arenas: seq<Arena>, lives: seq<Live>, a: nat, t: nat, b: Arena, p: Addr)
    requires be.Ok(g) && ArenasOk(be, arenas, lives) && a < |arenas| && t < |g.tensors|
    requires Alloc(arenas[a], be.sizes[a][t]) == Some((b, p))
    ensures p !in lives[a] && ArenasOk(be, arenas[a := b], Grant(be, lives, a, p, t))
  {
    hide Alloc, Pad;
    PadExact(be, g, a, t);
    AllocKeeps(arenas[a], be.sizes[a][t], lives[a]);
    AllocAlignment(arenas[a], be.sizes[a][t]);
    ArenasUpdate(be, arenas, lives, a, b, lives[a][p := be.sizes[a][t]]);
  }

  lemma AllocAlignment(a: Arena, size: nat)
    requires a.alignment > 0
    ensures Alloc(a, size).Some? ==> Alloc(a, size).value.0.alignment == a.alignment
  {
  }

  function Grant(be: Backend, lives: seq<Live>, a: nat, p: Addr, t: nat): seq<Live>
    requires a < |lives| && a < |be.sizes| && t < |be.sizes[a]|
  {
    lives[a := lives[a][p := be.sizes[a][t]]]
  }

  /** A tensor that takes a new region becomes its owner, apart from all others. */
  lemma FreshOwned(g: Graph, be: Backend, values: seq<HashNode>, arenas: seq<Arena>, lives: seq<Live>, t: nat,
                   buffer: nat, b: Arena, p: Addr)
    requires be.Ok(g) && ArenasOk(be, arenas, lives) && Owned(g, be, values, lives)
    requires g.Plain(t) && !values[t].owned && buffer < |be.arenaOf|
    requires Alloc(arenas[be.arenaOf[buffer]], be.sizes[be.arenaOf[buffer]][t]) == Some((b, p))
    ensures var a := be.arenaOf[buffer];
            && ArenasOk(be, arenas[a := b], Grant(be, lives, a, p, t))
            && Owned(g, be, Occupy(values, t, buffer, p), Grant(be, lives, a, p, t))
  {
    hide Alloc;
    var a := be.arenaOf[buffer];
    FreshArena(g, be, arenas, lives, a, t, b, p);
    GrantBacks(g, be, values, lives, t, buffer, p);
    GrantApart(g, be, values, arenas[a := b], lives, t, buffer, p);
    GrantNoLeak(g, be, values, lives, t, buffer, p);
  }

  lemma GrantBacks(g: Graph, be: Backend, values: seq<HashNode>, lives: seq<Live>, t: nat, buffer: nat, p: Addr)
    requires be.Ok(g) && |lives| == |be.alignments| && NodesOk(g, be, values) && Backed(g, be, values, lives)
    requires g.Plain(t) && !values[t].owned && buffer < |be.arenaOf| && p !in lives[be.arenaOf[buffer]]
    ensures Backed(g, be, Occupy(values, t, buffer, p), Grant(be, lives, be.arenaOf[buffer], p, t))
  {
    var lives' := Grant(be, lives, be.arenaOf[buffer], p, t);
    forall u | 0 <= u < |values| && values[u].owned ensures Backs(lives', PlaceOf(g, be, values, u)) {
      assert Backs(lives, PlaceOf(g, be, values, u));
    }
  }

  lemma GrantApart(g: Graph, be: Backend, values: seq<HashNode>, arenas: seq<Arena>, lives: seq<Live>, t: nat,
                   buffer: nat, p: Addr)
    requires be.Ok(g) && |lives| == |be.alignments| && Owned(g, be, values, lives)
    requires g.Plain(t) && !values[t].owned && buffer < |be.arenaOf| && p !in lives[be.arenaOf[buffer]]
    requires ArenasOk(be, arenas, Grant(be, lives, be.arenaOf[buffer], p, t))
    ensures OwnersApart(g, be, Occupy(values, t, buffer, p))
  {
    var a := be.arenaOf[buffer];
    var lives' := Grant(be, lives, a, p, t);
    var mine := Place(a, p, be.sizes[a][t]);
    forall u | 0 <= u < |values| && values[u].owned ensures Apart(mine, PlaceOf(g, be, values, u)) {
      var q := PlaceOf(g, be, values, u);
      assert Backs(lives, q);
      LivesApart(be, arenas, lives', mine, q);
    }
    ApartWithNew(g, be, values, t, buffer, p);
  }

  lemma ApartWithNew(g: Graph, be: Backend, values: seq<HashNode>, t: nat, buffer: nat, p: Addr)
    requires be.Ok(g) && NodesOk(g, be, values) && OwnersApart(g, be, values)
    requires t < |values| && !values[t].owned && buffer < |be.arenaOf|
    requires forall u :: 0 <= u < |values| && values[u].owned ==>
      Apart(Place(be.arenaOf[buffer], p, be.sizes[be.arenaOf[buffer]][t]), PlaceOf(g, be, values, u))
    ensures OwnersApart(g, be, Occupy(values, t, buffer, p))
  {
    var values' := Occupy(values, t, buffer, p);
    assert forall u :: 0 <= u < |values| && u != t ==> PlaceOf(g, be, values', u) == PlaceOf(g, be, values, u);
  }

  lemma GrantNoLeak(g: Graph, be: Backend, values: seq<HashNode>, lives: seq<Live>, t: nat, buffer: nat, p: Addr)
    requires be.Ok(g) && |lives| == |be.alignments| && NodesOk(g, be, values) && NoLeak(g, be, values, lives)
    requires g.Plain(t) && !values[t].owned && buffer < |be.arenaOf|
    ensures NoLeak(g, be, Occupy(values, t, buffer, p), Grant(be, lives, be.arenaOf[buffer], p, t))
  {
    var a := be.arenaOf[buffer];
    var lives' := Grant(be, lives, a, p, t);
    var values' := Occupy(values, t, buffer, p);
    forall c, q | 0 <= c < |lives'| && q in lives'[c] ensures HasOwner(g, be, values', c, q) {
      if c == a && q == p {
        assert OwnerIs(g, be, values', c, q, t);
      } else {
        assert HasOwner(g, be, values, c, q);
        var u :| 0 <= u < |values| && OwnerIs(g, be, values, c, q, u);
        assert OwnerIs(g, be, values', c, q, u);
      }
    }
  }

  lemma LivesApart(be: Backend, arenas: seq<Arena>, lives: seq<Live>, p: Place, q: Place)
    requires ArenasOk(be, arenas, lives) && Backs(lives, p) && Backs(lives, q)
    requires p.arena != q.arena || p.addr != q.addr
    ensures Apart(p, q)
  {
    assert Valid(arenas[p.arena], lives[p.arena]);
  }

  // -------------------------------------------------------------- in-place reuse

  /** The allocator after the surplus of a reused region is returned. */
  function Shrink(a: Arena, addr: Addr, parentSize: nat, nodeSize: nat): Option<Arena>
    requires a.alignment > 0 && addr.chunk < |a.chunks| && nodeSize <= parentSize
  {
    if parentSize == nodeSize then Some(a)
    else Free(a, Addr(addr.chunk, addr.offset + nodeSize), parentSize - nodeSize)
  }

  lemma PlacedInChunk(be: Backend, arenas: seq<Arena>, lives: seq<Live>, p: Place)
    requires ArenasOk(be, arenas, lives) && Backs(lives, p)
    ensures p.addr.chunk < |arenas[p.arena].chunks|
  {
    assert Valid(arenas[p.arena], lives[p.arena]);
    assert RegionOk(arenas[p.arena], p.addr, lives[p.arena][p.addr]);
  }

  lemma AlignedTail(offset: nat, size: nat, total: nat, alignment: nat)
    requires alignment > 0 && size < total
    requires Multiple(offset, alignment) && Multiple(size, alignment) && Multiple(total, alignment)
    ensures Multiple(offset + size, alignment)
    ensures Pad(total - size, alignment) == total - size
  {
    MultipleSum(offset, size, alignment);
    MultipleSum(total - size, size, alignment);
    PadRoundsUp(total - size, alignment);
  }

  lemma ShrinkTail(a: Arena, live: Live, p: Addr, size: nat)
    requires Valid(a, live) && p in live && p.chunk < |a.chunks|
    requires 0 < size < live[p] && Multiple(size, a.alignment)
    requires Free(a, Addr(p.chunk, p.offset + size), live[p] - size).Some?
    ensures Valid(Free(a, Addr(p.chunk, p.offset + size), live[p] - size).value, live[p := size])
  {
    hide Free, Pad;
    LiveAligned(a, live, p);
    AlignedTail(p.offset, size, live[p], a.alignment);
    FreeTail(a, live, p, p.offset + size, live[p] - size);
  }

  lemma LiveAligned(a: Arena, live: Live, p: Addr)
    requires Valid(a, live) && p in live
    ensures Multiple(p.offset, a.alignment) && Multiple(live[p], a.alignment)
  {
    assert RegionOk(a, p, live[p]);
  }

  lemma FreeTail(a: Arena, live: Live, p: Addr, offset: nat, extra: nat)
    requires Valid(a, live) && p in live && p.chunk < |a.chunks|
    requires p.offset < offset && Multiple(offset, a.alignment)
    requires 0 < extra == Pad(extra, a.alignment) && offset + extra == p.offset + live[p]
    requires Free(a, Addr(p.chunk, offset), extra).Some?
    ensures Valid(Free(a, Addr(p.chunk, offset), extra).value, live[p := offset - p.offset])
  {
    hide Free, Pad;
    FreeKeeps(a, live, p, offset, extra);
  }

  lemma ArenasUpdate(be: Backend, arenas: seq<Arena>, lives: seq<Live>, a: nat, b: Arena, live: Live)
    requires ArenasOk(be, arenas, lives) && a < |arenas|
    requires b.alignment == arenas[a].alignment && Valid(b, live)
    ensures ArenasOk(be, arenas[a := b], lives[a := live])
  {
    hide Valid;
  }

  lemma ShrinkKeeps(g: Graph, be: Backend, arenas: seq<Arena>, lives: seq<Live>, p: Place, t: nat, b: Arena)
    requires be.Ok(g) && ArenasOk(be, arenas, lives) && Backs(lives, p) && t < |g.tensors|
    requires p.addr.chunk < |arenas[p.arena].chunks| && be.sizes[p.arena][t] <= p.size
    requires Shrink(arenas[p.arena], p.addr, p.size, be.sizes[p.arena][t]) == Some(b)
    ensures ArenasOk(be, arenas[p.arena := b], Grant(be, lives, p.arena, p.addr, t))
  {
    hide Free, Multiple;
    var size := be.sizes[p.arena][t];
    var live' := lives[p.arena][p.addr := size];
    if size == p.size {
      assert live' == lives[p.arena];
    } else {
      ShrinkTail(arenas[p.arena], lives[p.arena], p.addr, size);
      FreeAlignment(arenas[p.arena], Addr(p.addr.chunk, p.addr.offset + size), p.size - size);
    }
    ArenasUpdate(be, arenas, lives, p.arena, b, live');
  }

  lemma FreeAlignment(a: Arena, addr: Addr, size: nat)
    requires a.alignment > 0 && addr.chunk < |a.chunks|
    ensures Free(a, addr, size).Some? ==> Free(a, addr, size).value.alignment == a.alignment
  {
  }

  /** In-place reuse: the node takes over its operand's region (its front part, when smaller). */
  lemma PassOwned(g: Graph, be: Backend, values: seq<HashNode>, arenas: seq<Arena>, lives: seq<Live>, t: nat, u: nat)
    requires be.Ok(g) && ArenasOk(be, arenas, lives) && Owned(g, be, values, lives)
    requires g.Plain(t) && !values[t].owned && u < |values| && values[u].owned
    requires var p := PlaceOf(g, be, values, u);
             && be.sizes[p.arena][t] <= p.size
    ensures var p := PlaceOf(g, be, values, u);
            Owned(g, be, Vacate(Occupy(values, t, values[u].buffer, values[u].addr), u),
              Grant(be, lives, p.arena, p.addr, t))
  {
    PassBacked(g, be, values, arenas, lives, t, u);
    PassApart(g, be, values, lives, t, u);
    PassNoLeak(g, be, values, lives, t, u);
  }

  lemma PassBacked(g: Graph, be: Backend, values: seq<HashNode>, arenas: seq<Arena>, lives: seq<Live>, t: nat, u: nat)
    requires be.Ok(g) && ArenasOk(be, arenas, lives) && Owned(g, be, values, lives)
    requires g.Plain(t) && !values[t].owned && u < |values| && values[u].owned
    ensures var p := PlaceOf(g, be, values, u);
            Backed(g, be, Vacate(Occupy(values, t, values[u].buffer, values[u].addr), u),
              Grant(be, lives, p.arena, p.addr, t))
  {
    var p := PlaceOf(g, be, values, u);
    var lives' := Grant(be, lives, p.arena, p.addr, t);
    forall w | 0 <= w < |values| && w != u && values[w].owned
      ensures Backs(lives', PlaceOf(g, be, values, w))
    {
      assert Backs(lives, PlaceOf(g, be, values, w));
      SpotsDiffer(g, be, arenas, lives, p, PlaceOf(g, be, values, w));
    }
  }

  lemma PassNoLeak(g: Graph, be: Backend, values: seq<HashNode>, lives: seq<Live>, t: nat, u: nat)
    requires be.Ok(g) && |lives| == |be.alignments| && Owned(g, be, values, lives)
    requires g.Plain(t) && !values[t].owned && u < |values| && values[u].owned
    ensures var p := PlaceOf(g, be, values, u);
            NoLeak(g, be, Vacate(Occupy(values, t, values[u].buffer, values[u].addr), u),
              Grant(be, lives, p.arena, p.addr, t))
  {
    hide OwnersApart, HasOwner;
    var p := PlaceOf(g, be, values, u);
    var lives' := Grant(be, lives, p.arena, p.addr, t);
    var values' := Vacate(Occupy(values, t, values[u].buffer, values[u].addr), u);
    assert Backs(lives, p);
    forall c, q | 0 <= c < |lives'| && q in lives'[c] ensures HasOwner(g, be, values', c, q) {
      PassedOwner(g, be, values, t, u, c, q);
    }
  }

  /** The operand's successor owns what the operand owned; other owners stay. */
  lemma PassedOwner(g: Graph, be: Backend, values: seq<HashNode>, t: nat, u: nat, c: nat, q: Addr)
    requires be.Ok(g) && NodesOk(g, be, values) && t < |values| && !values[t].owned && u < |values| && values[u].owned
    requires HasOwner(g, be, values, c, q)
    ensures HasOwner(g, be, Vacate(Occupy(values, t, values[u].buffer, values[u].addr), u), c, q)
  {
    var values' := Vacate(Occupy(values, t, values[u].buffer, values[u].addr), u);
    var w :| 0 <= w < |values| && OwnerIs(g, be, values, c, q, w);
    assert OwnerIs(g, be, values', c, q, if w == u then t else w);
  }

  lemma SpotsDiffer(g: Graph, be: Backend, arenas: seq<Arena>, lives: seq<Live>, p: Place, q: Place)
    requires ArenasOk(be, arenas, lives) && Backs(lives, p) && Backs(lives, q) && Apart(p, q)
    ensures p.arena != q.arena || p.addr != q.addr
  {
    assert Valid(arenas[p.arena], lives[p.arena]);
    assert RegionOk(arenas[p.arena], p.addr, p.size);
  }

  lemma PassApart(g: Graph, be: Backend, values: seq<HashNode>, lives: seq<Live>, t: nat, u: nat)
    requires be.Ok(g) && NodesOk(g, be, values) && OwnersApart(g, be, values)
    requires t < |values| && !values[t].owned && u < |values| && values[u].owned
    requires be.sizes[be.arenaOf[values[u].buffer]][t] <= PlaceOf(g, be, values, u).size
    ensures OwnersApart(g, be, Vacate(Occupy(values, t, values[u].buffer, values[u].addr), u))
  {
    var values' := Vacate(Occupy(values, t, values[u].buffer, values[u].addr), u);
    forall v, w | 0 <= v < |values| && 0 <= w < |values| && v != w && values'[v].owned && values'[w].owned
      ensures Apart(PlaceOf(g, be, values', v), PlaceOf(g, be, values', w))
    {
      var v0, w0 := if v == t then u else v, if w == t then u else w;
      assert Apart(PlaceOf(g, be, values, v0), PlaceOf(g, be, values, w0));
    }
  }

  // ------------------------------------------------------------------- release

  lemma DropArenas(g: Graph, be: Backend, arenas: seq<Arena>, lives: seq<Live>, p: Place, u: nat, b: Arena)
    requires be.Ok(g) && ArenasOk(be, arenas, lives) && Backs(lives, p)
    requires u < |g.tensors| && p.size == be.sizes[p.arena][u]
    requires p.addr.chunk < |arenas[p.arena].chunks| && Free(arenas[p.arena], p.addr, p.size) == Some(b)
    ensures ArenasOk(be, arenas[p.arena := b], lives[p.arena := lives[p.arena] - {p.addr}])
  {
    hide Free, Multiple;
    LiveAligned(arenas[p.arena], lives[p.arena], p.addr);
    PadExact(be, g, p.arena, u);
    FreeKeeps(arenas[p.arena], lives[p.arena], p.addr, p.addr.offset, p.size);
    FreeAlignment(arenas[p.arena], p.addr, p.size);
    ArenasUpdate(be, arenas, lives, p.arena, b, lives[p.arena] - {p.addr});
  }

  /** Releasing a tensor's region removes exactly that region from the live ones. */
  lemma DropOwned(g: Graph, be: Backend, values: seq<HashNode>, arenas: seq<Arena>, lives: seq<Live>, u: nat)
    requires be.Ok(g) && ArenasOk(be, arenas, lives) && Owned(g, be, values, lives)
    requires u < |values| && values[u].owned
    ensures var p := PlaceOf(g, be, values, u);
            && p.arena < |lives|
            && Owned(g, be, Vacate(values, u), lives[p.arena := lives[p.arena] - {p.addr}])
  {
    var p := PlaceOf(g, be, values, u);
    assert Backs(lives, p);
    var values' := Vacate(values, u);
    DropBacked(g, be, values, arenas, lives, u);
    assert forall w :: 0 <= w < |values| ==> PlaceOf(g, be, values', w) == PlaceOf(g, be, values, w);
    DropNoLeak(g, be, values, lives, u);
  }

  lemma DropBacked(g: Graph, be: Backend, values: seq<HashNode>, arenas: seq<Arena>, lives: seq<Live>, u: nat)
    requires be.Ok(g) && ArenasOk(be, arenas, lives) && Owned(g, be, values, lives)
    requires u < |values| && values[u].owned
    ensures var p := PlaceOf(g, be, values, u);
            && p.arena < |lives|
            && Backed(g, be, Vacate(values, u), lives[p.arena := lives[p.arena] - {p.addr}])
  {
    var p := PlaceOf(g, be, values, u);
    assert Backs(lives, p);
    var lives' := lives[p.arena := lives[p.arena] - {p.addr}];
    forall w | 0 <= w < |values| && w != u && values[w].owned
      ensures Backs(lives', PlaceOf(g, be, values, w))
    {
      var q := PlaceOf(g, be, values, w);
      assert Backs(lives, q);
      SpotsDiffer(g, be, arenas, lives, p, q);
    }
    assert forall w :: 0 <= w < |values| ==> PlaceOf(g, be, Vacate(values, u), w) == PlaceOf(g, be, values, w);
  }

  lemma DropNoLeak(g: Graph, be: Backend, values: seq<HashNode>, lives: seq<Live>, u: nat)
    requires be.Ok(g) && Owned(g, be, values, lives)
    requires u < |values| && values[u].owned
    requires PlaceOf(g, be, values, u).arena < |lives|
    ensures var p := PlaceOf(g, be, values, u);
            NoLeak(g, be, Vacate(values, u), lives[p.arena := lives[p.arena] - {p.addr}])
  {
    var p := PlaceOf(g, be, values, u);
    var lives' := lives[p.arena := lives[p.arena] - {p.addr}];
    forall c, q | 0 <= c < |lives'| && q in lives'[c] ensures HasOwner(g, be, Vacate(values, u), c, q) {
      assert HasOwner(g, be, values, c, q);
      var w :| 0 <= w < |values| && OwnerIs(g, be, values, c, q, w);
      assert OwnerIs(g, be, Vacate(values, u), c, q, w);
    }
  }

  // ------------------------------------------------------ high-water marks grow

  /** The region lies below its chunk's high-water mark. */
  predicate FitsIn(arenas: seq<Arena>, p: Place) {
    && p.arena < |arenas|
    && p.addr.chunk < |arenas[p.arena].chunks|
    && p.addr.offset + p.size <= arenas[p.arena].chunks[p.addr.chunk].maxSize
  }

  predicate ArenaGrown(a: Arena, b: Arena) {
    |a.chunks| <= |b.chunks| && forall c :: 0 <= c < |a.chunks| ==> a.chunks[c].maxSize <= b.chunks[c].maxSize
  }

  /** Chunks only come into being, and their high-water marks only rise. */
  predicate Grown(v: seq<Arena>, w: seq<Arena>) {
    |v| == |w| && forall a :: 0 <= a < |v| ==> ArenaGrown(v[a], w[a])
  }

  lemma GrownTrans(u: seq<Arena>, v: seq<Arena>, w: seq<Arena>)
    requires Grown(u, v) && Grown(v, w)
    ensures Grown(u, w)
  {
    forall a | 0 <= a < |u| ensures ArenaGrown(u[a], w[a]) {
      assert ArenaGrown(u[a], v[a]) && ArenaGrown(v[a], w[a]);
    }
  }

  lemma AllocGrows(a: Arena, size: nat)
    requires a.alignment > 0 && Alloc(a, size).Some?
    ensures ArenaGrown(a, Alloc(a, size).value.0)
  {
    hide BestInner, InnerFit, LastFit;
  }

  lemma ShrinkGrows(a: Arena, addr: Addr, parentSize: nat, nodeSize: nat)
    requires a.alignment > 0 && addr.chunk < |a.chunks| && nodeSize <= parentSize
    requires Shrink(a, addr, parentSize, nodeSize).Some?
    ensures ArenaGrown(a, Shrink(a, addr, parentSize, nodeSize).value)
  {
    hide Release, ReleaseEdit;
  }

  lemma FreeGrows(a: Arena, addr: Addr, size: nat)
    requires a.alignment > 0 && addr.chunk < |a.chunks| && Free(a, addr, size).Some?
    ensures ArenaGrown(a, Free(a, addr, size).value)
  {
    hide Release, ReleaseEdit;
  }

  lemma UpdateGrown(v: seq<Arena>, a: nat, b: Arena)
    requires a < |v| && ArenaGrown(v[a], b)
    ensures Grown(v, v[a := b])
  {
  }

  lemma LiveFits(be: Backend, arenas: seq<Arena>, lives: seq<Live>, p: Place)
    requires ArenasOk(be, arenas, lives) && Backs(lives, p)
    ensures FitsIn(arenas, p)
  {
    assert Valid(arenas[p.arena], lives[p.arena]);
    assert RegionOk(arenas[p.arena], p.addr, p.size);
  }

  lemma GrownFits(v: seq<Arena>, w: seq<Arena>, p: Place)
    requires Grown(v, w) && FitsIn(v, p)
    ensures FitsIn(w, p)
  {
    assert ArenaGrown(v[p.arena], w[p.arena]);
  }
}
