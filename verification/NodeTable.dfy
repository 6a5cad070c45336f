/** The planner's entries behind the hash set: one entry per tensor, whatever slots they are in. */
module NodeTable {
  import opened Options
  import opened Graph
  import opened Ownership
  import HashSet

  // ------------------------------------------------------------------- sizing

  /** The primes that follow the powers of two. */
  function Primes(): seq<nat> {
    [2, 3, 5, 11, 17, 37, 67, 131, 257, 521, 1031,
    2053, 4099, 8209, 16411, 32771, 65537, 131101,
    262147, 524309, 1048583, 2097169, 4194319, 8388617,
    16777259, 33554467, 67108879, 134217757, 268435459,
    536870923, 1073741827, 2147483659]
  }

  lemma {:induction false} PrimesRise(i: nat, j: nat)
    requires i < j < |Primes()|
    ensures Primes()[i] < Primes()[j]
  {
    if i < j - 1 {
      PrimesRise(i, j - 1);
    }
  }

  /** The least listed prime that is no smaller, or the next odd number past the list. */
  method HashSize(minSize: nat) returns (size: nat)
    ensures minSize <= size && size > 0
    ensures if exists k :: 0 <= k < |Primes()| && minSize <= Primes()[k]
            then size in Primes() && forall k :: 0 <= k < |Primes()| && minSize <= Primes()[k] ==> size <= Primes()[k]
            else size == if minSize % 2 == 0 then minSize + 1 else minSize
  {
    hide Primes;
    var primes := Primes();
    forall i, j | 0 <= i < j < |primes| ensures primes[i] < primes[j] {
      PrimesRise(i, j);
    }
    var l, r := 0, |primes|;
    while l < r
      invariant 0 <= l <= r <= |primes|
      invariant forall k :: 0 <= k < l ==> primes[k] < minSize
      invariant forall k :: r <= k < |primes| ==> minSize <= primes[k]
    {
      var m := (l + r) / 2;
      if primes[m] < minSize {
        l := m + 1;
      } else {
        r := m;
      }
    }
    size := if l < |primes| then primes[l] else if minSize % 2 == 0 then minSize + 1 else minSize;
    NoZero();
  }

  lemma NoZero()
    ensures forall k :: 0 <= k < |Primes()| ==> Primes()[k] > 0
  {
  }

  /** Nodes plus leafs, and a quarter on top. */
  function MinHashSize(g: Graph): nat {
    var n := |g.nodes| + |g.leafs|;
    n + n / 4
  }

  ghost function Distinct(s: seq<nat>): set<nat> {
    set t | t in s
  }

  ghost function Listed(g: Graph): set<nat> {
    Distinct(g.nodes + g.leafs)
  }

  /** The planner looks up nodes, leafs, sources, and the bases of nodes and sources. */
  ghost predicate LooksUp(g: Graph, t: nat)
    requires g.InRange()
  {
    || t in Listed(g)
    || exists i, s :: 0 <= i < |g.nodes| && 0 <= s < |g.tensors| && g.Root(s) == t
                      && (s == g.nodes[i] || g.IsSource(i, s))
  }

  lemma {:induction false} FewDistinct(s: seq<nat>)
    ensures |Distinct(s)| <= |s|
  {
    if s == [] {
    } else {
      FewDistinct(s[1..]);
      assert s == [s[0]] + s[1..];
      assert Distinct(s) == {s[0]} + Distinct(s[1..]);
    }
  }

  /** The table of the last plan if it is large enough for the graph, else a new one. */
  method TableFor(t: Table, g: Graph) returns (r: Table)
    requires t.Valid()
    ensures r.Valid() && MinHashSize(g) <= r.set_.size
    ensures r == t || (fresh(r) && r.set_.slots == map[])
  {
    r := t;
    if t.set_.size < MinHashSize(g) {
      var size := HashSize(MinHashSize(g));
      r := new Table(size);
    }
  }

  class Table {
    const set_: HashSet.Table
    /** `values[i]` belongs to the tensor whose key is in slot `i`. */
    const values: array<HashNode>

    ghost predicate Valid()
      reads this, set_, set_.used, set_.used.words, set_.keys, values
    {
      && set_.Valid() && values.Length == set_.size
      && values as object != set_.used.words && values as object != set_.keys
      && forall i :: 0 <= i < set_.size && !set_.used.Test(i) ==> values[i] == BLANK
    }

    /** The entry of a tensor; a tensor that was never looked up has a blank one. */
    ghost function Entry(key: nat): HashNode
      requires Valid()
      reads this, set_, set_.used, set_.used.words, set_.keys, values
    {
      if key in set_.slots then values[set_.slots[key]] else BLANK
    }

    constructor (size: nat)
      requires size > 0
      ensures Valid() && set_.size == size && set_.slots == map[]
      ensures fresh(set_) && fresh(set_.used) && fresh(set_.used.words) && fresh(set_.keys) && fresh(values)
    {
      set_ := new HashSet.Table(size);
      values := new HashNode[size](_ => BLANK);
    }

    /** The slot of a tensor's entry. Looking an entry up changes no entry; only a full table
        without the tensor has no slot for it. */
    method Get(key: nat) returns (r: Option<nat>)
      requires Valid()
      modifies set_, set_.used.words, set_.keys
      ensures Valid() && (r.None? <==> old(key !in set_.slots && set_.Full()))
      ensures set_.slots.Keys == old(set_.slots.Keys) + (if r.Some? then {key} else {})
      ensures r.Some? ==>
        key in set_.slots && r.value == set_.slots[key] < values.Length && values[r.value] == Entry(key)
      ensures forall k :: Entry(k) == old(Entry(k))
    {
      r := set_.FindOrInsert(key);
    }

    /** Writing through the slot changes the entry of that tensor and no other. */
    method Put(key: nat, node: HashNode) returns (ok: bool)
      requires Valid()
      modifies set_, set_.used.words, set_.keys, values
      ensures Valid() && (ok <==> old(key in set_.slots || !set_.Full()))
      ensures forall k :: Entry(k) == if ok && k == key then node else old(Entry(k))
    {
      hide HashSet.Table.Valid, HashSet.Table.Full;
      var r := Get(key);
      ok := r.Some?;
      if ok {
        Write(key, r.value, node);
      }
    }

    method Write(ghost key: nat, i: nat, node: HashNode)
      requires Valid() && key in set_.slots && i == set_.slots[key] < values.Length
      modifies values
      ensures Valid() && forall k :: Entry(k) == if k == key then node else old(Entry(k))
    {
      set_.FullIsCount();
      values[i] := node;
      assert set_.used.Test(i);
      forall k | k in set_.slots && k != key ensures set_.slots[k] != i {
      }
    }

    /** A new plan starts from blank entries. */
    method Clear()
      requires Valid()
      modifies set_, set_.used.words, values
      ensures Valid() && set_.slots == map[] && forall k :: Entry(k) == BLANK
    {
      set_.Reset();
      for i := 0 to values.Length
        invariant set_.Valid() && set_.slots == map[]
        invariant forall k :: 0 <= k < i ==> values[k] == BLANK
      {
        values[i] := BLANK;
      }
    }

    /** The quarter on top makes the table large enough for all that the planner looks up, as
        long as no more than a quarter of that is neither node nor leaf. */
    lemma RoomForGraph(g: Graph, tensors: set<nat>, key: nat)
      requires Valid() && g.InRange() && MinHashSize(g) <= set_.size
      requires forall t :: t in tensors <==> LooksUp(g, t)
      requires |tensors - Listed(g)| <= (|g.nodes| + |g.leafs|) / 4
      requires set_.slots.Keys <= tensors && key in tensors && key !in set_.slots
      ensures !set_.Full()
    {
      hide LooksUp;
      FewDistinct(g.nodes + g.leafs);
      assert tensors <= Listed(g) + (tensors - Listed(g));
      CardinalityOfUnion(tensors, Listed(g));
      RoomForAll(tensors, key);
    }

    /** A table with a slot for every tensor of a graph never turns one of them away. */
    lemma RoomForAll(tensors: set<nat>, key: nat)
      requires Valid() && set_.slots.Keys <= tensors && |tensors| <= set_.size && key in tensors && key !in set_.slots
      ensures !set_.Full()
    {
      set_.FullIsCount();
      assert |set_.slots| == |set_.slots.Keys|;
      Smaller(set_.slots.Keys, tensors, key);
    }
  }

  lemma CardinalityOfUnion(a: set<nat>, b: set<nat>)
    ensures |a| <= |b| + |a - b|
  {
    assert a == a * b + (a - b);
    assert |a| == |a * b| + |a - b|;
    assert b == a * b + (b - a);
    assert |b| == |a * b| + |b - a|;
  }

  lemma Smaller(a: set<nat>, b: set<nat>, x: nat)
    requires a <= b && x in b && x !in a
    ensures |a| < |b|
  {
    assert b == a + {x} + (b - a - {x});
    assert |b| == |a + {x}| + |b - a - {x}|;
  }
}
