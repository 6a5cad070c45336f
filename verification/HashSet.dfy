/** The linear-probing hash set of tensor addresses, with its packed bitset of used slots. */
module HashSet {
  import opened Options
  import opened Modular

  // ------------------------------------------------------------------- bitset

  function BitsetSize(n: nat): nat {
    (n + 31) / 32
  }

  /** The word with only bit `k` set: 1 shifted left `k` times. */
  function Mask(k: nat): bv32
    requires k < 32
  {
    if k == 0 then 1 else Mask(k - 1) << 1
  }

  predicate Meets(x: bv32, y: bv32) {
    x & y != 0
  }

  function WithBits(word: bv32, m: bv32): bv32 {
    word | m
  }

  function WithoutBits(word: bv32, m: bv32): bv32 {
    word & !m
  }

  predicate Bit(word: bv32, k: nat)
    requires k < 32
  {
    Meets(word, Mask(k))
  }

  lemma {:induction false} MasksDisjoint(j: nat, k: nat)
    requires j < k < 32
    ensures !Meets(Mask(j), Mask(k))
  {
    hide Meets;
    if j == 0 {
      ShiftedHasNoLowBit(Mask(k - 1));
    } else {
      MasksDisjoint(j - 1, k - 1);
      ShiftAnd(Mask(j - 1), Mask(k - 1));
    }
  }

  lemma ShiftedHasNoLowBit(x: bv32)
    ensures !Meets(1, x << 1)
  {
  }

  lemma ShiftAnd(x: bv32, y: bv32)
    requires !Meets(x, y)
    ensures !Meets(x << 1, y << 1)
  {
  }

  lemma MaskNonZero(k: nat)
    requires k < 32
    ensures Mask(k) != 0
  {
    assert Mask(3) == 0x8 && Mask(7) == 0x80 && Mask(11) == 0x800 && Mask(15) == 0x8000;
    assert Mask(19) == 0x8_0000 && Mask(23) == 0x80_0000 && Mask(27) == 0x800_0000 && Mask(31) == 0x8000_0000;
    if k < 31 {
      ZeroStaysZero(k, 31);
    }
  }

  lemma {:induction false} ZeroStaysZero(j: nat, k: nat)
    requires j <= k < 32
    ensures Mask(j) == 0 ==> Mask(k) == 0
  {
    if j < k {
      ZeroStaysZero(j, k - 1);
    }
  }

  lemma MeetsCommutes(x: bv32, y: bv32)
    ensures Meets(x, y) <==> Meets(y, x)
  {
  }

  lemma MasksApart(j: nat, k: nat)
    requires j < 32 && k < 32 && j != k
    ensures !Meets(Mask(j), Mask(k))
  {
    hide Mask, Meets;
    if j < k {
      MasksDisjoint(j, k);
    } else {
      MasksDisjoint(k, j);
      MeetsCommutes(Mask(j), Mask(k));
    }
  }

  lemma OrSame(w: bv32, m: bv32)
    requires m != 0
    ensures Meets(WithBits(w, m), m)
  {
  }

  lemma NotMeeting(m: bv32, n: bv32)
    requires !Meets(m, n)
    ensures m & n == 0
  {
  }

  lemma MeetsByMask(x: bv32, y: bv32, n: bv32)
    requires x & n == y & n
    ensures Meets(x, n) <==> Meets(y, n)
  {
  }

  lemma OrMasked(w: bv32, m: bv32, n: bv32)
    requires m & n == 0
    ensures WithBits(w, m) & n == w & n
  {
  }

  lemma AndNotMasked(w: bv32, m: bv32, n: bv32)
    requires m & n == 0
    ensures WithoutBits(w, m) & n == w & n
  {
  }

  lemma OrElsewhere(w: bv32, m: bv32, n: bv32)
    requires !Meets(m, n)
    ensures Meets(WithBits(w, m), n) <==> Meets(w, n)
  {
    hide Meets, WithBits;
    NotMeeting(m, n);
    OrMasked(w, m, n);
    MeetsByMask(WithBits(w, m), w, n);
  }

  lemma AndNotSame(w: bv32, m: bv32)
    ensures !Meets(WithoutBits(w, m), m)
  {
  }

  lemma AndNotElsewhere(w: bv32, m: bv32, n: bv32)
    requires !Meets(m, n)
    ensures Meets(WithoutBits(w, m), n) <==> Meets(w, n)
  {
    hide Meets, WithoutBits;
    NotMeeting(m, n);
    AndNotMasked(w, m, n);
    MeetsByMask(WithoutBits(w, m), w, n);
  }

  lemma SetBit(word: bv32, k: nat, j: nat)
    requires k < 32 && j < 32
    ensures Bit(WithBits(word, Mask(k)), j) <==> Bit(word, j) || j == k
  {
    hide Mask, Meets, WithBits, WithoutBits;
    if j == k {
      MaskNonZero(k);
      OrSame(word, Mask(k));
    } else {
      MasksApart(k, j);
      OrElsewhere(word, Mask(k), Mask(j));
    }
  }

  lemma ClearBit(word: bv32, k: nat, j: nat)
    requires k < 32 && j < 32
    ensures Bit(WithoutBits(word, Mask(k)), j) <==> Bit(word, j) && j != k
  {
    hide Mask, Meets, WithBits, WithoutBits;
    if j == k {
      AndNotSame(word, Mask(k));
    } else {
      MasksApart(k, j);
      AndNotElsewhere(word, Mask(k), Mask(j));
    }
  }

  class Bitset {
    const words: array<bv32>
    const n: nat

    ghost predicate Valid() {
      words.Length == BitsetSize(n)
    }

    constructor (n: nat)
      ensures Valid() && fresh(words) && this.n == n
      ensures forall i :: 0 <= i < n ==> !Test(i)
    {
      this.n := n;
      words := new bv32[BitsetSize(n)](_ => 0);
    }

    predicate Test(i: nat)
      reads words
      requires Valid() && i < n
    {
      Bit(words[i / 32], i % 32)
    }

    method Set(i: nat)
      requires Valid() && i < n
      modifies words
      ensures forall j :: 0 <= j < n ==> (Test(j) <==> old(Test(j)) || j == i)
    {
      hide Mask, Meets, WithBits, WithoutBits;
      ghost var was := words[..];
      words[i / 32] := WithBits(words[i / 32], Mask(i % 32));
      forall j | 0 <= j < n ensures Test(j) <==> old(Test(j)) || j == i {
        SetBit(was[i / 32], i % 32, j % 32);
        SameWordAndBit(i, j);
      }
    }

    method Clear(i: nat)
      requires Valid() && i < n
      modifies words
      ensures forall j :: 0 <= j < n ==> (Test(j) <==> old(Test(j)) && j != i)
    {
      hide Mask, Meets, WithBits, WithoutBits;
      ghost var was := words[..];
      words[i / 32] := WithoutBits(words[i / 32], Mask(i % 32));
      forall j | 0 <= j < n ensures Test(j) <==> old(Test(j)) && j != i {
        ClearBit(was[i / 32], i % 32, j % 32);
        SameWordAndBit(i, j);
      }
    }

    method Reset()
      requires Valid()
      modifies words
      ensures forall j :: 0 <= j < n ==> !Test(j)
    {
      forall k | 0 <= k < words.Length {
        words[k] := 0;
      }
    }
  }

  lemma SameWordAndBit(i: nat, j: nat)
    ensures i / 32 == j / 32 && i % 32 == j % 32 <==> i == j
  {
  }

  // ----------------------------------------------------------------- hash set

  /** The address without its four always-zero low bits, reduced to a slot. */
  function Hash(key: nat, size: nat): (h: nat)
    requires size > 0
    ensures h < size
  {
    (key / 16) % size
  }

  /** Slot `d` places after slot `h`, going round. */
  function Probe(h: nat, d: nat, size: nat): (i: nat)
    requires h < size
    ensures d < size ==> i < size
  {
    if h + d < size then h + d else h + d - size
  }

  function Distance(h: nat, i: nat, size: nat): (d: nat)
    requires h < size && i < size
    ensures d < size
  {
    if h <= i then i - h else i + size - h
  }

  lemma NextProbe(h: nat, d: nat, size: nat)
    requires h < size && d < size
    ensures Probe(h, d, size) < size
    ensures (Probe(h, d, size) + 1) % size == Probe(h, d + 1, size)
    ensures Probe(h, d + 1, size) == h <==> d + 1 == size
  {
    var i := Probe(h, d, size) + 1;
    if i < size {
      DivModUnique(i, size, 0, i);
    } else {
      DivModUnique(i, size, 1, 0);
    }
  }

  ghost predicate Taken(slots: map<nat, nat>, i: nat) {
    exists k :: k in slots && slots[k] == i
  }

  ghost predicate Injective(slots: map<nat, nat>) {
    forall j, k :: j in slots && k in slots && j != k ==> slots[j] != slots[k]
  }

  lemma {:induction false} TakenNeedsKeys(slots: map<nat, nat>, n: nat)
    requires forall i :: 0 <= i < n ==> Taken(slots, i)
    ensures |slots| >= n
  {
    if n > 0 {
      assert Taken(slots, n - 1);
      var k :| k in slots && slots[k] == n - 1;
      var rest := slots - {k};
      assert |rest| == |slots| - 1 by { assert rest.Keys == slots.Keys - {k}; }
      forall i | 0 <= i < n - 1 ensures Taken(rest, i) {
        assert Taken(slots, i);
        var j :| j in slots && slots[j] == i;
        assert j in rest && rest[j] == i;
      }
      TakenNeedsKeys(rest, n - 1);
    }
  }

  /** Keys in distinct slots below `n`: at most `n`, and `n` only when every slot is taken. */
  lemma {:induction false} KeysTakeSlots(slots: map<nat, nat>, n: nat)
    requires Injective(slots) && forall k :: k in slots ==> slots[k] < n
    ensures |slots| <= n
    ensures |slots| == n ==> forall i :: 0 <= i < n ==> Taken(slots, i)
  {
    if n == 0 {
      assert slots.Keys == {};
    } else if Taken(slots, n - 1) {
      var k :| k in slots && slots[k] == n - 1;
      var rest := slots - {k};
      assert |rest| == |slots| - 1 by { assert rest.Keys == slots.Keys - {k}; }
      KeysTakeSlots(rest, n - 1);
      forall i | 0 <= i < n - 1 && Taken(rest, i) ensures Taken(slots, i) {
        var j :| j in rest && rest[j] == i;
        assert j in slots && slots[j] == i;
      }
    } else {
      KeysTakeSlots(slots, n - 1);
    }
  }

  /** How a probe sequence ends. */
  datatype Stop = FreeSlot | Present | Exhausted

  class Table {
    const size: nat
    const used: Bitset
    const keys: array<nat>
    /** Where each member is stored. */
    ghost var slots: map<nat, nat>

    ghost predicate Valid()
      reads this, used, used.words, keys
    {
      && size > 0 && keys.Length == size && used.n == size && used.Valid()
      && keys as object != used.words
      && (forall i :: 0 <= i < size && used.Test(i) ==> keys[i] in slots && slots[keys[i]] == i)
      && (forall k :: k in slots ==> slots[k] < size && used.Test(slots[k]) && keys[slots[k]] == k)
      && (forall k :: k in slots ==> Reachable(Hash(k, size), slots[k]))
    }

    /** Every slot that probing passes on the way from `h` to `i` is in use. */
    ghost predicate Reachable(h: nat, i: nat)
      reads used, used.words
      requires used.n == size && used.Valid() && h < size && i < size
    {
      forall d :: 0 <= d < Distance(h, i, size) ==> used.Test(Probe(h, d, size))
    }

    ghost predicate Full()
      reads this, used, used.words
      requires used.n == size && used.Valid()
    {
      forall i :: 0 <= i < size ==> used.Test(i)
    }

    constructor (size: nat)
      requires size > 0
      ensures Valid() && slots == map[] && this.size == size
      ensures fresh(used) && fresh(used.words) && fresh(keys)
    {
      this.size := size;
      used := new Bitset(size);
      keys := new nat[size];
      slots := map[];
    }

    /** Members sit in distinct slots; the table is full when it has `size` members. */
    lemma FullIsCount()
      requires Valid()
      ensures Injective(slots) && |slots| <= size
      ensures Full() <==> |slots| == size
    {
      KeysTakeSlots(slots, size);
      if Full() {
        forall i | 0 <= i < size ensures Taken(slots, i) {
          assert used.Test(i) && keys[i] in slots;
        }
        TakenNeedsKeys(slots, size);
      } else if |slots| == size {
        forall i | 0 <= i < size ensures used.Test(i) {
          assert Taken(slots, i);
        }
      }
    }

    /** The slot of the key, or the free slot where it would go; nothing when the table is full
        of other keys. */
    method Find(key: nat) returns (r: Option<nat>)
      requires Valid()
      ensures key in slots ==> r == Some(slots[key])
      ensures key !in slots && !Full() ==> r.Some? && r.value < size && !used.Test(r.value)
      ensures key !in slots && Full() ==> r.None?
    {
      hide Hash, Reachable, Bitset.Valid;
      var h := Hash(key, size);
      var i := h;
      ghost var d := 0;
      while used.Test(i) && keys[i] != key
        invariant 0 <= d < size && i == Probe(h, d, size) < size
        invariant Passed(key, d)
        decreases size - d
      {
        NextProbe(h, d, size);
        i := (i + 1) % size;
        d := d + 1;
        if i == h {
          AllPassed(key);
          return None;
        }
      }
      FirstStop(key, d);
      return Some(i);
    }

    /** The first `d` slots probed for the key hold other keys. */
    ghost predicate Passed(key: nat, d: nat)
      reads this, used, used.words, keys
      requires Valid() && d <= size
    {
      forall e :: 0 <= e < d ==>
        && Probe(Hash(key, size), e, size) < size
        && used.Test(Probe(Hash(key, size), e, size)) && keys[Probe(Hash(key, size), e, size)] != key
    }

    lemma AllPassed(key: nat)
      requires Valid() && Passed(key, size)
      ensures key !in slots && Full()
    {
      var h := Hash(key, size);
      forall i | 0 <= i < size ensures used.Test(i) && keys[i] != key {
        assert Probe(h, Distance(h, i, size), size) == i;
      }
    }

    lemma FirstStop(key: nat, d: nat)
      requires Valid() && d < size && Passed(key, d)
      ensures key in slots ==> d <= Distance(Hash(key, size), slots[key], size)
      ensures var i := Probe(Hash(key, size), d, size);
              i < size && (!used.Test(i) ==> key !in slots)
                && (used.Test(i) && keys[i] == key ==> key in slots && slots[key] == i)
    {
      var h := Hash(key, size);
      if key in slots {
        var e := Distance(h, slots[key], size);
        assert Probe(h, e, size) == slots[key];
        assert Reachable(h, slots[key]);
      }
    }

    method Contains(key: nat) returns (b: bool)
      requires Valid()
      ensures b <==> key in slots
    {
      var r := Find(key);
      b := r.Some? && used.Test(r.value);
    }

    /** Probes until a free slot or the key is met, or all slots have been seen. */
    method Scan(key: nat) returns (i: nat, stop: Stop, ghost d: nat)
      requires Valid()
      ensures match stop
              case FreeSlot => d < size && Passed(key, d) && i == Probe(Hash(key, size), d, size) < size
                               && !used.Test(i) && key !in slots
              case Present => key in slots && i == slots[key]
              case Exhausted => key !in slots && Full()
    {
      hide Hash, Reachable, Bitset.Valid;
      var h := Hash(key, size);
      i, d := h, 0;
      while true
        invariant 0 <= d < size && i == Probe(h, d, size) < size
        invariant Passed(key, d)
        decreases size - d
      {
        FirstStop(key, d);
        if !used.Test(i) {
          return i, FreeSlot, d;
        }
        if keys[i] == key {
          return i, Present, d;
        }
        NextProbe(h, d, size);
        i := (i + 1) % size;
        d := d + 1;
        if i == h {
          AllPassed(key);
          return i, Exhausted, d;
        }
      }
    }

    /** The slot of the key, which is inserted if it is new; `None` is the abort on a full table. */
    method FindOrInsert(key: nat) returns (r: Option<nat>)
      requires Valid()
      modifies this, used.words, keys
      ensures Valid()
      ensures key in old(slots) ==> slots == old(slots) && r == Some(slots[key])
      ensures key !in old(slots) && !old(Full()) ==>
        r.Some? && r.value < size && !old(used.Test(r.value)) && slots == old(slots)[key := r.value]
      ensures key !in old(slots) && old(Full()) ==> r.None? && slots == old(slots)
    {
      hide Passed;
      var i, stop;
      ghost var d;
      i, stop, d := Scan(key);
      match stop {
        case FreeSlot =>
          Store(key, i, d);
          return Some(i);
        case Present => return Some(i);
        case Exhausted => return None;
      }
    }

    /** Inserts a new key; `None` is the abort on a full table, and `Some(None)` says that the
        key is already there. */
    method Insert(key: nat) returns (r: Option<Option<nat>>)
      requires Valid()
      modifies this, used.words, keys
      ensures Valid()
      ensures key in old(slots) ==> r == Some(None) && slots == old(slots)
      ensures key !in old(slots) && !old(Full()) ==>
        r.Some? && r.value.Some? && r.value.value < size && !old(used.Test(r.value.value))
        && slots == old(slots)[key := r.value.value]
      ensures key !in old(slots) && old(Full()) ==> r.None? && slots == old(slots)
    {
      hide Passed;
      var i, stop;
      ghost var d;
      i, stop, d := Scan(key);
      match stop {
        case FreeSlot =>
          Store(key, i, d);
          return Some(Some(i));
        case Present => return Some(None);
        case Exhausted => return None;
      }
    }

    /** Writes a new key to the free slot its probing has reached. */
    method Store(key: nat, i: nat, ghost d: nat)
      requires Valid() && key !in slots && d < size && Passed(key, d)
      requires i == Probe(Hash(key, size), d, size) < size && !used.Test(i)
      modifies this, used.words, keys
      ensures Valid() && slots == old(slots)[key := i]
    {
      assert Distance(Hash(key, size), i, size) == d;
      assert forall k :: k in slots ==> slots[k] != i;
      StoreKey(key, i);
    }

    method StoreKey(key: nat, i: nat)
      requires Valid() && key !in slots && i < size && !used.Test(i)
      requires forall k :: k in slots ==> slots[k] != i
      requires Reachable(Hash(key, size), i)
      modifies this, used.words, keys
      ensures Valid() && slots == old(slots)[key := i]
    {
      hide Hash, Probe, Distance;
      ghost var was := slots;
      used.Set(i);
      keys[i] := key;
      slots := slots[key := i];
      forall k | k in slots
        ensures slots[k] < size && used.Test(slots[k])
        ensures keys[slots[k]] == k
        ensures Reachable(Hash(k, size), slots[k])
      {
        if k != key {
          assert slots[k] == was[k] != i;
          assert old(used.Test(was[k]));
          assert old(Reachable(Hash(k, size), was[k]));
        }
      }
      forall j | 0 <= j < size && used.Test(j) ensures keys[j] in slots && slots[keys[j]] == j {
        assert j != i ==> old(used.Test(j)) && keys[j] == old(keys[j]);
      }
    }

    method Reset()
      requires Valid()
      modifies this, used.words
      ensures Valid() && slots == map[]
    {
      used.Reset();
      slots := map[];
    }
  }
}
