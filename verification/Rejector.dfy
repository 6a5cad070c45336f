/** The batched rejector: which token candidates no stack of the grammar can take. */
module Rejector {
  import opened Grammar
  import opened Utf8

  /** A candidate token: its code points with a terminating zero, how many of them have been
      matched, and the character its text leaves unfinished. */
  datatype Candidate = Candidate(id: int, cps: seq<int>, at: nat, partial: Partial) {
    predicate Ok() {
      at < |cps| && cps[|cps| - 1] == 0
    }

    function Head(): int
      requires Ok()
    {
      cps[at]
    }

    function Forth(): Candidate {
      this.(at := at + 1)
    }

    function Back(): Candidate {
      this.(at := if at == 0 then 0 else at - 1)
    }
  }

  predicate AllFit(cands: seq<Candidate>, n: nat) {
    forall i :: 0 <= i < |cands| ==> Fits(cands[i], n)
  }

  /** At most `n` code points are left, the terminating zero among them. */
  predicate Fits(c: Candidate, n: nat) {
    c.Ok() && |c.cps| - c.at <= n
  }

  // ------------------------------------------------------- unfinished characters

  function Pow64(n: nat): (r: nat)
    ensures r > 0
  {
    if n == 0 then 1 else 64 * Pow64(n - 1)
  }

  predicate Hopeless(p: Partial) {
    p.remain < 0 || (p.remain == 1 && p.value < 2)
  }

  /** The characters the unfinished one can become, without the overlong forms. */
  function Lowest(p: Partial): int
    requires p.remain >= 0
  {
    var low := p.value * Pow64(p.remain);
    if low == 0 && p.remain == 2 then 2048 else if low == 0 && p.remain == 3 then 65536 else low
  }

  function Highest(p: Partial): int
    requires p.remain >= 0
  {
    p.value * Pow64(p.remain) + Pow64(p.remain) - 1
  }

  /** Character or range number `k` of a class meets `low..high`. */
  predicate Meets(rules: Rules, el: seq<Elem>, k: nat, low: int, high: int)
    requires WellFormedRule(rules, el) && k + 1 < |el|
  {
    && (Opens(el[k]) || el[k].CharAlt?)
    && if el[k + 1].RngUpper? then el[k].c <= high && low <= el[k + 1].c else low <= el[k].c <= high
  }

  predicate ClassMeets(rules: Rules, el: seq<Elem>, at: nat, low: int, high: int)
    requires WellFormedRule(rules, el) && at + 1 < |el|
  {
    exists k :: at <= k < ClassEnd(rules, el, at) && Meets(rules, el, k, low, high)
  }

  predicate MatchPartial(rules: Rules, el: seq<Elem>, at: nat, p: Partial)
    requires WellFormedRule(rules, el) && at < |el| && Opens(el[at])
  {
    !Hopeless(p) && ClassMeets(rules, el, at, Lowest(p), Highest(p)) == el[at].Char?
  }

  method MatchPartialChar(rules: Rules, el: seq<Elem>, at: nat, p: Partial) returns (ok: bool)
    requires WellFormedRule(rules, el) && at < |el| && Opens(el[at])
    ensures ok <==> MatchPartial(rules, el, at, p)
  {
    if p.remain < 0 || (p.remain == 1 && p.value < 2) {
      return false;
    }
    hide Lowest, Highest;
    var low, high := Lowest(p), Highest(p);
    var pos := at;
    while true
      invariant at <= pos < |el| && (pos == at || el[pos].CharAlt?)
      invariant forall m :: at < m <= pos ==> Middle(el[m])
      invariant forall k :: at <= k < pos ==> !Meets(rules, el, k, low, high)
      decreases |el| - pos
    {
      ClassEndPast(rules, el, at, pos);
      if el[pos + 1].RngUpper? {
        if el[pos].c <= high && low <= el[pos + 1].c {
          assert Meets(rules, el, pos, low, high);
          return el[at].Char?;
        }
        assert !Meets(rules, el, pos + 1, low, high);
        pos := pos + 2;
      } else {
        if low <= el[pos].c <= high {
          assert Meets(rules, el, pos, low, high);
          return el[at].Char?;
        }
        pos := pos + 1;
      }
      if !el[pos].CharAlt? {
        break;
      }
    }
    ClassEndIs(rules, el, at, pos);
    return !el[at].Char?;
  }

  /** Every range of the class has its bounds in order. */
  predicate RangesOrdered(rules: Rules, el: seq<Elem>, at: nat)
    requires WellFormedRule(rules, el) && at + 1 < |el|
  {
    forall k :: at <= k < ClassEnd(rules, el, at) ==> RangeOrdered(rules, el, k)
  }

  predicate RangeOrdered(rules: Rules, el: seq<Elem>, k: nat)
    requires WellFormedRule(rules, el) && k + 1 < |el|
  {
    (Opens(el[k]) || el[k].CharAlt?) && el[k + 1].RngUpper? ==> el[k].c <= el[k + 1].c
  }

  lemma MeetsIsSome(rules: Rules, el: seq<Elem>, at: nat, low: int, high: int)
    requires WellFormedRule(rules, el) && at + 1 < |el| && RangesOrdered(rules, el, at) && low <= high
    ensures ClassMeets(rules, el, at, low, high) <==> exists chr :: low <= chr <= high && InClass(rules, el, at, chr)
  {
    hide WellFormedRule;
    if k :| at <= k < ClassEnd(rules, el, at) && Meets(rules, el, k, low, high) {
      assert RangeOrdered(rules, el, k);
      var chr := if el[k].c >= low then el[k].c else low;
      assert Covers(rules, el, k, chr) && InClass(rules, el, at, chr);
    }
    if chr :| low <= chr <= high && InClass(rules, el, at, chr) {
      var k :| at <= k < ClassEnd(rules, el, at) && Covers(rules, el, k, chr);
      assert Meets(rules, el, k, low, high);
    }
  }

  lemma LowestBelow(p: Partial)
    requires 0 <= p.remain <= 3 && p.value >= 0 && !Hopeless(p)
    ensures Lowest(p) <= Highest(p)
  {
    PowersOf64();
    hide Pow64;
  }

  /** The unfinished character can become `chr`: without the six bits of each byte that is still
      to come it has the same value, and it needs that many bytes. */
  predicate Becomes(p: Partial, chr: int) {
    match p.remain
    case 0 => chr == p.value
    case 1 => chr / 64 == p.value && chr >= 0x80
    case 2 => chr / 4096 == p.value && chr >= 0x800
    case 3 => chr / 262144 == p.value && chr >= 0x10000
    case _ => false
  }

  lemma BecomesIsRange(p: Partial, chr: int)
    requires p.remain <= 3 && p.value >= 0
    ensures Becomes(p, chr) <==> !Hopeless(p) && Lowest(p) <= chr <= Highest(p)
  {
    PowersOf64();
    hide Pow64;
    if p.remain == 1 {
      assert chr / 64 == p.value <==> p.value * 64 <= chr <= p.value * 64 + 63;
    } else if p.remain == 2 {
      assert chr / 4096 == p.value <==> p.value * 4096 <= chr <= p.value * 4096 + 4095;
    } else if p.remain == 3 {
      assert chr / 262144 == p.value <==> p.value * 262144 <= chr <= p.value * 262144 + 262143;
    }
  }

  lemma PowersOf64()
    ensures Pow64(0) == 1 && Pow64(1) == 64 && Pow64(2) == 4096 && Pow64(3) == 262144
  {
    assert Pow64(1) == 64 * Pow64(0) && Pow64(2) == 64 * Pow64(1) && Pow64(3) == 64 * Pow64(2);
  }

  /** A class of characters takes an unfinished one that can still become one of them; an
      inverse class one that can become a character, but none of the class. */
  lemma PartialMeaning(rules: Rules, el: seq<Elem>, at: nat, p: Partial)
    requires WellFormedRule(rules, el) && at < |el| && Opens(el[at]) && RangesOrdered(rules, el, at)
    requires p.remain <= 3 && p.value >= 0
    ensures el[at].Char? ==>
      (MatchPartial(rules, el, at, p) <==> exists chr :: Becomes(p, chr) && Accepts(rules, el, at, chr))
    ensures el[at].CharNot? ==>
      (MatchPartial(rules, el, at, p) <==>
       (exists chr :: Becomes(p, chr)) && forall chr :: Becomes(p, chr) ==> Accepts(rules, el, at, chr))
  {
    hide Lowest, Highest, InClass, ClassMeets, Becomes;
    forall chr ensures Becomes(p, chr) <==> !Hopeless(p) && Lowest(p) <= chr <= Highest(p) {
      BecomesIsRange(p, chr);
    }
    forall chr ensures Accepts(rules, el, at, chr) <==> InClass(rules, el, at, chr) == el[at].Char? {
    }
    if !Hopeless(p) {
      LowestBelow(p);
      assert Becomes(p, Lowest(p));
      MeetsIsSome(rules, el, at, Lowest(p), Highest(p));
    }
  }

  // ------------------------------------------------------------- the reference

  /** The code points that are left, up to the first zero. */
  function Word(c: Candidate): seq<int>
    requires c.Ok()
    decreases |c.cps| - c.at
  {
    if c.Head() == 0 then [] else [c.Head()] + Word(c.Forth())
  }

  predicate TopTakes(rules: Rules, s: Stack, p: Partial)
    requires WellFormed(rules) && Waits(rules, s)
  {
    s != [] && MatchPartial(rules, rules[s[|s| - 1].rule], s[|s| - 1].at, p)
  }

  /** Accepting the candidate's characters one at a time leaves a stack, one that can take its
      unfinished character if there is one. */
  ghost predicate Survives(rules: Rules, k: Rank, stacks: seq<Stack>, c: Candidate)
    requires WellFormed(rules) && Ranks(rules, k) && AllWait(rules, stacks) && c.Ok()
  {
    Left(rules, AcceptAll(rules, k, stacks, Word(c)), c.partial)
  }

  ghost predicate Left(rules: Rules, fed: seq<Stack>, p: Partial)
    requires WellFormed(rules) && AllWait(rules, fed)
  {
    if p.remain == 0 then fed != [] else exists i :: 0 <= i < |fed| && TopTakes(rules, fed[i], p)
  }

  lemma LeftConcat(rules: Rules, s: seq<Stack>, t: seq<Stack>, p: Partial)
    requires WellFormed(rules) && AllWait(rules, s) && AllWait(rules, t)
    ensures AllWait(rules, s + t) && (Left(rules, s + t, p) <==> Left(rules, s, p) || Left(rules, t, p))
  {
    hide WellFormedRule, Waits, TopTakes;
    assert forall i :: 0 <= i < |s| + |t| ==> (s + t)[i] == if i < |s| then s[i] else t[i - |s|];
    if i :| 0 <= i < |s| && TopTakes(rules, s[i], p) {
      assert (s + t)[i] == s[i];
    }
    if i :| 0 <= i < |t| && TopTakes(rules, t[i], p) {
      assert (s + t)[|s| + i] == t[i];
    }
  }

  lemma {:induction false} AcceptConcat(rules: Rules, k: Rank, s: seq<Stack>, t: seq<Stack>, c: int)
    requires WellFormed(rules) && Ranks(rules, k) && AllWait(rules, s) && AllWait(rules, t)
    ensures AllWait(rules, s + t) && Accept(rules, k, s + t, c) == Accept(rules, k, s, c) + Accept(rules, k, t, c)
    decreases |t|
  {
    hide WellFormedRule, Waits, Takes, Shifted, Advance;
    if t == [] {
      assert s + t == s;
      assert Accept(rules, k, s, c) + [] == Accept(rules, k, s, c);
    } else {
      var u, last := t[..|t| - 1], t[|t| - 1];
      assert AllWait(rules, s + t);
      assert (s + t)[..|s + t| - 1] == s + u && (s + t)[|s + t| - 1] == last;
      AcceptConcat(rules, k, s, u, c);
    }
  }

  lemma {:induction false} AcceptAllConcat(rules: Rules, k: Rank, s: seq<Stack>, t: seq<Stack>, w: seq<int>)
    requires WellFormed(rules) && Ranks(rules, k) && AllWait(rules, s) && AllWait(rules, t)
    ensures AllWait(rules, s + t)
    ensures AcceptAll(rules, k, s + t, w) == AcceptAll(rules, k, s, w) + AcceptAll(rules, k, t, w)
    decreases |w|
  {
    hide WellFormedRule, Waits, Accept;
    assert AllWait(rules, s + t);
    if w != [] {
      AcceptTexts(rules, k, s, w[0], []);
      AcceptTexts(rules, k, t, w[0], []);
      AcceptConcat(rules, k, s, t, w[0]);
      AcceptAllConcat(rules, k, Accept(rules, k, s, w[0]), Accept(rules, k, t, w[0]), w[1..]);
    }
  }

  lemma SurvivesConcat(rules: Rules, k: Rank, s: seq<Stack>, t: seq<Stack>, c: Candidate)
    requires WellFormed(rules) && Ranks(rules, k) && AllWait(rules, s) && AllWait(rules, t) && c.Ok()
    ensures AllWait(rules, s + t)
    ensures Survives(rules, k, s + t, c) <==> Survives(rules, k, s, c) || Survives(rules, k, t, c)
  {
    hide WellFormedRule, Waits, AcceptAll, Left;
    AcceptAllConcat(rules, k, s, t, Word(c));
    LeftConcat(rules, AcceptAll(rules, k, s, Word(c)), AcceptAll(rules, k, t, Word(c)), c.partial);
  }

  /** What a single waiting stack does with the next code point. */
  lemma SurvivesOne(rules: Rules, k: Rank, s: Stack, c: Candidate)
    requires WellFormed(rules) && Ranks(rules, k) && Waits(rules, s) && c.Ok()
    ensures AllWait(rules, [s])
    ensures c.Head() == 0 ==> (Survives(rules, k, [s], c) <==> c.partial.remain == 0 || TopTakes(rules, s, c.partial))
    ensures c.Head() != 0 && !Takes(rules, s, c.Head()) ==> !Survives(rules, k, [s], c)
    ensures c.Head() != 0 && Takes(rules, s, c.Head()) ==>
      AllWait(rules, Advance(rules, k, Shifted(rules, s)))
      && (Survives(rules, k, [s], c) <==> Survives(rules, k, Advance(rules, k, Shifted(rules, s)), c.Forth()))
  {
    hide WellFormedRule, Accepts, Shifted, Advance, TopTakes;
    if c.Head() == 0 {
      assert [s][0] == s;
    } else {
      var next := Accept(rules, k, [s], c.Head());
      AcceptOne(rules, k, s, c.Head());
      assert Word(c)[1..] == Word(c.Forth());
      if !Takes(rules, s, c.Head()) {
        AcceptAllNone(rules, k, Word(c.Forth()));
      } else {
        AdvanceKeepsTexts(rules, k, Shifted(rules, s), []);
      }
    }
  }

  lemma AcceptOne(rules: Rules, k: Rank, s: Stack, c: int)
    requires WellFormed(rules) && Ranks(rules, k) && Waits(rules, s)
    ensures Accept(rules, k, [s], c) == if Takes(rules, s, c) then Advance(rules, k, Shifted(rules, s)) else []
  {
    hide WellFormedRule, Takes, Shifted, Advance;
    assert [s][..0] == [];
    assert Accept(rules, k, [], c) == [];
  }

  lemma {:induction false} AcceptAllNone(rules: Rules, k: Rank, w: seq<int>)
    requires WellFormed(rules) && Ranks(rules, k)
    ensures AcceptAll(rules, k, [], w) == []
    decreases |w|
  {
    if w != [] {
      AcceptAllNone(rules, k, w[1..]);
    }
  }

  /** Every rule has a definition, so advancing always leaves a stack. */
  lemma {:induction false} AdvanceLeavesSome(rules: Rules, k: Rank, s: Stack)
    requires WellFormed(rules) && Ranks(rules, k) && StackOk(rules, s)
    ensures Advance(rules, k, s) != []
    decreases Weight(k, s)
  {
    hide WellFormedRule;
    if s != [] && At(rules, s[|s| - 1]).Ref? {
      RefFacts(rules, s[|s| - 1]);
      AllDrop(rules, k, s);
      FirstAlternate(rules, k, Below(rules, s), At(rules, s[|s| - 1]).rule, Weight(k, s));
    }
  }

  lemma {:induction false} FirstAlternate(rules: Rules, k: Rank, base: Stack, q: nat, bound: nat)
    requires WellFormed(rules) && Ranks(rules, k) && StackOk(rules, base) && q < |rules| && AltStart(rules[q], 0)
    requires Bounded(rules, k, base, q, bound)
    ensures Alternates(rules, k, base, q, 0, bound) != []
    decreases bound, 0
  {
    hide WellFormedRule, Weight, Ranks, StackOk, Push;
    AlternateOk(rules, k, base, q, 0, bound);
    AdvanceLeavesSome(rules, k, Push(rules, base, First(rules, q, 0)));
  }

  // -------------------------------------------------------------- the rejector

  /** The stack rules the candidate out on the spot. */
  predicate Fails(rules: Rules, s: Stack, c: Candidate)
    requires WellFormed(rules) && Waits(rules, s) && c.Ok()
  {
    if c.Head() == 0 then c.partial.remain != 0 && !TopTakes(rules, s, c.partial) else !Takes(rules, s, c.Head())
  }

  /** The candidate's next code point is taken. */
  predicate Passes(rules: Rules, s: Stack, c: Candidate)
    requires WellFormed(rules) && Waits(rules, s) && c.Ok()
  {
    c.Head() != 0 && Takes(rules, s, c.Head())
  }

  function FailNow(rules: Rules, s: Stack, cands: seq<Candidate>, ghost n: nat): (r: seq<Candidate>)
    requires WellFormed(rules) && Waits(rules, s) && AllFit(cands, n)
    ensures AllFit(r, n)
  {
    if cands == [] then []
    else
      var c := cands[|cands| - 1];
      FailNow(rules, s, cands[..|cands| - 1], n) + if Fails(rules, s, c) then [c] else []
  }

  function PassOn(rules: Rules, s: Stack, cands: seq<Candidate>, ghost n: nat): (r: seq<Candidate>)
    requires WellFormed(rules) && Waits(rules, s) && AllFit(cands, n)
    ensures AllFit(r, if n > 0 then n - 1 else 0)
    ensures cands == [] ==> r == []
  {
    if cands == [] then []
    else
      var c := cands[|cands| - 1];
      PassOn(rules, s, cands[..|cands| - 1], n) + if Passes(rules, s, c) then [c.Forth()] else []
  }

  function GiveBack(cands: seq<Candidate>, ghost n: nat): (r: seq<Candidate>)
    requires AllFit(cands, n)
    ensures AllFit(r, n + 1)
  {
    if cands == [] then [] else GiveBack(cands[..|cands| - 1], n) + [cands[|cands| - 1].Back()]
  }

  function ForStack(rules: Rules, ghost k: Rank, s: Stack, cands: seq<Candidate>, ghost n: nat): (r: seq<Candidate>)
    requires WellFormed(rules) && Ranks(rules, k) && Waits(rules, s) && AllFit(cands, n)
    ensures AllFit(r, n)
    decreases n, 1, 0
  {
    var now := FailNow(rules, s, cands, n);
    if s == [] || cands == [] then now
    else
      hide WellFormedRule, Waits, Shifted, Advance;
      var next := Shifted(rules, s);
      AdvanceKeepsTexts(rules, k, next, []);
      now + GiveBack(Reject(rules, k, Advance(rules, k, next), PassOn(rules, s, cands, n), n - 1), n - 1)
  }

  function Over(rules: Rules, ghost k: Rank, stacks: seq<Stack>, cands: seq<Candidate>,
                ghost n: nat): (r: seq<Candidate>)
    requires WellFormed(rules) && Ranks(rules, k) && AllWait(rules, stacks) && AllFit(cands, n)
    ensures AllFit(r, n)
    decreases n, 2, |stacks|
  {
    if stacks == [] then cands
    else Over(rules, k, stacks[1..], ForStack(rules, k, stacks[0], cands, n), n)
  }

  /** The candidates that every stack rejects; each stack only sees what the ones before it
      rejected. */
  function Reject(rules: Rules, ghost k: Rank, stacks: seq<Stack>, cands: seq<Candidate>,
                  ghost n: nat): (r: seq<Candidate>)
    requires WellFormed(rules) && Ranks(rules, k) && AllWait(rules, stacks) && AllFit(cands, n)
    ensures AllFit(r, n)
    decreases n, 3, 0
  {
    if cands == [] || stacks == [] then [] else Over(rules, k, stacks, cands, n)
  }

  // ------------------------------------------------------- the batch is exact

  lemma {:induction false} FailNowCount(rules: Rules, s: Stack, cands: seq<Candidate>, n: nat, c: Candidate)
    requires WellFormed(rules) && Waits(rules, s) && AllFit(cands, n) && c.Ok()
    ensures multiset(FailNow(rules, s, cands, n))[c] == if Fails(rules, s, c) then multiset(cands)[c] else 0
  {
    hide WellFormedRule, Waits, Fails;
    if cands != [] {
      FailNowCount(rules, s, cands[..|cands| - 1], n, c);
      assert cands == cands[..|cands| - 1] + [cands[|cands| - 1]];
    }
  }

  lemma {:induction false} PassOnCount(rules: Rules, s: Stack, cands: seq<Candidate>, n: nat, c: Candidate)
    requires WellFormed(rules) && Waits(rules, s) && AllFit(cands, n) && c.Ok()
    ensures multiset(PassOn(rules, s, cands, n))[c.Forth()] == if Passes(rules, s, c) then multiset(cands)[c] else 0
  {
    hide WellFormed, Waits, Passes, AllFit, PassOn;
    if cands == [] {
      PassOnNone(rules, s, n);
    } else {
      var first, d := cands[..|cands| - 1], cands[|cands| - 1];
      PassOnLast(rules, s, cands, n);
      PassOnCount(rules, s, first, n, c);
      PassOnPush(first, PassOn(rules, s, first, n), d, c, Passes(rules, s, c), Passes(rules, s, d));
      assert cands == first + [d];
    }
  }

  lemma PassOnPush(first: seq<Candidate>, on: seq<Candidate>, d: Candidate, c: Candidate, pass: bool, also: bool)
    requires multiset(on)[c.Forth()] == (if pass then multiset(first)[c] else 0) && (d == c ==> pass == also)
    ensures multiset(on + if also then [d.Forth()] else [])[c.Forth()] ==
            if pass then multiset(first + [d])[c] else 0
  {
    PushCount(first, d, c);
    PushCount(on, d.Forth(), c.Forth());
    assert on + [] == on;
  }

  lemma PassOnNone(rules: Rules, s: Stack, n: nat)
    requires WellFormed(rules) && Waits(rules, s)
    ensures AllFit([], n) && PassOn(rules, s, [], n) == []
  {
  }

  lemma PassOnLast(rules: Rules, s: Stack, cands: seq<Candidate>, n: nat)
    requires WellFormed(rules) && Waits(rules, s) && AllFit(cands, n) && cands != []
    ensures AllFit(cands[..|cands| - 1], n) && cands[|cands| - 1].Ok()
    ensures PassOn(rules, s, cands, n) ==
            PassOn(rules, s, cands[..|cands| - 1], n)
            + if Passes(rules, s, cands[|cands| - 1]) then [cands[|cands| - 1].Forth()] else []
  {
    hide WellFormed, Waits, Passes;
  }

  /** Candidates that have moved on at least once. */
  predicate Moved(cands: seq<Candidate>) {
    forall i :: 0 <= i < |cands| ==> cands[i].at > 0
  }

  lemma {:induction false} GiveBackCount(cands: seq<Candidate>, n: nat, c: Candidate)
    requires AllFit(cands, n) && Moved(cands)
    ensures multiset(GiveBack(cands, n))[c] == multiset(cands)[c.Forth()]
  {
    hide AllFit, Moved, GiveBack;
    if cands == [] {
      GiveBackNone(n);
    } else {
      var first, d := cands[..|cands| - 1], cands[|cands| - 1];
      GiveBackLast(cands, n);
      GiveBackCount(first, n, c);
      GiveBackPush(first, GiveBack(first, n), d, c);
      assert cands == first + [d];
    }
  }

  lemma GiveBackNone(n: nat)
    ensures AllFit([], n) && GiveBack([], n) == []
  {
  }

  lemma GiveBackPush(first: seq<Candidate>, back: seq<Candidate>, d: Candidate, c: Candidate)
    requires multiset(back)[c] == multiset(first)[c.Forth()] && d.at > 0
    ensures multiset(back + [d.Back()])[c] == multiset(first + [d])[c.Forth()]
  {
    PushCount(first, d, c.Forth());
    PushCount(back, d.Back(), c);
    BackIsForth(d, c);
  }

  lemma BackIsForth(d: Candidate, c: Candidate)
    requires d.at > 0
    ensures d.Back() == c <==> d == c.Forth()
  {
  }

  lemma GiveBackLast(cands: seq<Candidate>, n: nat)
    requires cands != [] && AllFit(cands, n) && Moved(cands)
    ensures AllFit(cands[..|cands| - 1], n) && Moved(cands[..|cands| - 1]) && cands[|cands| - 1].at > 0
    ensures GiveBack(cands, n) == GiveBack(cands[..|cands| - 1], n) + [cands[|cands| - 1].Back()]
  {
  }

  lemma PushCount(s: seq<Candidate>, d: Candidate, c: Candidate)
    ensures multiset(s + [d])[c] == multiset(s)[c] + if d == c then 1 else 0
  {
  }

  lemma Within(r: seq<Candidate>, cands: seq<Candidate>, n: nat)
    requires AllFit(r, n) && forall c: Candidate :: c.Ok() ==> multiset(r)[c] <= multiset(cands)[c]
    ensures Moved(cands) ==> Moved(r)
  {
    forall i | 0 <= i < |r| ensures r[i] in cands {
      assert Fits(r[i], n) && r[i].Ok();
      assert r[i] in multiset(r);
      assert r[i] in multiset(cands);
    }
  }

  lemma {:induction false} PassOnMoved(rules: Rules, s: Stack, cands: seq<Candidate>, n: nat)
    requires WellFormed(rules) && Waits(rules, s) && AllFit(cands, n)
    ensures Moved(PassOn(rules, s, cands, n))
  {
    hide WellFormedRule, Waits, Passes;
    if cands != [] {
      PassOnMoved(rules, s, cands[..|cands| - 1], n);
    }
  }

  /** A nonempty set of stacks rejects exactly the candidates that would not survive being
      accepted one code point at a time, each as often as it was offered and at the code point
      it was offered at. */
  lemma {:induction false} RejectsExactly(rules: Rules, k: Rank, stacks: seq<Stack>, cands: seq<Candidate>,
                                          n: nat, c: Candidate)
    requires WellFormed(rules) && Ranks(rules, k) && AllWait(rules, stacks) && AllFit(cands, n) && stacks != []
    requires c.Ok()
    ensures multiset(Reject(rules, k, stacks, cands, n))[c] == if Survives(rules, k, stacks, c) then 0
      else multiset(cands)[c]
    decreases n, 3, 0
  {
    hide WellFormedRule, Waits, Survives, Over;
    if cands != [] {
      OverCount(rules, k, stacks, cands, n, c);
    }
  }

  lemma {:induction false} OverCount(rules: Rules, k: Rank, stacks: seq<Stack>, cands: seq<Candidate>, n: nat,
                                     c: Candidate)
    requires WellFormed(rules) && Ranks(rules, k) && AllWait(rules, stacks) && AllFit(cands, n) && c.Ok()
    ensures multiset(Over(rules, k, stacks, cands, n))[c] ==
            if stacks != [] && Survives(rules, k, stacks, c) then 0 else multiset(cands)[c]
    decreases n, 2, |stacks|
  {
    hide WellFormedRule, Waits, Survives, ForStack, AllFit;
    if stacks != [] {
      var first, rest := stacks[0], stacks[1..];
      assert stacks == [first] + rest && AllWait(rules, [first]) && AllWait(rules, rest);
      SurvivesConcat(rules, k, [first], rest, c);
      ForStackCount(rules, k, first, cands, n, c);
      OverCount(rules, k, rest, ForStack(rules, k, first, cands, n), n, c);
      if rest == [] {
        assert stacks == [first];
      }
    }
  }

  lemma {:induction false} ForStackCount(rules: Rules, k: Rank, s: Stack, cands: seq<Candidate>, n: nat, c: Candidate)
    requires WellFormed(rules) && Ranks(rules, k) && Waits(rules, s) && AllFit(cands, n) && c.Ok()
    ensures AllWait(rules, [s])
    ensures multiset(ForStack(rules, k, s, cands, n))[c] == if Survives(rules, k, [s], c) then 0 else multiset(cands)[c]
    decreases n, 1, 0
  {
    hide WellFormedRule, Waits, Survives, Reject, AllFit, FailNow, PassOn, GiveBack;
    FailNowCount(rules, s, cands, n, c);
    SurvivesOne(rules, k, s, c);
    if s == [] || cands == [] {
      EmptyTakes(rules, s, c);
    } else {
      assert n > 0 by { SomeLeft(cands, n); }
      LaterRejects(rules, k, s, cands, n, c);
    }
  }

  lemma SomeLeft(cands: seq<Candidate>, n: nat)
    requires AllFit(cands, n) && cands != []
    ensures n > 0
  {
    assert Fits(cands[0], n);
  }

  lemma EmptyTakes(rules: Rules, s: Stack, c: Candidate)
    requires WellFormed(rules) && Waits(rules, s) && c.Ok()
    ensures s == [] ==> !Takes(rules, s, c.Head()) && !TopTakes(rules, s, c.partial)
  {
  }

  /** The rejects of the next code points, for one candidate. */
  lemma {:induction false} LaterRejects(rules: Rules, k: Rank, s: Stack, cands: seq<Candidate>, n: nat, c: Candidate)
    requires WellFormed(rules) && Ranks(rules, k) && Waits(rules, s) && AllFit(cands, n) && c.Ok()
    requires s != [] && cands != [] && n > 0
    ensures AllWait(rules, Advance(rules, k, Shifted(rules, s)))
    ensures var later := Reject(rules, k, Advance(rules, k, Shifted(rules, s)), PassOn(rules, s, cands, n), n - 1);
            multiset(GiveBack(later, n - 1))[c] ==
            if !Passes(rules, s, c) || Survives(rules, k, Advance(rules, k, Shifted(rules, s)), c.Forth()) then 0
            else multiset(cands)[c]
    decreases n, 0, 0
  {
    hide WellFormedRule, Waits, Survives, Reject, AllFit, PassOn, GiveBack, Shifted, Advance, Takes;
    AdvanceKeepsTexts(rules, k, Shifted(rules, s), []);
    AdvanceLeavesSome(rules, k, Shifted(rules, s));
    var next := Advance(rules, k, Shifted(rules, s));
    var passed := PassOn(rules, s, cands, n);
    var later := Reject(rules, k, next, passed, n - 1);
    forall d: Candidate | d.Ok() ensures multiset(later)[d] <= multiset(passed)[d] {
      RejectsExactly(rules, k, next, passed, n - 1, d);
    }
    Within(later, passed, n - 1);
    PassOnMoved(rules, s, cands, n);
    GiveBackCount(later, n - 1, c);
    PassOnCount(rules, s, cands, n, c);
    if c.Forth().Ok() {
      RejectsExactly(rules, k, next, passed, n - 1, c.Forth());
    } else {
      NotAmong(later, n - 1, c.Forth());
    }
  }

  lemma NotAmong(r: seq<Candidate>, n: nat, c: Candidate)
    requires AllFit(r, n) && !c.Ok()
    ensures multiset(r)[c] == 0
  {
    forall i | 0 <= i < |r| ensures r[i] != c {
      assert Fits(r[i], n);
    }
  }
}
