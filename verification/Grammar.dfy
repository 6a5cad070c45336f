/** The grammar engine: a set of pushdown stacks follows a context-free grammar. */
module Grammar {

  datatype Elem =
    | End
    | Alt
    | Ref(rule: nat)
    | Char(c: int)
    | CharNot(c: int)
    | RngUpper(c: int)
    | CharAlt(c: int)

  type Rules = seq<seq<Elem>>

  /** A position in a rule; the source holds a pointer to the element. */
  datatype Pos = Pos(rule: nat, at: nat)

  /** The top of a stack is its last position. */
  type Stack = seq<Pos>

  // ---------------------------------------------------------- rules and positions

  /** The end of one of the definitions of a rule. */
  predicate Ends(e: Elem) {
    e.End? || e.Alt?
  }

  predicate Opens(e: Elem) {
    e.Char? || e.CharNot?
  }

  /** An element inside a character class. */
  predicate Middle(e: Elem) {
    e.RngUpper? || e.CharAlt?
  }

  /** The one `End` is the last element, references resolve, and upper bounds and further
      characters only occur inside character classes. */
  predicate WellFormedRule(rules: Rules, el: seq<Elem>) {
    && |el| > 0 && el[|el| - 1].End?
    && (forall k :: 0 <= k < |el| - 1 ==> !el[k].End?)
    && (forall k :: 0 <= k < |el| && el[k].Ref? ==> el[k].rule < |rules|)
    && (forall k :: 0 <= k < |el| && el[k].RngUpper? ==> k > 0 && (Opens(el[k - 1]) || el[k - 1].CharAlt?))
    && (forall k :: 0 <= k < |el| && el[k].CharAlt? ==> k > 0 && (Opens(el[k - 1]) || Middle(el[k - 1])))
  }

  predicate WellFormed(rules: Rules) {
    forall r :: 0 <= r < |rules| ==> WellFormedRule(rules, rules[r])
  }

  predicate ItemAt(rules: Rules, p: Pos) {
    p.rule < |rules| && p.at < |rules[p.rule]| && !Middle(rules[p.rule][p.at])
  }

  function At(rules: Rules, p: Pos): Elem
    requires ItemAt(rules, p)
  {
    rules[p.rule][p.at]
  }

  predicate AltStart(el: seq<Elem>, a: nat) {
    a < |el| && (a == 0 || el[a - 1].Alt?)
  }

  /** Where the definition that contains position `a` ends. */
  function EndOf(rules: Rules, el: seq<Elem>, a: nat): (e: nat)
    requires WellFormedRule(rules, el) && a < |el|
    ensures a <= e < |el| && Ends(el[e])
    decreases |el| - a
  {
    if Ends(el[a]) then a else EndOf(rules, el, a + 1)
  }

  lemma {:induction false} EndOfIsFirst(rules: Rules, el: seq<Elem>, a: nat, k: nat)
    requires WellFormedRule(rules, el) && a < |el| && a <= k < EndOf(rules, el, a)
    ensures !Ends(el[k])
    decreases |el| - a
  {
    if a < k {
      EndOfIsFirst(rules, el, a + 1, k);
    }
  }

  /** The end of the definition at `a` leads to the next definition of the rule. */
  lemma NextAlternate(rules: Rules, el: seq<Elem>, a: nat, b: nat)
    requires WellFormedRule(rules, el) && AltStart(el, a) && AltStart(el, b) && a < b
    ensures var e := EndOf(rules, el, a); el[e].Alt? && e + 1 <= b
  {
    var e := EndOf(rules, el, a);
    if b <= e {
      EndOfIsFirst(rules, el, a, b - 1);
    }
  }

  // ---------------------------------------------------------- character classes

  /** The first position after `at` that does not belong to its character class. */
  function ClassEnd(rules: Rules, el: seq<Elem>, at: nat): (e: nat)
    requires WellFormedRule(rules, el) && at + 1 < |el|
    ensures at < e < |el| && !Middle(el[e])
    decreases |el| - at
  {
    if Middle(el[at + 1]) then ClassEnd(rules, el, at + 1) else at + 1
  }

  /** Character or range number `k` of a class contains `chr`. */
  predicate Covers(rules: Rules, el: seq<Elem>, k: nat, chr: int)
    requires WellFormedRule(rules, el) && k + 1 < |el|
  {
    && (Opens(el[k]) || el[k].CharAlt?)
    && if el[k + 1].RngUpper? then el[k].c <= chr <= el[k + 1].c else chr == el[k].c
  }

  /** Some character or range of the class contains `chr`. */
  predicate InClass(rules: Rules, el: seq<Elem>, at: nat, chr: int)
    requires WellFormedRule(rules, el) && at + 1 < |el|
  {
    exists k :: at <= k < ClassEnd(rules, el, at) && Covers(rules, el, k, chr)
  }

  predicate Accepts(rules: Rules, el: seq<Elem>, at: nat, chr: int)
    requires WellFormedRule(rules, el) && at < |el| && Opens(el[at])
  {
    InClass(rules, el, at, chr) == el[at].Char?
  }

  lemma {:induction false} ClassEndPast(rules: Rules, el: seq<Elem>, at: nat, k: nat)
    requires WellFormedRule(rules, el) && at <= k && at + 1 < |el| && k < |el|
    requires forall m :: at < m <= k ==> Middle(el[m])
    ensures k + 1 < |el| && ClassEnd(rules, el, at) == ClassEnd(rules, el, k)
    decreases k - at
  {
    if at < k {
      ClassEndPast(rules, el, at + 1, k);
    }
  }

  method MatchChar(rules: Rules, el: seq<Elem>, at: nat, chr: int) returns (ok: bool, pos: nat)
    requires WellFormedRule(rules, el) && at < |el| && Opens(el[at])
    ensures ok <==> Accepts(rules, el, at, chr)
    ensures pos == ClassEnd(rules, el, at)
  {
    var found := false;
    pos := at;
    while true
      invariant at <= pos < |el| && (pos == at || el[pos].CharAlt?)
      invariant forall m :: at < m <= pos ==> Middle(el[m])
      invariant found <==> exists k :: at <= k < pos && Covers(rules, el, k, chr)
      decreases |el| - pos
    {
      ClassEndPast(rules, el, at, pos);
      assert Covers(rules, el, pos, chr) <==>
             if el[pos + 1].RngUpper? then el[pos].c <= chr <= el[pos + 1].c else chr == el[pos].c;
      if el[pos + 1].RngUpper? {
        found := found || el[pos].c <= chr <= el[pos + 1].c;
        assert !Covers(rules, el, pos + 1, chr);
        pos := pos + 2;
      } else {
        found := found || el[pos].c == chr;
        pos := pos + 1;
      }
      if !el[pos].CharAlt? {
        break;
      }
    }
    assert pos == ClassEnd(rules, el, at) by { ClassEndIs(rules, el, at, pos); }
    ok := found == el[at].Char?;
  }

  lemma ClassEndIs(rules: Rules, el: seq<Elem>, at: nat, e: nat)
    requires WellFormedRule(rules, el) && at < e < |el| && !Middle(el[e])
    requires forall m :: at < m < e ==> Middle(el[m])
    ensures ClassEnd(rules, el, at) == e
  {
    ClassEndPast(rules, el, at, e - 1);
  }

  // ------------------------------------------------------------------- meaning

  /** A derivation from a position to the end of its definition. */
  datatype Deriv =
    | Done
    | Eat(c: int, rest: Deriv)
    | Expand(alt: nat, sub: Deriv, rest: Deriv)

  predicate Derives(rules: Rules, p: Pos, d: Deriv)
    requires WellFormed(rules) && ItemAt(rules, p)
    decreases d
  {
    var el := rules[p.rule];
    match el[p.at]
    case Ref(q) =>
      && d.Expand? && AltStart(rules[q], d.alt)
      && Derives(rules, First(rules, q, d.alt), d.sub) && Derives(rules, Next(rules, p), d.rest)
    case Char(_) => d.Eat? && Accepts(rules, el, p.at, d.c) && Derives(rules, After(rules, p), d.rest)
    case CharNot(_) => d.Eat? && Accepts(rules, el, p.at, d.c) && Derives(rules, After(rules, p), d.rest)
    case _ => d.Done?
  }

  function First(rules: Rules, q: nat, a: nat): (p: Pos)
    requires WellFormed(rules) && q < |rules| && AltStart(rules[q], a)
    ensures ItemAt(rules, p)
  {
    Pos(q, a)
  }

  function Next(rules: Rules, p: Pos): (n: Pos)
    requires WellFormed(rules) && ItemAt(rules, p) && At(rules, p).Ref?
    ensures ItemAt(rules, n)
  {
    Pos(p.rule, p.at + 1)
  }

  function After(rules: Rules, p: Pos): (n: Pos)
    requires WellFormed(rules) && ItemAt(rules, p) && Opens(At(rules, p))
    ensures ItemAt(rules, n)
  {
    Pos(p.rule, ClassEnd(rules, rules[p.rule], p.at))
  }

  function Yield(d: Deriv): seq<int> {
    match d
    case Done => []
    case Eat(c, rest) => [c] + Yield(rest)
    case Expand(_, sub, rest) => Yield(sub) + Yield(rest)
  }

  /** The language of a rule: the yields of the derivations of its definitions. */
  ghost predicate InLanguage(rules: Rules, q: nat, w: seq<int>)
    requires WellFormed(rules) && q < |rules|
  {
    exists a: nat, d :: AltStart(rules[q], a) && Derives(rules, First(rules, q, a), d) && Yield(d) == w
  }

  predicate Items(rules: Rules, s: Stack) {
    forall i :: 0 <= i < |s| ==> ItemAt(rules, s[i])
  }

  /** One derivation per position of the stack. */
  predicate Parses(rules: Rules, s: Stack, ds: seq<Deriv>)
    requires WellFormed(rules) && Items(rules, s)
  {
    |ds| == |s| && forall i :: 0 <= i < |s| ==> Derives(rules, s[i], ds[i])
  }

  function Text(ds: seq<Deriv>): seq<int> {
    if ds == [] then [] else Yield(ds[|ds| - 1]) + Text(ds[..|ds| - 1])
  }

  /** The texts a stack can still take, from its top down. */
  ghost predicate Den(rules: Rules, s: Stack, w: seq<int>)
    requires WellFormed(rules) && Items(rules, s)
  {
    exists ds :: Parses(rules, s, ds) && Text(ds) == w
  }

  lemma TextOf(ds: seq<Deriv>, d: Deriv)
    ensures Text(ds + [d]) == Yield(d) + Text(ds)
  {
    assert (ds + [d])[..|ds|] == ds;
  }

  lemma ParsesPush(rules: Rules, s: Stack, p: Pos, ds: seq<Deriv>, d: Deriv)
    requires WellFormed(rules) && Items(rules, s) && ItemAt(rules, p)
    requires Parses(rules, s, ds) && Derives(rules, p, d)
    ensures Items(rules, s + [p]) && Parses(rules, s + [p], ds + [d])
    ensures Text(ds + [d]) == Yield(d) + Text(ds)
  {
    hide Derives, WellFormed, ItemAt, Yield, Text;
    TextOf(ds, d);
  }

  /** Splits a parse into the derivations below the top and that of the top. */
  lemma ParsesTop(rules: Rules, s: Stack, p: Pos, ds: seq<Deriv>) returns (below: seq<Deriv>, d: Deriv)
    requires WellFormed(rules) && Items(rules, s) && ItemAt(rules, p)
    requires Items(rules, s + [p]) && Parses(rules, s + [p], ds)
    ensures ds == below + [d]
    ensures Parses(rules, s, below) && Derives(rules, p, d)
    ensures Text(ds) == Yield(d) + Text(below)
  {
    hide Derives, WellFormed, ItemAt, Yield, Text;
    below, d := ds[..|s|], ds[|s|];
    assert ds == below + [d];
    TextOf(below, d);
    assert (s + [p])[|s|] == p;
    forall i | 0 <= i < |s| ensures Derives(rules, s[i], below[i]) {
      assert s[i] == (s + [p])[i];
    }
  }

  lemma DenEmpty(rules: Rules, w: seq<int>)
    requires WellFormed(rules)
    ensures Den(rules, [], w) <==> w == []
  {
    assert Parses(rules, [], []) && Text([]) == [];
  }

  /** Pushes a position unless its definition is at its end. */
  function Push(rules: Rules, s: Stack, p: Pos): (r: Stack)
    requires ItemAt(rules, p)
  {
    if Ends(At(rules, p)) then s else s + [p]
  }

  lemma DenPush(rules: Rules, s: Stack, p: Pos, w: seq<int>)
    requires WellFormed(rules) && Items(rules, s) && ItemAt(rules, p)
    ensures Items(rules, Push(rules, s, p))
    ensures Den(rules, s + [p], w) <==> Den(rules, Push(rules, s, p), w)
  {
    hide Derives, WellFormedRule, Text;
    assert Items(rules, s + [p]);
    if Ends(At(rules, p)) {
      if Den(rules, s + [p], w) {
        var ds :| Parses(rules, s + [p], ds) && Text(ds) == w;
        var below, d := ParsesTop(rules, s, p, ds);
        EndIsDone(rules, p, d);
      }
      if Den(rules, s, w) {
        var ds :| Parses(rules, s, ds) && Text(ds) == w;
        EndIsDone(rules, p, Done);
        ParsesPush(rules, s, p, ds, Done);
      }
    }
  }

  lemma EndIsDone(rules: Rules, p: Pos, d: Deriv)
    requires WellFormed(rules) && ItemAt(rules, p) && Ends(At(rules, p))
    ensures Derives(rules, p, d) <==> d == Done
    ensures Yield(Done) == []
  {
  }

  /** A reference stands for any definition of its rule. */
  lemma DenRef(rules: Rules, s: Stack, p: Pos, w: seq<int>)
    requires WellFormed(rules) && Items(rules, s) && ItemAt(rules, p) && At(rules, p).Ref?
    ensures Den(rules, s + [p], w) <==>
            exists a: nat :: AltStart(rules[At(rules, p).rule], a)
              && DenAlt(rules, s + [Next(rules, p)], At(rules, p).rule, a, w)
  {
    hide Derives, Text, AltStart, Parses;
    assert Items(rules, s + [p]) && Items(rules, s + [Next(rules, p)]);
    if Den(rules, s + [p], w) {
      var ds :| Parses(rules, s + [p], ds) && Text(ds) == w;
      var a := ExpandTop(rules, s, p, ds);
    }
    if a: nat :| AltStart(rules[At(rules, p).rule], a) && DenAlt(rules, s + [Next(rules, p)], At(rules, p).rule, a, w) {
      FoldTop(rules, s, p, a, w);
    }
  }

  lemma RefDerives(rules: Rules, p: Pos, d: Deriv)
    requires WellFormed(rules) && ItemAt(rules, p) && At(rules, p).Ref?
    ensures Derives(rules, p, d) <==>
            && d.Expand? && AltStart(rules[At(rules, p).rule], d.alt)
            && Derives(rules, First(rules, At(rules, p).rule, d.alt), d.sub) && Derives(rules, Next(rules, p), d.rest)
    ensures d.Expand? ==> Yield(d) == Yield(d.sub) + Yield(d.rest)
  {
  }

  ghost predicate DenAlt(rules: Rules, base: Stack, q: nat, a: nat, w: seq<int>)
    requires WellFormed(rules) && Items(rules, base) && q < |rules| && AltStart(rules[q], a)
  {
    Den(rules, base + [First(rules, q, a)], w)
  }

  lemma ExpandTop(rules: Rules, s: Stack, p: Pos, ds: seq<Deriv>) returns (a: nat)
    requires WellFormed(rules) && Items(rules, s) && ItemAt(rules, p) && At(rules, p).Ref?
    requires Items(rules, s + [p]) && Parses(rules, s + [p], ds)
    ensures Items(rules, s + [Next(rules, p)]) && AltStart(rules[At(rules, p).rule], a)
    ensures DenAlt(rules, s + [Next(rules, p)], At(rules, p).rule, a, Text(ds))
  {
    hide Derives, Text, AltStart, Parses, Yield, First, Next;
    var below, d := ParsesTop(rules, s, p, ds);
    RefDerives(rules, p, d);
    a := d.alt;
    ParsesPush(rules, s, Next(rules, p), below, d.rest);
    ParsesPush(rules, s + [Next(rules, p)], First(rules, At(rules, p).rule, a), below + [d.rest], d.sub);
    assert Text(below + [d.rest] + [d.sub]) == Text(ds);
  }

  lemma FoldTop(rules: Rules, s: Stack, p: Pos, a: nat, w: seq<int>)
    requires WellFormed(rules) && Items(rules, s) && ItemAt(rules, p) && At(rules, p).Ref?
    requires AltStart(rules[At(rules, p).rule], a)
    requires Items(rules, s + [Next(rules, p)]) && DenAlt(rules, s + [Next(rules, p)], At(rules, p).rule, a, w)
    ensures Items(rules, s + [p]) && Den(rules, s + [p], w)
  {
    hide Derives, Text, AltStart, Parses, Yield, First, Next;
    var first := First(rules, At(rules, p).rule, a);
    var ds :| Parses(rules, s + [Next(rules, p)] + [first], ds) && Text(ds) == w;
    var upper, sub := ParsesTop(rules, s + [Next(rules, p)], first, ds);
    var below, rest := ParsesTop(rules, s, Next(rules, p), upper);
    RefDerives(rules, p, Expand(a, sub, rest));
    ParsesPush(rules, s, p, below, Expand(a, sub, rest));
    assert Text(below + [Expand(a, sub, rest)]) == w;
  }

  /** A character class takes one character, and only one it accepts. */
  lemma DenEat(rules: Rules, s: Stack, p: Pos, w: seq<int>)
    requires WellFormed(rules) && Items(rules, s) && ItemAt(rules, p) && Opens(At(rules, p))
    ensures Den(rules, s + [p], w) <==>
            (w != [] && Accepts(rules, rules[p.rule], p.at, w[0]) && Den(rules, s + [After(rules, p)], w[1..]))
  {
    hide Derives, WellFormedRule, Text, Accepts, Parses, Yield, After;
    assert Items(rules, s + [p]) && Items(rules, s + [After(rules, p)]);
    if Den(rules, s + [p], w) {
      var ds :| Parses(rules, s + [p], ds) && Text(ds) == w;
      var below, d := ParsesTop(rules, s, p, ds);
      EatDerives(rules, p, d);
      ParsesPush(rules, s, After(rules, p), below, d.rest);
      assert w[1..] == Yield(d.rest) + Text(below);
    }
    if w != [] && Accepts(rules, rules[p.rule], p.at, w[0]) && Den(rules, s + [After(rules, p)], w[1..]) {
      var ds :| Parses(rules, s + [After(rules, p)], ds) && Text(ds) == w[1..];
      var below, d := ParsesTop(rules, s, After(rules, p), ds);
      EatDerives(rules, p, Eat(w[0], d));
      ParsesPush(rules, s, p, below, Eat(w[0], d));
      assert w == [w[0]] + Yield(d) + Text(below);
    }
  }

  lemma EatDerives(rules: Rules, p: Pos, d: Deriv)
    requires WellFormed(rules) && ItemAt(rules, p) && Opens(At(rules, p))
    ensures Derives(rules, p, d) <==>
            d.Eat? && Accepts(rules, rules[p.rule], p.at, d.c) && Derives(rules, After(rules, p), d.rest)
    ensures d.Eat? ==> Yield(d) == [d.c] + Yield(d.rest)
  {
  }

  // --------------------------------------------------------------- termination

  /** Evidence that no rule reaches itself without taking a character: a weight per position
      that drops from a reference to what it leads to, past definitions that can be empty. */
  datatype Rank = Rank(weight: Pos -> nat, canBeEmpty: Pos -> bool)

  ghost predicate Ranks(rules: Rules, k: Rank)
    requires WellFormed(rules)
  {
    && (forall p :: ItemAt(rules, p) && Ends(At(rules, p)) ==> k.weight(p) == 0 && k.canBeEmpty(p))
    && (forall p, a: nat :: ItemAt(rules, p) && At(rules, p).Ref? && AltStart(rules[At(rules, p).rule], a) ==>
          Drops(k, p, Next(rules, p), First(rules, At(rules, p).rule, a)))
  }

  predicate Drops(k: Rank, p: Pos, next: Pos, first: Pos) {
    && k.weight(p) > k.weight(first) + (if k.canBeEmpty(first) then k.weight(next) else 0)
    && (k.canBeEmpty(first) && k.canBeEmpty(next) ==> k.canBeEmpty(p))
  }

  ghost function Weight(k: Rank, s: Stack): nat {
    if s == [] then 0
    else
      var top := s[|s| - 1];
      k.weight(top) + (if k.canBeEmpty(top) then Weight(k, s[..|s| - 1]) else 0)
  }

  lemma WeightPush(rules: Rules, k: Rank, s: Stack, p: Pos)
    requires WellFormed(rules) && Ranks(rules, k) && ItemAt(rules, p)
    ensures Weight(k, Push(rules, s, p)) == k.weight(p) + (if k.canBeEmpty(p) then Weight(k, s) else 0)
  {
    if !Ends(At(rules, p)) {
      assert (s + [p])[..|s|] == s;
    }
  }

  lemma WeightDrops(rules: Rules, k: Rank, s: Stack, a: nat)
    requires WellFormed(rules) && Ranks(rules, k) && StackOk(rules, s) && s != [] && At(rules, s[|s| - 1]).Ref?
    requires AltStart(rules[At(rules, s[|s| - 1]).rule], a)
    ensures Weight(k, Push(rules, Below(rules, s), First(rules, At(rules, s[|s| - 1]).rule, a))) < Weight(k, s)
  {
    var p := s[|s| - 1];
    var first := First(rules, At(rules, p).rule, a);
    WeightPush(rules, k, s[..|s| - 1], Next(rules, p));
    WeightPush(rules, k, Below(rules, s), first);
    assert Drops(k, p, Next(rules, p), first);
  }

  lemma AllDrop(rules: Rules, k: Rank, s: Stack)
    requires WellFormed(rules) && Ranks(rules, k) && StackOk(rules, s) && s != [] && At(rules, s[|s| - 1]).Ref?
    ensures Bounded(rules, k, Below(rules, s), At(rules, s[|s| - 1]).rule, Weight(k, s))
  {
    var q := At(rules, s[|s| - 1]).rule;
    forall a: nat | AltStart(rules[q], a)
      ensures Weight(k, Push(rules, Below(rules, s), First(rules, q, a))) < Weight(k, s)
    {
      WeightDrops(rules, k, s, a);
    }
  }

  // ------------------------------------------------------------------- stacks

  /** No position on a stack is at the end of its definition or inside a character class. */
  predicate StackOk(rules: Rules, s: Stack) {
    Items(rules, s) && forall i :: 0 <= i < |s| ==> !Ends(At(rules, s[i]))
  }

  /** A stack is empty or waits for a character. */
  predicate Waits(rules: Rules, s: Stack) {
    StackOk(rules, s) && (s != [] ==> Opens(At(rules, s[|s| - 1])))
  }

  predicate AllWait(rules: Rules, stacks: seq<Stack>) {
    forall i :: 0 <= i < |stacks| ==> Waits(rules, stacks[i])
  }

  /** The stack under the definition that replaces the reference on top. */
  function Below(rules: Rules, s: Stack): (b: Stack)
    requires WellFormed(rules) && StackOk(rules, s) && s != [] && At(rules, s[|s| - 1]).Ref?
    ensures StackOk(rules, b)
  {
    Push(rules, s[..|s| - 1], Next(rules, s[|s| - 1]))
  }

  ghost predicate Bounded(rules: Rules, k: Rank, base: Stack, q: nat, bound: nat)
    requires WellFormed(rules) && q < |rules|
  {
    forall a: nat :: AltStart(rules[q], a) ==> Weight(k, Push(rules, base, First(rules, q, a))) < bound
  }

  /** Expands references on top of a stack until every resulting stack waits for a character. */
  function Advance(rules: Rules, ghost k: Rank, s: Stack): seq<Stack>
    requires WellFormed(rules) && Ranks(rules, k) && StackOk(rules, s)
    decreases Weight(k, s), 1, 0
  {
    if s == [] then [[]]
    else
      match At(rules, s[|s| - 1])
      case Ref(q) =>
        AllDrop(rules, k, s);
        Alternates(rules, k, Below(rules, s), q, 0, Weight(k, s))
      case Char(_) => [s]
      case CharNot(_) => [s]
      case _ => assert false; []
  }

  lemma AlternateOk(rules: Rules, k: Rank, base: Stack, q: nat, a: nat, bound: nat)
    requires WellFormed(rules) && StackOk(rules, base) && q < |rules| && AltStart(rules[q], a)
    requires Bounded(rules, k, base, q, bound)
    ensures Items(rules, base) && StackOk(rules, Push(rules, base, First(rules, q, a)))
    ensures Weight(k, Push(rules, base, First(rules, q, a))) < bound
    ensures var e := EndOf(rules, rules[q], a); rules[q][e].Alt? ==> AltStart(rules[q], e + 1)
  {
    hide Weight, StackOk, WellFormedRule, Push, AltStart, EndOf;
    PushOk(rules, base, First(rules, q, a));
    AltFollows(rules, rules[q], a);
  }

  lemma PushOk(rules: Rules, s: Stack, p: Pos)
    requires StackOk(rules, s) && ItemAt(rules, p)
    ensures Items(rules, s) && StackOk(rules, Push(rules, s, p))
  {
    hide Middle;
  }

  lemma AltFollows(rules: Rules, el: seq<Elem>, a: nat)
    requires WellFormedRule(rules, el) && a < |el|
    ensures var e := EndOf(rules, el, a); el[e].Alt? ==> AltStart(el, e + 1)
  {
  }

  lemma RefFacts(rules: Rules, p: Pos)
    requires WellFormed(rules) && ItemAt(rules, p) && At(rules, p).Ref?
    ensures At(rules, p).rule < |rules| && AltStart(rules[At(rules, p).rule], 0)
  {
  }

  /** The stacks of the definitions of rule `q` from `a` on, over `base`. */
  function Alternates(rules: Rules, ghost k: Rank, base: Stack, q: nat, a: nat, ghost bound: nat): seq<Stack>
    requires WellFormed(rules) && Ranks(rules, k) && StackOk(rules, base) && q < |rules| && AltStart(rules[q], a)
    requires Bounded(rules, k, base, q, bound)
    decreases bound, 0, |rules[q]| - a
  {
    hide WellFormedRule, Bounded, Weight, Ranks, StackOk, Push, AltStart;
    AlternateOk(rules, k, base, q, a, bound);
    var e := EndOf(rules, rules[q], a);
    Advance(rules, k, Push(rules, base, First(rules, q, a))) +
    if rules[q][e].Alt? then Alternates(rules, k, base, q, e + 1, bound) else []
  }

  // ------------------------------------------------------------ what stacks mean

  ghost predicate DenAny(rules: Rules, stacks: seq<Stack>, w: seq<int>)
    requires WellFormed(rules) && AllWait(rules, stacks)
  {
    exists i :: 0 <= i < |stacks| && Den(rules, stacks[i], w)
  }

  lemma DenAnyConcat(rules: Rules, s: seq<Stack>, t: seq<Stack>, w: seq<int>)
    requires WellFormed(rules) && AllWait(rules, s) && AllWait(rules, t)
    ensures AllWait(rules, s + t)
    ensures DenAny(rules, s + t, w) <==> DenAny(rules, s, w) || DenAny(rules, t, w)
  {
    hide WellFormedRule, Den, ItemAt, Opens, Ends;
    assert forall i :: 0 <= i < |s| + |t| ==> (s + t)[i] == if i < |s| then s[i] else t[i - |s|];
    if i :| 0 <= i < |s| && Den(rules, s[i], w) {
      assert (s + t)[i] == s[i];
    }
    if i :| 0 <= i < |t| && Den(rules, t[i], w) {
      assert (s + t)[|s| + i] == t[i];
    }
  }

  lemma DenAnyOne(rules: Rules, s: Stack, w: seq<int>)
    requires WellFormed(rules) && Waits(rules, s)
    ensures AllWait(rules, [s]) && (DenAny(rules, [s], w) <==> Den(rules, s, w))
  {
    if Den(rules, s, w) {
      assert [s][0] == s;
    }
  }

  /** Advancing never gets stuck, and keeps the texts a stack can take. */
  lemma {:induction false} AdvanceKeepsTexts(rules: Rules, k: Rank, s: Stack, w: seq<int>)
    requires WellFormed(rules) && Ranks(rules, k) && StackOk(rules, s)
    ensures AllWait(rules, Advance(rules, k, s))
    ensures DenAny(rules, Advance(rules, k, s), w) <==> Den(rules, s, w)
    decreases Weight(k, s), 1, 0
  {
    hide Den, DenAny, Weight, WellFormedRule;
    if s == [] || Opens(At(rules, s[|s| - 1])) {
      DenAnyOne(rules, s, w);
    } else {
      var p := s[|s| - 1];
      var q := At(rules, p).rule;
      assert s == s[..|s| - 1] + [p];
      RefFacts(rules, p);
      AllDrop(rules, k, s);
      AlternatesKeepTexts(rules, k, Below(rules, s), q, 0, Weight(k, s), w);
      ReferenceTexts(rules, s[..|s| - 1], p, w);
    }
  }

  ghost predicate DenFrom(rules: Rules, base: Stack, q: nat, a: nat, w: seq<int>)
    requires WellFormed(rules) && StackOk(rules, base) && q < |rules|
  {
    exists b: nat :: a <= b && AltStart(rules[q], b) && DenAlt(rules, base, q, b, w)
  }

  /** The texts of a reference on top, in terms of the stack below its replacement. */
  lemma ReferenceTexts(rules: Rules, s: Stack, p: Pos, w: seq<int>)
    requires WellFormed(rules) && StackOk(rules, s + [p]) && ItemAt(rules, p) && At(rules, p).Ref?
    ensures StackOk(rules, s) && Below(rules, s + [p]) == Push(rules, s, Next(rules, p))
    ensures Den(rules, s + [p], w) <==> DenFrom(rules, Push(rules, s, Next(rules, p)), At(rules, p).rule, 0, w)
  {
    hide Den, AltStart;
    assert forall i :: 0 <= i < |s| ==> s[i] == (s + [p])[i];
    assert (s + [p])[..|s|] == s && (s + [p])[|s|] == p;
    var q := At(rules, p).rule;
    DenRef(rules, s, p, w);
    forall a: nat | AltStart(rules[q], a)
      ensures DenAlt(rules, s + [Next(rules, p)], q, a, w) <==> DenAlt(rules, Push(rules, s, Next(rules, p)), q, a, w)
    {
      SkipEnd(rules, s, Next(rules, p), First(rules, q, a), w);
    }
  }

  /** An end of a definition below the top takes no text. */
  lemma SkipEnd(rules: Rules, s: Stack, n: Pos, top: Pos, w: seq<int>)
    requires WellFormed(rules) && Items(rules, s) && ItemAt(rules, n) && ItemAt(rules, top)
    ensures Items(rules, s + [n] + [top]) && Items(rules, Push(rules, s, n) + [top])
    ensures Den(rules, s + [n] + [top], w) <==> Den(rules, Push(rules, s, n) + [top], w)
  {
    hide Derives, WellFormedRule, Text, Parses, Yield;
    if Ends(At(rules, n)) {
      assert Items(rules, s + [n]) && Items(rules, s + [top]) && Items(rules, s + [n] + [top]);
      EndIsDone(rules, n, Done);
      if Den(rules, s + [n] + [top], w) {
        var ds :| Parses(rules, s + [n] + [top], ds) && Text(ds) == w;
        var upper, d := ParsesTop(rules, s + [n], top, ds);
        var below, e := ParsesTop(rules, s, n, upper);
        EndIsDone(rules, n, e);
        ParsesPush(rules, s, top, below, d);
      }
      if Den(rules, s + [top], w) {
        var ds :| Parses(rules, s + [top], ds) && Text(ds) == w;
        var below, d := ParsesTop(rules, s, top, ds);
        ParsesPush(rules, s, n, below, Done);
        ParsesPush(rules, s + [n], top, below + [Done], d);
      }
    }
  }

  lemma {:induction false} AlternatesKeepTexts(rules: Rules, k: Rank, base: Stack, q: nat, a: nat, bound: nat,
                                               w: seq<int>)
    requires WellFormed(rules) && Ranks(rules, k) && StackOk(rules, base) && q < |rules| && AltStart(rules[q], a)
    requires Bounded(rules, k, base, q, bound)
    ensures AllWait(rules, Alternates(rules, k, base, q, a, bound))
    ensures DenAny(rules, Alternates(rules, k, base, q, a, bound), w) <==> DenFrom(rules, base, q, a, w)
    decreases bound, 0, |rules[q]| - a
  {
    hide Den, DenAny, Weight, Ranks, WellFormedRule, Bounded, AltStart, StackOk, DenFrom, EndOf, Push, AllWait,
      Items, First, Advance;
    AlternateOk(rules, k, base, q, a, bound);
    var el := rules[q];
    var e := EndOf(rules, el, a);
    var top := Push(rules, base, First(rules, q, a));
    var here := Advance(rules, k, top);
    AdvanceKeepsTexts(rules, k, top, w);
    DenPush(rules, base, First(rules, q, a), w);
    if el[e].Alt? {
      var rest := Alternates(rules, k, base, q, e + 1, bound);
      AlternatesKeepTexts(rules, k, base, q, e + 1, bound, w);
      DenAnyConcat(rules, here, rest, w);
    } else {
      assert here + [] == here;
    }
    SplitFrom(rules, base, q, a, w);
  }

  /** The definitions from `a` on are the one at `a` and those after its end. */
  lemma SplitFrom(rules: Rules, base: Stack, q: nat, a: nat, w: seq<int>)
    requires WellFormed(rules) && StackOk(rules, base) && q < |rules| && AltStart(rules[q], a)
    ensures var e := EndOf(rules, rules[q], a);
            DenFrom(rules, base, q, a, w) <==>
              DenAlt(rules, base, q, a, w) || (rules[q][e].Alt? && DenFrom(rules, base, q, e + 1, w))
  {
    hide DenAlt;
    var e := EndOf(rules, rules[q], a);
    if b: nat :| a <= b && AltStart(rules[q], b) && DenAlt(rules, base, q, b, w) {
      if a < b {
        NextAlternate(rules, rules[q], a, b);
      }
    }
  }

  // ----------------------------------------------------------- accepting a text

  /** The stack after its top has taken a character. */
  function Shifted(rules: Rules, s: Stack): (r: Stack)
    requires WellFormed(rules) && Waits(rules, s) && s != []
    ensures StackOk(rules, r)
  {
    Push(rules, s[..|s| - 1], After(rules, s[|s| - 1]))
  }

  predicate Takes(rules: Rules, s: Stack, c: int)
    requires WellFormed(rules) && Waits(rules, s)
  {
    s != [] && Accepts(rules, rules[s[|s| - 1].rule], s[|s| - 1].at, c)
  }

  function Accept(rules: Rules, ghost k: Rank, stacks: seq<Stack>, c: int): seq<Stack>
    requires WellFormed(rules) && Ranks(rules, k) && AllWait(rules, stacks)
  {
    if stacks == [] then []
    else
      var last := stacks[|stacks| - 1];
      Accept(rules, k, stacks[..|stacks| - 1], c) +
      if Takes(rules, last, c) then Advance(rules, k, Shifted(rules, last)) else []
  }

  lemma TakesTexts(rules: Rules, s: Stack, c: int, v: seq<int>)
    requires WellFormed(rules) && Waits(rules, s)
    ensures Den(rules, s, [c] + v) <==> Takes(rules, s, c) && Den(rules, Shifted(rules, s), v)
    ensures s != [] ==> !Den(rules, s, [])
  {
    hide Den, Accepts, WellFormedRule;
    if s == [] {
      DenEmpty(rules, [c] + v);
    } else {
      var below, p := s[..|s| - 1], s[|s| - 1];
      assert s == below + [p];
      DenEat(rules, below, p, [c] + v);
      DenEat(rules, below, p, []);
      DenPush(rules, below, After(rules, p), v);
      assert ([c] + v)[1..] == v;
    }
  }

  /** Accepting a character leaves exactly the texts that continued with it. */
  lemma {:induction false} AcceptTexts(rules: Rules, k: Rank, stacks: seq<Stack>, c: int, v: seq<int>)
    requires WellFormed(rules) && Ranks(rules, k) && AllWait(rules, stacks)
    ensures AllWait(rules, Accept(rules, k, stacks, c))
    ensures DenAny(rules, Accept(rules, k, stacks, c), v) <==> DenAny(rules, stacks, [c] + v)
  {
    hide Den, WellFormedRule, Accepts, Shifted;
    if stacks != [] {
      var rest, last := stacks[..|stacks| - 1], stacks[|stacks| - 1];
      assert stacks == rest + [last];
      AcceptTexts(rules, k, rest, c, v);
      TakesTexts(rules, last, c, v);
      DenAnyOne(rules, last, [c] + v);
      DenAnyConcat(rules, rest, [last], [c] + v);
      if Takes(rules, last, c) {
        AdvanceKeepsTexts(rules, k, Shifted(rules, last), v);
        DenAnyConcat(rules, Accept(rules, k, rest, c), Advance(rules, k, Shifted(rules, last)), v);
      } else {
        assert Accept(rules, k, rest, c) + [] == Accept(rules, k, rest, c);
      }
    }
  }

  function AcceptAll(rules: Rules, ghost k: Rank, stacks: seq<Stack>, w: seq<int>): (r: seq<Stack>)
    requires WellFormed(rules) && Ranks(rules, k) && AllWait(rules, stacks)
    ensures AllWait(rules, r)
    decreases |w|
  {
    if w == [] then stacks
    else
      AcceptTexts(rules, k, stacks, w[0], []);
      AcceptAll(rules, k, Accept(rules, k, stacks, w[0]), w[1..])
  }

  lemma {:induction false} AcceptAllTexts(rules: Rules, k: Rank, stacks: seq<Stack>, w: seq<int>, v: seq<int>)
    requires WellFormed(rules) && Ranks(rules, k) && AllWait(rules, stacks)
    ensures DenAny(rules, AcceptAll(rules, k, stacks, w), v) <==> DenAny(rules, stacks, w + v)
    decreases |w|
  {
    hide DenAny, WellFormedRule, Accept;
    if w == [] {
      assert w + v == v;
    } else {
      AcceptTexts(rules, k, stacks, w[0], w[1..] + v);
      AcceptAllTexts(rules, k, Accept(rules, k, stacks, w[0]), w[1..], v);
      assert [w[0]] + (w[1..] + v) == w + v;
    }
  }

  lemma {:induction false} AcceptAllSplits(rules: Rules, k: Rank, stacks: seq<Stack>, w: seq<int>, v: seq<int>)
    requires WellFormed(rules) && Ranks(rules, k) && AllWait(rules, stacks)
    ensures AcceptAll(rules, k, stacks, w + v) == AcceptAll(rules, k, AcceptAll(rules, k, stacks, w), v)
    decreases |w|
  {
    hide WellFormedRule, Accept, Waits;
    if w == [] {
      assert w + v == v;
    } else {
      AcceptTexts(rules, k, stacks, w[0], []);
      AcceptAllSplits(rules, k, Accept(rules, k, stacks, w[0]), w[1..], v);
      assert (w + v)[1..] == w[1..] + v && (w + v)[0] == w[0];
    }
  }

  // -------------------------------------------------------------- start stacks

  ghost function MostWeight(rules: Rules, k: Rank, q: nat, a: nat): nat
    requires WellFormed(rules) && q < |rules| && a <= |rules[q]|
    decreases |rules[q]| - a
  {
    if a == |rules[q]| then 0
    else
      var rest := MostWeight(rules, k, q, a + 1);
      var here := if AltStart(rules[q], a) then Weight(k, Push(rules, [], First(rules, q, a))) + 1 else 0;
      if here > rest then here else rest
  }

  lemma {:induction false} MostWeightBounds(rules: Rules, k: Rank, q: nat, a: nat, b: nat)
    requires WellFormed(rules) && q < |rules| && a <= b && AltStart(rules[q], b)
    ensures Weight(k, Push(rules, [], First(rules, q, b))) < MostWeight(rules, k, q, a)
    decreases b - a
  {
    if a < b {
      MostWeightBounds(rules, k, q, a + 1, b);
    }
  }

  lemma StartBounded(rules: Rules, k: Rank, q: nat)
    requires WellFormed(rules) && q < |rules|
    ensures Bounded(rules, k, [], q, MostWeight(rules, k, q, 0))
  {
    forall a: nat | AltStart(rules[q], a)
      ensures Weight(k, Push(rules, [], First(rules, q, a))) < MostWeight(rules, k, q, 0)
    {
      MostWeightBounds(rules, k, q, 0, a);
    }
  }

  function StartStacks(rules: Rules, ghost k: Rank, start: nat): (r: seq<Stack>)
    requires WellFormed(rules) && Ranks(rules, k) && start < |rules|
    ensures AllWait(rules, r)
  {
    StartBounded(rules, k, start);
    AlternatesKeepTexts(rules, k, [], start, 0, MostWeight(rules, k, start, 0), []);
    Alternates(rules, k, [], start, 0, MostWeight(rules, k, start, 0))
  }

  lemma OneDerivation(rules: Rules, p: Pos, w: seq<int>)
    requires WellFormed(rules) && ItemAt(rules, p)
    ensures Den(rules, [] + [p], w) <==> exists d :: Derives(rules, p, d) && Yield(d) == w
  {
    hide Derives, WellFormedRule, Text, Yield;
    ParsesNothing(rules);
    if Den(rules, [] + [p], w) {
      var ds :| Parses(rules, [] + [p], ds) && Text(ds) == w;
      var below, d := ParsesTop(rules, [], p, ds);
      assert below == [];
    }
    if d :| Derives(rules, p, d) && Yield(d) == w {
      ParsesPush(rules, [], p, [], d);
    }
  }

  lemma ParsesNothing(rules: Rules)
    requires WellFormed(rules)
    ensures Parses(rules, [], []) && Text([]) == []
  {
  }

  lemma StartTexts(rules: Rules, k: Rank, start: nat, w: seq<int>)
    requires WellFormed(rules) && Ranks(rules, k) && start < |rules|
    ensures DenAny(rules, StartStacks(rules, k, start), w) <==> InLanguage(rules, start, w)
  {
    hide Derives, DenAny, Den, Yield;
    StartBounded(rules, k, start);
    AlternatesKeepTexts(rules, k, [], start, 0, MostWeight(rules, k, start, 0), w);
    forall a: nat | AltStart(rules[start], a)
      ensures DenAlt(rules, [], start, a, w) <==> exists d :: Derives(rules, First(rules, start, a), d) && Yield(d) == w
    {
      OneDerivation(rules, First(rules, start, a), w);
    }
  }

  /** After any text, the stacks stand for exactly the continuations of that text in the
      language of the start rule, and none of them is stuck. */
  lemma StacksAreContinuations(rules: Rules, k: Rank, start: nat, w: seq<int>, v: seq<int>)
    requires WellFormed(rules) && Ranks(rules, k) && start < |rules|
    ensures var now := AcceptAll(rules, k, StartStacks(rules, k, start), w);
            AllWait(rules, now) && (DenAny(rules, now, v) <==> InLanguage(rules, start, w + v))
  {
    AcceptAllTexts(rules, k, StartStacks(rules, k, start), w, v);
    StartTexts(rules, k, start, w + v);
  }

  /** The text so far is a whole text of the language exactly when one stack is empty. */
  lemma EmptyStackMeansComplete(rules: Rules, k: Rank, start: nat, w: seq<int>)
    requires WellFormed(rules) && Ranks(rules, k) && start < |rules|
    ensures [] in AcceptAll(rules, k, StartStacks(rules, k, start), w) <==> InLanguage(rules, start, w)
  {
    hide Den, InLanguage, AcceptAll, StartStacks;
    var now := AcceptAll(rules, k, StartStacks(rules, k, start), w);
    StacksAreContinuations(rules, k, start, w, []);
    assert w + [] == w;
    DenEmpty(rules, []);
    forall i | 0 <= i < |now| ensures Den(rules, now[i], []) <==> now[i] == [] {
      TakesTexts(rules, now[i], 0, []);
    }
  }
}
