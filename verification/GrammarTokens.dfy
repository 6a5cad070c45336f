/** The grammar between tokens: the stacks and the unfinished character, fed token by token. */
module GrammarTokens {
  import opened Grammar
  import opened Utf8
  import opened Rejector

  datatype State = State(stacks: seq<Stack>, partial: Partial)

  /** Special tokens, whose text starts with "[_", are not part of the text. */
  predicate Skipped(text: seq<int>) {
    |text| >= 2 && text[0] == 0x5B && text[1] == 0x5F
  }

  /** The bytes as characters; above 127 they stand for themselves. */
  function AsString(bytes: seq<int>): string
    requires Bytes(bytes)
  {
    seq(|bytes|, i requires 0 <= i < |bytes| => bytes[i] as char)
  }

  lemma SkippedIs(text: seq<int>)
    requires Bytes(text)
    ensures Skipped(text) <==> "[_" <= AsString(text)
  {
    assert "[_"[0] == '[' && '[' as int == 0x5B && "[_"[1] == '_' && '_' as int == 0x5F;
  }

  lemma DecodeEndsInZero(src: seq<int>, start: Partial)
    requires Bytes(src)
    ensures var r := Decode(src, start).0; r != [] && r[|r| - 1] == 0
  {
    hide Decode, Fed, Ending, Leads, Resumes;
    DecodeExactly(src, start);
  }

  /** The state after a token. */
  function AfterToken(rules: Rules, ghost k: Rank, st: State, text: seq<int>): (next: State)
    requires WellFormed(rules) && Ranks(rules, k) && AllWait(rules, st.stacks) && Bytes(text)
    ensures AllWait(rules, next.stacks)
  {
    if rules == [] || st.stacks == [] || Skipped(text) then st
    else
      DecodeEndsInZero(text, st.partial);
      var (cps, partial) := Decode(text, st.partial);
      State(AcceptAll(rules, k, st.stacks, cps[..|cps| - 1]), partial)
  }

  /** The grammar of one decoder. */
  class Engine {
    const rules: Rules
    ghost const rank: Rank
    var stacks: seq<Stack>
    var partial: Partial

    ghost predicate Valid()
      reads this
    {
      WellFormed(rules) && Ranks(rules, rank) && AllWait(rules, stacks)
    }

    constructor (rules: Rules, ghost rank: Rank, start: nat)
      requires WellFormed(rules) && Ranks(rules, rank) && start < |rules|
      ensures Valid() && this.rules == rules && this.rank == rank
      ensures stacks == StartStacks(rules, rank, start) && partial == Partial(0, 0)
    {
      this.rules, this.rank := rules, rank;
      stacks, partial := StartStacks(rules, rank, start), Partial(0, 0);
    }

    method AcceptToken(text: seq<int>)
      requires Valid() && Bytes(text)
      modifies this
      ensures Valid()
      ensures State(stacks, partial) == AfterToken(rules, rank, State(old(stacks), old(partial)), text)
      ensures "[_" <= AsString(text) ==> stacks == old(stacks) && partial == old(partial)
    {
      hide WellFormedRule, Waits, Ranks, Accept, Decode, AsString;
      SkippedIs(text);
      if rules == [] || stacks == [] {
        return;
      }
      if |text| >= 2 && text[0] == 0x5B && text[1] == 0x5F {
        return;
      }
      DecodeEndsInZero(text, partial);
      var cps, rest := DecodeUtf8(text, partial);
      ghost var w := cps[..|cps| - 1];
      for i := 0 to |cps| - 1
        invariant AllWait(rules, stacks) && partial == old(partial)
        invariant AcceptAll(rules, rank, stacks, w[i..]) == AcceptAll(rules, rank, old(stacks), w)
      {
        AcceptTexts(rules, rank, stacks, cps[i], []);
        assert w[i..] == [cps[i]] + w[i + 1..];
        stacks := Accept(rules, rank, stacks, cps[i]);
      }
      partial := rest;
    }

    /** Lowers the logits of the tokens the grammar rules out. */
    method SuppressInvalid(logits: array<real>, texts: seq<seq<int>>, penalty: real)
      requires Valid() && |texts| <= logits.Length && forall id :: 0 <= id < |texts| ==> Bytes(texts[id])
      modifies logits
      ensures rules != [] && stacks != [] ==> forall id :: 0 <= id < |texts| ==>
        logits[id] == old(logits[id]) -
          (if texts[id] != [] && !Survives(rules, rank, stacks, Cand(id, texts[id], partial)) then penalty else 0.0)
      ensures rules != [] && stacks != [] ==>
        forall id :: 0 <= id < |texts| && (Stray(texts[id], partial) || CutShort(texts[id], partial)) ==>
          logits[id] == old(logits[id]) - penalty
      ensures rules == [] || stacks == [] ==> logits[..] == old(logits[..])
      ensures logits[|texts|..] == old(logits[|texts|..])
    {
      hide WellFormedRule, Waits, Ranks, Decode, Survives, AllFit, Reject, Stray, CutShort;
      if rules == [] || stacks == [] {
        return;
      }
      var cands, longest := Candidates(texts);
      var rejects := Reject(rules, rank, stacks, cands, longest);
      forall id | 0 <= id < |texts|
        ensures multiset(rejects)[Cand(id, texts[id], partial)] ==
                if texts[id] != [] && !Survives(rules, rank, stacks, Cand(id, texts[id], partial)) then 1 else 0
      {
        RejectsExactly(rules, rank, stacks, cands, longest, Cand(id, texts[id], partial));
      }
      RejectsAreCandidates(rejects, cands, texts, longest);
      Punish(logits, rejects, texts, penalty);
      forall id | 0 <= id < |texts| && (Stray(texts[id], partial) || CutShort(texts[id], partial))
        ensures texts[id] != [] && !Survives(rules, rank, stacks, Cand(id, texts[id], partial))
      {
        InvalidLoses(rules, rank, stacks, id, texts[id], partial);
      }
    }

    lemma RejectsAreCandidates(rejects: seq<Candidate>, cands: seq<Candidate>, texts: seq<seq<int>>, n: nat)
      requires Valid() && stacks != [] && AllFit(cands, n) && rejects == Reject(rules, rank, stacks, cands, n)
      requires forall id :: 0 <= id < |texts| ==> Bytes(texts[id])
      requires forall c :: c in cands ==> 0 <= c.id < |texts| && c == Cand(c.id, texts[c.id], partial)
      ensures forall r :: 0 <= r < |rejects| ==>
        0 <= rejects[r].id < |texts| && rejects[r] == Cand(rejects[r].id, texts[rejects[r].id], partial)
    {
      hide WellFormedRule, Waits, Ranks, Decode, Survives, Reject, Cand;
      forall r | 0 <= r < |rejects| ensures rejects[r] in cands {
        assert Fits(rejects[r], n);
        RejectsExactly(rules, rank, stacks, cands, n, rejects[r]);
        assert rejects[r] in multiset(rejects);
        assert rejects[r] in multiset(cands);
      }
    }

    /** The candidates, one per token with a text. */
    method Candidates(texts: seq<seq<int>>) returns (cands: seq<Candidate>, ghost longest: nat)
      requires forall id :: 0 <= id < |texts| ==> Bytes(texts[id])
      ensures AllFit(cands, longest)
      ensures forall c :: c in cands ==> 0 <= c.id < |texts| && c == Cand(c.id, texts[c.id], partial)
      ensures forall id :: 0 <= id < |texts| ==>
        multiset(cands)[Cand(id, texts[id], partial)] == if texts[id] != [] then 1 else 0
    {
      hide Decode, Bytes;
      cands, longest := [], 0;
      for id := 0 to |texts|
        invariant AllFit(cands, longest)
        invariant forall c :: c in cands ==> 0 <= c.id < id && c == Cand(c.id, texts[c.id], partial)
        invariant forall j :: 0 <= j < id ==>
          multiset(cands)[Cand(j, texts[j], partial)] == if texts[j] != [] then 1 else 0
      {
        var text := texts[id];
        if text != [] {
          DecodeEndsInZero(text, partial);
          var cps, rest := DecodeUtf8(text, partial);
          var c := Candidate(id, cps, 0, rest);
          assert c == Cand(id, text, partial);
          ghost var n := if longest > |cps| then longest else |cps|;
          assert AllFit(cands + [c], n) by {
            assert forall i :: 0 <= i < |cands| ==> Fits(cands[i], longest);
          }
          assert c !in cands;
          cands, longest := cands + [c], n;
        } else {
          assert Cand(id, text, partial) !in cands;
        }
      }
    }

    /** Each reject costs its token the penalty. */
    method Punish(logits: array<real>, rejects: seq<Candidate>, texts: seq<seq<int>>, penalty: real)
      requires |texts| <= logits.Length && forall id :: 0 <= id < |texts| ==> Bytes(texts[id])
      requires forall r :: 0 <= r < |rejects| ==>
        0 <= rejects[r].id < |texts| && rejects[r] == Cand(rejects[r].id, texts[rejects[r].id], partial)
      requires forall id :: 0 <= id < |texts| ==> multiset(rejects)[Cand(id, texts[id], partial)] <= 1
      modifies logits
      ensures forall id :: 0 <= id < |texts| ==>
        logits[id] == old(logits[id]) - (if Cand(id, texts[id], partial) in rejects then penalty else 0.0)
      ensures logits[|texts|..] == old(logits[|texts|..])
    {
      hide Decode, Bytes, Cand;
      for r := 0 to |rejects|
        invariant forall id :: 0 <= id < |texts| ==>
          logits[id] == old(logits[id]) - (if Cand(id, texts[id], partial) in rejects[..r] then penalty else 0.0)
        invariant logits[|texts|..] == old(logits[|texts|..])
      {
        var id := rejects[r].id;
        NotYet(rejects, r);
        assert rejects[..r + 1] == rejects[..r] + [rejects[r]];
        assert forall j :: 0 <= j < |texts| && j != id ==>
          Cand(j, texts[j], partial) != rejects[r] by { CandIds(texts); }
        logits[id] := logits[id] - penalty;
      }
      assert rejects[..|rejects|] == rejects;
    }

    lemma CandIds(texts: seq<seq<int>>)
      requires forall id :: 0 <= id < |texts| ==> Bytes(texts[id])
      ensures forall id :: 0 <= id < |texts| ==> Cand(id, texts[id], partial).id == id
    {
    }
  }

  lemma NotYet(rejects: seq<Candidate>, r: nat)
    requires r < |rejects| && multiset(rejects)[rejects[r]] <= 1
    ensures rejects[r] !in rejects[..r]
  {
    assert rejects == rejects[..r] + [rejects[r]] + rejects[r + 1..];
    assert multiset(rejects) == multiset(rejects[..r]) + multiset{rejects[r]} + multiset(rejects[r + 1..]);
  }

  /** The candidate of a token, given the character left unfinished so far. */
  function Cand(id: int, text: seq<int>, partial: Partial): (c: Candidate)
    requires Bytes(text)
    ensures c.Ok()
  {
    DecodeEndsInZero(text, partial);
    Candidate(id, Decode(text, partial).0, 0, Decode(text, partial).1)
  }

  lemma {:induction false} WordIs(c: Candidate)
    requires c.Ok() && forall i :: c.at <= i < |c.cps| - 1 ==> c.cps[i] != 0
    ensures Word(c) == c.cps[c.at..|c.cps| - 1]
    decreases |c.cps| - c.at
  {
    if c.Head() != 0 {
      WordIs(c.Forth());
    }
  }

  /** A token with a byte that cannot stand where it does never survives, whatever follows. */
  lemma InvalidLoses(rules: Rules, k: Rank, stacks: seq<Stack>, id: int, text: seq<int>, partial: Partial)
    requires WellFormed(rules) && Ranks(rules, k) && AllWait(rules, stacks) && Bytes(text)
    requires Stray(text, partial) || CutShort(text, partial)
    ensures text != [] && !Survives(rules, k, stacks, Cand(id, text, partial))
  {
    hide WellFormedRule, Waits, Ranks, AcceptAll, Decode, Bytes;
    InvalidIsRefused(text, partial);
    var c := Cand(id, text, partial);
    assert c.cps == [0] && c.Head() == 0;
    assert forall i :: 0 <= i < |stacks| ==> !TopTakes(rules, stacks[i], c.partial);
    assert AcceptAll(rules, k, stacks, []) == stacks by { AcceptNothing(rules, k, stacks); }
  }

  lemma AcceptNothing(rules: Rules, k: Rank, stacks: seq<Stack>)
    requires WellFormed(rules) && Ranks(rules, k) && AllWait(rules, stacks)
    ensures AcceptAll(rules, k, stacks, []) == stacks
  {
  }

  /** A token that ends in a whole character goes unpenalised exactly when accepting it would
      leave the grammar a stack. */
  lemma UnpenalisedIsAcceptable(rules: Rules, k: Rank, st: State, id: int, text: seq<int>)
    requires WellFormed(rules) && Ranks(rules, k) && AllWait(rules, st.stacks) && Bytes(text)
    requires rules != [] && st.stacks != [] && !Skipped(text)
    requires Cand(id, text, st.partial).partial.remain == 0
    requires forall i :: 0 <= i < |Cand(id, text, st.partial).cps| - 1 ==> Cand(id, text, st.partial).cps[i] != 0
    ensures Survives(rules, k, st.stacks, Cand(id, text, st.partial)) <==> AfterToken(rules, k, st, text).stacks != []
  {
    hide WellFormedRule, Waits, Ranks, AcceptAll, Decode;
    var c := Cand(id, text, st.partial);
    WordIs(c);
    assert c.cps[0..|c.cps| - 1] == c.cps[..|c.cps| - 1];
  }

  // --------------------------------------------------------- splitting the text

  function Flatten(toks: seq<seq<int>>): seq<int> {
    if toks == [] then [] else toks[0] + Flatten(toks[1..])
  }

  predicate Plain(toks: seq<seq<int>>) {
    forall i :: 0 <= i < |toks| ==> Bytes(toks[i]) && !("[_" <= AsString(toks[i]))
  }

  function AfterTokens(rules: Rules, ghost k: Rank, st: State, toks: seq<seq<int>>): (next: State)
    requires WellFormed(rules) && Ranks(rules, k) && AllWait(rules, st.stacks) && Plain(toks)
    ensures AllWait(rules, next.stacks)
    decreases |toks|
  {
    if toks == [] then st else AfterTokens(rules, k, AfterToken(rules, k, st, toks[0]), toks[1..])
  }

  lemma {:induction false} StuckStays(rules: Rules, k: Rank, st: State, toks: seq<seq<int>>)
    requires WellFormed(rules) && Ranks(rules, k) && st.stacks == [] && Plain(toks)
    ensures AfterTokens(rules, k, st, toks) == st
    decreases |toks|
  {
    if toks != [] {
      StuckStays(rules, k, st, toks[1..]);
    }
  }

  /** Tokens that together are well-formed text take the stacks through its characters. */
  lemma {:induction false} TokensFeed(rules: Rules, k: Rank, st: State, toks: seq<seq<int>>)
    requires WellFormed(rules) && Ranks(rules, k) && AllWait(rules, st.stacks) && Plain(toks) && rules != []
    requires st.partial.remain >= 0 && Formed(Flatten(toks), st.partial.remain)
    ensures var next := AfterTokens(rules, k, st, toks);
            && next.stacks == AcceptAll(rules, k, st.stacks, Fed(Flatten(toks), st.partial))
            && (next.stacks != [] ==> next.partial == Ending(Flatten(toks), st.partial))
    decreases |toks|
  {
    hide WellFormedRule, Waits, Ranks, Accept, Decode, Formed, Fed, Ending, Bytes;
    if toks == [] {
      FeedNothing(st.partial);
    } else if st.stacks == [] {
      StuckStays(rules, k, st, toks);
      AcceptAllNone(rules, k, Fed(Flatten(toks), st.partial));
    } else {
      var text, rest := toks[0], Flatten(toks[1..]);
      FeedSplits(text, rest, st.partial);
      DecodeFeeds(text, st.partial);
      var next := AfterToken(rules, k, st, text);
      assert (Fed(text, st.partial) + [0])[..|Fed(text, st.partial)|] == Fed(text, st.partial);
      TokensFeed(rules, k, next, toks[1..]);
      AcceptAllSplits(rules, k, st.stacks, Fed(text, st.partial), Fed(rest, next.partial));
    }
  }

  lemma FeedNothing(st: Partial)
    ensures Fed([], st) == [] && Ending([], st) == st
  {
  }

  /** Text may be cut into tokens at any byte: the stacks are those of its characters, and no
      character is left unfinished. */
  lemma SplitAnywhere(rules: Rules, k: Rank, st: State, toks: seq<seq<int>>, cps: seq<int>)
    requires WellFormed(rules) && Ranks(rules, k) && AllWait(rules, st.stacks) && Plain(toks) && rules != []
    requires forall i :: 0 <= i < |cps| ==> Scalar(cps[i])
    requires st.partial.remain == 0 && Flatten(toks) == EncodeAll(cps)
    ensures AfterTokens(rules, k, st, toks).stacks == AcceptAll(rules, k, st.stacks, cps)
    ensures AfterTokens(rules, k, st, toks).stacks != [] ==> AfterTokens(rules, k, st, toks).partial.remain == 0
  {
    hide WellFormedRule, Waits, Ranks, AcceptAll, AfterTokens, Formed, Fed, Ending, Scalar;
    EncodeAllFeeds(cps, st.partial);
    TokensFeed(rules, k, st, toks);
  }

  /** From the start, tokens that spell a text leave the continuations of that text. */
  lemma TokensSpell(rules: Rules, k: Rank, start: nat, toks: seq<seq<int>>, cps: seq<int>, v: seq<int>)
    requires WellFormed(rules) && Ranks(rules, k) && start < |rules| && Plain(toks)
    requires forall i :: 0 <= i < |cps| ==> Scalar(cps[i])
    requires Flatten(toks) == EncodeAll(cps)
    ensures var now := AfterTokens(rules, k, State(StartStacks(rules, k, start), Partial(0, 0)), toks);
            DenAny(rules, now.stacks, v) <==> InLanguage(rules, start, cps + v)
  {
    hide WellFormedRule, Ranks, AcceptAll, AfterTokens, Scalar, DenAny, InLanguage, StartStacks;
    SplitAnywhere(rules, k, State(StartStacks(rules, k, start), Partial(0, 0)), toks, cps);
    StacksAreContinuations(rules, k, start, cps, v);
  }
}
