/** The resumable UTF-8 decoder. A C string is the sequence of its bytes before the
    terminating zero. */
module Utf8 {
  import opened Options

  /** An unfinished character: its value so far and the bytes it still needs; a negative
      count marks an invalid sequence. */
  datatype Partial = Partial(value: int, remain: int)

  const INVALID: Partial := Partial(0, -1)

  predicate Bytes(src: seq<int>) {
    forall i :: 0 <= i < |src| ==> 0 < src[i] < 256
  }

  predicate Continues(b: int) {
    0x80 <= b < 0xC0
  }

  /** Bytes after the first one, by the first one; -1 when no character starts with it. */
  function Extra(first: int): (n: int)
    ensures -1 <= n <= 3
  {
    if first < 0x80 then 0 else if first < 0xC0 then -1 else if first < 0xE0 then 1 else if first < 0xF0 then 2 else 3
  }

  /** The value bits of a first byte that is followed by `n` others. */
  function FirstBits(first: int, n: int): int {
    first % (if n == 0 then 128 else if n == 1 then 64 else if n == 2 then 32 else 16)
  }

  // ------------------------------------------------------------------- decoding

  datatype Mid = Mid(rest: seq<int>, value: int, remain: int)

  /** Takes following bytes, whatever they are. */
  function Take(src: seq<int>, value: int, remain: int): (m: Mid)
    ensures |m.rest| <= |src| && (m.rest != [] ==> m.remain <= 0)
    decreases |src|
  {
    if src == [] || remain <= 0 then Mid(src, value, remain)
    else Take(src[1..], value * 64 + src[0] % 64, remain - 1)
  }

  /** Takes following bytes that must look like it. */
  function Resume(src: seq<int>, value: int, remain: int): (m: Option<Mid>)
    decreases |src|
  {
    if src == [] || remain <= 0 then Some(Mid(src, value, remain))
    else if !Continues(src[0]) then None
    else Resume(src[1..], value * 64 + src[0] % 64, remain - 1)
  }

  function Chars(src: seq<int>, cps: seq<int>, value: int, remain: int): (seq<int>, Partial)
    requires Bytes(src)
    decreases |src|
  {
    if src == [] then (cps + [0], Partial(value, remain))
    else
      var n := Extra(src[0]);
      if n < 0 then ([0], Partial(0, n))
      else
        var m := Take(src[1..], FirstBits(src[0], n), n);
        TakeIsSuffix(src[1..], FirstBits(src[0], n), n);
        Chars(m.rest, if m.remain == 0 then cps + [m.value] else cps, m.value, m.remain)
  }

  lemma {:induction false} TakeIsSuffix(src: seq<int>, value: int, remain: int)
    ensures var m := Take(src, value, remain);
            |m.rest| <= |src| && m.rest == src[|src| - |m.rest|..]
            && (|src| <= remain ==> m.rest == []) && (0 <= remain <= |src| ==> |m.rest| == |src| - remain)
            && (0 <= remain ==> m.remain == remain - (|src| - |m.rest|)) && (remain < 0 ==> m.remain == remain)
    decreases |src|
  {
    if src != [] && remain > 0 {
      TakeIsSuffix(src[1..], value * 64 + src[0] % 64, remain - 1);
    }
  }

  lemma {:induction false} ResumeTakes(src: seq<int>, value: int, remain: int)
    ensures Resume(src, value, remain).Some? ==> Resume(src, value, remain).value == Take(src, value, remain)
    decreases |src|
  {
    if src != [] && remain > 0 && Continues(src[0]) {
      ResumeTakes(src[1..], value * 64 + src[0] % 64, remain - 1);
    }
  }

  function Decode(src: seq<int>, start: Partial): (seq<int>, Partial)
    requires Bytes(src)
  {
    var r := Resume(src, start.value, start.remain);
    if r.None? then ([0], INVALID)
    else
      var m := r.value;
      ResumeTakes(src, start.value, start.remain);
      TakeIsSuffix(src, start.value, start.remain);
      Chars(m.rest, if start.remain > 0 && m.remain == 0 then [m.value] else [], m.value, m.remain)
  }

  lemma ResumeUnfolds(src: seq<int>, value: int, remain: int)
    ensures Resume(src, value, remain) ==
      if src == [] || remain <= 0 then Some(Mid(src, value, remain))
      else if !Continues(src[0]) then None
      else Resume(src[1..], value * 64 + src[0] % 64, remain - 1)
  {
  }

  lemma DecodeIs(src: seq<int>, start: Partial)
    requires Bytes(src)
    ensures match Resume(src, start.value, start.remain)
            case None => Decode(src, start) == ([0], INVALID)
            case Some(m) =>
              Bytes(m.rest) &&
              Decode(src, start) ==
              Chars(m.rest, if start.remain > 0 && m.remain == 0 then [m.value] else [], m.value, m.remain)
  {
    hide Continues, Chars, Resume;
    ResumeTakes(src, start.value, start.remain);
    TakeIsSuffix(src, start.value, start.remain);
  }

  /** The decoder's loops. */
  method DecodeUtf8(src: seq<int>, start: Partial) returns (cps: seq<int>, partial: Partial)
    requires Bytes(src)
    ensures (cps, partial) == Decode(src, start)
  {
    hide Extra, FirstBits, Continues, Chars, Take, Resume, Decode;
    var pos := 0;
    cps := [];
    var value, remain := start.value, start.remain;
    assert src[0..] == src;
    while pos < |src| && remain > 0
      invariant 0 <= pos <= |src|
      invariant Resume(src[pos..], value, remain) == Resume(src, start.value, start.remain)
    {
      ResumeUnfolds(src[pos..], value, remain);
      if !Continues(src[pos]) {
        DecodeIs(src, start);
        return [0], INVALID;
      }
      assert src[pos..][1..] == src[pos + 1..];
      value := value * 64 + src[pos] % 64;
      pos := pos + 1;
      remain := remain - 1;
    }
    ResumeUnfolds(src[pos..], value, remain);
    DecodeIs(src, start);
    if start.remain > 0 && remain == 0 {
      cps := [value];
    }
    cps, partial := DecodeRest(src, pos, cps, value, remain);
  }

  method DecodeRest(src: seq<int>, from: nat, first: seq<int>, value0: int, remain0: int)
    returns (cps: seq<int>, partial: Partial)
    requires Bytes(src) && from <= |src|
    ensures (cps, partial) == Chars(src[from..], first, value0, remain0)
  {
    hide Extra, FirstBits, Continues, Take;
    var pos, value, remain := from, value0, remain0;
    cps := first;
    while pos < |src|
      invariant 0 <= pos <= |src|
      invariant Chars(src[pos..], cps, value, remain) == Chars(src[from..], first, value0, remain0)
      decreases |src| - pos
    {
      remain := Extra(src[pos]);
      if remain < 0 {
        return [0], Partial(0, remain);
      }
      var v, p, r := ReadRest(src, pos + 1, FirstBits(src[pos], remain), remain);
      assert src[pos..][1..] == src[pos + 1..];
      TakeIsSuffix(src[pos + 1..], FirstBits(src[pos], remain), remain);
      if r == 0 {
        cps := cps + [v];
      }
      value, pos, remain := v, p, r;
    }
    cps, partial := cps + [0], Partial(value, remain);
  }

  method ReadRest(src: seq<int>, from: nat, value: int, remain: nat) returns (v: int, pos: nat, r: int)
    requires Bytes(src) && from <= |src|
    ensures from <= pos <= |src| && Bytes(src[pos..])
    ensures Take(src[from..], value, remain) == Mid(src[pos..], v, r)
  {
    v, pos, r := value, from, remain;
    while pos < |src| && r > 0
      invariant from <= pos <= |src|
      invariant Take(src[pos..], v, r) == Take(src[from..], value, remain)
    {
      assert src[pos..][1..] == src[pos + 1..];
      v := v * 64 + src[pos] % 64;
      pos := pos + 1;
      r := r - 1;
    }
  }

  // ----------------------------------------------------------- one byte at a time

  /** The state after one byte; a byte that no character starts with gives an invalid state. */
  function Step(st: Partial, b: int): Partial {
    if st.remain > 0 then Partial(st.value * 64 + b % 64, st.remain - 1)
    else Partial(FirstBits(b, Extra(b)), Extra(b))
  }

  function Ending(src: seq<int>, st: Partial): (end: Partial)
    decreases |src|
  {
    if src == [] then st else Ending(src[1..], Step(st, src[0]))
  }

  /** The characters completed on the way. */
  function Fed(src: seq<int>, st: Partial): (cps: seq<int>)
    decreases |src|
  {
    if src == [] then []
    else
      var next := Step(st, src[0]);
      if next.remain == 0 then [next.value] + Fed(src[1..], next) else Fed(src[1..], next)
  }

  /** Every byte is where the encoding allows it, given the bytes still expected first. */
  predicate Formed(src: seq<int>, remain: int)
    decreases |src|
  {
    src == [] ||
    if remain > 0 then Continues(src[0]) && Formed(src[1..], remain - 1)
    else 0 < src[0] < 256 && Extra(src[0]) >= 0 && Formed(src[1..], Extra(src[0]))
  }

  /** Where a character has to start, there is no byte that can only continue one. */
  predicate Leads(src: seq<int>, remain: int)
    decreases |src|
  {
    src == [] ||
    if remain > 0 then Leads(src[1..], remain - 1)
    else !(0x80 <= src[0] < 0xC0) && Leads(src[1..], Extra(src[0]))
  }

  /** The bytes still expected from before look like it, as far as there are any. */
  predicate Resumes(src: seq<int>, remain: int) {
    forall i :: 0 <= i < |src| && i < remain ==> 0x80 <= src[i] < 0xC0
  }

  lemma {:induction false} FormedBytes(src: seq<int>, remain: int)
    requires Formed(src, remain)
    ensures Bytes(src)
    decreases |src|
  {
    if src != [] {
      FormedBytes(src[1..], if remain > 0 then remain - 1 else Extra(src[0]));
    }
  }

  /** Reading the rest of a character is feeding its bytes. */
  lemma {:induction false} TakeFeeds(src: seq<int>, value: int, remain: nat)
    ensures var m := Take(src, value, remain);
            && m.remain >= 0 && (Leads(src, remain) <==> Leads(m.rest, m.remain))
            && Ending(src, Partial(value, remain)) == Ending(m.rest, Partial(m.value, m.remain))
            && Fed(src, Partial(value, remain)) ==
               (if remain > 0 && m.remain == 0 then [m.value] else []) + Fed(m.rest, Partial(m.value, m.remain))
    decreases |src|
  {
    hide FirstBits, Extra;
    if src != [] && remain > 0 {
      TakeFeeds(src[1..], value * 64 + src[0] % 64, remain - 1);
    }
  }

  lemma {:induction false} ResumeSome(src: seq<int>, value: int, remain: int)
    ensures Resume(src, value, remain).Some? <==> Resumes(src, remain)
    decreases |src|
  {
    if src != [] && remain > 0 {
      var more := src[1..];
      ResumeSome(more, value * 64 + src[0] % 64, remain - 1);
      assert forall i :: 1 <= i < |src| ==> src[i] == more[i - 1];
      assert forall i :: 0 <= i < |more| ==> more[i] == src[i + 1];
    }
  }

  lemma {:induction false} CharsFeeds(src: seq<int>, cps: seq<int>, value: int, remain: int)
    requires (src == [] || remain <= 0) && Bytes(src)
    ensures Chars(src, cps, value, remain) ==
            if Leads(src, remain) then
              (cps + Fed(src, Partial(value, remain)) + [0], Ending(src, Partial(value, remain)))
            else ([0], INVALID)
    decreases |src|
  {
    hide FirstBits, Extra;
    if src != [] {
      var n := Extra(src[0]);
      assert n < 0 <==> 0x80 <= src[0] < 0xC0 by { NoneStart(src[0]); }
      if n >= 0 {
        var v := FirstBits(src[0], n);
        CharFeeds(src, value, remain, v, n);
        var m := Take(src[1..], v, n);
        var more := if m.remain == 0 then cps + [m.value] else cps;
        CharsFeeds(m.rest, more, m.value, m.remain);
        assert cps + Fed(src, Partial(value, remain)) == more + Fed(m.rest, Partial(m.value, m.remain));
      }
    } else {
      assert cps + [] == cps;
    }
  }

  lemma NoneStart(b: int)
    requires 0 < b < 256
    ensures Extra(b) < 0 <==> 0x80 <= b < 0xC0
    ensures Extra(b) < 0 ==> Extra(b) == -1
  {
  }

  lemma CharFeeds(src: seq<int>, value: int, remain: int, v: int, n: int)
    requires src != [] && remain <= 0 && n == Extra(src[0]) >= 0 && v == FirstBits(src[0], n) && Bytes(src)
    ensures var m := Take(src[1..], v, n);
            && |m.rest| < |src| && m.remain >= 0 && (m.rest != [] ==> m.remain == 0)
            && Bytes(m.rest) && (Leads(src, remain) <==> Leads(m.rest, m.remain))
            && Ending(src, Partial(value, remain)) == Ending(m.rest, Partial(m.value, m.remain))
            && Fed(src, Partial(value, remain)) ==
               (if m.remain == 0 then [m.value] else []) + Fed(m.rest, Partial(m.value, m.remain))
  {
    hide FirstBits, Extra, Take;
    var m := Take(src[1..], v, n);
    assert !(0x80 <= src[0] < 0xC0) by { NoneStart(src[0]); }
    assert Step(Partial(value, remain), src[0]) == Partial(v, n);
    TakeIsSuffix(src[1..], v, n);
    TakeFeeds(src[1..], v, n);
    if n == 0 {
      assert m == Mid(src[1..], v, 0) by { TakeNone(src[1..], v); }
    }
  }

  lemma TakeNone(src: seq<int>, value: int)
    ensures Take(src, value, 0) == Mid(src, value, 0)
  {
  }

  /** On any bytes at all the decoder is the byte-by-byte machine, as long as no byte that can
      only continue a character stands where one has to start, and the unfinished character from
      before is continued; otherwise it gives no characters and an invalid state. */
  lemma DecodeExactly(src: seq<int>, st: Partial)
    requires Bytes(src)
    ensures Decode(src, st) ==
            if Resumes(src, st.remain) && Leads(src, st.remain) then (Fed(src, st) + [0], Ending(src, st))
            else ([0], INVALID)
  {
    hide FirstBits, Extra, Chars, Resume, Leads, Resumes, Fed, Ending;
    DecodeIs(src, st);
    ResumeSome(src, st.value, st.remain);
    ResumeTakes(src, st.value, st.remain);
    if Resumes(src, st.remain) {
      var m := Take(src, st.value, st.remain);
      var first := if st.remain > 0 && m.remain == 0 then [m.value] else [];
      CharsFeeds(m.rest, first, m.value, m.remain);
      if st.remain > 0 {
        TakeFeeds(src, st.value, st.remain);
      } else {
        assert m == Mid(src, st.value, st.remain);
        assert [] + Fed(src, st) == Fed(src, st);
      }
    }
  }

  lemma {:induction false} FormedIsTaken(src: seq<int>, remain: int)
    requires Formed(src, remain)
    ensures Resumes(src, remain) && Leads(src, remain)
    decreases |src|
  {
    if src != [] {
      FormedIsTaken(src[1..], if remain > 0 then remain - 1 else Extra(src[0]));
      assert forall i :: 1 <= i < |src| ==> src[i] == src[1..][i - 1];
    }
  }

  /** On well-formed text the decoder is the byte-by-byte machine. */
  lemma DecodeFeeds(src: seq<int>, st: Partial)
    requires Formed(src, st.remain) && st.remain >= 0
    ensures Bytes(src) && Decode(src, st) == (Fed(src, st) + [0], Ending(src, st))
  {
    hide Decode, Formed, Leads, Resumes, Fed, Ending;
    FormedBytes(src, st.remain);
    FormedIsTaken(src, st.remain);
    DecodeExactly(src, st);
  }

  /** Whole characters, and then a byte that can only continue one. */
  ghost predicate Stray(src: seq<int>, st: Partial) {
    exists p :: 0 <= p < |src| && 0x80 <= src[p] < 0xC0
                && Formed(src[..p], st.remain) && Ending(src[..p], st).remain == 0
  }

  /** The unfinished character from before is not continued as far as it goes. */
  ghost predicate CutShort(src: seq<int>, st: Partial) {
    exists p :: 0 <= p < |src| && p < st.remain && !(0x80 <= src[p] < 0xC0)
  }

  /** Whole characters stand before position `|a|`, so a continuing byte there is refused. */
  lemma {:induction false} NoLead(a: seq<int>, b: seq<int>, st: Partial)
    requires Formed(a, st.remain) && Ending(a, st).remain <= 0 && b != [] && 0x80 <= b[0] < 0xC0
    ensures !Leads(a + b, st.remain)
    decreases |a|
  {
    hide FirstBits, Extra;
    if a == [] {
      assert a + b == b;
    } else {
      assert (a + b)[0] == a[0] && (a + b)[1..] == a[1..] + b;
      NoLead(a[1..], b, Step(st, a[0]));
    }
  }

  /** Such bytes give no characters and an invalid state, whatever follows. */
  lemma InvalidIsRefused(src: seq<int>, st: Partial)
    requires Bytes(src) && (Stray(src, st) || CutShort(src, st))
    ensures Decode(src, st).0 == [0] && Decode(src, st).1.remain < 0
  {
    hide Decode, Formed, Ending, Fed, Leads;
    DecodeExactly(src, st);
    if p :| 0 <= p < |src| && 0x80 <= src[p] < 0xC0 && Formed(src[..p], st.remain) && Ending(src[..p], st).remain == 0 {
      assert src == src[..p] + src[p..];
      NoLead(src[..p], src[p..], st);
    }
  }

  lemma {:induction false} OneMore(a: seq<int>, b: int, st: Partial)
    ensures var e := Ending(a, st);
            && Ending(a + [b], st) == Step(e, b)
            && Fed(a + [b], st) == Fed(a, st) + (if Step(e, b).remain == 0 then [Step(e, b).value] else [])
            && (Leads(a + [b], st.remain) <==> Leads(a, st.remain) && (e.remain > 0 || !(0x80 <= b < 0xC0)))
    decreases |a|
  {
    hide FirstBits, Extra;
    if a == [] {
      assert a + [b] == [b] && [b][1..] == [];
    } else {
      assert (a + [b])[0] == a[0] && (a + [b])[1..] == a[1..] + [b];
      OneMore(a[1..], b, Step(st, a[0]));
    }
  }

  lemma {:induction false} LeadsWell(src: seq<int>, st: Partial)
    requires st.remain >= 0 && Bytes(src) && Leads(src, st.remain)
    ensures Ending(src, st).remain >= 0
    decreases |src|
  {
    hide FirstBits, Extra;
    if src != [] {
      NoneStart(src[0]);
      LeadsWell(src[1..], Step(st, src[0]));
    }
  }

  lemma StepIs(e: Partial, b: int)
    requires 0 < b < 256 && e.remain >= 0
    ensures Step(e, b) ==
            if e.remain > 0 then Partial(e.value * 64 + b % 64, e.remain - 1)
            else if b < 0x80 then Partial(b, 0)
            else if b < 0xC0 then Step(e, b)
            else if b < 0xE0 then Partial(b - 0xC0, 1)
            else if b < 0xF0 then Partial(b - 0xE0, 2)
            else Partial(b - 0xF0, 3)
  {
  }

  /** What one more byte does to what has been decoded. With `DecodeNothing` this determines the
      decoder on all bytes and from every unfinished character: a character's first byte says how
      many follow and gives its upper bits, each following one six more. Only those that continue
      an unfinished character from before are checked; an invalid state stays. */
  lemma NextByte(a: seq<int>, b: int, st: Partial)
    requires st.remain >= 0 && Bytes(a + [b])
    ensures Bytes(a) && Decode(a, st).0 != []
    ensures var now := Decode(a, st);
            var (cps, e) := (now.0[..|now.0| - 1], now.1);
            Decode(a + [b], st) ==
              if e.remain < 0 || (e.remain == 0 && 0x80 <= b < 0xC0) || (|a| < st.remain && !(0x80 <= b < 0xC0))
              then ([0], Partial(0, -1))
              else if e.remain > 1 then (cps + [0], Partial(e.value * 64 + b % 64, e.remain - 1))
              else if e.remain == 1 then (cps + [e.value * 64 + b % 64, 0], Partial(e.value * 64 + b % 64, 0))
              else if b < 0x80 then (cps + [b, 0], Partial(b, 0))
              else if b < 0xE0 then (cps + [0], Partial(b - 0xC0, 1))
              else if b < 0xF0 then (cps + [0], Partial(b - 0xE0, 2))
              else (cps + [0], Partial(b - 0xF0, 3))
  {
    hide Decode, Fed, Ending, Leads, Step;
    assert a == (a + [b])[..|a|] && (a + [b])[|a|] == b;
    DecodeExactly(a, st);
    DecodeExactly(a + [b], st);
    OneMore(a, b, st);
    if Resumes(a, st.remain) && Leads(a, st.remain) {
      LeadsWell(a, st);
      StepIs(Ending(a, st), b);
      var cps := Fed(a, st);
      assert (cps + [0])[..|cps|] == cps && Decode(a, st).0[..|cps|] == cps;
      assert forall v :: cps + [v] + [0] == cps + [v, 0];
      assert cps + [] + [0] == cps + [0];
    }
  }

  lemma DecodeNothing(st: Partial)
    ensures Decode([], st) == ([0], st)
  {
    DecodeExactly([], st);
    assert Fed([], st) + [0] == [0];
  }

  /** Splitting well-formed text anywhere changes neither the characters nor the final state. */
  lemma {:induction false} FeedSplits(a: seq<int>, b: seq<int>, st: Partial)
    requires Formed(a + b, st.remain) && st.remain >= 0
    ensures Formed(a, st.remain) && Ending(a, st).remain >= 0 && Formed(b, Ending(a, st).remain)
    ensures Fed(a + b, st) == Fed(a, st) + Fed(b, Ending(a, st))
    ensures Ending(a + b, st) == Ending(b, Ending(a, st))
    decreases |a|
  {
    hide FirstBits;
    if a == [] {
      assert a + b == b;
    } else {
      assert (a + b)[0] == a[0] && (a + b)[1..] == a[1..] + b;
      FeedSplits(a[1..], b, Step(st, a[0]));
    }
  }

  // ------------------------------------------------------------------- encoding

  /** A character of RFC 3629, section 3; zero would end the C string. */
  predicate Scalar(c: int) {
    0 < c <= 0x10FFFF && !(0xD800 <= c <= 0xDFFF)
  }

  /** The encoding of RFC 3629, section 3. */
  function Encode(c: int): (e: seq<int>)
    requires Scalar(c)
  {
    if c < 0x80 then [c]
    else if c < 0x800 then [0xC0 + c / 64, 0x80 + c % 64]
    else if c < 0x10000 then [0xE0 + c / 4096, 0x80 + c / 64 % 64, 0x80 + c % 64]
    else [0xF0 + c / 262144, 0x80 + c / 4096 % 64, 0x80 + c / 64 % 64, 0x80 + c % 64]
  }

  function EncodeAll(cps: seq<int>): seq<int>
    requires forall i :: 0 <= i < |cps| ==> Scalar(cps[i])
  {
    if cps == [] then [] else Encode(cps[0]) + EncodeAll(cps[1..])
  }

  lemma Sextets(c: int)
    requires 0 <= c
    ensures c / 64 * 64 + c % 64 == c
    ensures c / 4096 * 64 + c / 64 % 64 == c / 64
    ensures c / 262144 * 64 + c / 4096 % 64 == c / 4096
  {
    assert c / 64 / 64 == c / 4096;
    assert c / 4096 / 64 == c / 262144;
  }

  lemma FirstByte(c: int, v: int, n: int)
    requires 1 <= n <= 3 && 0 <= v < (if n == 1 then 32 else if n == 2 then 16 else 8)
    requires c == v + (if n == 1 then 0xC0 else if n == 2 then 0xE0 else 0xF0)
    ensures 0 < c < 256 && Extra(c) == n && FirstBits(c, n) == v
  {
  }

  /** Encoding, then feeding, gives the character back. */
  lemma EncodeFeeds(c: int, value: int)
    requires Scalar(c)
    ensures Formed(Encode(c), 0) && Fed(Encode(c), Partial(value, 0)) == [c]
    ensures Ending(Encode(c), Partial(value, 0)) == Partial(c, 0)
  {
    Sextets(c);
    var st := Partial(value, 0);
    if c < 0x80 {
      One(st, c);
    } else if c < 0x800 {
      FirstByte(0xC0 + c / 64, c / 64, 1);
      Last(c / 64, c % 64);
      More(st, 0xC0 + c / 64, [0x80 + c % 64]);
      assert Encode(c) == [0xC0 + c / 64] + [0x80 + c % 64];
    } else if c < 0x10000 {
      ThreeBytes(c, st);
    } else {
      FourBytes(c, st);
    }
  }

  lemma ThreeBytes(c: int, st: Partial)
    requires 0x800 <= c < 0x10000 && Scalar(c) && st.remain == 0
    ensures Formed(Encode(c), 0) && Fed(Encode(c), st) == [c] && Ending(Encode(c), st) == Partial(c, 0)
  {
    hide Formed, Fed, Ending, FirstBits, Extra;
    Sextets(c);
    FirstByte(0xE0 + c / 4096, c / 4096, 2);
    Last(c / 64, c % 64);
    Then(c / 4096, c / 64 % 64, 2, [0x80 + c % 64]);
    More(st, 0xE0 + c / 4096, [0x80 + c / 64 % 64] + [0x80 + c % 64]);
    assert Encode(c) == [0xE0 + c / 4096] + ([0x80 + c / 64 % 64] + [0x80 + c % 64]);
  }

  lemma FourBytes(c: int, st: Partial)
    requires 0x10000 <= c && Scalar(c) && st.remain == 0
    ensures Formed(Encode(c), 0) && Fed(Encode(c), st) == [c] && Ending(Encode(c), st) == Partial(c, 0)
  {
    hide Formed, Fed, Ending, FirstBits, Extra;
    Sextets(c);
    FirstByte(0xF0 + c / 262144, c / 262144, 3);
    Last(c / 64, c % 64);
    Then(c / 4096, c / 64 % 64, 2, [0x80 + c % 64]);
    Then(c / 262144, c / 4096 % 64, 3, [0x80 + c / 64 % 64] + [0x80 + c % 64]);
    More(st, 0xF0 + c / 262144, [0x80 + c / 4096 % 64] + ([0x80 + c / 64 % 64] + [0x80 + c % 64]));
    assert Encode(c) == [0xF0 + c / 262144] + ([0x80 + c / 4096 % 64] + ([0x80 + c / 64 % 64] + [0x80 + c % 64]));
  }

  lemma One(st: Partial, c: int)
    requires 0 < c < 0x80 && st.remain == 0
    ensures Formed([c], 0) && Fed([c], st) == [c] && Ending([c], st) == Partial(c, 0)
  {
    assert [c][1..] == [];
    assert Step(st, c) == Partial(c, 0);
  }

  lemma Last(v: int, low: int)
    requires 0 <= low < 64
    ensures Formed([0x80 + low], 1)
    ensures Fed([0x80 + low], Partial(v, 1)) == [v * 64 + low]
    ensures Ending([0x80 + low], Partial(v, 1)) == Partial(v * 64 + low, 0)
  {
    assert [0x80 + low][1..] == [];
    assert Step(Partial(v, 1), 0x80 + low) == Partial(v * 64 + low, 0);
  }

  lemma Then(v: int, low: int, remain: nat, rest: seq<int>)
    requires 0 <= low < 64 && remain >= 2 && Formed(rest, remain - 1)
    ensures Formed([0x80 + low] + rest, remain)
    ensures Fed([0x80 + low] + rest, Partial(v, remain)) == Fed(rest, Partial(v * 64 + low, remain - 1))
    ensures Ending([0x80 + low] + rest, Partial(v, remain)) == Ending(rest, Partial(v * 64 + low, remain - 1))
  {
    assert ([0x80 + low] + rest)[1..] == rest;
    assert Step(Partial(v, remain), 0x80 + low) == Partial(v * 64 + low, remain - 1);
  }

  lemma More(st: Partial, first: int, rest: seq<int>)
    requires 0 < first < 256 && Extra(first) > 0 && st.remain == 0 && Formed(rest, Extra(first))
    ensures Formed([first] + rest, 0)
    ensures Fed([first] + rest, st) == Fed(rest, Partial(FirstBits(first, Extra(first)), Extra(first)))
    ensures Ending([first] + rest, st) == Ending(rest, Partial(FirstBits(first, Extra(first)), Extra(first)))
  {
    hide FirstBits;
    assert ([first] + rest)[1..] == rest;
    assert Step(st, first) == Partial(FirstBits(first, Extra(first)), Extra(first));
  }

  lemma {:induction false} FormedConcat(a: seq<int>, b: seq<int>, st: Partial)
    requires Formed(a, st.remain) && st.remain >= 0 && Ending(a, st).remain == 0 && Formed(b, 0)
    ensures Formed(a + b, st.remain)
    decreases |a|
  {
    hide FirstBits;
    if a == [] {
      assert a + b == b;
      if b != [] && st.remain == 0 {
      }
    } else {
      assert (a + b)[0] == a[0] && (a + b)[1..] == a[1..] + b;
      FormedConcat(a[1..], b, Step(st, a[0]));
    }
  }

  lemma {:induction false} EncodeAllFeeds(cps: seq<int>, st: Partial)
    requires forall i :: 0 <= i < |cps| ==> Scalar(cps[i])
    requires st.remain == 0
    ensures Formed(EncodeAll(cps), 0)
    ensures Fed(EncodeAll(cps), st) == cps && Ending(EncodeAll(cps), st).remain == 0
    decreases |cps|
  {
    hide FirstBits, Encode, Scalar;
    if cps != [] {
      EncodeFeeds(cps[0], st.value);
      EncodeAllFeeds(cps[1..], Partial(cps[0], 0));
      FormedConcat(Encode(cps[0]), EncodeAll(cps[1..]), st);
      FeedSplits(Encode(cps[0]), EncodeAll(cps[1..]), st);
      assert cps == [cps[0]] + cps[1..];
    }
  }
}
