/** The main transcription loop: prompt building, temperature fallback, decode windows, and
    the movement of the seek position over the audio. */
module Transcribe {
  import opened Options
  import KvCache
  import opened DecodeWindow
  import Beam

  /** 30 seconds, in centiseconds. */
  const CHUNK: int := 3000
  const DELTA_MIN: int := 10
  const TEMP_CUTOFF: real := 0.5

  datatype Params = Params(
    nTextCtx: nat,
    maxTextCtx: int,
    carry: bool,
    singleSegment: bool,
    noTimestamps: bool,
    maxTokens: int,
    tokenBeg: int,
    tokenEot: int,
    tokenPrev: int,
    promptInit: seq<int>,
    loaded: bool,
    beam: bool,
    temperature: real,
    increment: real,
    bestOf: int,
    beamSize: int,
    pad: nat)
  {
    /** Start-of-transcript, at most language, task and no-timestamps markers; room for the
        prompt and the window. */
    ghost predicate Ok() {
      1 <= |promptInit| <= 4 && 10 <= nTextCtx < KvCache.POS_MAX && pad > 0
    }

    /** No more decoders asked for than there are. */
    predicate DecodersFit() {
      bestOf <= Beam.MAX_DECODERS && (beam ==> beamSize <= Beam.MAX_DECODERS)
    }

    /** The temperatures to try, in this order. */
    function Temperatures(): seq<real> {
      if increment > 0.0 then Rising(temperature, increment) else [temperature]
    }

    function MaxPromptCtx(): int {
      if maxTextCtx <= nTextCtx / 2 then maxTextCtx else nTextCtx / 2
    }

    function WindowLength(): int {
      nTextCtx / 2 - 4
    }

    function Decoders(t: real): (n: nat)
      ensures n >= 1
    {
      var n := if t > 0.0 then bestOf else if beam then beamSize else 1;
      if n >= 1 then n else 1
    }
  }

  // -------------------------------------------------------------- temperatures

  const TEMP_LIMIT: real := 1.000001

  ghost function StepsLeft(t: real, increment: real): nat
    requires increment > 0.0
  {
    if t < TEMP_LIMIT then
      assert (TEMP_LIMIT - t) / increment >= 0.0;
      ((TEMP_LIMIT - t) / increment).Floor + 1
    else 0
  }

  lemma FewerSteps(t: real, increment: real)
    requires increment > 0.0 && t < TEMP_LIMIT
    ensures StepsLeft(t + increment, increment) < StepsLeft(t, increment)
  {
    var q := (TEMP_LIMIT - t) / increment;
    assert q >= 0.0;
    if t + increment < TEMP_LIMIT {
      assert (TEMP_LIMIT - (t + increment)) / increment == q - 1.0 by {
        assert q * increment == TEMP_LIMIT - t;
        assert (q - 1.0) * increment == q * increment - increment;
        Quotient(TEMP_LIMIT - (t + increment), increment, q - 1.0);
      }
    }
  }

  lemma Quotient(x: real, y: real, q: real)
    requires y > 0.0 && q * y == x
    ensures x / y == q
  {
  }

  /** From `t` on in equal steps while below the limit. */
  function Rising(t: real, increment: real): seq<real>
    requires increment > 0.0
    decreases StepsLeft(t, increment)
  {
    if t < TEMP_LIMIT then
      FewerSteps(t, increment);
      [t] + Rising(t + increment, increment)
    else []
  }

  /** Equal steps from the start temperature, as many as lie below the limit. */
  predicate EqualSteps(p: Params, ts: seq<real>) {
    && (forall i :: 0 <= i < |ts| ==> ts[i] == p.temperature + i as real * p.increment && ts[i] < 1.000001)
    && p.temperature + |ts| as real * p.increment >= 1.000001
  }

  lemma {:induction false} RisingSteps(t: real, increment: real)
    requires increment > 0.0
    ensures var ts := Rising(t, increment);
            && (forall i :: 0 <= i < |ts| ==> ts[i] == t + i as real * increment && ts[i] < TEMP_LIMIT)
            && t + |ts| as real * increment >= TEMP_LIMIT
    decreases StepsLeft(t, increment)
  {
    if t < TEMP_LIMIT {
      FewerSteps(t, increment);
      RisingSteps(t + increment, increment);
      var ts, rest := Rising(t, increment), Rising(t + increment, increment);
      forall i | 0 <= i < |ts| ensures ts[i] == t + i as real * increment && ts[i] < TEMP_LIMIT {
        if i > 0 {
          assert ts[i] == rest[i - 1] && i as real == (i - 1) as real + 1.0;
        }
      }
      assert |ts| as real == |rest| as real + 1.0;
    }
  }

  lemma StepsAreEqual(p: Params)
    requires p.increment > 0.0
    ensures EqualSteps(p, Rising(p.temperature, p.increment))
  {
    hide Rising;
    RisingSteps(p.temperature, p.increment);
  }

  method BuildTemperatures(p: Params) returns (ts: seq<real>)
    ensures ts == p.Temperatures()
    ensures if p.increment > 0.0 then EqualSteps(p, ts) else ts == [p.temperature]
  {
    if p.increment <= 0.0 {
      return [p.temperature];
    }
    StepsAreEqual(p);
    hide EqualSteps;
    ts := [];
    var t := p.temperature;
    while t < TEMP_LIMIT
      invariant ts + Rising(t, p.increment) == Rising(p.temperature, p.increment)
      decreases StepsLeft(t, p.increment)
    {
      FewerSteps(t, p.increment);
      ghost var before, rest := ts, Rising(t + p.increment, p.increment);
      assert before + ([t] + rest) == before + [t] + rest;
      ts := ts + [t];
      t := t + p.increment;
    }
  }

  /** There is something to try exactly when the increment is not positive or the start lies
      below the limit; the start temperature then comes first. */
  lemma WhenTemperatures(p: Params)
    ensures p.Temperatures() != [] <==> p.increment <= 0.0 || p.temperature < TEMP_LIMIT
    ensures p.Temperatures() != [] ==> p.Temperatures()[0] == p.temperature
  {
  }

  // -------------------------------------------------------------------- prompt

  function LastN(s: seq<int>, n: int): seq<int>
    requires 0 <= n <= |s|
  {
    s[|s| - n..]
  }

  /** The carried tokens leave room for the marker in front of them. */
  predicate CarryFits(p: Params, past0: seq<int>) {
    p.carry && past0 != [] && p.maxTextCtx > 0 ==> |past0| <= p.MaxPromptCtx() - 1
  }

  /** The prompt of one decoding attempt: marker, carried tokens, as much of the rolling context
      as the budget leaves, task tokens. `None` when the carried tokens alone exceed the budget:
      a negative number of tokens would be taken off the end of the rolling context. */
  function BuildPrompt(p: Params, past0: seq<int>, past1: seq<int>, t: real): Option<seq<int>> {
    var take0 := if p.carry then past0 else [];
    if p.maxTextCtx > 0 && t < TEMP_CUTOFF && p.MaxPromptCtx() > 0 && (take0 != [] || past1 != []) then
      var room := p.MaxPromptCtx() - |take0| - 1;
      if room < 0 then None
      else Some([p.tokenPrev] + take0 + LastN(past1, if room <= |past1| then room else |past1|) + p.promptInit)
    else Some(p.promptInit)
  }

  /** The prompt holds the last `n` tokens of the rolling context, behind the marker and the
      carried tokens and in front of the task tokens: all of it, or what fills the budget. */
  predicate PromptWith(p: Params, past0: seq<int>, past1: seq<int>, prompt: seq<int>, n: nat)
    requires n <= |past1|
  {
    var budget := if p.maxTextCtx < p.nTextCtx / 2 then p.maxTextCtx else p.nTextCtx / 2;
    var carried := if p.carry then past0 else [];
    && prompt == [p.tokenPrev] + carried + past1[|past1| - n..] + p.promptInit
    && 1 + |carried| + n <= budget && (n == |past1| || 1 + |carried| + n == budget)
  }

  /** Below the cut-off temperature the prompt takes up what was heard before, if it may and there
      is anything; otherwise it is the task tokens alone. */
  ghost predicate Shaped(p: Params, past0: seq<int>, past1: seq<int>, t: real, prompt: seq<int>) {
    if p.maxTextCtx > 0 && t < 0.5 && p.nTextCtx >= 2 && ((p.carry && past0 != []) || past1 != [])
    then exists n :: 0 <= n <= |past1| && PromptWith(p, past0, past1, prompt, n)
    else prompt == p.promptInit
  }

  lemma PromptIsShaped(p: Params, past0: seq<int>, past1: seq<int>, t: real)
    ensures match BuildPrompt(p, past0, past1, t)
            case Some(prompt) => Shaped(p, past0, past1, t, prompt)
            case None => true
  {
    var prompt := BuildPrompt(p, past0, past1, t);
    if prompt.Some? && prompt.value != p.promptInit {
      var room := p.MaxPromptCtx() - |if p.carry then past0 else []| - 1;
      var n := if room <= |past1| then room else |past1|;
      assert PromptWith(p, past0, past1, prompt.value, n);
    }
  }

  lemma PromptFits(p: Params, past0: seq<int>, past1: seq<int>, t: real)
    requires p.Ok()
    ensures match BuildPrompt(p, past0, past1, t)
            case Some(prompt) => 1 <= |prompt| <= p.nTextCtx / 2 + 4
            case None => t < TEMP_CUTOFF && !CarryFits(p, past0)
    ensures t < TEMP_CUTOFF && !CarryFits(p, past0) ==> BuildPrompt(p, past0, past1, t).None?
  {
  }

  /** No position of a window reaches the end of the text context, and the constants are
      tight: with a full prompt the last position is the last one there is. */
  lemma LastPosition(p: Params, prompt: nat, i: nat)
    requires p.Ok() && prompt <= p.nTextCtx / 2 + 4 && i < p.WindowLength()
    ensures prompt + i < p.nTextCtx
    ensures p.nTextCtx % 2 == 0 && prompt == p.nTextCtx / 2 + 4 && i == p.WindowLength() - 1 ==>
      prompt + i == p.nTextCtx - 1
  {
  }

  /** What a long initial prompt is cut to when it is carried from window to window. */
  function CarriedLength(p: Params, n: nat): nat {
    var most := if p.MaxPromptCtx() - 1 >= 1 then p.MaxPromptCtx() - 1 else 1;
    if n <= most then n else most
  }

  /** The carried tokens a run starts with. They live in the state: an initial prompt is only
      taken up, and cut, when nothing is carried over from an earlier run. */
  function StartPast0(p: Params, noContext: bool, initial: seq<int>, past0: seq<int>): seq<int> {
    var over := if noContext then [] else past0;
    if p.carry && initial != [] && over == [] then LastN(initial, CarriedLength(p, |initial|)) else over
  }

  /** The rolling context a run starts with: an initial prompt that is not carried goes first. */
  function StartPast1(p: Params, noContext: bool, initial: seq<int>, past1: seq<int>): seq<int> {
    var over := if noContext then [] else past1;
    if p.carry then over else initial + over
  }

  /** What a run starts with: without carrying, the initial prompt and the rolling context from
      earlier; with it, the rolling context from earlier, and as carried tokens those from earlier,
      or else the end of the initial prompt, cut so as to leave room for the marker. */
  predicate Starts(p: Params, noContext: bool, initial: seq<int>, old0: seq<int>, old1: seq<int>, past0: seq<int>,
                   past1: seq<int>) {
    var over0, over1 := if noContext then [] else old0, if noContext then [] else old1;
    && past1 == (if p.carry then over1 else initial + over1)
    && if p.carry && initial != [] && over0 == [] then
         var budget := if p.maxTextCtx < p.nTextCtx / 2 then p.maxTextCtx else p.nTextCtx / 2;
         && |past0| <= |initial| && initial[|initial| - |past0|..] == past0
         && (|past0| == |initial| || |past0| == if budget > 2 then budget - 1 else 1)
         && (|past0| <= 1 || |past0| < budget)
       else past0 == over0
  }

  lemma StartsSo(p: Params, noContext: bool, initial: seq<int>, old0: seq<int>, old1: seq<int>)
    ensures Starts(p, noContext, initial, old0, old1, StartPast0(p, noContext, initial, old0),
                   StartPast1(p, noContext, initial, old1))
  {
  }

  /** When prompts can be built throughout a run: with nothing carried over, the cut of the
      initial prompt leaves the room needed exactly when the budget is not a single token;
      tokens carried over are never cut, and must leave that room themselves. */
  lemma CarriedPromptFits(p: Params, noContext: bool, initial: seq<int>, past0: seq<int>)
    requires p.Ok() && p.carry && p.maxTextCtx > 0
    ensures CarryFits(p, StartPast0(p, noContext, initial, past0)) <==>
            if noContext || past0 == [] then initial == [] || p.MaxPromptCtx() != 1
            else |past0| <= p.MaxPromptCtx() - 1
  {
  }

  // ------------------------------------------------------------- decoder state

  datatype Dec = Dec(seekDelta: int, resultLen: int, hasTs: bool, failed: bool, completed: bool) {
    predicate Done() {
      failed || completed
    }
  }

  const FRESH: Dec := Dec(CHUNK, 0, false, false, false)

  /** The update of a decoder after token number `i`. */
  function Update(p: Params, d: Dec, token: int, i: int, seek: int, seekEnd: int): Dec {
    if token > p.tokenBeg then
      var delta := 2 * (token - p.tokenBeg);
      if d.hasTs && d.seekDelta > delta && d.resultLen < i then d.(failed := true)
      else AfterToken(p, d.(seekDelta := delta, resultLen := i + 1, hasTs := true), token, i, seek, seekEnd)
    else AfterToken(p, d, token, i, seek, seekEnd)
  }

  function AfterToken(p: Params, d: Dec, token: int, i: int, seek: int, seekEnd: int): Dec {
    var atEnd := seek + d.seekDelta + DELTA_MIN >= seekEnd;
    if token == p.tokenEot || (p.maxTokens > 0 && i >= p.maxTokens) || (d.hasTs && atEnd) then
      if d.resultLen == 0 && !p.noTimestamps && !atEnd then d.(failed := true)
      else
        var len := if d.resultLen == 0 && !p.noTimestamps then i + 1 else d.resultLen;
        if p.singleSegment || p.noTimestamps
        then d.(resultLen := i + 1, seekDelta := CHUNK, completed := true)
        else d.(resultLen := len, completed := true)
    else if !p.loaded then d.(seekDelta := CHUNK, completed := true)
    else if i == p.WindowLength() - 1 && (d.resultLen == 0 || d.seekDelta < CHUNK / 2) then d.(failed := true)
    else d
  }

  /** What a token does to a decoder. It goes back in time when it is a timestamp before the last
      one, unless it directly follows that. The segment ends at the end-of-text token, behind the
      largest number of tokens, or when at most 100 ms of the audio are left behind the last
      timestamp. */
  lemma UpdateExactly(p: Params, d: Dec, token: int, i: nat, seek: int, seekEnd: int)
    requires !d.Done() && DecOk(d, i)
    ensures var next := Update(p, d, token, i, seek, seekEnd);
            var stamp, time := token > p.tokenBeg, 2 * (token - p.tokenBeg);
            var back := stamp && d.hasTs && time < d.seekDelta && d.resultLen < i;
            var delta := if stamp then time else d.seekDelta;
            var len := if stamp then i + 1 else d.resultLen;
            var near := seekEnd - seek <= delta + 10;
            var ends := token == p.tokenEot || 0 < p.maxTokens <= i || ((stamp || d.hasTs) && near);
            var empty := len == 0 && !p.noTimestamps;
            var whole := p.singleSegment || p.noTimestamps;
            && (next.failed <==> || back || (ends && empty && !near)
                                 || (!ends && p.loaded && i + 5 == p.nTextCtx / 2 && (len == 0 || delta < 1500)))
            && (next.completed <==> !next.failed && (ends || !p.loaded))
            && (next.hasTs <==> d.hasTs || stamp)
            && next.resultLen == (if back then d.resultLen
                                  else if next.completed && ends && (whole || empty) then i + 1 else len)
            && next.seekDelta == (if back then d.seekDelta
                                  else if next.completed && (!ends || whole) then 3000 else delta)
  {
  }

  /** What the rounds of one window leave behind. */
  predicate DecsOk(decs: seq<Dec>, tokens: seq<seq<int>>) {
    |decs| == |tokens| && forall j :: 0 <= j < |decs| ==> DecOk(decs[j], |tokens[j]|)
  }

  /** A decoder always moves the seek position on, and its result is a prefix of its tokens. */
  predicate DecOk(d: Dec, length: nat) {
    d.seekDelta >= 2 && 0 <= d.resultLen <= length
  }

  lemma UpdateKeepsOk(p: Params, d: Dec, token: int, i: nat, seek: int, seekEnd: int)
    requires DecOk(d, i)
    ensures DecOk(Update(p, d, token, i, seek, seekEnd), i + 1)
  {
  }

  /** A decoder that leaves the window without failing has a result, unless timestamps are off. */
  lemma CompletedHasResult(p: Params, d: Dec, token: int, i: nat, seek: int, seekEnd: int)
    requires DecOk(d, i) && !d.Done() && p.loaded
    ensures Update(p, d, token, i, seek, seekEnd).completed ==> Update(p, d, token, i, seek, seekEnd).resultLen > 0
    ensures i == p.WindowLength() - 1 && !Update(p, d, token, i, seek, seekEnd).failed ==>
      Update(p, d, token, i, seek, seekEnd).resultLen > 0
  {
  }

  /** The decoder remembers the last timestamp among its tokens: where it is, and the time it
      stands for. */
  predicate Tracks(p: Params, d: Dec, toks: seq<int>) {
    if d.hasTs then
      && 0 < d.resultLen <= |toks| && toks[d.resultLen - 1] > p.tokenBeg
      && d.seekDelta == 2 * (toks[d.resultLen - 1] - p.tokenBeg)
      && forall k :: d.resultLen <= k < |toks| ==> toks[k] <= p.tokenBeg
    else
      && d.resultLen == 0 && d.seekDelta == CHUNK
      && forall k :: 0 <= k < |toks| ==> toks[k] <= p.tokenBeg
  }

  /** The state after a whole sequence; a decoder that is done takes no more tokens. */
  function Updates(p: Params, toks: seq<int>, seek: int, seekEnd: int): Dec {
    if toks == [] then FRESH
    else
      var before := Updates(p, toks[..|toks| - 1], seek, seekEnd);
      if before.Done() then before else Update(p, before, toks[|toks| - 1], |toks| - 1, seek, seekEnd)
  }

  lemma UpdateTracks(p: Params, d: Dec, toks: seq<int>, token: int, seek: int, seekEnd: int)
    requires Tracks(p, d, toks) && !d.Done()
    ensures var next := Update(p, d, token, |toks|, seek, seekEnd);
            && (!next.Done() ==> Tracks(p, next, toks + [token]))
            && (next.completed && next.hasTs && p.loaded && !p.singleSegment && !p.noTimestamps ==>
              Tracks(p, next, toks + [token]))
            && (token > p.tokenBeg && d.hasTs && !next.failed ==>
                  2 * (token - p.tokenBeg) >= d.seekDelta || d.resultLen == |toks|)
  {
    assert forall k :: 0 <= k < |toks| ==> (toks + [token])[k] == toks[k];
  }

  /** However a sequence went, a decoder that is still going, or has completed at a timestamp,
      stands at the last timestamp of its tokens. */
  lemma {:induction false} ResultEndsAtTimestamp(p: Params, toks: seq<int>, seek: int, seekEnd: int)
    requires toks != [] ==> !Updates(p, toks[..|toks| - 1], seek, seekEnd).Done()
    ensures var d := Updates(p, toks, seek, seekEnd);
            && (!d.Done() ==> Tracks(p, d, toks))
            && (d.completed && d.hasTs && p.loaded && !p.singleSegment && !p.noTimestamps ==> Tracks(p, d, toks))
    decreases |toks|
  {
    hide Update, Tracks;
    if toks == [] {
      assert Tracks(p, FRESH, []) by { FreshTracks(p); }
    } else {
      var rest, last := toks[..|toks| - 1], toks[|toks| - 1];
      if rest != [] {
        StillGoing(p, rest, seek, seekEnd);
      }
      ResultEndsAtTimestamp(p, rest, seek, seekEnd);
      UpdateTracks(p, Updates(p, rest, seek, seekEnd), rest, last, seek, seekEnd);
      assert toks == rest + [last];
    }
  }

  /** The decoder was still going before its last token. */
  predicate Whole(p: Params, toks: seq<int>, seek: int, seekEnd: int) {
    toks != [] ==> !Updates(p, toks[..|toks| - 1], seek, seekEnd).Done()
  }

  /** `delta` is the time of the last timestamp among the tokens, a final one that goes back
      in time apart. */
  ghost predicate Stands(p: Params, delta: int, toks: seq<int>) {
    exists k :: 0 <= k < |toks| && StandsAt(p, delta, toks, k)
  }

  predicate StandsAt(p: Params, delta: int, toks: seq<int>, k: nat)
    requires k < |toks|
  {
    && toks[k] > p.tokenBeg && delta == 2 * (toks[k] - p.tokenBeg)
    && forall m :: k < m < |toks| && toks[m] > p.tokenBeg ==> m == |toks| - 1 && toks[m] < toks[k]
  }

  lemma StepStands(p: Params, d: Dec, toks: seq<int>, token: int, seek: int, seekEnd: int)
    requires Tracks(p, d, toks) && !d.Done()
    ensures var next := Update(p, d, token, |toks|, seek, seekEnd);
            next.seekDelta == CHUNK || Stands(p, next.seekDelta, Result(next, toks + [token]))
  {
    var next, all := Update(p, d, token, |toks|, seek, seekEnd), toks + [token];
    assert forall k :: 0 <= k < |toks| ==> all[k] == toks[k];
    if next.seekDelta != CHUNK {
      var delta := 2 * (token - p.tokenBeg);
      if token > p.tokenBeg && !(d.hasTs && d.seekDelta > delta && d.resultLen < |toks|) {
        assert StandsAt(p, next.seekDelta, Result(next, all), |toks|);
      } else {
        assert StandsAt(p, next.seekDelta, Result(next, all), d.resultLen - 1);
      }
    }
  }

  /** Wherever a decoder stopped, it moves on by the whole chunk or by the last timestamp of
      its result. */
  lemma ResultStands(p: Params, toks: seq<int>, seek: int, seekEnd: int)
    requires Whole(p, toks, seek, seekEnd)
    ensures var d := Updates(p, toks, seek, seekEnd);
            d.seekDelta == CHUNK || Stands(p, d.seekDelta, Result(d, toks))
  {
    hide Update, Tracks, Stands, Result;
    if toks != [] {
      var rest, last := toks[..|toks| - 1], toks[|toks| - 1];
      if rest != [] {
        StillGoing(p, rest, seek, seekEnd);
      }
      ResultEndsAtTimestamp(p, rest, seek, seekEnd);
      StepStands(p, Updates(p, rest, seek, seekEnd), rest, last, seek, seekEnd);
      assert toks == rest + [last];
    }
  }

  /** A sequence that did not fail is cut to its result. */
  function Result(d: Dec, toks: seq<int>): seq<int> {
    if !d.failed && 0 <= d.resultLen <= |toks| then toks[..d.resultLen] else toks
  }

  lemma FreshTracks(p: Params)
    ensures Tracks(p, FRESH, [])
  {
  }

  lemma StillGoing(p: Params, toks: seq<int>, seek: int, seekEnd: int)
    requires toks != [] && !Updates(p, toks, seek, seekEnd).Done()
    ensures !Updates(p, toks[..|toks| - 1], seek, seekEnd).Done()
  {
    hide Update;
  }

  lemma UpdatesPush(p: Params, toks: seq<int>, token: int, seek: int, seekEnd: int)
    requires !Updates(p, toks, seek, seekEnd).Done()
    ensures Updates(p, toks + [token], seek, seekEnd) ==
            Update(p, Updates(p, toks, seek, seekEnd), token, |toks|, seek, seekEnd)
  {
    hide Update;
    assert (toks + [token])[..|toks|] == toks;
  }

  lemma {:induction false} UpdatesOk(p: Params, toks: seq<int>, seek: int, seekEnd: int)
    ensures DecOk(Updates(p, toks, seek, seekEnd), |toks|)
    decreases |toks|
  {
    hide Update;
    if toks != [] {
      UpdatesOk(p, toks[..|toks| - 1], seek, seekEnd);
      UpdateKeepsOk(p, Updates(p, toks[..|toks| - 1], seek, seekEnd), toks[|toks| - 1], |toks| - 1, seek, seekEnd);
    }
  }

  // ------------------------------------------------------------------ sampling

  /** What the model samples, as a function of window start, round, token number and decoder;
      and how it scores and judges finished sequences. */
  datatype Sampler = Sampler(
    token: (int, nat, nat, nat) -> int,
    topk: (int, nat, nat, nat) -> seq<int>,
    score: (int, nat, nat, seq<int>) -> real,
    rank: (int, nat, nat) -> Option<real>,
    chaotic: (int, nat, nat) -> bool,
    retry: (int, nat) -> bool,
    goOn: int -> bool,
    noSpeech: int -> bool,
    encoderOk: int -> bool)
  {
    ghost predicate Ok() {
      forall seek, round, i, j :: topk(seek, round, i, j) != []
    }
  }

  /** The token is what the sampler gives decoder `j`; with beam search, one of those it offers to
      some decoder, because decoders continue one another. */
  ghost predicate Offered(p: Params, s: Sampler, seek: int, round: nat, n: nat, i: nat, j: nat, token: int) {
    if p.beam then exists k: nat :: k < n && token in s.topk(seek, round, i, k) else token == s.token(seek, round, i, j)
  }

  ghost predicate Drawn(p: Params, s: Sampler, seek: int, round: nat, n: nat, j: nat, toks: seq<int>) {
    forall i :: 0 <= i < |toks| ==> Offered(p, s, seek, round, n, i, j, toks[i])
  }

  /** All tokens of all decoders come from the sampler. */
  ghost predicate AllDrawn(p: Params, s: Sampler, seek: int, round: nat, tokens: seq<seq<int>>) {
    forall j :: 0 <= j < |tokens| ==> Drawn(p, s, seek, round, |tokens|, j, tokens[j])
  }

  predicate LastOffered(s: Sampler, seek: int, round: nat, i: nat, src: nat, toks: seq<int>) {
    toks != [] && toks[|toks| - 1] in s.topk(seek, round, i, src)
  }

  predicate AllOffered(s: Sampler, seek: int, round: nat, i: nat, active: seq<bool>, choice: seq<nat>,
                       tokens: seq<seq<int>>) {
    && |active| == |choice| == |tokens|
    && forall j :: 0 <= j < |active| && active[j] ==> LastOffered(s, seek, round, i, choice[j], tokens[j])
  }

  /** A candidate, its score, and which of its decoder's best tokens it ends in. */
  datatype Scored = Scored(cand: Candidate, score: real, top: nat)

  predicate Before(a: Scored, b: Scored) {
    a.score > b.score || (a.score == b.score && a.cand.src <= b.cand.src)
  }

  predicate Ranked(s: seq<Scored>) {
    forall j, k :: 0 <= j < k < |s| ==> Before(s[j], s[k])
  }

  /** Best score first; equal scores by decoder. */
  method SortCandidates(s: seq<Scored>) returns (r: seq<Scored>)
    ensures Ranked(r) && multiset(r) == multiset(s)
  {
    r := [];
    for n := 0 to |s|
      invariant Ranked(r) && multiset(r) == multiset(s[..n])
    {
      var k := 0;
      while k < |r| && Before(r[k], s[n])
        invariant 0 <= k <= |r|
        invariant forall m :: 0 <= m < k ==> Before(r[m], s[n])
      {
        k := k + 1;
      }
      InsertRanked(r, s[n], k);
      assert s[..n + 1] == s[..n] + [s[n]];
      r := r[..k] + [s[n]] + r[k..];
    }
    assert s[..|s|] == s;
  }

  lemma InsertRanked(r: seq<Scored>, x: Scored, k: nat)
    requires Ranked(r) && k <= |r| && forall m :: 0 <= m < k ==> Before(r[m], x)
    requires k < |r| ==> !Before(r[k], x)
    ensures var more := r[..k] + [x] + r[k..];
            Ranked(more) && multiset(more) == multiset(r) + multiset{x}
  {
    var more := r[..k] + [x] + r[k..];
    assert r == r[..k] + r[k..];
    forall m | k <= m < |r| ensures Before(x, r[m]) {
      assert m == k || Before(r[k], r[m]);
    }
    forall a, b | 0 <= a < b < |more| ensures Before(more[a], more[b]) {
      assert more[a] == if a < k then r[a] else if a == k then x else r[a - 1];
      assert more[b] == if b < k then r[b] else if b == k then x else r[b - 1];
    }
  }

  /** The candidate continues an active decoder by one of its best tokens. */
  predicate IsCandidate(s: Sampler, seek: int, round: nat, i: nat, active: seq<bool>, was: seq<seq<int>>, x: Scored)
    requires |active| == |was|
  {
    var j := x.cand.src;
    && j < |active| && active[j] && x.top < |s.topk(seek, round, i, j)|
    && x.cand.tokens == was[j] + [s.topk(seek, round, i, j)[x.top]]
    && x.score == s.score(seek, round, i, x.cand.tokens)
  }

  /** Every continuation is there, once, and nothing else. */
  ghost predicate Complete(s: Sampler, seek: int, round: nat, i: nat, active: seq<bool>, was: seq<seq<int>>,
                           all: seq<Scored>)
    requires |active| == |was|
  {
    forall x :: multiset(all)[x] == if IsCandidate(s, seek, round, i, active, was, x) then 1 else 0
  }

  lemma SameElements(r: seq<Scored>, s: seq<Scored>)
    requires multiset(r) == multiset(s)
    ensures |r| == |s| && forall x :: x in r <==> x in s
  {
    assert |multiset(r)| == |r| && |multiset(s)| == |s|;
    forall x ensures x in r <==> x in s {
      assert x in multiset(r) <==> x in multiset(s);
    }
  }

  method CollectCandidates(w: Window, s: Sampler, seek: int, round: nat, i: nat) returns (all: seq<Scored>)
    requires s.Ok() && |w.tokens| == |w.active| && exists j :: 0 <= j < |w.active| && w.active[j]
    ensures all != [] && Complete(s, seek, round, i, w.active, w.tokens, all)
  {
    all := [];
    for j := 0 to |w.active|
      invariant forall x :: multiset(all)[x] ==
                            if x.cand.src < j && IsCandidate(s, seek, round, i, w.active, w.tokens, x) then 1 else 0
      invariant (exists k :: 0 <= k < j && w.active[k]) ==> all != []
    {
      if !w.active[j] {
        continue;
      }
      var top := s.topk(seek, round, i, j);
      for k := 0 to |top|
        invariant forall x :: multiset(all)[x] ==
                              if (x.cand.src < j || (x.cand.src == j && x.top < k))
                                 && IsCandidate(s, seek, round, i, w.active, w.tokens, x) then 1 else 0
        invariant k > 0 ==> all != []
      {
        var toks := w.tokens[j] + [top[k]];
        var more := Scored(Candidate(j, toks), s.score(seek, round, i, toks), k);
        assert forall x :: multiset(all + [more])[x] == multiset(all)[x] + if x == more then 1 else 0;
        all := all + [more];
      }
    }
  }

  // -------------------------------------------------------------------- rounds

  /** Every decoder's state is what its own tokens lead to, and it is known who is done. */
  predicate InStep(p: Params, active: seq<bool>, tokens: seq<seq<int>>, decs: seq<Dec>, length: nat, seek: int,
                   seekEnd: int) {
    && |decs| == |active| == |tokens|
    && (forall j :: 0 <= j < |decs| ==> active[j] == !decs[j].Done())
    && (forall j :: 0 <= j < |decs| ==> decs[j] == Updates(p, tokens[j], seek, seekEnd))
    && (forall j :: 0 <= j < |decs| ==> Whole(p, tokens[j], seek, seekEnd))
    && (forall j :: 0 <= j < |decs| && active[j] ==> |tokens[j]| == length)
  }

  /** The same, but for the last token of those still decoding. */
  predicate Pending(p: Params, active: seq<bool>, tokens: seq<seq<int>>, decs: seq<Dec>, i: nat, seek: int,
                    seekEnd: int) {
    && |decs| == |active| == |tokens|
    && (forall j :: 0 <= j < |decs| ==> active[j] == !decs[j].Done())
    && (forall j :: 0 <= j < |decs| && !active[j] ==>
          decs[j] == Updates(p, tokens[j], seek, seekEnd) && Whole(p, tokens[j], seek, seekEnd))
    && (forall j :: 0 <= j < |decs| && active[j] ==>
          |tokens[j]| == i + 1 && decs[j] == Updates(p, tokens[j][..i], seek, seekEnd))
  }

  /** Each active decoder continues the tokens, and has the state, of the one it has chosen. */
  predicate Continues(active: seq<bool>, was: seq<seq<int>>, decs: seq<Dec>, choice: seq<nat>,
                      tokens: seq<seq<int>>, next: seq<Dec>) {
    && |active| == |was| == |decs| == |choice| == |tokens| == |next|
    && (forall j :: 0 <= j < |active| && active[j] ==>
          && choice[j] < |active| && active[choice[j]] && next[j] == decs[choice[j]]
          && tokens[j] != [] && tokens[j][..|tokens[j]| - 1] == was[choice[j]])
    && (forall j :: 0 <= j < |active| && !active[j] ==> next[j] == decs[j] && tokens[j] == was[j])
  }

  function Plain(cands: seq<Scored>): seq<Candidate> {
    seq(|cands|, c requires 0 <= c < |cands| => cands[c].cand)
  }

  /** One step of beam search: of all continuations, best first, every active decoder takes the
      one that is handed to it. */
  ghost predicate BeamStep(s: Sampler, seek: int, round: nat, i: nat, active: seq<bool>, was: seq<seq<int>>,
                           tokens: seq<seq<int>>, cands: seq<Scored>, taken: seq<nat>) {
    && |active| == |was| == |tokens| == |taken|
    && Ranked(cands) && Complete(s, seek, round, i, active, was, cands)
    && HandedOut(Plain(cands), active, i, taken)
    && forall j :: 0 <= j < |active| && active[j] ==>
         taken[j] < |cands| && tokens[j] == cands[taken[j]].cand.tokens
  }

  ghost predicate BeamGrows(s: Sampler, seek: int, round: nat, i: nat, active: seq<bool>, was: seq<seq<int>>,
                            tokens: seq<seq<int>>) {
    exists cands, taken :: BeamStep(s, seek, round, i, active, was, tokens, cands, taken)
  }

  /** What sampling token number `i` does to the tokens of all decoders. */
  ghost predicate Grows(p: Params, s: Sampler, seek: int, round: nat, i: nat, active: seq<bool>, was: seq<seq<int>>,
                        tokens: seq<seq<int>>) {
    && |active| == |was| == |tokens|
    && (forall j :: 0 <= j < |active| && !active[j] ==> tokens[j] == was[j])
    && if p.beam then BeamGrows(s, seek, round, i, active, was, tokens)
       else forall j :: 0 <= j < |active| && active[j] ==> tokens[j] == was[j] + [s.token(seek, round, i, j)]
  }

  /** Which decoders are still going, going by their tokens. */
  function Going(p: Params, tokens: seq<seq<int>>, seek: int, seekEnd: int): seq<bool> {
    seq(|tokens|, j requires 0 <= j < |tokens| => !Updates(p, tokens[j], seek, seekEnd).Done())
  }

  /** All tokens of a window, after every step: it starts with none, and goes on until no decoder
      is going any more or the window is used up. */
  ghost predicate History(p: Params, s: Sampler, seek: int, seekEnd: int, round: nat, h: seq<seq<seq<int>>>, n: nat) {
    && Steps(p, s, seek, seekEnd, round, h, n) && |h| <= p.nTextCtx / 2 - 3
    && (|h| == p.nTextCtx / 2 - 3 || true !in Going(p, h[|h| - 1], seek, seekEnd))
  }

  ghost predicate Steps(p: Params, s: Sampler, seek: int, seekEnd: int, round: nat, h: seq<seq<seq<int>>>, n: nat) {
    && h != [] && |h[0]| == n && (forall j :: 0 <= j < n ==> h[0][j] == [])
    && forall i :: 0 <= i < |h| - 1 ==> StepOf(p, s, seek, seekEnd, round, h, i)
  }

  ghost predicate StepOf(p: Params, s: Sampler, seek: int, seekEnd: int, round: nat, h: seq<seq<seq<int>>>, i: nat)
    requires i + 1 < |h|
  {
    && true in Going(p, h[i], seek, seekEnd)
    && Grows(p, s, seek, round, i, Going(p, h[i], seek, seekEnd), h[i], h[i + 1])
  }

  lemma InStepGoing(p: Params, active: seq<bool>, tokens: seq<seq<int>>, decs: seq<Dec>, i: nat, seek: int,
                    seekEnd: int)
    requires InStep(p, active, tokens, decs, i, seek, seekEnd)
    ensures active == Going(p, tokens, seek, seekEnd)
  {
    hide Updates, Whole;
  }

  lemma StepsGrow(p: Params, s: Sampler, seek: int, seekEnd: int, round: nat, h: seq<seq<seq<int>>>, n: nat,
                  active: seq<bool>, was: seq<seq<int>>, decs: seq<Dec>, tokens: seq<seq<int>>)
    requires Steps(p, s, seek, seekEnd, round, h, n) && h[|h| - 1] == was
    requires InStep(p, active, was, decs, |h| - 1, seek, seekEnd) && exists j :: 0 <= j < |active| && active[j]
    requires Grows(p, s, seek, round, |h| - 1, active, was, tokens)
    ensures Steps(p, s, seek, seekEnd, round, h + [tokens], n)
  {
    hide Grows, Going;
    InStepGoing(p, active, was, decs, |h| - 1, seek, seekEnd);
    var more := h + [tokens];
    forall i | 0 <= i < |h| ensures StepOf(p, s, seek, seekEnd, round, more, i) {
      assert more[i] == h[i];
      if i < |h| - 1 {
        assert StepOf(p, s, seek, seekEnd, round, h, i) && more[i + 1] == h[i + 1];
      }
    }
  }

  lemma WindowEnds(p: Params, s: Sampler, seek: int, seekEnd: int, round: nat, h: seq<seq<seq<int>>>, n: nat,
                   active: seq<bool>, tokens: seq<seq<int>>, decs: seq<Dec>)
    requires Steps(p, s, seek, seekEnd, round, h, n) && h[|h| - 1] == tokens && |h| <= p.WindowLength() + 1
    requires |h| == p.WindowLength() + 1 || !exists j :: 0 <= j < |active| && active[j]
    requires InStep(p, active, tokens, decs, |h| - 1, seek, seekEnd)
    ensures History(p, s, seek, seekEnd, round, h, n) && |h[0]| == n && DecsOk(decs, tokens)
    ensures forall j :: 0 <= j < |decs| ==> decs[j].Done() || |tokens[j]| == p.WindowLength()
    ensures forall j :: 0 <= j < |decs| ==> decs[j] == Updates(p, tokens[j], seek, seekEnd)
    ensures forall j :: 0 <= j < |decs| ==> Whole(p, tokens[j], seek, seekEnd)
  {
    hide Going, Updates, Whole;
    InStepGoing(p, active, tokens, decs, |h| - 1, seek, seekEnd);
    forall j | 0 <= j < |decs| ensures DecOk(decs[j], |tokens[j]|) {
      UpdatesOk(p, tokens[j], seek, seekEnd);
    }
  }

  lemma AllFresh(p: Params, active: seq<bool>, tokens: seq<seq<int>>, decs: seq<Dec>, seek: int, seekEnd: int)
    requires |active| == |tokens| == |decs|
    requires forall j :: 0 <= j < |decs| ==> active[j] && tokens[j] == [] && decs[j] == FRESH
    ensures InStep(p, active, tokens, decs, 0, seek, seekEnd)
  {
  }

  lemma ContinuedIsPending(p: Params, active: seq<bool>, was: seq<seq<int>>, decs: seq<Dec>, choice: seq<nat>,
                           tokens: seq<seq<int>>, next: seq<Dec>, i: nat, seek: int, seekEnd: int)
    requires InStep(p, active, was, decs, i, seek, seekEnd) && Continues(active, was, decs, choice, tokens, next)
    ensures |next| == |decs| && Pending(p, active, tokens, next, i, seek, seekEnd)
  {
    hide Updates, Whole;
    forall j | 0 <= j < |next| && active[j]
      ensures |tokens[j]| == i + 1 && next[j] == Updates(p, tokens[j][..i], seek, seekEnd)
    {
      assert |was[choice[j]]| == i;
    }
  }

  /** Every active decoder continues an active one. */
  predicate AllPick(active: seq<bool>, choice: seq<nat>) {
    |active| == |choice| && forall j :: 0 <= j < |active| && active[j] ==> Picks(active, choice, j)
  }

  /** Active decoders have one token more than the decoder they continue. */
  predicate Extends(active: seq<bool>, was: seq<seq<int>>, choice: seq<nat>, tokens: seq<seq<int>>) {
    && |active| == |was| == |choice| == |tokens|
    && (forall j :: 0 <= j < |active| && active[j] ==>
          Picks(active, choice, j) && tokens[j] != [] && tokens[j][..|tokens[j]| - 1] == was[choice[j]])
    && (forall j :: 0 <= j < |active| && !active[j] ==> tokens[j] == was[j])
  }

  predicate StatesTaken(decs: seq<Dec>, active: seq<bool>, choice: seq<nat>, next: seq<Dec>) {
    && |decs| == |active| == |choice| == |next|
    && forall j :: 0 <= j < |decs| ==>
         next[j] == if active[j] && Picks(active, choice, j) then decs[choice[j]] else decs[j]
  }

  /** A decoder that continues another one takes over its state. */
  method TakeStates(decs: seq<Dec>, active: seq<bool>, choice: seq<nat>) returns (next: seq<Dec>)
    requires |decs| == |active| && AllPick(active, choice)
    ensures StatesTaken(decs, active, choice, next)
  {
    next := decs;
    for j := 0 to |decs|
      invariant |next| == |decs|
      invariant forall k :: 0 <= k < |decs| ==> next[k] == if k < j && active[k] then decs[choice[k]] else decs[k]
    {
      if active[j] {
        next := next[j := decs[choice[j]]];
      }
    }
  }

  /** Samples one token per active decoder; with beam search a decoder also takes over the
      state of the decoder it continues. */
  method SampleTokens(w: Window, p: Params, s: Sampler, decs: seq<Dec>, seek: int, ghost seekEnd: int,
                      round: nat, i: nat)
    returns (next: seq<Dec>)
    requires (p.beam ==> s.Ok()) && w.Synced(i) && InStep(p, w.active, w.tokens, decs, i, seek, seekEnd)
    requires exists j :: 0 <= j < |w.active| && w.active[j]
    requires AllDrawn(p, s, seek, round, w.tokens)
    modifies w`tokens, w.kv`head, w.kv.cells
    ensures w.Sampled(i) && |next| == |decs| && Pending(p, w.active, w.tokens, next, i, seek, seekEnd)
    ensures AllDrawn(p, s, seek, round, w.tokens)
    ensures Grows(p, s, seek, round, i, w.active, old(w.tokens), w.tokens)
  {
    hide Updates, Window.Synced, Window.Sampled, Continues, Pending, Whole, AllDrawn, AllOffered, BeamGrows;
    ghost var was, choice := w.tokens, [];
    if p.beam {
      next, choice := SampleBeams(w, s, decs, seek, round, i);
    } else {
      next, choice := decs, seq(|decs|, j => j);
      SampleEach(w, s, decs, seek, round, i);
    }
    ContinuedIsPending(p, w.active, was, decs, choice, w.tokens, next, i, seek, seekEnd);
    StillDrawn(p, s, w.active, was, decs, choice, w.tokens, next, i, seek, seekEnd, round);
    OthersStay(w.active, was, decs, choice, w.tokens, next);
  }

  lemma OthersStay(active: seq<bool>, was: seq<seq<int>>, decs: seq<Dec>, choice: seq<nat>, tokens: seq<seq<int>>,
                   next: seq<Dec>)
    requires Continues(active, was, decs, choice, tokens, next)
    ensures |active| == |was| == |tokens| && forall j :: 0 <= j < |active| && !active[j] ==> tokens[j] == was[j]
  {
  }

  lemma StillDrawn(p: Params, s: Sampler, active: seq<bool>, was: seq<seq<int>>, decs: seq<Dec>, choice: seq<nat>,
                   tokens: seq<seq<int>>, next: seq<Dec>, i: nat, seek: int, seekEnd: int, round: nat)
    requires InStep(p, active, was, decs, i, seek, seekEnd) && Continues(active, was, decs, choice, tokens, next)
    requires AllDrawn(p, s, seek, round, was)
    requires p.beam ==> AllOffered(s, seek, round, i, active, choice, tokens)
    requires !p.beam ==> forall j :: 0 <= j < |active| && active[j] ==>
      choice[j] == j && tokens[j] != [] && tokens[j][|tokens[j]| - 1] == s.token(seek, round, i, j)
    ensures AllDrawn(p, s, seek, round, tokens)
  {
    hide Updates, Whole, Offered;
    forall j | 0 <= j < |tokens| ensures Drawn(p, s, seek, round, |tokens|, j, tokens[j]) {
      assert Drawn(p, s, seek, round, |was|, j, was[j]);
      if active[j] {
        assert Drawn(p, s, seek, round, |was|, choice[j], was[choice[j]]);
        DrawnGrows(p, s, seek, round, |was|, j, choice[j], was[choice[j]], tokens[j]);
      }
    }
  }

  lemma DrawnGrows(p: Params, s: Sampler, seek: int, round: nat, n: nat, j: nat, src: nat, was: seq<int>,
                   toks: seq<int>)
    requires Drawn(p, s, seek, round, n, src, was) && toks != [] && toks[..|toks| - 1] == was && src < n
    requires if p.beam then LastOffered(s, seek, round, |was|, src, toks)
             else src == j && toks[|toks| - 1] == s.token(seek, round, |was|, j)
    ensures Drawn(p, s, seek, round, n, j, toks)
  {
    forall i | 0 <= i < |toks| ensures Offered(p, s, seek, round, n, i, j, toks[i]) {
      if i < |was| {
        assert toks[i] == was[i] && Offered(p, s, seek, round, n, i, src, was[i]);
      }
    }
  }

  method SampleEach(w: Window, s: Sampler, decs: seq<Dec>, seek: int, round: nat, i: nat)
    requires w.Synced(i) && |decs| == |w.active| == |w.tokens|
    modifies w`tokens
    ensures w.Sampled(i) && Continues(w.active, old(w.tokens), decs, seq(|decs|, j => j), w.tokens, decs)
    ensures forall j :: 0 <= j < |w.active| && w.active[j] ==>
      w.tokens[j] == old(w.tokens)[j] + [s.token(seek, round, i, j)]
  {
    hide Window.Synced, Window.Sampled;
    var sampled := seq(|decs|, j requires j >= 0 => s.token(seek, round, i, j));
    w.SampleGreedy(i, sampled);
  }

  method SampleBeams(w: Window, s: Sampler, decs: seq<Dec>, seek: int, round: nat, i: nat)
    returns (next: seq<Dec>, ghost choice: seq<nat>)
    requires s.Ok() && w.Synced(i) && |decs| == |w.active| == |w.tokens|
    requires exists j :: 0 <= j < |w.active| && w.active[j]
    modifies w`tokens, w.kv`head, w.kv.cells
    ensures w.Sampled(i) && Continues(w.active, old(w.tokens), decs, choice, w.tokens, next)
    ensures AllOffered(s, seek, round, i, w.active, choice, w.tokens)
    ensures BeamGrows(s, seek, round, i, w.active, old(w.tokens), w.tokens)
  {
    hide *;
    var sources := ChooseBeams(w, s, seek, round, i);
    choice := sources;
    next := TakeStates(decs, w.active, sources);
    BeamsContinue(w.active, old(w.tokens), decs, sources, w.tokens, next);
  }

  lemma BeamsContinue(active: seq<bool>, was: seq<seq<int>>, decs: seq<Dec>, choice: seq<nat>,
                      tokens: seq<seq<int>>, next: seq<Dec>)
    requires AllPick(active, choice) && Extends(active, was, choice, tokens)
    requires StatesTaken(decs, active, choice, next)
    ensures Continues(active, was, decs, choice, tokens, next)
  {
  }

  method ChooseBeams(w: Window, s: Sampler, seek: int, round: nat, i: nat) returns (choice: seq<nat>)
    requires s.Ok() && w.Synced(i) && |w.tokens| == |w.active| && exists j :: 0 <= j < |w.active| && w.active[j]
    modifies w`tokens, w.kv`head, w.kv.cells
    ensures w.Sampled(i) && AllPick(w.active, choice) && Extends(w.active, old(w.tokens), choice, w.tokens)
    ensures AllOffered(s, seek, round, i, w.active, choice, w.tokens)
    ensures BeamGrows(s, seek, round, i, w.active, old(w.tokens), w.tokens)
  {
    hide Window.Synced, Window.Sampled, Window.CandidateOk, Walk, CountActive, LastOffered, HandedOut, Complete, Ranked,
      BeamGrows, AllOffered, Picks;
    var cands, sorted := RankedCandidates(w, s, seek, round, i);
    ghost var taken;
    choice, taken := w.SampleBeam(i, cands);
    BeamStepIs(s, seek, round, i, w.active, old(w.tokens), w.tokens, cands, sorted, taken);
    TakenAreOffered(s, seek, round, i, w.active, w.tokens, cands, taken, choice);
  }

  lemma HandedOutTaken(cands: seq<Candidate>, active: seq<bool>, i: nat, taken: seq<nat>)
    requires HandedOut(cands, active, i, taken)
    ensures |taken| == |active| && forall j :: 0 <= j < |taken| ==> taken[j] < |cands|
  {
  }

  lemma BeamStepIs(s: Sampler, seek: int, round: nat, i: nat, active: seq<bool>, was: seq<seq<int>>,
                   tokens: seq<seq<int>>, cands: seq<Candidate>, sorted: seq<Scored>, taken: seq<nat>)
    requires |active| == |was| == |tokens| && Ranked(sorted) && Complete(s, seek, round, i, active, was, sorted)
    requires |cands| == |sorted| && forall c :: 0 <= c < |cands| ==> cands[c] == sorted[c].cand
    requires HandedOut(cands, active, i, taken)
    requires forall j :: 0 <= j < |active| && active[j] ==> tokens[j] == cands[taken[j]].tokens
    ensures BeamGrows(s, seek, round, i, active, was, tokens)
  {
    hide Ranked, Complete, HandedOut;
    assert cands == Plain(sorted);
    HandedOutTaken(cands, active, i, taken);
    assert BeamStep(s, seek, round, i, active, was, tokens, sorted, taken);
  }

  lemma TakenAreOffered(s: Sampler, seek: int, round: nat, i: nat, active: seq<bool>, tokens: seq<seq<int>>,
                        cands: seq<Candidate>, taken: seq<nat>, choice: seq<nat>)
    requires |active| == |tokens| == |choice| && HandedOut(cands, active, i, taken)
    requires forall c :: 0 <= c < |cands| ==> LastOffered(s, seek, round, i, cands[c].src, cands[c].tokens)
    requires forall j :: 0 <= j < |active| && active[j] ==>
      tokens[j] == cands[taken[j]].tokens && choice[j] == cands[taken[j]].src
    ensures AllOffered(s, seek, round, i, active, choice, tokens)
  {
    hide LastOffered;
  }

  method RankedCandidates(w: Window, s: Sampler, seek: int, round: nat, i: nat)
    returns (cands: seq<Candidate>, sorted: seq<Scored>)
    requires s.Ok() && |w.tokens| == |w.active| && exists j :: 0 <= j < |w.active| && w.active[j]
    ensures cands != [] && forall c :: 0 <= c < |cands| ==> w.CandidateOk(cands[c])
    ensures forall c :: 0 <= c < |cands| ==> LastOffered(s, seek, round, i, cands[c].src, cands[c].tokens)
    ensures Ranked(sorted) && Complete(s, seek, round, i, w.active, w.tokens, sorted)
    ensures |cands| == |sorted| && forall c :: 0 <= c < |cands| ==> cands[c] == sorted[c].cand
  {
    hide LastOffered, IsCandidate;
    var all := CollectCandidates(w, s, seek, round, i);
    sorted := SortCandidates(all);
    SameElements(sorted, all);
    forall c | 0 <= c < |sorted|
      ensures w.CandidateOk(sorted[c].cand)
      ensures LastOffered(s, seek, round, i, sorted[c].cand.src, sorted[c].cand.tokens)
    {
      assert sorted[c] in multiset(sorted);
      CandidateIs(w, s, seek, round, i, sorted[c]);
    }
    cands := seq(|sorted|, c requires 0 <= c < |sorted| => sorted[c].cand);
  }

  lemma CandidateIs(w: Window, s: Sampler, seek: int, round: nat, i: nat, x: Scored)
    requires |w.tokens| == |w.active| && IsCandidate(s, seek, round, i, w.active, w.tokens, x)
    ensures w.CandidateOk(x.cand) && LastOffered(s, seek, round, i, x.cand.src, x.cand.tokens)
  {
    assert x.cand.tokens[..|x.cand.tokens| - 1] == w.tokens[x.cand.src];
  }

  /** One token of a window: sample, update the decoders, and retire those that are done. */
  method StepTokens(w: Window, p: Params, s: Sampler, decs: seq<Dec>, seek: int, seekEnd: int, round: nat, i: nat)
    returns (next: seq<Dec>)
    requires (p.beam ==> s.Ok()) && w.Synced(i) && InStep(p, w.active, w.tokens, decs, i, seek, seekEnd)
    requires exists j :: 0 <= j < |w.active| && w.active[j]
    requires AllDrawn(p, s, seek, round, w.tokens)
    modifies w`tokens, w`active, w.kv`head, w.kv.cells
    ensures w.Sampled(i) && InStep(p, w.active, w.tokens, next, i + 1, seek, seekEnd)
    ensures |next| == |decs| == |w.active|
    ensures AllDrawn(p, s, seek, round, w.tokens)
    ensures Grows(p, s, seek, round, i, old(w.active), old(w.tokens), w.tokens)
  {
    hide Window.Synced, Window.Sampled, Updates, Whole, AllDrawn, Grows;
    var sampled := SampleTokens(w, p, s, decs, seek, seekEnd, round, i);
    next := UpdateAll(w, p, sampled, i, seek, seekEnd);
    var done := seq(|next|, j requires 0 <= j < |next| => next[j].Done());
    ghost var was := w.active;
    w.Finish(i, done);
    assert forall j :: 0 <= j < |next| ==> w.active[j] == (was[j] && !next[j].Done());
  }

  /** One decode window at one temperature: every decoder ends in the state its own tokens lead
      to, which come from the sampler, and is done or has used up the window. A single decoder
      always finds its cells. */
  method RunRound(p: Params, s: Sampler, prompt: seq<int>, n: nat, cacheSize: nat, seek: int, seekEnd: int, round: nat)
    returns (ok: bool, decs: seq<Dec>, tokens: seq<seq<int>>, ghost h: seq<seq<seq<int>>>)
    requires p.Ok() && (p.beam ==> s.Ok()) && 1 <= n <= Beam.MAX_DECODERS
    requires 1 <= |prompt| <= p.nTextCtx / 2 + 4
    ensures n == 1 && p.nTextCtx <= cacheSize ==> ok
    ensures ok ==> |decs| == n && DecsOk(decs, tokens)
    ensures ok ==> forall j :: 0 <= j < n ==> decs[j].Done() || |tokens[j]| == p.WindowLength()
    ensures ok ==> AllDrawn(p, s, seek, round, tokens)
    ensures ok ==> History(p, s, seek, seekEnd, round, h, n) && h != [] && |h[0]| == n && h[|h| - 1] == tokens
    ensures ok ==> forall j :: 0 <= j < n ==> decs[j] == Updates(p, tokens[j], seek, seekEnd)
    ensures ok ==> forall j :: 0 <= j < n ==> Whole(p, tokens[j], seek, seekEnd)
  {
    hide Window.Synced, Window.Sampled, Updates, Update, AllDrawn, HasRun, CountActive, Grows, Whole, Steps, History,
      InStep, DecsOk;
    decs := seq(n, _ => FRESH);
    tokens, h := [], [];
    var kv := new KvCache.Cache(cacheSize);
    var w := new Window(kv, p.nTextCtx);
    LastPosition(p, |prompt|, 0);
    ok := w.Begin(prompt, n, p.pad);
    if !ok {
      return;
    }
    assert w.active[0];
    AllFresh(p, w.active, w.tokens, decs, seek, seekEnd);
    NothingDrawn(p, s, seek, round, w.tokens);
    h := [w.tokens];
    assert Steps(p, s, seek, seekEnd, round, h, n) by { NoSteps(p, s, seek, seekEnd, round, w.tokens); }
    var i := 0;
    while i < p.WindowLength()
      invariant 0 <= i <= p.WindowLength() && ok
      invariant w.Synced(i) && w.prompt == prompt && |decs| == |w.active| == n
      invariant InStep(p, w.active, w.tokens, decs, i, seek, seekEnd)
      invariant w.kv.cells.Length == cacheSize && w.nTextCtx == p.nTextCtx
      invariant AllDrawn(p, s, seek, round, w.tokens)
      invariant Steps(p, s, seek, seekEnd, round, h, n) && |h| == i + 1 && h[i] == w.tokens
      invariant exists j :: 0 <= j < |w.active| && w.active[j]
    {
      ghost var active, before, was := w.active, w.tokens, decs;
      decs := StepTokens(w, p, s, decs, seek, seekEnd, round, i);
      StepsGrow(p, s, seek, seekEnd, round, h, n, active, before, was, w.tokens);
      h := h + [w.tokens];
      var left := AnyActive(w.active);
      if !left {
        break;
      }
      LastPosition(p, |prompt|, i);
      var slot, rows;
      ok, slot, rows := w.NextBatch(i, p.pad);
      if !ok {
        return;
      }
      i := i + 1;
    }
    tokens := w.tokens;
    WindowEnds(p, s, seek, seekEnd, round, h, n, w.active, tokens, decs);
  }

  lemma NoSteps(p: Params, s: Sampler, seek: int, seekEnd: int, round: nat, tokens: seq<seq<int>>)
    requires forall j :: 0 <= j < |tokens| ==> tokens[j] == []
    ensures Steps(p, s, seek, seekEnd, round, [tokens], |tokens|)
  {
  }

  lemma NothingDrawn(p: Params, s: Sampler, seek: int, round: nat, tokens: seq<seq<int>>)
    requires forall j :: 0 <= j < |tokens| ==> tokens[j] == []
    ensures AllDrawn(p, s, seek, round, tokens)
  {
  }

  method AnyActive(active: seq<bool>) returns (any: bool)
    ensures any <==> exists j :: 0 <= j < |active| && active[j]
  {
    for j := 0 to |active|
      invariant forall k :: 0 <= k < j ==> !active[k]
    {
      if active[j] {
        return true;
      }
    }
    return false;
  }

  method UpdateAll(w: Window, p: Params, decs: seq<Dec>, i: nat, seek: int, seekEnd: int) returns (next: seq<Dec>)
    requires Pending(p, w.active, w.tokens, decs, i, seek, seekEnd)
    ensures |next| == |decs|
    ensures forall j :: 0 <= j < |decs| ==> next[j] == Updates(p, w.tokens[j], seek, seekEnd)
    ensures forall j :: 0 <= j < |decs| ==> Whole(p, w.tokens[j], seek, seekEnd)
    ensures forall j :: 0 <= j < |decs| && !w.active[j] ==> next[j] == decs[j]
  {
    hide Updates, Update;
    next := decs;
    for j := 0 to |decs|
      invariant |next| == |decs|
      invariant forall k :: 0 <= k < j ==> Whole(p, w.tokens[k], seek, seekEnd)
      invariant forall k :: 0 <= k < j ==> next[k] == Updates(p, w.tokens[k], seek, seekEnd)
      invariant forall k :: 0 <= k < |decs| && (k >= j || !w.active[k]) ==> next[k] == decs[k]
    {
      if !w.active[j] {
        continue;
      }
      UpdatesPush(p, w.tokens[j][..i], w.tokens[j][i], seek, seekEnd);
      assert w.tokens[j] == w.tokens[j][..i] + [w.tokens[j][i]];
      next := next[j := Update(p, decs[j], w.tokens[j][|w.tokens[j]| - 1], i, seek, seekEnd)];
    }
  }

  // ----------------------------------------------------------------- main loop

  /** The sequence is in the running for the best one: it has not failed, and has a score. */
  predicate Qualifies(s: Sampler, next: seq<Dec>, seek: int, round: nat, j: nat)
    requires j < |next|
  {
    !next[j].failed && s.rank(seek, round, j).Some?
  }

  /** The first of the highest-ranked sequences. */
  ghost predicate IsBest(s: Sampler, next: seq<Dec>, seek: int, round: nat, j: nat)
    requires j < |next|
  {
    && Qualifies(s, next, seek, round, j)
    && forall k :: 0 <= k < |next| && Qualifies(s, next, seek, round, k) ==>
         && s.rank(seek, round, k).value <= s.rank(seek, round, j).value
         && (k < j ==> s.rank(seek, round, k).value < s.rank(seek, round, j).value)
  }

  /** What ranking makes of one decoder: a result that repeats itself has failed after all. */
  predicate Judged(s: Sampler, seek: int, round: nat, j: nat, was: Dec, next: Dec) {
    next == was.(failed := was.failed || (was.resultLen > 32 && s.chaotic(seek, round, j)))
  }

  /** Cuts the finished sequences to their results, marks repetitive ones as failed, and picks
      the best-ranked of the others; `best` stays when there is none. */
  method Rank(s: Sampler, decs: seq<Dec>, tokens: seq<seq<int>>, seek: int, round: nat, best: nat)
    returns (next: seq<Dec>, cut: seq<seq<int>>, chosen: nat)
    requires |decs| == |tokens| && forall j :: 0 <= j < |decs| ==> DecOk(decs[j], |tokens[j]|)
    ensures |next| == |cut| == |decs|
    ensures forall j :: 0 <= j < |decs| ==>
      Judged(s, seek, round, j, decs[j], next[j]) && cut[j] == Result(decs[j], tokens[j])
    ensures if exists j :: 0 <= j < |decs| && Qualifies(s, next, seek, round, j)
            then chosen < |decs| && IsBest(s, next, seek, round, chosen)
            else chosen == best
  {
    next, cut, chosen := decs, tokens, best;
    var bestScore: Option<real> := None;
    for j := 0 to |decs|
      invariant |next| == |cut| == |decs|
      invariant forall k :: j <= k < |decs| ==> next[k] == decs[k] && cut[k] == tokens[k]
      invariant forall k :: 0 <= k < j ==>
        Judged(s, seek, round, k, decs[k], next[k]) && cut[k] == Result(decs[k], tokens[k])
      invariant bestScore.None? ==> chosen == best && forall k :: 0 <= k < j ==>
        next[k].failed || s.rank(seek, round, k).None?
      invariant bestScore.Some? ==> chosen < j && !next[chosen].failed && s.rank(seek, round, chosen) == bestScore
      invariant bestScore.Some? ==> forall k :: 0 <= k < j && !next[k].failed && s.rank(seek, round, k).Some? ==>
        s.rank(seek, round, k).value <= bestScore.value
          && (k < chosen ==> s.rank(seek, round, k).value < bestScore.value)
    {
      if next[j].failed {
        continue;
      }
      cut := cut[j := cut[j][..next[j].resultLen]];
      if next[j].resultLen > 32 && s.chaotic(seek, round, j) {
        next := next[j := next[j].(failed := true)];
        continue;
      }
      var score := s.rank(seek, round, j);
      if score.Some? && (bestScore.None? || bestScore.value < score.value) {
        bestScore, chosen := score, j;
      }
    }
    if bestScore.None? {
      assert forall j :: 0 <= j < |decs| ==> !Qualifies(s, next, seek, round, j);
    } else {
      assert Qualifies(s, next, seek, round, chosen);
    }
  }

  /** The results of a round overwrite the first decoders; others keep older results. */
  function Overwrite<T>(old_: seq<T>, new_: seq<T>): seq<T> {
    if |new_| >= |old_| then new_ else new_ + old_[|new_|..]
  }

  /** The decoder state and tokens come from the whole sequence `full` that decoder `j` took from
      the sampler at temperature number `round`, until it was done or the window used up: nothing
      but the result is kept of it unless it failed, and it may have been marked as failed for
      repeating itself. */
  ghost predicate ResultOf(p: Params, s: Sampler, d: Dec, toks: seq<int>, full: seq<int>, round: nat, j: nat,
                           seek: int, seekEnd: int) {
    var u := Updates(p, full, seek, seekEnd);
    && Whole(p, full, seek, seekEnd) && (u.Done() || |full| == p.WindowLength())
    && round < |p.Temperatures()| && j < p.Decoders(p.Temperatures()[round])
    && Drawn(p, s, seek, round, p.Decoders(p.Temperatures()[round]), j, full)
    && d == u.(failed := d.failed) && (u.failed ==> d.failed)
    && toks == Result(u, full)
  }

  ghost predicate Decoded(p: Params, s: Sampler, d: Dec, toks: seq<int>, seek: int, seekEnd: int) {
    exists full, round: nat, j: nat :: ResultOf(p, s, d, toks, full, round, j, seek, seekEnd)
  }

  ghost predicate AllDecoded(p: Params, s: Sampler, decs: seq<Dec>, tokens: seq<seq<int>>, seek: int, seekEnd: int) {
    |decs| == |tokens| && forall j :: 0 <= j < |decs| ==> Decoded(p, s, decs[j], tokens[j], seek, seekEnd)
  }

  lemma DecodedOk(p: Params, s: Sampler, d: Dec, toks: seq<int>, seek: int, seekEnd: int)
    requires Decoded(p, s, d, toks, seek, seekEnd)
    ensures DecOk(d, |toks|)
    ensures d.seekDelta == CHUNK || Stands(p, d.seekDelta, toks)
  {
    hide Updates, Whole, Stands, Drawn, Params.Temperatures;
    var full, round: nat, j: nat :| ResultOf(p, s, d, toks, full, round, j, seek, seekEnd);
    UpdatesOk(p, full, seek, seekEnd);
    ResultStands(p, full, seek, seekEnd);
  }

  /** The prompt is the one for temperature number `round`. */
  ghost predicate Prompted(p: Params, past0: seq<int>, past1: seq<int>, prompt: seq<int>, round: nat) {
    && round < |p.Temperatures()| && BuildPrompt(p, past0, past1, p.Temperatures()[round]) == Some(prompt)
    && Shaped(p, past0, past1, p.Temperatures()[round], prompt)
  }

  lemma PromptIs(p: Params, past0: seq<int>, past1: seq<int>, prompt: seq<int>, round: nat)
    requires round < |p.Temperatures()| && BuildPrompt(p, past0, past1, p.Temperatures()[round]) == Some(prompt)
    ensures Prompted(p, past0, past1, prompt, round)
  {
    hide Params.Temperatures, BuildPrompt;
    PromptIsShaped(p, past0, past1, p.Temperatures()[round]);
  }

  // ------------------------------------------------------------ temperature after temperature

  /** What is decoded at one temperature: the prompt, all tokens step by step, and how the decoders,
      their tokens and the choice among them are left. */
  datatype Attempt = Attempt(prompt: seq<int>, history: seq<seq<seq<int>>>, decs: seq<Dec>, tokens: seq<seq<int>>,
                             chosen: nat)

  /** One decoder at temperature 0, or as many as the beam is wide; above it, the best of several. */
  predicate DecoderCount(p: Params, t: real, n: nat) {
    var wanted := if t > 0.0 then p.bestOf else if p.beam then p.beamSize else 1;
    n == if wanted > 1 then wanted else 1
  }

  /** How one decoder is left: cut to its result unless it failed, and failed after all when its
      result is longer than 32 tokens and repeats itself. */
  predicate LeftAs(p: Params, s: Sampler, seek: int, seekEnd: int, round: nat, j: nat, full: seq<int>, d: Dec,
                   toks: seq<int>) {
    var u := Updates(p, full, seek, seekEnd);
    && d == u.(failed := u.failed || (u.resultLen > 32 && s.chaotic(seek, round, j)))
    && if u.failed then toks == full else 0 <= u.resultLen <= |full| && toks == full[..u.resultLen]
  }

  /** Temperature number `round` is tried after an attempt that left `decs`, `tokens` and `best`:
      decoders that are not used this time stay as they are. */
  ghost predicate Tried(p: Params, s: Sampler, seek: int, seekEnd: int, round: nat, decs: seq<Dec>,
                        tokens: seq<seq<int>>, best: nat, a: Attempt) {
    && a.history != [] && var (n, last) := (|a.history[0]|, a.history[|a.history| - 1]);
    && round < |p.Temperatures()| && DecoderCount(p, p.Temperatures()[round], n)
    && History(p, s, seek, seekEnd, round, a.history, n) && |last| == n
    && |decs| == |tokens| && |a.decs| == |a.tokens| == (if n > |decs| then n else |decs|)
    && (forall j :: 0 <= j < n ==> LeftAs(p, s, seek, seekEnd, round, j, last[j], a.decs[j], a.tokens[j]))
    && a.decs[n..] == (if n > |decs| then [] else decs[n..])
      && a.tokens[n..] == (if n > |decs| then [] else tokens[n..])
    && if exists j :: 0 <= j < n && Qualifies(s, a.decs[..n], seek, round, j)
       then a.chosen < n && IsBest(s, a.decs[..n], seek, round, a.chosen) else a.chosen == best
  }

  /** The next temperature is tried only because the choice has failed or is not good enough. */
  ghost predicate Rejected(s: Sampler, seek: int, round: nat, a: Attempt) {
    a.chosen < |a.decs| && (a.decs[a.chosen].failed || s.retry(seek, round))
  }

  ghost predicate TriedInTurn(p: Params, s: Sampler, past0: seq<int>, past1: seq<int>, seek: int, seekEnd: int,
                              tries: seq<Attempt>, k: nat)
    requires k < |tries|
  {
    && (if k == 0 then Tried(p, s, seek, seekEnd, k, [], [], 0, tries[k])
        else Tried(p, s, seek, seekEnd, k, tries[k - 1].decs, tries[k - 1].tokens, tries[k - 1].chosen, tries[k]))
    && Prompted(p, past0, past1, tries[k].prompt, k)
    && (k + 1 < |tries| ==> Rejected(s, seek, k, tries[k]))
  }

  /** The temperatures are tried in turn, each because the one before it gave nothing acceptable. */
  ghost predicate AllTried(p: Params, s: Sampler, past0: seq<int>, past1: seq<int>, seek: int, seekEnd: int,
                           tries: seq<Attempt>) {
    forall k :: 0 <= k < |tries| ==> TriedInTurn(p, s, past0, past1, seek, seekEnd, tries, k)
  }

  lemma OneMoreTry(p: Params, s: Sampler, past0: seq<int>, past1: seq<int>, seek: int, seekEnd: int,
                   tries: seq<Attempt>, a: Attempt)
    requires AllTried(p, s, past0, past1, seek, seekEnd, tries)
    requires tries != [] ==> Rejected(s, seek, |tries| - 1, tries[|tries| - 1])
    requires Prompted(p, past0, past1, a.prompt, |tries|)
    requires if tries == [] then Tried(p, s, seek, seekEnd, 0, [], [], 0, a)
             else var b := tries[|tries| - 1]; Tried(p, s, seek, seekEnd, |tries|, b.decs, b.tokens, b.chosen, a)
    ensures AllTried(p, s, past0, past1, seek, seekEnd, tries + [a])
  {
    hide Tried, Prompted, Rejected;
    var more := tries + [a];
    forall k | 0 <= k < |more| ensures TriedInTurn(p, s, past0, past1, seek, seekEnd, more, k) {
      if k < |tries| {
        assert TriedInTurn(p, s, past0, past1, seek, seekEnd, tries, k) && more[k] == tries[k];
        assert k > 0 ==> more[k - 1] == tries[k - 1];
      }
    }
  }

  /** No further temperature is tried: the choice has not failed and is good enough, or there
      is no other. */
  ghost predicate Accepted(p: Params, s: Sampler, best: Dec, seek: int, round: nat) {
    round + 1 == |p.Temperatures()| || (!best.failed && !s.retry(seek, round))
  }

  /** The choice is what the last attempt left. */
  predicate Takes(tries: seq<Attempt>, best: Dec, tokens: seq<int>, prompt: seq<int>, round: nat) {
    && |tries| == round + 1
    && var a := tries[round];
       a.chosen < |a.decs| == |a.tokens| && best == a.decs[a.chosen] && tokens == a.tokens[a.chosen]
         && prompt == a.prompt
  }

  /** Some temperature is decoded with more than one decoder. */
  ghost predicate SeveralDecoders(p: Params) {
    exists i :: 0 <= i < |p.Temperatures()| && p.Decoders(p.Temperatures()[i]) > 1
  }

  datatype Decoding =
    | Overrun
    | NotDecoded
    | Chosen(best: Dec, tokens: seq<int>, prompt: seq<int>, round: nat)

  /** What outlives a run: carried tokens, rolling context, and the number of decoders the
      self-attention cache was last made for. */
  class State {
    var past0: seq<int>
    var past1: seq<int>
    var nDec: nat

    constructor ()
      ensures past0 == [] && past1 == [] && nDec == 1
    {
      past0, past1, nDec := [], [], 1;
    }
  }

  /** Tries the temperatures in turn until one gives an acceptable result. */
  method DecodeSegment(p: Params, s: Sampler, st: State, temperatures: seq<real>, seek: int, seekEnd: int)
    returns (r: Decoding, ghost tries: seq<Attempt>)
    requires p.Ok() && p.DecodersFit() && (p.beam ==> s.Ok()) && temperatures == p.Temperatures() && temperatures != []
    modifies st`nDec
    ensures old(st.nDec) <= st.nDec && (st.nDec == old(st.nDec) || st.nDec <= Beam.MAX_DECODERS)
    ensures r.Overrun? ==> !CarryFits(p, st.past0)
    ensures !CarryFits(p, st.past0) && p.temperature < TEMP_CUTOFF ==> r.Overrun?
    ensures r.NotDecoded? ==> SeveralDecoders(p)
    ensures r.Chosen? ==>
      && Decoded(p, s, r.best, r.tokens, seek, seekEnd) && Accepted(p, s, r.best, seek, r.round)
      && Prompted(p, st.past0, st.past1, r.prompt, r.round)
      && AllTried(p, s, st.past0, st.past1, seek, seekEnd, tries) && Takes(tries, r.best, r.tokens, r.prompt, r.round)
  {
    hide Decoded, BuildPrompt, Prompted, CarryFits, CacheSize, Params.Temperatures, Tried, AllTried, AllDecoded,
      Params.Decoders, SeveralDecoders, Rejected, Takes, Accepted, Params.Ok, Sampler.Ok;
    var decs, tokens := [], [];
    var chosen: nat := 0;
    tries := [];
    NothingTried(p, s, st.past0, st.past1, seek, seekEnd);
    FirstTemperature(p);
    for it := 0 to |temperatures|
      invariant AllDecoded(p, s, decs, tokens, seek, seekEnd) && (it == 0 ==> decs == [] && tokens == [] && chosen == 0)
      invariant it > 0 ==> chosen < |decs| && it < |temperatures|
      invariant AllTried(p, s, st.past0, st.past1, seek, seekEnd, tries) && |tries| == it
      invariant it > 0 ==> Rejected(s, seek, it - 1, tries[it - 1])
      invariant it > 0 ==>
        tries[it - 1].decs == decs && tries[it - 1].tokens == tokens && tries[it - 1].chosen == chosen
      invariant it > 0 ==> CarryFits(p, st.past0) || p.temperature >= TEMP_CUTOFF
      invariant old(st.nDec) <= st.nDec && (st.nDec == old(st.nDec) || st.nDec <= Beam.MAX_DECODERS)
    {
      var n := p.Decoders(temperatures[it]);
      PromptFits(p, st.past0, st.past1, temperatures[it]);
      var prompt := BuildPrompt(p, st.past0, st.past1, temperatures[it]);
      if prompt.None? {
        return Overrun, tries;
      }
      if st.nDec < n {
        st.nDec := n;
      }
      DecodersFor(p, it);
      PromptIs(p, st.past0, st.past1, prompt.value, it);
      var ok;
      ghost var h;
      ok, decs, tokens, chosen, h :=
        TryTemperature(p, s, prompt.value, n, st.nDec, seek, seekEnd, it, decs, tokens, chosen);
      if !ok {
        return NotDecoded, tries;
      }
      ghost var a := Attempt(prompt.value, h, decs, tokens, chosen);
      OneMoreTry(p, s, st.past0, st.past1, seek, seekEnd, tries, a);
      tries := tries + [a];
      TryEnds(p, s, seek, tries, it);
      ChosenDecoded(p, s, decs, tokens, seek, seekEnd, chosen);
      if it == |temperatures| - 1 || !(decs[chosen].failed || s.retry(seek, it)) {
        return Chosen(decs[chosen], tokens[chosen], prompt.value, it), tries;
      }
    }
    assert false;
  }

  lemma DecodersFor(p: Params, i: nat)
    requires p.DecodersFit() && i < |p.Temperatures()|
    ensures 1 <= p.Decoders(p.Temperatures()[i]) <= Beam.MAX_DECODERS
    ensures p.Decoders(p.Temperatures()[i]) > 1 ==> SeveralDecoders(p)
  {
    hide Params.Temperatures;
  }

  lemma ChosenDecoded(p: Params, s: Sampler, decs: seq<Dec>, tokens: seq<seq<int>>, seek: int, seekEnd: int, j: nat)
    requires AllDecoded(p, s, decs, tokens, seek, seekEnd) && j < |decs| == |tokens|
    ensures Decoded(p, s, decs[j], tokens[j], seek, seekEnd)
  {
    hide Decoded;
  }

  /** After an attempt, either its choice is accepted or the next temperature is tried. */
  lemma TryEnds(p: Params, s: Sampler, seek: int, tries: seq<Attempt>, it: nat)
    requires |tries| == it + 1 && it < |p.Temperatures()|
    requires var a := tries[it]; a.chosen < |a.decs| == |a.tokens|
    ensures var a := tries[it];
            var bad := a.decs[a.chosen].failed || s.retry(seek, it);
            && (bad ==> Rejected(s, seek, it, a))
            && (it == |p.Temperatures()| - 1 || !bad ==>
                  Accepted(p, s, a.decs[a.chosen], seek, it)
                  && Takes(tries, a.decs[a.chosen], a.tokens[a.chosen], a.prompt, it))
  {
    hide Params.Temperatures;
  }

  lemma NothingTried(p: Params, s: Sampler, past0: seq<int>, past1: seq<int>, seek: int, seekEnd: int)
    ensures AllTried(p, s, past0, past1, seek, seekEnd, []) && AllDecoded(p, s, [], [], seek, seekEnd)
  {
  }

  lemma FirstTemperature(p: Params)
    ensures p.Temperatures() != [] ==> p.Temperatures()[0] == p.temperature
  {
  }

  /** Room for the text context, rounded up to 256 cells, once for a single decoder, and otherwise
      as many times as there are decoders and two more. */
  lemma CacheHolds(p: Params, decoders: nat)
    ensures p.nTextCtx <= CacheSize(p, decoders)
    ensures exists rows :: rows % 256 == 0 && p.nTextCtx <= rows < p.nTextCtx + 256
              && CacheSize(p, decoders) == rows * if decoders > 1 then decoders + 2 else 1
  {
    PadToCovers(p.nTextCtx, 256);
    var factor := if decoders > 1 then decoders + 2 else 1;
    assert PadTo(p.nTextCtx, 256) * factor >= PadTo(p.nTextCtx, 256) * 1;
  }

  /** One decode window with a cache made for that many decoders, and the choice among its
      sequences. */
  method TryTemperature(p: Params, s: Sampler, prompt: seq<int>, n: nat, made: nat, seek: int, seekEnd: int, round: nat,
                        decs: seq<Dec>, tokens: seq<seq<int>>, best: nat)
    returns (ok: bool, nextDecs: seq<Dec>, nextTokens: seq<seq<int>>, chosen: nat, ghost h: seq<seq<seq<int>>>)
    requires p.Ok() && (p.beam ==> s.Ok()) && 1 <= |prompt| <= p.nTextCtx / 2 + 4 && n <= made
    requires round < |p.Temperatures()| && n == p.Decoders(p.Temperatures()[round]) && 1 <= n <= Beam.MAX_DECODERS
    requires AllDecoded(p, s, decs, tokens, seek, seekEnd) && (best < |decs| || (decs == [] && best == 0))
    ensures n == 1 ==> ok
    ensures ok ==> AllDecoded(p, s, nextDecs, nextTokens, seek, seekEnd)
    ensures ok ==> chosen < |nextDecs| == |nextTokens|
    ensures ok ==>
      Tried(p, s, seek, seekEnd, round, decs, tokens, best, Attempt(prompt, h, nextDecs, nextTokens, chosen))
  {
    hide DecOk, Decoded, Updates, Whole, Result, IsBest, Qualifies, Judged, Drawn, Params.Temperatures, History, Tried,
      Params.Decoders, CacheSize;
    nextDecs, nextTokens, chosen := decs, tokens, best;
    CacheHolds(p, made);
    var ds, ts;
    ok, ds, ts, h := RunRound(p, s, prompt, n, CacheSize(p, made), seek, seekEnd, round);
    if !ok {
      return;
    }
    var ranked, cut;
    ranked, cut, chosen := Rank(s, ds, ts, seek, round, best);
    forall j | 0 <= j < n ensures Decoded(p, s, ranked[j], cut[j], seek, seekEnd) {
      JudgedIsDecoded(p, s, seek, seekEnd, round, j, ds[j], ts[j], ranked[j]);
    }
    nextDecs, nextTokens := Overwrite(decs, ranked), Overwrite(tokens, cut);
    RankedIsTried(p, s, seek, seekEnd, round, decs, tokens, best, prompt, h, ds, ts, ranked, cut, chosen);
  }

  lemma RankedIsTried(p: Params, s: Sampler, seek: int, seekEnd: int, round: nat, decs: seq<Dec>,
                      tokens: seq<seq<int>>, best: nat, prompt: seq<int>, h: seq<seq<seq<int>>>, ds: seq<Dec>,
                      ts: seq<seq<int>>, ranked: seq<Dec>, cut: seq<seq<int>>, chosen: nat)
    requires |decs| == |tokens| && |ds| == |ts| == |ranked| == |cut| && round < |p.Temperatures()|
    requires |ds| == p.Decoders(p.Temperatures()[round])
    requires History(p, s, seek, seekEnd, round, h, |ds|) && h != [] && |h[0]| == |ds| && h[|h| - 1] == ts
    requires DecsOk(ds, ts)
    requires forall j :: 0 <= j < |ds| ==> ds[j] == Updates(p, ts[j], seek, seekEnd)
    requires forall j :: 0 <= j < |ds| ==>
      Judged(s, seek, round, j, ds[j], ranked[j]) && cut[j] == Result(ds[j], ts[j])
    requires if exists j :: 0 <= j < |ds| && Qualifies(s, ranked, seek, round, j)
             then chosen < |ds| && IsBest(s, ranked, seek, round, chosen) else chosen == best
    ensures Tried(p, s, seek, seekEnd, round, decs, tokens, best,
                  Attempt(prompt, h, Overwrite(decs, ranked), Overwrite(tokens, cut), chosen))
  {
    hide Updates, IsBest, Qualifies, History, Params.Temperatures;
    var n, all, toks := |ds|, Overwrite(decs, ranked), Overwrite(tokens, cut);
    assert all[..n] == ranked;
    forall j | 0 <= j < n ensures LeftAs(p, s, seek, seekEnd, round, j, h[|h| - 1][j], all[j], toks[j]) {
      assert all[j] == ranked[j] && toks[j] == cut[j] && DecOk(ds[j], |ts[j]|);
    }
  }

  lemma JudgedIsDecoded(p: Params, s: Sampler, seek: int, seekEnd: int, round: nat, j: nat, d: Dec,
                        toks: seq<int>, next: Dec)
    requires d == Updates(p, toks, seek, seekEnd) && Whole(p, toks, seek, seekEnd) && Judged(s, seek, round, j, d, next)
    requires d.Done() || |toks| == p.WindowLength()
    requires round < |p.Temperatures()| && j < p.Decoders(p.Temperatures()[round])
    requires Drawn(p, s, seek, round, p.Decoders(p.Temperatures()[round]), j, toks)
    ensures Decoded(p, s, next, Result(d, toks), seek, seekEnd)
  {
    hide Updates, Whole, Result, Drawn, Params.Temperatures;
    assert ResultOf(p, s, next, Result(d, toks), toks, round, j, seek, seekEnd);
  }

  /** Several decoders share a cache with room for two more than there are. */
  function CacheSize(p: Params, decoders: nat): nat {
    PadTo(p.nTextCtx, 256) * (if decoders > 1 then decoders + 2 else 1)
  }

  /** The chunk is skipped as a whole when its result ends in a single timestamp. */
  predicate SingleTimestampEnding(p: Params, toks: seq<int>) {
    |toks| > 1 && toks[|toks| - 2] < p.tokenBeg && toks[|toks| - 1] > p.tokenBeg
  }

  function Advance(p: Params, d: Dec, toks: seq<int>, seek: int, seekEnd: int): int {
    if SingleTimestampEnding(p, toks) then (if seekEnd - seek <= CHUNK then seekEnd - seek else CHUNK)
    else d.seekDelta
  }

  /** The rolling context for the next window: what this window's prompt held of it, then the
      result, unless the window counts as silence. */
  function NextContext(p: Params, prompt: seq<int>, d: Dec, toks: seq<int>, silent: bool): seq<int>
    requires DecOk(d, |toks|)
  {
    KeptContext(p, prompt) + Kept(d, toks, silent)
  }

  /** What the window's prompt held of the rolling context. */
  function KeptContext(p: Params, prompt: seq<int>): seq<int> {
    if !p.carry && prompt != [] && prompt[0] == p.tokenPrev && 1 + |p.promptInit| <= |prompt|
    then prompt[1..|prompt| - |p.promptInit|] else []
  }

  predicate IsSuffix(s: seq<int>, t: seq<int>) {
    |s| <= |t| && t[|t| - |s|..] == s
  }

  function Kept(d: Dec, toks: seq<int>, silent: bool): seq<int>
    requires DecOk(d, |toks|)
  {
    if silent then [] else toks[..d.resultLen]
  }

  /** The rolling context is always the most recent part of what was transcribed. */
  lemma ContextIsRecent(p: Params, past0: seq<int>, past1: seq<int>, prompt: seq<int>, round: nat, d: Dec,
                        toks: seq<int>, silent: bool, transcript: seq<int>)
    requires Prompted(p, past0, past1, prompt, round) && DecOk(d, |toks|) && IsSuffix(past1, transcript)
    ensures IsSuffix(NextContext(p, prompt, d, toks, silent), transcript + Kept(d, toks, silent))
  {
    hide BuildPrompt, Params.Temperatures;
    KeptIsRecent(p, past0, past1, p.Temperatures()[round]);
    SuffixGrows(KeptContext(p, prompt), past1, transcript, Kept(d, toks, silent));
  }

  lemma KeptIsRecent(p: Params, past0: seq<int>, past1: seq<int>, t: real)
    ensures match BuildPrompt(p, past0, past1, t)
            case Some(prompt) => IsSuffix(KeptContext(p, prompt), past1)
            case None => true
  {
  }

  lemma SuffixGrows(a: seq<int>, b: seq<int>, c: seq<int>, more: seq<int>)
    requires IsSuffix(a, b) && IsSuffix(b, c)
    ensures IsSuffix(a + more, c + more)
  {
    assert a == c[|c| - |a|..] by {
      assert a == b[|b| - |a|..] && b == c[|c| - |b|..];
    }
    assert (c + more)[|c| - |a|..] == c[|c| - |a|..] + more;
  }

  // ------------------------------------------------------------------ whole runs

  /** One decoded window: where it starts and with which rolling context, the chosen decoder's
      state and tokens, the prompt and the number of the temperature it was decoded at, and whether
      it counts as silence. */
  datatype Heard = Heard(at: int, context: seq<int>, best: Dec, tokens: seq<int>, prompt: seq<int>, round: nat,
                         silent: bool)
  {
    predicate Ok() {
      DecOk(best, |tokens|)
    }

    function Next(p: Params, seekEnd: int): int {
      at + Advance(p, best, tokens, at, seekEnd)
    }
  }

  predicate AllOk(results: seq<Heard>) {
    forall k :: 0 <= k < |results| ==> results[k].Ok()
  }

  /** Everything a run has transcribed, after what it started from. */
  function Transcript(context: seq<int>, results: seq<Heard>): seq<int>
    requires AllOk(results)
  {
    if results == [] then context
    else
      var last := results[|results| - 1];
      Transcript(context, results[..|results| - 1]) + Kept(last.best, last.tokens, last.silent)
  }

  /** The next window starts where this one led: at the last timestamp of the result, or, when the
      result ends in a single timestamp, behind the chunk or what is left of the audio. */
  predicate Reaches(p: Params, r: Heard, seek: int, seekEnd: int) {
    var n := |r.tokens|;
    seek - r.at == if n > 1 && r.tokens[n - 2] < p.tokenBeg < r.tokens[n - 1]
                   then if seekEnd - r.at < 3000 then seekEnd - r.at else 3000
                   else r.best.seekDelta
  }

  /** The rolling context behind a window: what its prompt held of the one before, between the
      marker and the task tokens, and then its result, unless it counts as silence. */
  predicate RollsOn(p: Params, r: Heard, next: seq<int>)
    requires r.Ok()
  {
    var result := if r.silent then [] else r.tokens[..r.best.resultLen];
    var n := |next| - |result|;
    if !p.carry && |r.prompt| > |p.promptInit| && r.prompt[0] == p.tokenPrev
    then n >= 0 && next[n..] == result && [p.tokenPrev] + next[..n] + p.promptInit == r.prompt
    else next == result
  }

  lemma NextRollsOn(p: Params, past0: seq<int>, past1: seq<int>, r: Heard)
    requires r.Ok() && Prompted(p, past0, past1, r.prompt, r.round)
    ensures RollsOn(p, r, NextContext(p, r.prompt, r.best, r.tokens, r.silent))
  {
    hide Params.Temperatures;
    var kept, result := KeptContext(p, r.prompt), Kept(r.best, r.tokens, r.silent);
    assert (kept + result)[..|kept|] == kept && (kept + result)[|kept|..] == result;
    EndsInTask(p, past0, past1, p.Temperatures()[r.round], r.prompt);
    if |r.prompt| > |p.promptInit| && r.prompt[0] == p.tokenPrev {
      assert [p.tokenPrev] + r.prompt[1..|r.prompt| - |p.promptInit|] == r.prompt[..|r.prompt| - |p.promptInit|];
    }
  }

  lemma EndsInTask(p: Params, past0: seq<int>, past1: seq<int>, t: real, prompt: seq<int>)
    requires Shaped(p, past0, past1, t, prompt)
    ensures |prompt| >= |p.promptInit|
    ensures prompt == prompt[..|prompt| - |p.promptInit|] + p.promptInit
  {
  }

  lemma NextReaches(p: Params, r: Heard, seekEnd: int)
    ensures Reaches(p, r, r.Next(p, seekEnd), seekEnd)
  {
  }

  /** Close to the end nothing is carried over any more. */
  predicate LastStretch(seek: int, seekStart: int, seekEnd: int) {
    seek > seekStart && seek + 500 >= seekEnd
  }

  /** How far a window moves: the rest of the audio, the chunk, or the last timestamp of the
      chosen tokens; never less than 2. */
  ghost predicate Moves(p: Params, r: Heard, seekEnd: int) {
    var delta := r.Next(p, seekEnd) - r.at;
    && delta >= 2
    && (delta == seekEnd - r.at || delta == CHUNK || Stands(p, delta, r.tokens))
  }

  /** Window number `n` was decoded where the windows before it had led, with the context they had
      led to: its temperatures were tried in turn, and the choice of the last one was taken. */
  ghost predicate Follows(p: Params, s: Sampler, past0: seq<int>, context: seq<int>, results: seq<Heard>,
                          tries: seq<seq<Attempt>>, n: nat, seekStart: int, seekEnd: int)
    requires AllOk(results) && n < |results| == |tries|
  {
    var r := results[n];
    var cleared := LastStretch(r.at, seekStart, seekEnd);
    && (if n == 0 then r.at == seekStart && r.context == context
        else Reaches(p, results[n - 1], r.at, seekEnd) && RollsOn(p, results[n - 1], r.context))
    && r.at + 10 < seekEnd && s.goOn(r.at) && s.encoderOk(r.at) && r.silent == s.noSpeech(r.at)
    && AllTried(p, s, if cleared then [] else past0, if cleared then [] else r.context, r.at, seekEnd, tries[n])
    && Takes(tries[n], r.best, r.tokens, r.prompt, r.round) && Accepted(p, s, r.best, r.at, r.round)
    && Decoded(p, s, r.best, r.tokens, r.at, seekEnd) && Moves(p, r, seekEnd)
  }

  /** Every window follows the ones before it. */
  ghost predicate Run(p: Params, s: Sampler, past0: seq<int>, context: seq<int>, results: seq<Heard>,
                      tries: seq<seq<Attempt>>, seekStart: int, seekEnd: int)
    requires AllOk(results)
  {
    && |results| == |tries|
    && forall n :: 0 <= n < |results| ==> Follows(p, s, past0, context, results, tries, n, seekStart, seekEnd)
  }

  /** Where a run stands after its windows, and with which rolling context. */
  predicate StandsAfter(p: Params, context: seq<int>, results: seq<Heard>, seekStart: int, seekEnd: int, seek: int,
                        past1: seq<int>)
    requires AllOk(results)
  {
    if results == [] then seek == seekStart && past1 == context
    else Reaches(p, results[|results| - 1], seek, seekEnd) && RollsOn(p, results[|results| - 1], past1)
  }

  lemma RunGrows(p: Params, s: Sampler, past0: seq<int>, context: seq<int>, results: seq<Heard>,
                 tries: seq<seq<Attempt>>, r: Heard, t: seq<Attempt>, seekStart: int, seekEnd: int)
    requires AllOk(results) && r.Ok() && Run(p, s, past0, context, results, tries, seekStart, seekEnd)
    requires StandsAfter(p, context, results, seekStart, seekEnd, r.at, r.context)
    requires r.at + DELTA_MIN < seekEnd && s.goOn(r.at) && s.encoderOk(r.at) && r.silent == s.noSpeech(r.at)
    requires var cleared := LastStretch(r.at, seekStart, seekEnd);
             AllTried(p, s, if cleared then [] else past0, if cleared then [] else r.context, r.at, seekEnd, t)
    requires Takes(t, r.best, r.tokens, r.prompt, r.round) && Accepted(p, s, r.best, r.at, r.round)
    requires Decoded(p, s, r.best, r.tokens, r.at, seekEnd) && Moves(p, r, seekEnd)
    ensures AllOk(results + [r]) && Run(p, s, past0, context, results + [r], tries + [t], seekStart, seekEnd)
  {
    hide AllTried, Takes, Accepted, Decoded, Moves, Reaches, RollsOn, LastStretch;
    var more, ts := results + [r], tries + [t];
    forall n | 0 <= n < |more| ensures Follows(p, s, past0, context, more, ts, n, seekStart, seekEnd) {
      if n < |results| {
        assert Follows(p, s, past0, context, results, tries, n, seekStart, seekEnd);
        assert more[n] == results[n] && ts[n] == tries[n];
      }
      assert n > 0 ==> more[n - 1] == results[n - 1];
    }
  }

  lemma WindowMoves(p: Params, s: Sampler, r: Heard, seekEnd: int)
    requires Decoded(p, s, r.best, r.tokens, r.at, seekEnd) && r.at + DELTA_MIN < seekEnd
    ensures r.Ok() && Moves(p, r, seekEnd)
  {
    hide Decoded, Stands;
    DecodedOk(p, s, r.best, r.tokens, r.at, seekEnd);
  }

  datatype Status =
    | TooShort | TooManyDecoders | Finished | Stopped | EncodeFailed | PromptOverrun | DecodeFailed

  /** The loop over the audio: decodes window after window, each where the last one led, until
      at most `DELTA_MIN` of the audio is left or something stops it, and leaves the most recent
      part of the transcript behind as the context of the next run. There must be a temperature
      to decode at; `StaleSeekEnds` says what happens otherwise. */
  method Full(p: Params, s: Sampler, st: State, noContext: bool, initial: seq<int>, seekStart: int, seekEnd: int)
    returns (status: Status, results: seq<Heard>, seek: int, ghost tries: seq<seq<Attempt>>,
             ghost now: seq<int>)
    requires p.Ok() && (p.beam ==> s.Ok())
    requires p.increment <= 0.0 || p.temperature < TEMP_LIMIT
    modifies st
    ensures AllOk(results)
    ensures status == TooShort <==> seekEnd - seekStart < 10
    ensures status == TooManyDecoders <==>
            seekEnd - seekStart >= 10 && (p.bestOf > 8 || (p.beam && p.beamSize > 8))
    ensures status == TooShort || status == TooManyDecoders ==> results == [] && unchanged(st)
    ensures status == Finished ==> seekEnd - seek <= 10
    ensures status == Stopped ==> seekEnd - seek > 10 && !s.goOn(seek)
    ensures status == EncodeFailed ==> seekEnd - seek > 10 && s.goOn(seek) && !s.encoderOk(seek)
    ensures status == DecodeFailed ==> seekEnd - seek > 10 && SeveralDecoders(p)
    ensures status != TooShort && status != TooManyDecoders ==>
      var past0 := StartPast0(p, noContext, initial, old(st.past0));
      var context := StartPast1(p, noContext, initial, old(st.past1));
      var cleared := (status == PromptOverrun || status == DecodeFailed) && LastStretch(seek, seekStart, seekEnd);
      && Starts(p, noContext, initial, old(st.past0), old(st.past1), past0, context)
      && Run(p, s, past0, context, results, tries, seekStart, seekEnd)
      && IsSuffix(st.past1, Transcript(context, results))
      && StandsAfter(p, context, results, seekStart, seekEnd, seek, now)
      && (st.past0 == if cleared || Cleared(results, seekStart, seekEnd) then [] else past0)
      && (st.past1 == if cleared then [] else now)
      && (status == PromptOverrun ==> !CarryFits(p, past0))
      && (!CarryFits(p, past0) && p.temperature < TEMP_CUTOFF ==> results == [])
  {
    hide *;
    results, seek, tries, now := [], seekStart, [], [];
    Limits(p);
    if seekEnd < seekStart + DELTA_MIN {
      return TooShort, results, seek, tries, now;
    }
    var temperatures := BuildTemperatures(p);
    WhenTemperatures(p);
    if !p.DecodersFit() {
      return TooManyDecoders, results, seek, tries, now;
    }
    StartsSo(p, noContext, initial, st.past0, st.past1);
    st.past0, st.past1 := StartPast0(p, noContext, initial, st.past0), StartPast1(p, noContext, initial, st.past1);
    ghost var past0, context := st.past0, st.past1;
    Begins(p, s, past0, context, seekStart, seekEnd);
    while true
      invariant Underway(p, s, past0, context, results, tries, seekStart, seekEnd, seek, st.past0, st.past1)
      invariant !CarryFits(p, past0) && p.temperature < TEMP_CUTOFF ==> results == []
      decreases seekEnd - seek
    {
      var before := st.past1;
      now := before;
      UnderwayMeans(p, s, past0, context, results, tries, seekStart, seekEnd, seek, st.past0, now);
      if seek + DELTA_MIN >= seekEnd {
        return Finished, results, seek, tries, now;
      }
      if !s.goOn(seek) {
        return Stopped, results, seek, tries, now;
      }
      if !s.encoderOk(seek) {
        return EncodeFailed, results, seek, tries, now;
      }
      StretchIs(seek, seekStart, seekEnd);
      NothingCarried(p);
      if seek > seekStart && seek + 500 >= seekEnd {
        st.past0, st.past1 := [], [];
      }
      var decoding, attempts := DecodeSegment(p, s, st, temperatures, seek, seekEnd);
      if decoding.Overrun? {
        return PromptOverrun, results, seek, tries, now;
      }
      if decoding.NotDecoded? {
        return DecodeFailed, results, seek, tries, now;
      }
      var r := Heard(seek, before, decoding.best, decoding.tokens, decoding.prompt, decoding.round, s.noSpeech(seek));
      Hears(p, s, past0, context, results, tries, r, attempts, seekStart, seekEnd, st.past0, st.past1);
      st.past1 := NextContext(p, r.prompt, r.best, r.tokens, r.silent);
      results, tries := results + [r], tries + [attempts];
      seek := r.Next(p, seekEnd);
    }
  }

  /** A run is under way: the windows follow one another, the run stands behind the last one, and
      `past0` and `past1` are what is carried and the rolling context now. */
  ghost predicate Underway(p: Params, s: Sampler, past0: seq<int>, context: seq<int>, results: seq<Heard>,
                           tries: seq<seq<Attempt>>, seekStart: int, seekEnd: int, seek: int, now0: seq<int>,
                           now1: seq<int>) {
    && AllOk(results) && Run(p, s, past0, context, results, tries, seekStart, seekEnd)
    && StandsAfter(p, context, results, seekStart, seekEnd, seek, now1)
    && IsSuffix(now1, Transcript(context, results))
    && now0 == (if Cleared(results, seekStart, seekEnd) then [] else past0)
    && (Cleared(results, seekStart, seekEnd) ==> LastStretch(seek, seekStart, seekEnd))
    && (if results == [] then seek == seekStart else seek > seekStart)
  }

  lemma Begins(p: Params, s: Sampler, past0: seq<int>, context: seq<int>, seekStart: int, seekEnd: int)
    ensures Underway(p, s, past0, context, [], [], seekStart, seekEnd, seekStart, past0, context)
  {
  }

  lemma UnderwayMeans(p: Params, s: Sampler, past0: seq<int>, context: seq<int>, results: seq<Heard>,
                      tries: seq<seq<Attempt>>, seekStart: int, seekEnd: int, seek: int, now0: seq<int>, now1: seq<int>)
    requires Underway(p, s, past0, context, results, tries, seekStart, seekEnd, seek, now0, now1)
    ensures AllOk(results) && Run(p, s, past0, context, results, tries, seekStart, seekEnd)
    ensures StandsAfter(p, context, results, seekStart, seekEnd, seek, now1)
    ensures IsSuffix(now1, Transcript(context, results)) && IsSuffix([], Transcript(context, results))
    ensures now0 == if Cleared(results, seekStart, seekEnd) then [] else past0
    ensures !LastStretch(seek, seekStart, seekEnd) ==> now0 == past0
    ensures results == [] ==> !LastStretch(seek, seekStart, seekEnd)
  {
    hide Run, StandsAfter, Transcript, AllOk;
  }

  lemma Limits(p: Params)
    ensures AllOk([]) && DELTA_MIN == 10
    ensures p.DecodersFit() <==> p.bestOf <= 8 && (p.beam ==> p.beamSize <= 8)
  {
  }

  /** One more window takes a run on. */
  lemma Hears(p: Params, s: Sampler, past0: seq<int>, context: seq<int>, results: seq<Heard>,
              tries: seq<seq<Attempt>>, r: Heard, t: seq<Attempt>, seekStart: int, seekEnd: int, held0: seq<int>,
              held1: seq<int>)
    requires exists now0 :: Underway(p, s, past0, context, results, tries, seekStart, seekEnd, r.at, now0, r.context)
    requires held0 == if LastStretch(r.at, seekStart, seekEnd) then [] else past0
    requires held1 == if LastStretch(r.at, seekStart, seekEnd) then [] else r.context
    requires r.at + DELTA_MIN < seekEnd && s.goOn(r.at) && s.encoderOk(r.at) && r.silent == s.noSpeech(r.at)
    requires AllTried(p, s, held0, held1, r.at, seekEnd, t) && Takes(t, r.best, r.tokens, r.prompt, r.round)
    requires Accepted(p, s, r.best, r.at, r.round) && Decoded(p, s, r.best, r.tokens, r.at, seekEnd)
    requires Prompted(p, held0, held1, r.prompt, r.round)
    ensures r.Ok() && DecOk(r.best, |r.tokens|) && r.Next(p, seekEnd) > r.at
    ensures Underway(p, s, past0, context, results + [r], tries + [t], seekStart, seekEnd, r.Next(p, seekEnd), held0,
                     NextContext(p, r.prompt, r.best, r.tokens, r.silent))
  {
    hide AllTried, Takes, Accepted, Decoded, Prompted, NextContext, Run, StandsAfter, IsSuffix, Transcript, Kept,
      Advance, Moves, DecOk, LastStretch, Cleared;
    WindowMoves(p, s, r, seekEnd);
    RunGrows(p, s, past0, context, results, tries, r, t, seekStart, seekEnd);
    NothingIsSuffix(Transcript(context, results));
    ContextIsRecent(p, held0, held1, r.prompt, r.round, r.best, r.tokens, r.silent, Transcript(context, results));
    TranscriptGrows(context, results, r);
    StandsNext(p, held0, held1, context, results, r, seekStart, seekEnd);
  }

  lemma NothingIsSuffix(t: seq<int>)
    ensures IsSuffix([], t)
  {
  }

  /** Nothing is carried any more after a window that was close to the end. */
  predicate Cleared(results: seq<Heard>, seekStart: int, seekEnd: int) {
    results != [] && LastStretch(results[|results| - 1].at, seekStart, seekEnd)
  }

  lemma StretchIs(seek: int, seekStart: int, seekEnd: int)
    ensures LastStretch(seek, seekStart, seekEnd) <==> seek > seekStart && seek + 500 >= seekEnd
  {
  }

  lemma StandsNext(p: Params, past0: seq<int>, past1: seq<int>, context: seq<int>, results: seq<Heard>, r: Heard,
                   seekStart: int, seekEnd: int)
    requires AllOk(results) && r.Ok() && Prompted(p, past0, past1, r.prompt, r.round) && Moves(p, r, seekEnd)
    ensures AllOk(results + [r]) && r.Next(p, seekEnd) > r.at
    ensures StandsAfter(p, context, results + [r], seekStart, seekEnd, r.Next(p, seekEnd),
                        NextContext(p, r.prompt, r.best, r.tokens, r.silent))
    ensures Cleared(results + [r], seekStart, seekEnd) <==> LastStretch(r.at, seekStart, seekEnd)
    ensures LastStretch(r.at, seekStart, seekEnd) ==> LastStretch(r.Next(p, seekEnd), seekStart, seekEnd)
  {
    hide Prompted, NextContext, RollsOn, Reaches, Advance, DecOk;
    NextRollsOn(p, past0, past1, r);
    NextReaches(p, r, seekEnd);
    assert (results + [r])[|results|] == r;
  }

  // --------------------------------------------------- nothing to decode at

  /** Without a temperature no decoder is started: every window is taken from what the first
      decoder was left with (`d`, `toks`). The seek position after `n` windows. */
  function StaleSeek(p: Params, d: Dec, toks: seq<int>, seekStart: int, seekEnd: int, n: nat): int {
    if n == 0 then seekStart
    else
      var seek := StaleSeek(p, d, toks, seekStart, seekEnd, n - 1);
      if seek + DELTA_MIN >= seekEnd then seek else seek + Advance(p, d, toks, seek, seekEnd)
  }

  lemma {:induction false} StaleSeekRises(p: Params, d: Dec, toks: seq<int>, seekStart: int, seekEnd: int, n: nat)
    requires SingleTimestampEnding(p, toks) || d.seekDelta > 0
    ensures var seek := StaleSeek(p, d, toks, seekStart, seekEnd, n);
            seek + DELTA_MIN >= seekEnd || seek >= seekStart + n
  {
    if n > 0 {
      StaleSeekRises(p, d, toks, seekStart, seekEnd, n - 1);
    }
  }

  lemma {:induction false} StaleSeekStays(p: Params, d: Dec, toks: seq<int>, seekStart: int, seekEnd: int, n: nat)
    requires seekStart + DELTA_MIN < seekEnd && !SingleTimestampEnding(p, toks) && d.seekDelta <= 0
    ensures StaleSeek(p, d, toks, seekStart, seekEnd, n) <= seekStart
  {
    if n > 0 {
      StaleSeekStays(p, d, toks, seekStart, seekEnd, n - 1);
    }
  }

  /** The loop over the audio then ends exactly when there is nothing to do, or what the decoder
      was left with moves on. */
  lemma StaleSeekEnds(p: Params, d: Dec, toks: seq<int>, seekStart: int, seekEnd: int)
    ensures (exists n :: StaleSeek(p, d, toks, seekStart, seekEnd, n) + DELTA_MIN >= seekEnd) <==>
            seekStart + DELTA_MIN >= seekEnd || SingleTimestampEnding(p, toks) || d.seekDelta > 0
  {
    if seekStart + DELTA_MIN >= seekEnd {
      assert StaleSeek(p, d, toks, seekStart, seekEnd, 0) + DELTA_MIN >= seekEnd;
    } else if SingleTimestampEnding(p, toks) || d.seekDelta > 0 {
      StaleSeekRises(p, d, toks, seekStart, seekEnd, seekEnd - seekStart);
    } else {
      forall n: nat ensures StaleSeek(p, d, toks, seekStart, seekEnd, n) <= seekStart {
        StaleSeekStays(p, d, toks, seekStart, seekEnd, n);
      }
    }
  }

  lemma TranscriptGrows(context: seq<int>, results: seq<Heard>, r: Heard)
    requires AllOk(results) && r.Ok()
    ensures AllOk(results + [r])
    ensures Transcript(context, results + [r]) == Transcript(context, results) + Kept(r.best, r.tokens, r.silent)
  {
    assert (results + [r])[..|results|] == results;
  }

  lemma NothingCarried(p: Params)
    ensures CarryFits(p, [])
  {
  }
}
