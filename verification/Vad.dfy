/** Voice activity detection: from speech probabilities per window to padded segments. Times
    are in samples, at the end in centiseconds. */
module Vad {

  const SAMPLE_RATE: int := 16000
  const INT_MAX: int := 0x7fff_ffff
  /** Segments closer than this become one. */
  const MERGE_GAP: int := SAMPLE_RATE * 200 / 1000
  const SILENCE_AT_MAX: int := SAMPLE_RATE * 98 / 1000

  datatype Seg = Seg(start: int, end: int) {
    function Length(): int {
      end - start
    }
  }

  datatype Params = Params(
    threshold: real, minSpeechMs: nat, minSilenceMs: nat, maxSpeechS: real, padMs: nat, window: nat)
  {
    predicate Ok() {
      window > 0 && maxSpeechS >= 0.0
    }

    function MinSpeech(): (n: int)
      ensures n >= 0
    {
      SAMPLE_RATE * minSpeechMs / 1000
    }

    function MinSilence(): int {
      SAMPLE_RATE * minSilenceMs / 1000
    }

    function Pad(): (n: int)
      ensures n >= 0
    {
      SAMPLE_RATE * padMs / 1000
    }

    function MaxSpeech(): (n: int)
      ensures n >= 0
    {
      if maxSpeechS > 100000.0 then INT_MAX / 2
      else
        var n := SAMPLE_RATE * maxSpeechS.Floor - window - 2 * Pad();
        if n > INT_MAX || n < 0 then INT_MAX / 2 else n
    }

    function NegThreshold(): real {
      if threshold - 0.15 < 0.01 then 0.01 else threshold - 0.15
    }
  }

  // ------------------------------------------------------------------ detection

  /** In order, disjoint, and between 0 and `hi`. */
  predicate Ordered(s: seq<Seg>, hi: int) {
    && (forall i :: 0 <= i < |s| ==> 0 <= s[i].start <= s[i].end <= hi)
    && (forall i, j :: 0 <= i < j < |s| ==> s[i].end <= s[j].start)
  }

  lemma OrderedPush(s: seq<Seg>, hi: int, g: Seg, top: int)
    requires Ordered(s, hi) && 0 <= hi <= g.start <= g.end <= top
    ensures Ordered(s + [g], top)
  {
  }

  lemma OrderedUp(s: seq<Seg>, hi: int, top: int)
    requires Ordered(s, hi) && hi <= top
    ensures Ordered(s, top)
  {
  }

  predicate Loud(probs: seq<real>, p: Params, i: int) {
    0 <= i < |probs| && probs[i] >= p.threshold
  }

  /** Sample `at` begins a window in which speech is likely. */
  predicate Speech(probs: seq<real>, p: Params, at: int) {
    exists i :: 0 <= i < |probs| && Loud(probs, p, i) && at == p.window * i
  }

  /** No window that begins between `lo` and `hi` is likely speech. */
  predicate Quiet(probs: seq<real>, p: Params, lo: int, hi: int) {
    forall i :: 0 <= i < |probs| && lo < p.window * i < hi ==> !Loud(probs, p, i)
  }

  /** Sample `at` begins a window in which silence is likely, or ends the audio. */
  predicate Hush(probs: seq<real>, p: Params, at: int) {
    at == p.window * |probs| || exists i :: 0 <= i < |probs| && Silent(probs, p, i) && at == p.window * i
  }

  predicate Silent(probs: seq<real>, p: Params, i: int) {
    0 <= i < |probs| && probs[i] < p.NegThreshold()
  }

  /** Where a segment may begin and end, and how long it may be: only one that has become too
      long ends elsewhere than where silence begins. */
  predicate Detected(probs: seq<real>, p: Params, g: Seg) {
    && Speech(probs, p, g.start) && g.Length() <= p.MaxSpeech() + p.window
    && (Hush(probs, p, g.end) || g.Length() > p.MaxSpeech())
  }

  /** No likely speech in the windows behind number `e` and before number `m`. */
  predicate NoLoud(probs: seq<real>, p: Params, e: int, m: int) {
    forall k :: e < k < m ==> !Loud(probs, p, k)
  }

  /** Between `lo` and `hi` no silence lasts `least` samples: of two windows of silence that far
      apart, likely speech lies between. */
  predicate NoPause(probs: seq<real>, p: Params, least: int, lo: int, hi: int) {
    forall e, f :: 0 <= e < f < |probs| && Silent(probs, p, e) && Silent(probs, p, f)
                   && lo < p.window * e && p.window * f < hi && p.window * f - p.window * e >= least ==>
      !NoLoud(probs, p, e, f + 1)
  }

  /** A silence that has lasted more than 98 ms before `hi` begins at `x`. */
  ghost predicate LongPause(probs: seq<real>, p: Params, x: int, hi: int) {
    exists j :: PausesTo(probs, p, x, j) && p.window * j < hi
  }

  predicate PausesTo(probs: seq<real>, p: Params, x: int, j: int) {
    0 <= j < |probs| && Silent(probs, p, j) && p.window * j - x > 1568 && Quiet(probs, p, x, p.window * j + 1)
  }

  /** No silence behind that of `x` lasts more than 98 ms before `hi`. */
  predicate NoLaterPause(probs: seq<real>, p: Params, x: int, hi: int) {
    forall e, f :: 0 <= e < f < |probs| && Silent(probs, p, e) && Silent(probs, p, f)
                   && x < p.window * e && p.window * f < hi && p.window * f - p.window * e > 1568 ==>
      Quiet(probs, p, x, p.window * e + 1) || !NoLoud(probs, p, e, f + 1)
  }

  /** The silence at `x` does not begin before it. */
  predicate FirstHush(probs: seq<real>, p: Params, lo: int, x: int) {
    forall e :: 0 <= e < |probs| && Silent(probs, p, e) && lo < p.window * e < x ==>
      !Quiet(probs, p, p.window * e, x + 1)
  }

  /** A segment from `start` has become too long at window `i`. */
  predicate TooLongAt(p: Params, start: int, i: int) {
    p.MaxSpeech() < p.window * i - start <= p.MaxSpeech() + p.window
  }

  /** A segment that had become too long was cut back to the last silence of more than 98 ms. */
  ghost predicate CutBack(probs: seq<real>, p: Params, g: Seg, i: int) {
    && TooLongAt(p, g.start, i) && g.end <= p.window * i
    && LongPause(probs, p, g.end, p.window * i) && NoLaterPause(probs, p, g.end, p.window * i)
  }

  /** Silences in a segment count from its start, or from where the one before it was cut back. */
  ghost predicate CountsFrom(probs: seq<real>, p: Params, before: seq<Seg>, start: int, lo: int) {
    || lo == start
    || (before != [] && start <= lo && exists i :: lo == p.window * i && CutBack(probs, p, before[|before| - 1], i))
  }

  /** Why a segment ends where it does: at the end of the audio; where a silence begins that lasts
      the minimum; or because it has become too long, at the last silence of more than 98 ms, or
      right here when there is none. */
  ghost predicate EndsRight(probs: seq<real>, p: Params, g: Seg, lo: int) {
    || (g.end == p.window * |probs| && g.Length() > p.MinSpeech())
    || (Hush(probs, p, g.end) && FirstHush(probs, p, lo, g.end) && Quiet(probs, p, g.end, g.end + p.MinSilence())
        && g.Length() > p.MinSpeech())
    || (exists i :: CutBack(probs, p, g, i))
    || (exists i :: CutHere(probs, p, g, lo, i))
  }

  predicate CutHere(probs: seq<real>, p: Params, g: Seg, lo: int, i: int) {
    TooLongAt(p, g.start, i) && g.end == p.window * i && NoPause(probs, p, 1569, lo, p.window * i)
  }

  /** A segment that follows those before it: it ends for a reason, and not before that was there
      a silence long enough to end it. */
  ghost predicate Explained(probs: seq<real>, p: Params, before: seq<Seg>, g: Seg) {
    exists lo :: ExplainedFrom(probs, p, before, g, lo)
  }

  ghost predicate ExplainedFrom(probs: seq<real>, p: Params, before: seq<Seg>, g: Seg, lo: int) {
    && CountsFrom(probs, p, before, g.start, lo) && NoPause(probs, p, p.MinSilence(), lo, g.end)
    && EndsRight(probs, p, g, lo)
  }

  /** Every segment found follows those before it. */
  ghost predicate AllExplained(probs: seq<real>, p: Params, found: seq<Seg>) {
    forall k :: 0 <= k < |found| ==> Explained(probs, p, found[..k], found[k])
  }

  lemma ExplainedPush(probs: seq<real>, p: Params, found: seq<Seg>, g: Seg, lo: int)
    requires AllExplained(probs, p, found) && ExplainedFrom(probs, p, found, g, lo)
    ensures AllExplained(probs, p, found + [g])
  {
    hide ExplainedFrom, Explained;
    var more := found + [g];
    assert Explained(probs, p, found, g) by { IsExplained(probs, p, found, g, lo); }
    forall k | 0 <= k < |more| ensures Explained(probs, p, more[..k], more[k]) {
      if k < |found| {
        assert more[..k] == found[..k] && more[k] == found[k];
      } else {
        assert more[..k] == found;
      }
    }
  }

  lemma IsExplained(probs: seq<real>, p: Params, before: seq<Seg>, g: Seg, lo: int)
    requires ExplainedFrom(probs, p, before, g, lo)
    ensures Explained(probs, p, before, g)
  {
    hide ExplainedFrom;
  }

  /** A stretch that is too short to be kept: it begins with likely speech and ends where
      silence begins, and no likely speech follows within the minimum silence. */
  predicate TooShort(probs: seq<real>, p: Params, g: Seg) {
    && Speech(probs, p, g.start) && Hush(probs, p, g.end)
    && 0 <= g.Length() <= p.MinSpeech() && Quiet(probs, p, g.end, g.end + p.MinSilence())
  }

  predicate Inside(s: seq<Seg>, at: int) {
    exists k :: 0 <= k < |s| && s[k].start <= at <= s[k].end
  }

  /** Likely speech before `top` is in a found segment or in a dropped stretch. */
  predicate Covered(probs: seq<real>, p: Params, found: seq<Seg>, dropped: seq<Seg>, top: int) {
    forall i :: 0 <= i < |probs| && p.window * i < top && Loud(probs, p, i) ==>
      Inside(found, p.window * i) || Inside(dropped, p.window * i)
  }

  lemma InsideMore(s: seq<Seg>, g: Seg, at: int)
    ensures Inside(s + [g], at) <==> Inside(s, at) || g.start <= at <= g.end
  {
    if k :| 0 <= k < |s| && s[k].start <= at <= s[k].end {
      assert (s + [g])[k] == s[k];
    }
    if g.start <= at <= g.end {
      assert (s + [g])[|s|] == g;
    }
  }

  /** A segment that is quiet after its end covers what it contains. */
  lemma CoverMore(probs: seq<real>, p: Params, found: seq<Seg>, dropped: seq<Seg>, g: Seg, top: int)
    requires Covered(probs, p, found, dropped, g.start) && Quiet(probs, p, g.end, top)
    ensures Covered(probs, p, found + [g], dropped, top) && Covered(probs, p, found, dropped + [g], top)
  {
    hide Inside;
    forall i | 0 <= i < |probs| && p.window * i < top && Loud(probs, p, i)
      ensures Inside(found + [g], p.window * i) || Inside(dropped, p.window * i)
      ensures Inside(found, p.window * i) || Inside(dropped + [g], p.window * i)
    {
      InsideMore(found, g, p.window * i);
      InsideMore(dropped, g, p.window * i);
    }
  }

  /** The variables of the scan; zero means unset for `tempEnd`, `prevEnd` and `nextStart`. */
  datatype Scan = Scan(speaking: bool, tempEnd: int, prevEnd: int, nextStart: int, start: int, found: seq<Seg>)

  const START: Scan := Scan(false, 0, 0, 0, 0, [])

  predicate ListsOk(probs: seq<real>, p: Params, found: seq<Seg>, dropped: seq<Seg>, top: int) {
    && Ordered(found, top)
    && Covered(probs, p, found, dropped, top)
    && (forall k :: 0 <= k < |found| ==> Detected(probs, p, found[k]))
    && (forall k :: 0 <= k < |dropped| ==> TooShort(probs, p, dropped[k]))
  }

  /** An end noted since the segment began. */
  predicate Mark(probs: seq<real>, p: Params, e: int, start: int, top: int) {
    e == 0 || (0 < e && start <= e && e + p.window <= top && Hush(probs, p, e))
  }

  /** What the variables mean once the windows before `top` have been seen. */
  predicate Sound(probs: seq<real>, p: Params, c: Scan, dropped: seq<Seg>, top: int) {
    if c.speaking then
      && 0 <= c.start && c.start + p.window <= top
      && Speech(probs, p, c.start) && ListsOk(probs, p, c.found, dropped, c.start)
      && Mark(probs, p, c.tempEnd, c.start, top) && Mark(probs, p, c.prevEnd, c.start, top)
      && (c.tempEnd != 0 ==> Quiet(probs, p, c.tempEnd, top) && c.nextStart <= c.tempEnd)
      && (c.tempEnd == 0 ==> c.prevEnd <= c.nextStart)
      && (c.nextStart != 0 ==>
            c.start + p.window <= c.nextStart && c.nextStart + p.window <= top && Speech(probs, p, c.nextStart))
      && 0 <= c.nextStart
      && Quiet(probs, p, if c.prevEnd == 0 then top else c.prevEnd,
               if c.nextStart < c.prevEnd then top else c.nextStart)
    else
      c.tempEnd == 0 && c.prevEnd == 0 && c.nextStart == 0 && 0 <= top && ListsOk(probs, p, c.found, dropped, top)
  }

  /** Of the windows of silence before number `n` that count, one without likely speech behind it
      before number `m` has been noted, if not an earlier one. */
  predicate Noted(probs: seq<real>, p: Params, lo: int, tempEnd: int, n: int, m: int) {
    forall e :: 0 <= e < n && Silent(probs, p, e) && lo < p.window * e && NoLoud(probs, p, e, m) ==>
      tempEnd != 0 && tempEnd <= p.window * e
  }

  /** What the variables know about silences in the open segment, once those of the windows before
      number `n`, and likely speech before number `m`, have been looked at. */
  ghost predicate Watched(probs: seq<real>, p: Params, c: Scan, lo: int, n: int, m: int) {
    && AllExplained(probs, p, c.found)
    && (c.speaking ==>
          && CountsFrom(probs, p, c.found, c.start, lo)
          && NoPause(probs, p, p.MinSilence(), lo, p.window * n) && Noted(probs, p, lo, c.tempEnd, n, m)
          && (c.tempEnd == 0 || c.tempEnd >= lo) && (c.prevEnd == 0 || c.prevEnd >= lo)
          && if c.prevEnd == 0 then NoPause(probs, p, 1569, lo, p.window * n)
             else LongPause(probs, p, c.prevEnd, p.window * n) && NoLaterPause(probs, p, c.prevEnd, p.window * n))
  }

  /** Without likely speech nothing changes. */
  lemma WatchOn(probs: seq<real>, p: Params, c: Scan, lo: int, i: nat)
    requires Watched(probs, p, c, lo, i, i)
    ensures Watched(probs, p, c, lo, i, i + 1)
  {
    hide AllExplained, CountsFrom, NoPause, LongPause, NoLaterPause, Silent, Loud;
    forall e | 0 <= e < i && NoLoud(probs, p, e, i + 1) ensures NoLoud(probs, p, e, i) {
    }
  }

  /** Likely speech ends a silence. */
  lemma WatchLoud(probs: seq<real>, p: Params, c: Scan, lo: int, i: nat, next: int)
    requires Watched(probs, p, c, lo, i, i) && Loud(probs, p, i)
    ensures Watched(probs, p, c.(tempEnd := 0, nextStart := next), lo, i, i + 1)
  {
    hide AllExplained, CountsFrom, NoPause, LongPause, NoLaterPause, Silent, Loud;
  }

  /** Nothing has been missed in a segment that has just begun, or goes on behind a cut. */
  lemma NothingMissed(probs: seq<real>, p: Params, least: int, i: nat, n: nat, m: int)
    requires p.Ok() && i <= n <= i + 1
    ensures NoPause(probs, p, least, p.window * i, p.window * n) && Noted(probs, p, p.window * i, 0, n, m)
  {
    hide Silent, NoLoud;
    forall f: int ensures !(p.window * i < p.window * f < p.window * n) {
      Scaled(p.window, i, f);
      Scaled(p.window, f, n);
    }
    forall e: int, f: int | e < f ensures p.window * e < p.window * f {
      Scaled(p.window, e, f);
    }
    forall e | 0 <= e < n ensures !(p.window * i < p.window * e) {
      Scaled(p.window, i, e);
    }
  }

  lemma WatchBegins(probs: seq<real>, p: Params, c: Scan, lo: int, i: nat)
    requires p.Ok() && Watched(probs, p, c, lo, i, i) && c.tempEnd == 0 && c.prevEnd == 0
    ensures Watched(probs, p, c.(speaking := true, start := p.window * i), p.window * i, i + 1, i + 1)
  {
    hide AllExplained, NoPause, Noted;
    NothingMissed(probs, p, p.MinSilence(), i, i + 1, i + 1);
    NothingMissed(probs, p, 1569, i, i + 1, i + 1);
  }

  /** A segment cut back to `prevEnd` is explained, and so is what goes on behind it. */
  lemma WatchCutBack(probs: seq<real>, p: Params, c: Scan, lo: int, i: nat, next: Scan)
    requires p.Ok() && Watched(probs, p, c, lo, i, i + 1) && c.speaking && c.prevEnd != 0
    requires TooLongAt(p, c.start, i) && c.prevEnd <= p.window * i && c.start <= p.window * i
    requires c.nextStart <= p.window * i
    requires next.found == c.found + [Seg(c.start, c.prevEnd)] && next.tempEnd == 0 && next.prevEnd == 0
    requires next.speaking ==> next.start == c.nextStart
    ensures Watched(probs, p, next, p.window * i, i, i + 1)
  {
    hide AllExplained, NoPause, Noted, LongPause, NoLaterPause, TooLongAt, Hush, FirstHush, Quiet, CutHere;
    var g := Seg(c.start, c.prevEnd);
    assert CutBack(probs, p, g, i);
    PauseLess(probs, p, p.MinSilence(), lo, g.end, p.window * i);
    assert CountsFrom(probs, p, c.found, g.start, lo);
    ExplainedPush(probs, p, c.found, g, lo);
    NothingMissed(probs, p, p.MinSilence(), i, i, i + 1);
    NothingMissed(probs, p, 1569, i, i, i + 1);
    assert next.found[|next.found| - 1] == g;
  }

  lemma WatchCutHere(probs: seq<real>, p: Params, c: Scan, lo: int, i: nat, next: Scan)
    requires p.Ok() && Watched(probs, p, c, lo, i, i + 1) && c.speaking && c.prevEnd == 0 && TooLongAt(p, c.start, i)
    requires next.found == c.found + [Seg(c.start, p.window * i)] && !next.speaking
    ensures Watched(probs, p, next, lo, i, i + 1)
  {
    hide AllExplained, NoPause, Noted, LongPause, NoLaterPause, TooLongAt, Hush, FirstHush, Quiet, CutBack, CountsFrom;
    var g := Seg(c.start, p.window * i);
    assert CutHere(probs, p, g, lo, i);
    ExplainedPush(probs, p, c.found, g, lo);
  }

  /** A window that is not silent. */
  lemma WatchPast(probs: seq<real>, p: Params, c: Scan, lo: int, i: nat)
    requires p.Ok() && Watched(probs, p, c, lo, i, i + 1) && (!Silent(probs, p, i) || !c.speaking)
    ensures Watched(probs, p, c, lo, i + 1, i + 1)
  {
    hide AllExplained, NoPause, LongPause, NoLaterPause, Silent, NoLoud, CountsFrom;
    if c.speaking {
      PauseMore(probs, p, p.MinSilence(), lo, i);
      MarksPast(probs, p, c, lo, i);
    }
  }

  lemma MarksPast(probs: seq<real>, p: Params, c: Scan, lo: int, i: nat)
    requires p.Ok() && Watched(probs, p, c, lo, i, i + 1) && c.speaking
    requires forall e :: 0 <= e < i && Silent(probs, p, e) && Silent(probs, p, i) && lo < p.window * e ==>
      p.window * i - p.window * e <= 1568 || !NoLoud(probs, p, e, i + 1)
    ensures if c.prevEnd == 0 then NoPause(probs, p, 1569, lo, p.window * (i + 1))
            else LongPause(probs, p, c.prevEnd, p.window * (i + 1))
                 && NoLaterPause(probs, p, c.prevEnd, p.window * (i + 1))
  {
    hide AllExplained, NoPause, LongPause, NoLaterPause, Silent, NoLoud, CountsFrom, Noted;
    if c.prevEnd == 0 {
      PauseMore(probs, p, 1569, lo, i);
    } else {
      LaterWindow(p, i, i);
      LongPauseMore(probs, p, c.prevEnd, p.window * i, p.window * (i + 1));
      LaterPauseMore(probs, p, c.prevEnd, i);
    }
  }

  /** A window of silence in a segment that goes on: the silence at `t` is too short to end it. */
  lemma WatchSilent(probs: seq<real>, p: Params, c: Scan, lo: int, i: nat, t: int)
    requires p.Ok() && i < |probs| && Watched(probs, p, c, lo, i, i + 1) && c.speaking && Silent(probs, p, i)
    requires t == (if c.tempEnd == 0 then p.window * i else c.tempEnd) && 0 < t <= p.window * i
    requires lo <= p.window * i && Quiet(probs, p, t, p.window * i + p.window)
    ensures Noted(probs, p, lo, t, i + 1, i + 1)
    ensures var prev := if p.window * i - t > 1568 then t else c.prevEnd;
            p.window * i - t < p.MinSilence() ==>
              Watched(probs, p, c.(tempEnd := t, prevEnd := prev), lo, i + 1, i + 1)
  {
    hide AllExplained, NoPause, LongPause, NoLaterPause, CountsFrom, Silent, NoLoud, Quiet;
    var at := p.window * i;
    assert forall e :: 0 <= e < i && Silent(probs, p, e) && lo < p.window * e && NoLoud(probs, p, e, i + 1) ==>
        t <= p.window * e;
    if at - t < p.MinSilence() {
      PauseMore(probs, p, p.MinSilence(), lo, i);
      if at - t > 1568 {
        LongFrom(probs, p, t, i);
      } else {
        MarksPast(probs, p, c, lo, i);
      }
    }
  }

  lemma LongFrom(probs: seq<real>, p: Params, t: int, i: nat)
    requires p.Ok() && i < |probs| && Silent(probs, p, i) && p.window * i - t > 1568
    requires Quiet(probs, p, t, p.window * i + p.window)
    ensures LongPause(probs, p, t, p.window * (i + 1)) && NoLaterPause(probs, p, t, p.window * (i + 1))
  {
    hide Silent, NoLoud, Loud;
    LaterWindow(p, i, i);
    assert PausesTo(probs, p, t, i);
    forall e, f | 0 <= e < f < |probs| && Silent(probs, p, e) && Silent(probs, p, f)
      && t < p.window * e && p.window * f < p.window * (i + 1) && p.window * f - p.window * e > 1568
      ensures Quiet(probs, p, t, p.window * e + 1)
    {
    }
  }

  /** A silence that has lasted the minimum ends the segment where it began. */
  lemma WatchEnds(probs: seq<real>, p: Params, c: Scan, lo: int, i: nat, t: int, next: Scan)
    requires p.Ok() && i < |probs| && Watched(probs, p, c, lo, i, i + 1) && c.speaking
    requires Noted(probs, p, lo, t, i + 1, i + 1) && Quiet(probs, p, t, p.window * i + p.window) && Hush(probs, p, t)
    requires t <= p.window * i && p.window * i - t >= p.MinSilence() && !next.speaking
    requires next.found == if t - c.start > p.MinSpeech() then c.found + [Seg(c.start, t)] else c.found
    ensures Watched(probs, p, next, lo, i + 1, i + 1)
  {
    hide AllExplained, NoPause, LongPause, NoLaterPause, CountsFrom, Hush, Noted, FirstHush, CutBack, CutHere;
    if t - c.start > p.MinSpeech() {
      var g := Seg(c.start, t);
      PauseLess(probs, p, p.MinSilence(), lo, t, p.window * i);
      FirstOfSilence(probs, p, lo, i, t);
      assert EndsRight(probs, p, g, lo);
      ExplainedPush(probs, p, c.found, g, lo);
    }
  }

  lemma FirstOfSilence(probs: seq<real>, p: Params, lo: int, i: nat, t: int)
    requires p.Ok() && i < |probs| && Noted(probs, p, lo, t, i + 1, i + 1) && t <= p.window * i
    requires Quiet(probs, p, t, p.window * i + p.window)
    ensures FirstHush(probs, p, lo, t)
  {
    hide Silent, Loud;
    forall e | 0 <= e < |probs| && Silent(probs, p, e) && lo < p.window * e < t
      ensures !Quiet(probs, p, p.window * e, t + 1)
    {
      Scaled(p.window, e, i);
      var k :| e < k < i + 1 && Loud(probs, p, k);
      Scaled(p.window, e, k);
      LaterWindow(p, i, k);
    }
  }

  /** Silences that end by window `i` or go past it. */
  lemma PauseMore(probs: seq<real>, p: Params, least: int, lo: int, i: nat)
    requires p.Ok() && NoPause(probs, p, least, lo, p.window * i)
    requires forall e :: 0 <= e < i && Silent(probs, p, e) && Silent(probs, p, i) && lo < p.window * e ==>
      p.window * i - p.window * e < least || !NoLoud(probs, p, e, i + 1)
    ensures NoPause(probs, p, least, lo, p.window * (i + 1))
  {
    hide Silent, NoLoud;
    forall e, f | 0 <= e < f < |probs| && Silent(probs, p, e) && Silent(probs, p, f)
      && lo < p.window * e && p.window * f < p.window * (i + 1) && p.window * f - p.window * e >= least
      ensures !NoLoud(probs, p, e, f + 1)
    {
      LaterWindow(p, i, f);
    }
  }

  lemma LaterPauseMore(probs: seq<real>, p: Params, x: int, i: nat)
    requires p.Ok() && NoLaterPause(probs, p, x, p.window * i)
    requires forall e :: 0 <= e < i && Silent(probs, p, e) && Silent(probs, p, i) && x < p.window * e ==>
      p.window * i - p.window * e <= 1568 || !NoLoud(probs, p, e, i + 1)
    ensures NoLaterPause(probs, p, x, p.window * (i + 1))
  {
    hide Silent, NoLoud, Quiet;
    forall e, f | 0 <= e < f < |probs| && Silent(probs, p, e) && Silent(probs, p, f)
      && x < p.window * e && p.window * f < p.window * (i + 1) && p.window * f - p.window * e > 1568
      ensures Quiet(probs, p, x, p.window * e + 1) || !NoLoud(probs, p, e, f + 1)
    {
      LaterWindow(p, i, f);
    }
  }

  lemma LongPauseMore(probs: seq<real>, p: Params, x: int, lo: int, hi: int)
    requires LongPause(probs, p, x, lo) && lo <= hi
    ensures LongPause(probs, p, x, hi)
  {
    hide PausesTo;
  }

  lemma PauseLess(probs: seq<real>, p: Params, least: int, lo: int, hi: int, top: int)
    requires NoPause(probs, p, least, lo, top) && hi <= top
    ensures NoPause(probs, p, least, lo, hi)
  {
    hide Silent, NoLoud;
  }

  lemma LaterWindow(p: Params, i: int, k: int)
    requires p.window > 0
    ensures p.window * k < p.window * (i + 1) <==> k <= i
    ensures p.window * (i + 1) == p.window * i + p.window
    ensures p.window * k < p.window * i <==> k < i
  {
    assert p.window * (i + 1) == p.window * i + p.window;
    Scaled(p.window, k, i + 1);
    Scaled(p.window, k, i);
  }

  /** Scaling by a positive factor keeps the order. */
  lemma Scaled(w: int, a: int, b: int)
    requires w > 0
    ensures w * a < w * b <==> a < b
  {
    var wa, wb, wd := w * a, w * b, w * (b - a);
    assert wd == wb - wa;
    SignOf(w, b - a);
  }

  lemma SignOf(w: int, d: int)
    requires w > 0
    ensures w * d > 0 <==> d > 0
  {
    if d > 0 {
      assert w * d >= w * 1;
    } else {
      assert w * d <= w * 0;
    }
  }

  lemma QuietMore(probs: seq<real>, p: Params, lo: int, i: int)
    requires p.Ok() && Quiet(probs, p, lo, p.window * i) && (!Loud(probs, p, i) || lo >= p.window * i)
    ensures Quiet(probs, p, lo, p.window * (i + 1))
  {
    forall k | 0 <= k < |probs| && lo < p.window * k < p.window * (i + 1) ensures !Loud(probs, p, k) {
      LaterWindow(p, i, k);
    }
  }

  lemma CoveredMore(probs: seq<real>, p: Params, found: seq<Seg>, dropped: seq<Seg>, i: int)
    requires p.Ok() && Covered(probs, p, found, dropped, p.window * i) && !Loud(probs, p, i)
    ensures Covered(probs, p, found, dropped, p.window * (i + 1))
  {
    forall k | 0 <= k < |probs| && p.window * k < p.window * (i + 1) && Loud(probs, p, k)
      ensures Inside(found, p.window * k) || Inside(dropped, p.window * k)
    {
      LaterWindow(p, i, k);
    }
  }

  /** A window without likely speech leaves everything as it is. */
  lemma NotLoudKeeps(probs: seq<real>, p: Params, c: Scan, i: nat, dropped: seq<Seg>)
    requires p.Ok() && i < |probs| && Sound(probs, p, c, dropped, p.window * i) && !Loud(probs, p, i)
    ensures Sound(probs, p, c, dropped, p.window * (i + 1))
  {
    hide Quiet, Covered, Ordered, Detected, TooShort, Loud, Speech, Hush;
    LaterWindow(p, i, i);
    if c.speaking {
      if c.tempEnd != 0 {
        QuietMore(probs, p, c.tempEnd, i);
      }
      if c.prevEnd == 0 {
        NoneBetween(probs, p, p.window * (i + 1), c.nextStart);
      } else if c.nextStart < c.prevEnd {
        QuietMore(probs, p, c.prevEnd, i);
      }
    } else {
      CoveredMore(probs, p, c.found, dropped, i);
      OrderedUp(c.found, p.window * i, p.window * (i + 1));
    }
  }

  lemma NoneBetween(probs: seq<real>, p: Params, lo: int, hi: int)
    requires hi <= lo
    ensures Quiet(probs, p, lo, hi)
  {
  }

  /** Likely speech in a segment drops a noted end. */
  lemma LoudResets(probs: seq<real>, p: Params, c: Scan, i: nat, dropped: seq<Seg>)
    requires p.Ok() && i < |probs| && Sound(probs, p, c, dropped, p.window * i) && c.speaking && Loud(probs, p, i)
    ensures var next := if c.tempEnd != 0 && c.nextStart < c.prevEnd then p.window * i else c.nextStart;
            Sound(probs, p, c.(tempEnd := 0, nextStart := next), dropped, p.window * (i + 1))
  {
    hide Quiet, Covered, Ordered, Detected, TooShort, Loud, Hush;
    LaterWindow(p, i, i);
    if c.prevEnd == 0 {
      NoneBetween(probs, p, p.window * (i + 1), c.nextStart);
    }
  }

  /** A segment that begins in this window. */
  lemma LoudBegins(probs: seq<real>, p: Params, c: Scan, i: nat, dropped: seq<Seg>)
    requires p.Ok() && i < |probs| && Sound(probs, p, c, dropped, p.window * i) && !c.speaking && Loud(probs, p, i)
    ensures Sound(probs, p, c.(speaking := true, start := p.window * i), dropped, p.window * (i + 1))
  {
    hide Quiet, Covered, Ordered, Detected, TooShort, Loud, Hush;
    LaterWindow(p, i, i);
    NoneBetween(probs, p, p.window * (i + 1), 0);
  }

  /** Likely speech drops a noted end, and begins a segment when there is none. */
  method Begin(probs: seq<real>, p: Params, c0: Scan, i: nat, ghost dropped: seq<Seg>, ghost lo0: int)
    returns (c: Scan, started: bool, ghost lo: int)
    requires p.Ok() && i < |probs| && Sound(probs, p, c0, dropped, p.window * i)
    requires Watched(probs, p, c0, lo0, i, i)
    ensures Sound(probs, p, c, dropped, p.window * (i + 1))
    ensures started <==> probs[i] >= p.threshold && !c0.speaking
    ensures started ==> c.speaking && c.start == p.window * i
    ensures !started ==> c.speaking == c0.speaking && c.start == c0.start && c.found == c0.found
    ensures c0.speaking && probs[i] >= p.threshold ==> c.tempEnd == 0
    ensures Watched(probs, p, c, lo, if started then i + 1 else i, i + 1) && (lo == lo0 || lo == p.window * i)
  {
    hide Sound, Watched;
    lo := lo0;
    var loud := probs[i] >= p.threshold;
    if !loud {
      NotLoudKeeps(probs, p, c0, i, dropped);
      WatchOn(probs, p, c0, lo, i);
    } else if c0.speaking {
      LoudResets(probs, p, c0, i, dropped);
      WatchLoud(probs, p, c0, lo, i, if c0.tempEnd != 0 && c0.nextStart < c0.prevEnd then p.window * i
        else c0.nextStart);
    } else {
      LoudBegins(probs, p, c0, i, dropped);
      UnsetMarks(probs, p, c0, i, dropped);
      lo := p.window * i;
      WatchBegins(probs, p, c0, lo0, i);
    }
    c, started := c0, false;
    var at := p.window * i;
    if loud && c.tempEnd != 0 {
      c := c.(tempEnd := 0);
      if c.nextStart < c.prevEnd {
        c := c.(nextStart := at);
      }
    }
    if loud && !c.speaking {
      return c.(speaking := true, start := at), true, lo;
    }
  }

  lemma UnsetMarks(probs: seq<real>, p: Params, c: Scan, i: nat, dropped: seq<Seg>)
    requires Sound(probs, p, c, dropped, p.window * i) && !c.speaking
    ensures c.tempEnd == 0 && c.prevEnd == 0 && c.nextStart == 0
  {
  }

  lemma ListsPush(probs: seq<real>, p: Params, found: seq<Seg>, dropped: seq<Seg>, g: Seg, top: int)
    requires ListsOk(probs, p, found, dropped, g.start) && 0 <= g.start <= g.end <= top
    requires Detected(probs, p, g) && Quiet(probs, p, g.end, top)
    ensures ListsOk(probs, p, found + [g], dropped, top)
  {
    hide Quiet, Covered, Ordered, Detected, TooShort, Hush;
    CoverMore(probs, p, found, dropped, g, top);
    OrderedPush(found, g.start, g, top);
  }

  lemma ListsDrop(probs: seq<real>, p: Params, found: seq<Seg>, dropped: seq<Seg>, g: Seg, top: int)
    requires ListsOk(probs, p, found, dropped, g.start) && 0 <= g.start <= g.end <= top
    requires TooShort(probs, p, g) && Quiet(probs, p, g.end, top)
    ensures ListsOk(probs, p, found, dropped + [g], top)
  {
    hide Quiet, Covered, Ordered, Detected, TooShort, Hush;
    CoverMore(probs, p, found, dropped, g, top);
    OrderedUp(found, g.start, top);
  }

  lemma NoWindowWithin(probs: seq<real>, p: Params, i: int)
    requires p.Ok()
    ensures Quiet(probs, p, p.window * i, p.window * (i + 1))
  {
    forall k: int ensures !(p.window * i < p.window * k < p.window * (i + 1)) {
      LaterWindow(p, i, k);
      LaterWindow(p, i - 1, k);
    }
  }

  /** A segment that has become too long is split at the last long enough silence, or here. */
  method Split(probs: seq<real>, p: Params, c0: Scan, i: nat, ghost dropped: seq<Seg>, ghost lo0: int)
    returns (c: Scan, ghost lo: int)
    requires p.Ok() && i < |probs| && Sound(probs, p, c0, dropped, p.window * (i + 1)) && c0.speaking
    requires p.window * i - c0.start <= p.MaxSpeech() + p.window && Watched(probs, p, c0, lo0, i, i + 1)
    requires lo0 <= p.window * i
    ensures Sound(probs, p, c, dropped, p.window * (i + 1))
    ensures c.speaking ==> p.window * i - c.start <= p.MaxSpeech()
    ensures Watched(probs, p, c, lo, i, i + 1) && lo <= p.window * i
  {
    hide Quiet, Covered, Ordered, TooShort, Speech, ListsOk, Hush, Params.MaxSpeech, Watched;
    c, lo := c0, lo0;
    var at := p.window * i;
    LaterWindow(p, i, i);
    NoWindowWithin(probs, p, i);
    if at - c.start > p.MaxSpeech() {
      if c.prevEnd != 0 {
        ListsPush(probs, p, c.found, dropped, Seg(c.start, c.prevEnd),
                  if c.nextStart < c.prevEnd then at + p.window else c.nextStart);
        c := c.(found := c.found + [Seg(c.start, c.prevEnd)]);
        if c.nextStart < c.prevEnd {
          c := c.(speaking := false);
        } else {
          c := c.(start := c.nextStart);
        }
        c := c.(prevEnd := 0, nextStart := 0, tempEnd := 0);
        WatchCutBack(probs, p, c0, lo0, i, c);
        lo := at;
      } else {
        ListsPush(probs, p, c.found, dropped, Seg(c.start, at), at + p.window);
        c := c.(found := c.found + [Seg(c.start, at)]);
        c := c.(prevEnd := 0, nextStart := 0, tempEnd := 0, speaking := false);
        WatchCutHere(probs, p, c0, lo0, i, c);
      }
      NoneBetween(probs, p, at + p.window, 0);
    }
  }

  lemma SilentHushes(probs: seq<real>, p: Params, i: nat)
    requires Silent(probs, p, i)
    ensures Hush(probs, p, p.window * i)
  {
  }

  /** A window of silence in a segment notes where it began; when it has lasted long enough
      the segment ends there, and is kept if it is long enough. */
  method Silence(probs: seq<real>, p: Params, c0: Scan, i: nat, ghost dropped: seq<Seg>, ghost lo: int)
    returns (c: Scan, ghost out: seq<Seg>)
    requires p.Ok() && 0 < i < |probs| && Sound(probs, p, c0, dropped, p.window * (i + 1)) && c0.speaking
    requires p.window * i - c0.start <= p.MaxSpeech() && Silent(probs, p, i)
    requires Watched(probs, p, c0, lo, i, i + 1) && lo <= p.window * i
    ensures Sound(probs, p, c, out, p.window * (i + 1))
    ensures c.speaking ==> c.start == c0.start
    ensures Watched(probs, p, c, lo, i + 1, i + 1)
  {
    hide Watched, Noted, Covered, Ordered, Speech, ListsOk, Loud, Silent, Hush, Params.MaxSpeech, Params.MinSpeech,
      Params.MinSilence;
    c, out := c0, dropped;
    var at := p.window * i;
    assert Hush(probs, p, at) by { SilentHushes(probs, p, i); }
    LaterWindow(p, i, i);
    LaterWindow(p, i, 0);
    NoWindowWithin(probs, p, i);
    if c.tempEnd == 0 {
      c := c.(tempEnd := at);
    }
    assert Sound(probs, p, c, out, at + p.window);
    if at - c.tempEnd > SILENCE_AT_MAX {
      c := c.(prevEnd := c.tempEnd);
    }
    assert Sound(probs, p, c, out, at + p.window);
    WatchSilent(probs, p, c0, lo, i, c.tempEnd);
    ghost var t := c.tempEnd;
    if at - c.tempEnd < p.MinSilence() {
      return;
    }
    if c.tempEnd - c.start > p.MinSpeech() {
      ListsPush(probs, p, c.found, out, Seg(c.start, c.tempEnd), at + p.window);
      c := c.(found := c.found + [Seg(c.start, c.tempEnd)]);
    } else {
      ListsDrop(probs, p, c.found, out, Seg(c.start, c.tempEnd), at + p.window);
      out := out + [Seg(c.start, c.tempEnd)];
    }
    c := c.(prevEnd := 0, nextStart := 0, tempEnd := 0, speaking := false);
    WatchEnds(probs, p, c0, lo, i, t, c);
  }

  /** The scan. What it finds is in order, disjoint, inside the audio, begins with likely
      speech and is never much longer than allowed; all likely speech is found, except for
      stretches that are too short. */
  method Detect(probs: seq<real>, p: Params) returns (found: seq<Seg>, ghost dropped: seq<Seg>)
    requires p.Ok()
    ensures ListsOk(probs, p, found, dropped, p.window * |probs|) && AllExplained(probs, p, found)
  {
    hide Sound, Watched, AllExplained, ListsOk, Silent, Params.MaxSpeech, Params.MinSpeech, Params.MinSilence;
    var c := START;
    dropped := [];
    ghost var lo := 0;
    NothingYet(probs, p);
    for i := 0 to |probs|
      invariant Sound(probs, p, c, dropped, p.window * i)
      invariant c.speaking ==> p.window * i - c.start <= p.MaxSpeech() + p.window && i > 0
      invariant Watched(probs, p, c, lo, i, i) && lo <= p.window * i
    {
      var started;
      LaterWindow(p, i, i);
      c, started, lo := Begin(probs, p, c, i, dropped, lo);
      if started {
        continue;
      }
      if c.speaking {
        c, lo := Split(probs, p, c, i, dropped, lo);
      }
      SilentIs(probs, p, i);
      if probs[i] < p.NegThreshold() && c.speaking {
        c, dropped := Silence(probs, p, c, i, dropped, lo);
      } else {
        WatchPast(probs, p, c, lo, i);
      }
    }
    found, dropped := Finish(probs, p, c, dropped, lo);
  }

  lemma SilentIs(probs: seq<real>, p: Params, i: nat)
    requires i < |probs|
    ensures Silent(probs, p, i) <==> probs[i] < p.NegThreshold()
  {
  }

  lemma NothingYet(probs: seq<real>, p: Params)
    requires p.Ok()
    ensures Sound(probs, p, START, [], p.window * 0) && Watched(probs, p, START, 0, 0, 0)
  {
    forall i | 0 <= i ensures p.window * i >= 0 {
    }
  }

  /** A segment that is open at the end of the audio. */
  method Finish(probs: seq<real>, p: Params, c: Scan, ghost dropped: seq<Seg>, ghost lo: int)
    returns (found: seq<Seg>, ghost out: seq<Seg>)
    requires p.Ok() && Sound(probs, p, c, dropped, p.window * |probs|)
    requires c.speaking ==> p.window * |probs| - c.start <= p.MaxSpeech() + p.window
    requires Watched(probs, p, c, lo, |probs|, |probs|)
    ensures ListsOk(probs, p, found, out, p.window * |probs|) && AllExplained(probs, p, found)
  {
    WatchFinish(probs, p, c, lo);
    hide Watched, AllExplained, Covered, Ordered, Speech, ListsOk, Params.MaxSpeech, Params.MinSpeech,
      Params.MinSilence;
    assert Hush(probs, p, p.window * |probs|);
    found, out := c.found, dropped;
    var length := p.window * |probs|;
    if c.speaking {
      NoneAfter(probs, p, length);
      NoneAfter(probs, p, length + p.MinSilence());
      if length - c.start > p.MinSpeech() {
        ListsPush(probs, p, found, out, Seg(c.start, length), length);
        found := found + [Seg(c.start, length)];
      } else {
        ListsDrop(probs, p, found, out, Seg(c.start, length), length);
        out := out + [Seg(c.start, length)];
      }
    }
  }

  lemma WatchFinish(probs: seq<real>, p: Params, c: Scan, lo: int)
    requires Watched(probs, p, c, lo, |probs|, |probs|)
    ensures AllExplained(probs, p, c.found)
    ensures c.speaking && p.window * |probs| - c.start > p.MinSpeech() ==>
      AllExplained(probs, p, c.found + [Seg(c.start, p.window * |probs|)])
  {
    hide AllExplained, NoPause, LongPause, NoLaterPause, CountsFrom, Hush, Noted, FirstHush, CutBack, CutHere;
    var g := Seg(c.start, p.window * |probs|);
    if c.speaking && g.Length() > p.MinSpeech() {
      assert EndsRight(probs, p, g, lo);
      ExplainedPush(probs, p, c.found, g, lo);
    }
  }

  lemma NoneAfter(probs: seq<real>, p: Params, hi: int)
    requires p.Ok()
    ensures Quiet(probs, p, p.window * |probs|, hi)
  {
    forall k | k < |probs| ensures p.window * k < p.window * |probs| {
      LaterWindow(p, |probs|, k);
    }
  }

  // ------------------------------------------------------------------- merging

  /** Neighbours closer than the merge gap become one, from the front on. */
  function Merged(s: seq<Seg>): seq<Seg>
    decreases |s|
  {
    if |s| <= 1 then s
    else if s[1].start - s[0].end < MERGE_GAP then Merged([Seg(s[0].start, s[1].end)] + s[2..])
    else [s[0]] + Merged(s[1..])
  }

  predicate Apart(s: seq<Seg>) {
    forall i, j :: 0 <= i && j == i + 1 < |s| ==> s[j].start - s[i].end >= 3200
  }

  predicate InOne(g: Seg, t: seq<Seg>) {
    exists k :: 0 <= k < |t| && t[k].start <= g.start && g.end <= t[k].end
  }

  /** Every segment of `s` lies in one of `t`. */
  predicate Held(s: seq<Seg>, t: seq<Seg>) {
    forall i :: 0 <= i < |s| ==> InOne(s[i], t)
  }

  /** A merged segment goes from the start of one segment to the end of the same or a later one,
      across gaps of less than 200 ms only. */
  ghost predicate Joins(s: seq<Seg>, m: Seg) {
    exists i, j :: JoinsFromTo(s, m, i, j)
  }

  predicate JoinsFromTo(s: seq<Seg>, m: Seg, i: int, j: int) {
    && 0 <= i <= j < |s| && m == Seg(s[i].start, s[j].end)
    && forall k :: i < k <= j ==> s[k].start - s[k - 1].end < 3200
  }

  ghost predicate AllJoin(s: seq<Seg>, t: seq<Seg>) {
    forall k :: 0 <= k < |t| ==> Joins(s, t[k])
  }

  lemma JoinsSame(s: seq<Seg>)
    ensures AllJoin(s, s)
  {
    forall k | 0 <= k < |s| ensures Joins(s, s[k]) {
      assert JoinsFromTo(s, s[k], k, k);
    }
  }

  lemma JoinsMore(s: seq<Seg>, m: seq<Seg>)
    requires |s| > 1 && s[1].start - s[0].end < MERGE_GAP
    requires AllJoin([Seg(s[0].start, s[1].end)] + s[2..], m)
    ensures AllJoin(s, m)
  {
    var t := [Seg(s[0].start, s[1].end)] + s[2..];
    assert forall k :: 1 <= k < |t| ==> t[k] == s[k + 1];
    forall k | 0 <= k < |m| ensures Joins(s, m[k]) {
      assert Joins(t, m[k]);
      var i, j :| JoinsFromTo(t, m[k], i, j);
      var i', j' := if i == 0 then 0 else i + 1, j + 1;
      forall n | i' < n <= j' ensures s[n].start - s[n - 1].end < 3200 {
        if n > 1 {
          assert t[n - 1].start - t[n - 2].end < 3200;
        }
      }
      assert JoinsFromTo(s, m[k], i', j');
    }
  }

  lemma JoinsBehind(s: seq<Seg>, m: seq<Seg>)
    requires s != [] && AllJoin(s[1..], m)
    ensures AllJoin(s, [s[0]] + m)
  {
    var t := [s[0]] + m;
    forall k | 0 <= k < |t| ensures Joins(s, t[k]) {
      if k == 0 {
        assert JoinsFromTo(s, s[0], 0, 0);
      } else {
        assert Joins(s[1..], m[k - 1]);
        var i, j :| JoinsFromTo(s[1..], m[k - 1], i, j);
        forall n | i + 1 < n <= j + 1 ensures s[n].start - s[n - 1].end < 3200 {
          assert s[1..][n - 1].start - s[1..][n - 2].end < 3200;
        }
        assert JoinsFromTo(s, t[k], i + 1, j + 1);
      }
    }
  }

  /** Merging keeps the order and the bounds, joins what is close and nothing else, and loses
      nothing. */
  lemma {:induction false} MergedIs(s: seq<Seg>, hi: int)
    requires Ordered(s, hi)
    ensures Ordered(Merged(s), hi) && Apart(Merged(s)) && Held(s, Merged(s)) && AllJoin(s, Merged(s))
    ensures (Merged(s) == [] <==> s == []) && (s != [] ==> Merged(s)[0].start == s[0].start)
    decreases |s|
  {
    hide Ordered, Held, Apart, AllJoin;
    if |s| > 1 {
      OrderedRest(s, hi);
      if s[1].start - s[0].end < MERGE_GAP {
        var t := [Seg(s[0].start, s[1].end)] + s[2..];
        MergedIs(t, hi);
        MergeHolds(s, Merged(t));
        JoinsMore(s, Merged(t));
      } else {
        MergedIs(s[1..], hi);
        PrependOk(s[0], Merged(s[1..]), hi);
        HeldBehind(s, Merged(s[1..]));
        JoinsBehind(s, Merged(s[1..]));
      }
    } else {
      HeldSame(s);
      JoinsSame(s);
    }
  }

  lemma OrderedRest(s: seq<Seg>, hi: int)
    requires Ordered(s, hi) && |s| > 1
    ensures Ordered(s[1..], hi) && Ordered([Seg(s[0].start, s[1].end)] + s[2..], hi)
    ensures 0 <= s[0].start <= s[0].end <= s[1].start <= s[1].end <= hi
  {
    var t := [Seg(s[0].start, s[1].end)] + s[2..];
    assert forall i :: 0 < i < |t| ==> t[i] == s[i + 1];
  }

  lemma HeldSame(s: seq<Seg>)
    requires |s| <= 1
    ensures Held(s, s) && Apart(s)
  {
    forall i | 0 <= i < |s| ensures InOne(s[i], s) {
      assert s[i].start <= s[i].start && s[i].end <= s[i].end;
    }
  }

  lemma MergeHolds(s: seq<Seg>, m: seq<Seg>)
    requires |s| > 1 && s[0].end <= s[1].end && s[0].start <= s[1].start
    requires Held([Seg(s[0].start, s[1].end)] + s[2..], m)
    ensures Held(s, m)
  {
    var t := [Seg(s[0].start, s[1].end)] + s[2..];
    forall i | 0 <= i < |s| ensures InOne(s[i], m) {
      var j := if i <= 1 then 0 else i - 1;
      assert InOne(t[j], m);
    }
  }

  lemma HeldBehind(s: seq<Seg>, m: seq<Seg>)
    requires s != [] && Held(s[1..], m)
    ensures Held(s, [s[0]] + m)
  {
    var t := [s[0]] + m;
    forall i | 0 <= i < |s| ensures InOne(s[i], t) {
      if i == 0 {
        assert t[0] == s[0];
      } else {
        assert InOne(s[1..][i - 1], m);
        var k :| 0 <= k < |m| && m[k].start <= s[1..][i - 1].start && s[1..][i - 1].end <= m[k].end;
        assert t[k + 1] == m[k];
      }
    }
  }

  lemma PrependOk(g: Seg, m: seq<Seg>, hi: int)
    requires Ordered(m, hi) && Apart(m) && 0 <= g.start <= g.end <= hi
    requires m != [] && m[0].start - g.end >= MERGE_GAP
    ensures Ordered([g] + m, hi) && Apart([g] + m)
  {
    var t := [g] + m;
    assert forall i :: 0 < i < |t| ==> t[i] == m[i - 1];
    forall j | 0 < j < |t| ensures t[0].end <= t[j].start {
      assert m[0].start <= m[0].end;
      assert j > 1 ==> m[0].end <= m[j - 1].start;
    }
  }

  method Merge(s0: seq<Seg>) returns (s: seq<Seg>)
    ensures s == Merged(s0)
  {
    s := s0;
    if |s| > 1 {
      var i := 0;
      while i < |s| - 1
        invariant 0 <= i <= |s| && s != []
        invariant s[..i] + Merged(s[i..]) == Merged(s0)
        decreases |s| - i
      {
        ghost var was := s;
        assert was[i..][0] == was[i] && was[i..][1] == was[i + 1];
        if s[i + 1].start - s[i].end < MERGE_GAP {
          s := s[i := Seg(s[i].start, s[i + 1].end)];
          s := s[..i + 1] + s[i + 2..];
          assert s[i..] == [Seg(was[i].start, was[i + 1].end)] + was[i..][2..];
          assert s[..i] == was[..i];
        } else {
          assert was[i..][1..] == was[i + 1..];
          assert was[..i + 1] == was[..i] + [was[i]];
          i := i + 1;
        }
      }
    }
  }

  // ----------------------------------------------------------- minimum duration

  function LongEnough(s: seq<Seg>, least: int): seq<Seg> {
    if s == [] then []
    else (if s[0].Length() < least then [] else [s[0]]) + LongEnough(s[1..], least)
  }

  /** What is lost was too short. */
  lemma {:induction false} LongEnoughIs(s: seq<Seg>, least: int, g: Seg)
    ensures g in LongEnough(s, least) <==> g in s && g.Length() >= least
    decreases |s|
  {
    if s != [] {
      LongEnoughIs(s[1..], least, g);
    }
  }

  lemma {:induction false} LongEnoughOrdered(s: seq<Seg>, least: int, hi: int)
    requires Ordered(s, hi)
    ensures Ordered(LongEnough(s, least), hi)
    decreases |s|
  {
    hide LongEnough;
    LongEnoughStep(s, least);
    if s != [] {
      LongEnoughOrdered(s[1..], least, hi);
      var r := LongEnough(s[1..], least);
      forall k | 0 <= k < |r| ensures s[0].end <= r[k].start {
        LongEnoughIs(s[1..], least, r[k]);
      }
    }
  }

  lemma LongEnoughStep(s: seq<Seg>, least: int)
    ensures LongEnough(s, least) ==
            if s == [] then []
            else if s[0].Length() < least then LongEnough(s[1..], least)
            else [s[0]] + LongEnough(s[1..], least)
  {
  }

  method RemoveShort(s0: seq<Seg>, least: int) returns (s: seq<Seg>)
    ensures s == LongEnough(s0, least)
  {
    s := s0;
    var i := 0;
    while i < |s|
      invariant 0 <= i <= |s|
      invariant s[..i] + LongEnough(s[i..], least) == LongEnough(s0, least)
      decreases |s| - i
    {
      ghost var was := s;
      assert was[i..][0] == was[i] && was[i..][1..] == was[i + 1..];
      if s[i].Length() < least {
        s := s[..i] + s[i + 1..];
        assert s[i..] == was[i + 1..] && s[..i] == was[..i];
      } else {
        assert was[..i + 1] == was[..i] + [was[i]];
        i := i + 1;
      }
    }
  }

  // -------------------------------------------------------------------- padding

  /** `(int64_t)(samples / 16000.0 * 100.0 + 0.5)`, for a sample count that is not negative. */
  function ToCs(samples: int): int {
    (samples + 80) / 160
  }

  /** The time in centiseconds is the nearest one, 160 samples each; the later one of two. */
  predicate NearestCs(cs: int, samples: int) {
    160 * cs - 80 <= samples < 160 * cs + 80
  }

  function CsOf(g: Seg): Seg {
    Seg(ToCs(g.start), ToCs(g.end))
  }

  lemma CsKeepsOrder(a: int, b: int)
    requires 0 <= a <= b
    ensures ToCs(a) <= ToCs(b) && (b - a >= 160 ==> ToCs(a) < ToCs(b))
  {
  }

  /** Each segment grew. */
  predicate Grew(s: seq<Seg>, t: seq<Seg>) {
    |s| == |t| && forall k :: 0 <= k < |s| ==> t[k].start <= s[k].start && s[k].end <= t[k].end
  }

  /** Order in terms of neighbours. */
  predicate Chain(s: seq<Seg>, hi: int) {
    && (forall i :: 0 <= i < |s| ==> 0 <= s[i].start <= s[i].end <= hi)
    && (forall i, j :: 0 <= i && j == i + 1 < |s| ==> s[i].end <= s[j].start)
  }

  lemma ChainIsOrder(s: seq<Seg>, hi: int)
    ensures Chain(s, hi) <==> Ordered(s, hi)
  {
    if Chain(s, hi) {
      forall i, j | 0 <= i < j < |s| ensures s[i].end <= s[j].start {
        ChainReaches(s, hi, i, j);
      }
    }
  }

  lemma {:induction false} ChainReaches(s: seq<Seg>, hi: int, i: nat, j: nat)
    requires Chain(s, hi) && i < j < |s|
    ensures s[i].end <= s[j].start
    decreases j
  {
    assert s[j - 1].end <= s[j].start;
    if i < j - 1 {
      ChainReaches(s, hi, i, j - 1);
    }
  }

  /** Segment `b` is segment `a` with at most `pad` more on either side. */
  predicate Near(a: Seg, b: Seg, pad: int) {
    a.start - pad <= b.start <= a.start && a.end <= b.end <= a.end + pad
  }

  /** How the gap between two segments is filled: the full padding on either side if it has room
      for both, else each side gets half. */
  predicate GapFilled(a: Seg, b: Seg, end: int, start: int, pad: int, audio: int) {
    var gap := b.start - a.end;
    if gap < 2 * pad then end == a.end + gap / 2 && start == b.start - gap / 2
    else end == (if a.end + pad < audio then a.end + pad else audio) && start == b.start - pad
  }

  /** The starts of the first `i + 1` segments and the ends of the first `i` have been padded. */
  predicate PaddedTo(s0: seq<Seg>, s: seq<Seg>, i: nat, pad: int, audio: int) {
    && |s| == |s0|
    && (|s| > 0 ==> s[0].start == if s0[0].start > pad then s0[0].start - pad else 0)
    && (forall k :: 0 <= k < i && k + 1 < |s| ==> GapFilled(s0[k], s0[k + 1], s[k].end, s[k + 1].start, pad, audio))
    && (i == |s| > 0 ==> s[i - 1].end == if s0[i - 1].end + pad < audio then s0[i - 1].end + pad else audio)
  }

  /** Before segment `i` is padded: those before it are done, and its start is. */
  predicate Padding(s0: seq<Seg>, s: seq<Seg>, i: nat, pad: nat, audio: int) {
    && Chain(s, audio) && |s| == |s0|
    && (forall k :: 0 <= k < |s| ==> Near(s0[k], s[k], pad))
    && (i < |s| ==> s[i].end == s0[i].end)
    && (forall k :: i < k < |s| ==> s[k] == s0[k])
  }

  /** The gap behind segment `i` shrinks to `e..b`. */
  lemma GapShrinks(s0: seq<Seg>, s: seq<Seg>, i: nat, pad: nat, audio: int, e: int, b: int)
    requires i + 1 < |s| && Padding(s0, s, i, pad, audio)
    requires 0 <= s[i].end <= e <= b <= s[i + 1].start && e <= s[i].end + pad && s[i + 1].start - pad <= b
    ensures Padding(s0, s[i := Seg(s[i].start, e)][i + 1 := Seg(b, s[i + 1].end)], i + 1, pad, audio)
  {
    hide Chain;
    var t := s[i := Seg(s[i].start, e)][i + 1 := Seg(b, s[i + 1].end)];
    ChainGap(s, i, audio, e, b);
    assert s[i + 1] == s0[i + 1];
  }

  lemma ChainGap(s: seq<Seg>, i: nat, audio: int, e: int, b: int)
    requires i + 1 < |s| && Chain(s, audio) && 0 <= s[i].end <= e <= b <= s[i + 1].start
    ensures Chain(s[i := Seg(s[i].start, e)][i + 1 := Seg(b, s[i + 1].end)], audio)
  {
    assert 0 <= s[i].start <= s[i].end && s[i + 1].end <= audio && s[i + 1].start <= s[i + 1].end;
  }

  lemma LastGrows(s0: seq<Seg>, s: seq<Seg>, i: nat, pad: nat, audio: int, e: int)
    requires i + 1 == |s| && Padding(s0, s, i, pad, audio) && s[i].end <= e <= audio && e <= s[i].end + pad
    ensures Padding(s0, s[i := Seg(s[i].start, e)], i + 1, pad, audio)
  {
  }

  lemma GapFacts(s: seq<Seg>, i: nat, audio: int)
    requires Chain(s, audio) && i < |s|
    ensures 0 <= s[i].end <= audio && (i + 1 < |s| ==> s[i].end <= s[i + 1].start <= audio)
  {
    assert i + 1 < |s| ==> s[i + 1].start <= s[i + 1].end <= audio;
  }

  /** The end of segment `i` and the start of the next one. */
  method PadEnd(ghost s0: seq<Seg>, s: seq<Seg>, i: nat, pad: nat, audio: int) returns (t: seq<Seg>)
    requires i < |s| && Padding(s0, s, i, pad, audio) && PaddedTo(s0, s, i, pad, audio)
    ensures Padding(s0, t, i + 1, pad, audio) && PaddedTo(s0, t, i + 1, pad, audio)
    ensures forall k :: 0 <= k < i ==> t[k] == s[k]
  {
    hide Chain, Near, GapFilled;
    t := s;
    GapFacts(s, i, audio);
    if i < |s| - 1 {
      var silence := t[i + 1].start - t[i].end;
      if silence < 2 * pad {
        t := t[i := Seg(t[i].start, t[i].end + silence / 2)];
        t := t[i + 1 := Seg(if t[i + 1].start > silence / 2 then t[i + 1].start - silence / 2 else 0, t[i + 1].end)];
      } else {
        t := t[i := Seg(t[i].start, if t[i].end + pad < audio then t[i].end + pad else audio)];
        t := t[i + 1 := Seg(if t[i + 1].start > pad then t[i + 1].start - pad else 0, t[i + 1].end)];
      }
      GapShrinks(s0, s, i, pad, audio, t[i].end, t[i + 1].start);
      assert GapFilled(s0[i], s0[i + 1], t[i].end, t[i + 1].start, pad, audio) by {
        Fills(s0[i], s0[i + 1], t[i].end, t[i + 1].start, pad, audio);
      }
    } else {
      t := t[i := Seg(t[i].start, if t[i].end + pad < audio then t[i].end + pad else audio)];
      LastGrows(s0, s, i, pad, audio, t[i].end);
    }
  }

  lemma Fills(a: Seg, b: Seg, end: int, start: int, pad: nat, audio: int)
    requires 0 <= a.end <= b.start
    requires var gap := b.start - a.end;
             if gap < 2 * pad then end == a.end + gap / 2 && start == if b.start > gap / 2 then b.start - gap / 2 else 0
             else end == (if a.end + pad < audio then a.end + pad else audio)
                  && start == if b.start > pad then b.start - pad else 0
    ensures GapFilled(a, b, end, start, pad, audio)
  {
  }

  lemma NotNegative(s: seq<Seg>, i: nat, audio: int)
    requires Chain(s, audio) && i < |s|
    ensures 0 <= s[i].start <= s[i].end
  {
  }

  lemma NothingPadded(pad: int, audio: int)
    ensures PaddedTo([], [], 0, pad, audio)
  {
  }

  lemma AllNear(s: seq<Seg>, t: seq<Seg>, pad: int)
    requires |s| == |t| && forall k :: 0 <= k < |t| ==> Near(s[k], t[k], pad)
    ensures Grew(s, t)
  {
  }

  lemma FirstPadded(s: seq<Seg>, pad: nat, audio: int)
    requires Chain(s, audio) && s != []
    ensures Padding(s, s[0 := Seg(if s[0].start > pad then s[0].start - pad else 0, s[0].end)], 0, pad, audio)
    ensures PaddedTo(s, s[0 := Seg(if s[0].start > pad then s[0].start - pad else 0, s[0].end)], 0, pad, audio)
  {
  }

  /** Every segment of `s`, padded: at the front, at the back, and in every gap. */
  predicate Padded(s: seq<Seg>, t: seq<Seg>, pad: int, audio: int) {
    && |s| == |t| && (forall k :: 0 <= k < |s| ==> Near(s[k], t[k], pad))
    && PaddedTo(s, t, |s|, pad, audio)
  }

  /** Pads the segments; neighbours that are close share the silence between them. */
  method PadSegments(s0: seq<Seg>, pad: nat, audio: int) returns (s: seq<Seg>, cs: seq<Seg>)
    requires Ordered(s0, audio)
    ensures Ordered(s, audio) && Grew(s0, s) && Padded(s0, s, pad, audio)
    ensures |cs| == |s| && forall k :: 0 <= k < |s| ==> cs[k] == CsOf(s[k])
  {
    hide Ordered, Chain, Near, PaddedTo;
    ChainIsOrder(s0, audio);
    assert s0 == [] ==> PaddedTo(s0, s0, 0, pad, audio) by { NothingPadded(pad, audio); }
    s, cs := s0, [];
    for i := 0 to |s0|
      invariant |s| == |s0| && |cs| == i
      invariant if i == 0 then s == s0 else Padding(s0, s, i, pad, audio) && PaddedTo(s0, s, i, pad, audio)
      invariant forall k :: 0 <= k < i ==> cs[k] == CsOf(s[k])
    {
      if i == 0 {
        FirstPadded(s0, pad, audio);
        s := s[i := Seg(if s[i].start > pad then s[i].start - pad else 0, s[i].end)];
      }
      s := PadEnd(s0, s, i, pad, audio);
      NotNegative(s, i, audio);
      cs := cs + [Seg(ToCs(s[i].start), ToCs(s[i].end))];
    }
    ChainIsOrder(s, audio);
    AllNear(s0, s, pad);
  }

  // ---------------------------------------------------------------- the whole

  /** A merged segment that is shorter than the minimum is lost. */
  predicate Lost(s: seq<Seg>, least: int, at: int) {
    exists k :: 0 <= k < |s| && s[k].Length() < least && s[k].start <= at <= s[k].end
  }

  /** The segments are in order, disjoint, inside the audio and long enough: the scan's findings,
      merged, without the short ones, and padded. Every window of likely speech is in one, or in
      a stretch that was too short before or after merging. */
  method SegmentsFromProbs(probs: seq<real>, p: Params)
    returns (segs: seq<Seg>, cs: seq<Seg>, ghost found: seq<Seg>, ghost dropped: seq<Seg>)
    requires p.Ok()
    ensures Ordered(segs, p.window * |probs|)
    ensures forall k :: 0 <= k < |segs| ==> segs[k].Length() >= p.MinSpeech()
    ensures |cs| == |segs| && forall k :: 0 <= k < |segs| ==>
      cs[k] == CsOf(segs[k]) && NearestCs(cs[k].start, segs[k].start) && NearestCs(cs[k].end, segs[k].end)
    ensures Ordered(cs, ToCs(p.window * |probs|))
    ensures ListsOk(probs, p, found, dropped, p.window * |probs|) && AllExplained(probs, p, found)
    ensures Padded(LongEnough(Merged(found), p.MinSpeech()), segs, p.Pad(), p.window * |probs|)
    ensures Ordered(Merged(found), p.window * |probs|) && Apart(Merged(found))
    ensures Held(found, Merged(found)) && AllJoin(found, Merged(found))
    ensures forall i :: 0 <= i < |probs| && Loud(probs, p, i) ==>
      || Inside(segs, p.window * i) || Inside(dropped, p.window * i)
      || Lost(Merged(found), p.MinSpeech(), p.window * i)
  {
    hide Quiet, Loud, Detected, TooShort, Params.MinSpeech, Params.MaxSpeech, Covered, Held, Inside, Lost, Grew, Near,
      AllJoin, PaddedTo, AllExplained;
    var audio := p.window * |probs|;
    var raw;
    raw, dropped := Detect(probs, p);
    found := raw;
    ghost var merged := Merged(found);
    MergedIs(found, audio);
    var s := Merge(raw);
    LongEnoughOrdered(s, p.MinSpeech(), audio);
    var kept := RemoveShort(s, p.MinSpeech());
    forall g ensures g in kept <==> g in merged && g.Length() >= p.MinSpeech() {
      LongEnoughIs(s, p.MinSpeech(), g);
    }
    segs, cs := PadSegments(kept, p.Pad(), audio);
    StillLong(kept, segs, p.MinSpeech());
    CsOrdered(segs, cs, audio);
    forall i | 0 <= i < |probs| && Loud(probs, p, i)
      ensures
        || Inside(segs, p.window * i) || Inside(dropped, p.window * i)
        || Lost(Merged(found), p.MinSpeech(), p.window * i)
    {
      FoundCovers(probs, p, found, dropped, i);
      if Inside(found, p.window * i) {
        StaysInside(found, merged, kept, segs, p.MinSpeech(), p.window * i);
      }
    }
  }

  lemma FoundCovers(probs: seq<real>, p: Params, found: seq<Seg>, dropped: seq<Seg>, i: int)
    requires p.Ok() && ListsOk(probs, p, found, dropped, p.window * |probs|) && 0 <= i < |probs| && Loud(probs, p, i)
    ensures Inside(found, p.window * i) || Inside(dropped, p.window * i)
  {
    LaterWindow(p, |probs|, i);
  }

  lemma StaysInside(found: seq<Seg>, merged: seq<Seg>, kept: seq<Seg>, segs: seq<Seg>, least: int, at: int)
    requires Held(found, merged) && Grew(kept, segs) && Inside(found, at)
    requires forall g :: g in kept <==> g in merged && g.Length() >= least
    ensures Inside(segs, at) || Lost(merged, least, at)
  {
    var k :| 0 <= k < |found| && found[k].start <= at <= found[k].end;
    assert InOne(found[k], merged);
    var m :| 0 <= m < |merged| && merged[m].start <= found[k].start && found[k].end <= merged[m].end;
    if merged[m].Length() >= least {
      assert merged[m] in kept;
      var j :| 0 <= j < |kept| && kept[j] == merged[m];
      assert segs[j].start <= at <= segs[j].end;
    }
  }

  lemma StillLong(kept: seq<Seg>, segs: seq<Seg>, least: int)
    requires Grew(kept, segs) && forall g :: g in kept ==> g.Length() >= least
    ensures forall k :: 0 <= k < |segs| ==> segs[k].Length() >= least
  {
    assert forall k :: 0 <= k < |kept| ==> kept[k] in kept;
  }

  lemma CsOrdered(segs: seq<Seg>, cs: seq<Seg>, audio: int)
    requires Ordered(segs, audio) && audio >= 0 && |cs| == |segs|
    requires forall k :: 0 <= k < |segs| ==> cs[k] == CsOf(segs[k])
    ensures Ordered(cs, ToCs(audio))
  {
    forall i | 0 <= i < |cs| ensures 0 <= cs[i].start <= cs[i].end <= ToCs(audio) {
      CsKeepsOrder(segs[i].start, segs[i].end);
      CsKeepsOrder(segs[i].end, audio);
    }
    forall i, j | 0 <= i < j < |cs| ensures cs[i].end <= cs[j].start {
      CsKeepsOrder(segs[i].end, segs[j].start);
    }
  }
}
