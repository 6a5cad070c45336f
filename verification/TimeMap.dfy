/** The map from times in the speech-only audio back to times in the original audio. Times are
    in centiseconds, offsets in samples. */
module TimeMap {
  import opened Modular
  import opened Vad

  const SILENCE: int := SAMPLE_RATE / 10
  const MIN_LENGTH: int := 100
  const INTERVAL: int := 20

  datatype Point = Point(processed: int, original: int)

  /** `(int)(cs / 100.0 * 16000 + 0.5)`. */
  function ToSamples(cs: int): int {
    160 * cs
  }

  // ------------------------------------------------------------ interpolation

  /** The whole part of the line through `(v0, o0)` and `(v1, o1)`. */
  function Line(v0: int, o0: int, v1: int, o1: int, v: int): int
    requires v0 < v1
  {
    o0 + ((v - v0) * (o1 - o0)) / (v1 - v0)
  }

  lemma DivMonotone(a: int, b: int, d: int)
    requires a <= b && d > 0
    ensures a / d <= b / d
  {
    var q, r := a / d, b / d;
    assert a == q * d + a % d && b == r * d + b % d;
    FarMultiples(r - q, d);
    assert (r - q) * d == r * d - q * d;
  }

  lemma TimesKeeps(a: int, b: int, d: int)
    requires a <= b && d >= 0
    ensures a * d <= b * d && d * a <= d * b
  {
    assert (b - a) * d >= 0;
    assert (b - a) * d == b * d - a * d;
  }

  lemma LineEnds(v0: int, o0: int, v1: int, o1: int)
    requires v0 < v1
    ensures Line(v0, o0, v1, o1, v0) == o0 && Line(v0, o0, v1, o1, v1) == o1
  {
    DivModUnique((v1 - v0) * (o1 - o0), v1 - v0, o1 - o0, 0);
    assert 0 * (o1 - o0) == 0;
  }

  /** `o` is the whole part of the value of the line through `(v0, o0)` and `(v1, o1)` at `v`. */
  predicate WholePart(v0: int, o0: int, v1: int, o1: int, v: int, o: int) {
    0 <= (v - v0) * (o1 - o0) - (o - o0) * (v1 - v0) < v1 - v0
  }

  lemma LineIsWhole(v0: int, o0: int, v1: int, o1: int, v: int)
    requires v0 < v1
    ensures WholePart(v0, o0, v1, o1, v, Line(v0, o0, v1, o1, v))
  {
    var x, d := (v - v0) * (o1 - o0), v1 - v0;
    assert x == x / d * d + x % d;
  }

  lemma LineRises(v0: int, o0: int, v1: int, o1: int, a: int, b: int)
    requires v0 < v1 && o0 <= o1 && a <= b
    ensures Line(v0, o0, v1, o1, a) <= Line(v0, o0, v1, o1, b)
  {
    TimesKeeps(a - v0, b - v0, o1 - o0);
    DivMonotone((a - v0) * (o1 - o0), (b - v0) * (o1 - o0), v1 - v0);
  }

  // ------------------------------------------------------------------ the table

  /** Later processed times have later (or equal) original times. */
  predicate Agrees(t: seq<Point>) {
    forall i, j :: 0 <= i < |t| && 0 <= j < |t| && t[i].processed < t[j].processed ==> t[i].original <= t[j].original
  }

  predicate Below(t: seq<Point>, processed: int, original: int) {
    forall i :: 0 <= i < |t| ==> t[i].processed <= processed && t[i].original <= original
  }

  predicate Above(t: seq<Point>, processed: int, original: int) {
    forall i :: 0 <= i < |t| ==> processed <= t[i].processed && original <= t[i].original
  }

  /** A point of a copied segment: its time range, mapped along the line between its ends. */
  predicate OnSegment(q: Point, v0: int, o0: int, v1: int, o1: int) {
    && v0 <= q.processed <= v1 && o0 <= q.original <= o1
    && (v0 < v1 ==> q.original == Line(v0, o0, v1, o1, q.processed))
  }

  lemma SegmentAgrees(t: seq<Point>, v0: int, o0: int, v1: int, o1: int)
    requires o0 <= o1 && forall i :: 0 <= i < |t| ==> OnSegment(t[i], v0, o0, v1, o1)
    ensures Agrees(t) && Above(t, v0, o0) && Below(t, v1, o1)
  {
    hide Line;
    forall i, j | 0 <= i < |t| && 0 <= j < |t| && t[i].processed < t[j].processed
      ensures t[i].original <= t[j].original
    {
      assert OnSegment(t[i], v0, o0, v1, o1) && OnSegment(t[j], v0, o0, v1, o1);
      LineRises(v0, o0, v1, o1, t[i].processed, t[j].processed);
    }
  }

  /** Where a copied segment comes from and where it went; the source's `vad_segment_info`. */
  datatype Copy = Copy(origStart: int, origEnd: int, vadStart: int, vadEnd: int)

  /** The ends of a copied segment, and a point every 200 ms of a longer one. */
  function PointsOf(c: Copy): seq<Point> {
    var length := c.vadEnd - c.vadStart;
    [Point(c.vadStart, c.origStart), Point(c.vadEnd, c.origEnd)] +
    if length > MIN_LENGTH then
      seq(length / INTERVAL - 1, j requires length > 0 =>
        var v := c.vadStart + (j + 1) * INTERVAL;
        Point(v, Line(c.vadStart, c.origStart, c.vadEnd, c.origEnd, v)))
    else []
  }

  /** The points of a copied segment: its two ends, and, when it is longer than a second, one every
      200 ms that leaves at least 200 ms behind it. */
  predicate IsPoint(c: Copy, q: Point) {
    q == Point(c.vadStart, c.origStart) || q == Point(c.vadEnd, c.origEnd) || IsInner(c, q)
  }

  predicate IsInner(c: Copy, q: Point) {
    && c.vadEnd - c.vadStart > 100 && (q.processed - c.vadStart) % 20 == 0
    && c.vadStart < q.processed && q.processed + 20 <= c.vadEnd
    && WholePart(c.vadStart, c.origStart, c.vadEnd, c.origEnd, q.processed, q.original)
  }

  lemma PointsAre(c: Copy, q: Point)
    requires c.vadStart <= c.vadEnd
    ensures q in PointsOf(c) <==> IsPoint(c, q)
  {
    hide Line, WholePart, PointsOf, IsInner;
    var t := PointsOf(c);
    EndsAmong(c);
    if IsInner(c, q) {
      InnerIn(c, q);
    }
    if k :| 0 <= k < |t| && t[k] == q {
      PointAt(c, k);
    }
  }

  lemma PointAt(c: Copy, k: nat)
    requires c.vadStart <= c.vadEnd && k < |PointsOf(c)|
    ensures var q := PointsOf(c)[k];
            q == if k == 0 then Point(c.vadStart, c.origStart) else if k == 1 then Point(c.vadEnd, c.origEnd) else q
    ensures k >= 2 ==> IsInner(c, PointsOf(c)[k])
  {
    hide Line, WholePart;
    if k >= 2 {
      LineIsWhole(c.vadStart, c.origStart, c.vadEnd, c.origEnd, PointsOf(c)[k].processed);
      assert PointsOf(c)[k].processed == c.vadStart + (k - 1) * 20;
    }
  }

  lemma InnerIn(c: Copy, q: Point)
    requires IsInner(c, q)
    ensures q in PointsOf(c)
  {
    hide Line, WholePart;
    var v := q.processed;
    var j := (v - c.vadStart) / 20 - 1;
    OneWholePart(c.vadStart, c.origStart, c.vadEnd, c.origEnd, v, q.original);
    assert PointsOf(c)[j + 2] == Point(v, Line(c.vadStart, c.origStart, c.vadEnd, c.origEnd, v));
  }

  lemma OneWholePart(v0: int, o0: int, v1: int, o1: int, v: int, o: int)
    requires v0 < v1 && WholePart(v0, o0, v1, o1, v, o)
    ensures o == Line(v0, o0, v1, o1, v)
  {
    var x, d := (v - v0) * (o1 - o0), v1 - v0;
    DivModUnique(x, d, o - o0, x - (o - o0) * d);
  }

  lemma PointsOnSegment(c: Copy)
    requires c.vadStart <= c.vadEnd && c.origStart <= c.origEnd
    ensures forall k :: 0 <= k < |PointsOf(c)| ==>
      OnSegment(PointsOf(c)[k], c.vadStart, c.origStart, c.vadEnd, c.origEnd)
  {
    hide Line;
    var t := PointsOf(c);
    if c.vadStart < c.vadEnd {
      LineEnds(c.vadStart, c.origStart, c.vadEnd, c.origEnd);
    }
    forall k | 2 <= k < |t| ensures OnSegment(t[k], c.vadStart, c.origStart, c.vadEnd, c.origEnd) {
      LineRises(c.vadStart, c.origStart, c.vadEnd, c.origEnd, c.vadStart, t[k].processed);
      LineRises(c.vadStart, c.origStart, c.vadEnd, c.origEnd, t[k].processed, c.vadEnd);
    }
  }

  method SegmentPoints(c: Copy) returns (t: seq<Point>)
    requires c.vadStart <= c.vadEnd
    ensures t == PointsOf(c) && forall q :: q in t <==> IsPoint(c, q)
  {
    forall q ensures q in PointsOf(c) <==> IsPoint(c, q) {
      PointsAre(c, q);
    }
    hide Line;
    t := [Point(c.vadStart, c.origStart), Point(c.vadEnd, c.origEnd)];
    if c.vadEnd - c.vadStart > MIN_LENGTH {
      var duration := c.vadEnd - c.vadStart;
      var n := duration / INTERVAL - 1;
      for j := 1 to n + 1
        invariant t == PointsOf(c)[..j + 1]
      {
        var v := c.vadStart + j * INTERVAL;
        if v >= c.vadEnd {
          assert false;
        }
        var elapsed, vTotal, oTotal := v - c.vadStart, c.vadEnd - c.vadStart, c.origEnd - c.origStart;
        LineIs(c.vadStart, c.origStart, c.vadEnd, c.origEnd, v);
        t := t + [Point(v, c.origStart + (elapsed * oTotal) / vTotal)];
      }
    }
  }

  lemma LineIs(v0: int, o0: int, v1: int, o1: int, v: int)
    requires v0 < v1
    ensures Line(v0, o0, v1, o1, v) == o0 + ((v - v0) * (o1 - o0)) / (v1 - v0)
  {
  }

  function Clip(x: int, top: int): int {
    if x < top then x else top
  }

  /** How many samples of segment `i` are copied; all but the last are copied with an overlap. */
  function CopyLength(segs: seq<Seg>, samples: int, overlap: nat, i: nat): int
    requires i < |segs|
  {
    Clip(ToSamples(segs[i].end) + (if i < |segs| - 1 then overlap else 0), samples)
    - Clip(ToSamples(segs[i].start), samples - 1)
  }

  /** Where the segments from `i` on are copied, when `offset` samples are there. */
  function Copies(segs: seq<Seg>, samples: int, overlap: nat, i: nat, offset: int): seq<Copy>
    requires i <= |segs|
    decreases |segs| - i
  {
    if i == |segs| then []
    else
      var end := offset + CopyLength(segs, samples, overlap, i);
      if end <= offset then Copies(segs, samples, overlap, i + 1, offset)
      else
        [Copy(segs[i].start, segs[i].end, ToCs(offset), ToCs(end))] +
        Copies(segs, samples, overlap, i + 1, end + (if i < |segs| - 1 then SILENCE else 0))
  }

  /** The silence after segment `i`. */
  function Pause(segs: seq<Seg>, i: nat, offset: int): seq<Point>
    requires i < |segs|
  {
    if i < |segs| - 1 then [Point(ToCs(offset), segs[i].end), Point(ToCs(offset + SILENCE), segs[i + 1].start)] else []
  }

  /** The points of the segments from `i` on. */
  function AllPoints(segs: seq<Seg>, samples: int, overlap: nat, i: nat, offset: int): seq<Point>
    requires i <= |segs|
    decreases |segs| - i
  {
    if i == |segs| then []
    else
      var end := offset + CopyLength(segs, samples, overlap, i);
      if end <= offset then AllPoints(segs, samples, overlap, i + 1, offset)
      else
        PointsOf(Copy(segs[i].start, segs[i].end, ToCs(offset), ToCs(end))) + Pause(segs, i, end) +
        AllPoints(segs, samples, overlap, i + 1, end + (if i < |segs| - 1 then SILENCE else 0))
  }

  /** Later processed times of the collected points have later or equal original times. */
  lemma {:induction false} PointsAgree(segs: seq<Seg>, samples: int, overlap: nat, i: nat, offset: int)
    requires Ordered(segs, if segs == [] then 0 else segs[|segs| - 1].end) && samples > 0 && i <= |segs| && offset >= 0
    ensures var t := AllPoints(segs, samples, overlap, i, offset);
            Agrees(t) && Above(t, ToCs(offset), if i < |segs| then segs[i].start else 0)
    decreases |segs| - i
  {
    hide Agrees, Above, Below, OnSegment, PointsOf, Ordered, AllPoints, Pause, ToCs, CopyLength;
    if i == |segs| {
      NoneLeft(segs, samples, overlap, offset);
      NoPoints(ToCs(offset), 0);
    } else {
      PointsUnfold(segs, samples, overlap, i, offset);
      var end := offset + CopyLength(segs, samples, overlap, i);
      SegmentFacts(segs, i);
      if end <= offset {
        PointsAgree(segs, samples, overlap, i + 1, offset);
        if i + 1 < |segs| {
          Lower(AllPoints(segs, samples, overlap, i + 1, offset), ToCs(offset), segs[i + 1].start, ToCs(offset),
            segs[i].start);
        } else {
          NoneLeft(segs, samples, overlap, offset);
          NoPoints(ToCs(offset), segs[i].start);
        }
      } else {
        var next := end + (if i < |segs| - 1 then SILENCE else 0);
        var c := Copy(segs[i].start, segs[i].end, ToCs(offset), ToCs(end));
        CsKeepsOrder(offset, end);
        CsKeepsOrder(end, next);
        PointsAgree(segs, samples, overlap, i + 1, next);
        PointsOnSegment(c);
        SegmentAgrees(PointsOf(c), c.vadStart, c.origStart, c.vadEnd, c.origEnd);
        var rest := AllPoints(segs, samples, overlap, i + 1, next);
        if i < |segs| - 1 {
          PauseAgrees(segs, i, end);
          Prepend(Pause(segs, i, end), rest, ToCs(end), segs[i].end, ToCs(next), segs[i + 1].start);
          Prepend(PointsOf(c), Pause(segs, i, end) + rest, c.vadStart, c.origStart, c.vadEnd, c.origEnd);
        } else {
          NoPause(segs, i, end);
          NoneLeft(segs, samples, overlap, next);
          assert PointsOf(c) + ([] + []) == PointsOf(c);
        }
      }
    }
  }

  lemma SegmentFacts(segs: seq<Seg>, i: nat)
    requires Ordered(segs, if segs == [] then 0 else segs[|segs| - 1].end) && i < |segs|
    ensures 0 <= segs[i].start <= segs[i].end && (i + 1 < |segs| ==> segs[i].end <= segs[i + 1].start)
  {
  }

  lemma Lower(t: seq<Point>, p: int, o: int, p': int, o': int)
    requires Above(t, p, o) && p' <= p && o' <= o
    ensures Above(t, p', o')
  {
  }

  lemma Prepend(s: seq<Point>, t: seq<Point>, p: int, o: int, top: int, last: int)
    requires Agrees(s) && Agrees(t) && Above(s, p, o) && Below(s, top, last) && Above(t, top, last)
    requires p <= top && o <= last
    ensures Agrees(s + t) && Above(s + t, p, o)
  {
    assert forall i :: 0 <= i < |s| + |t| ==> (s + t)[i] == if i < |s| then s[i] else t[i - |s|];
  }

  /** One segment of the two lists. */
  lemma OneSegment(segs: seq<Seg>, samples: int, overlap: nat, i: nat, offset: int, t: seq<Point>, copies: seq<Copy>)
    requires i < |segs|
    ensures var end := offset + CopyLength(segs, samples, overlap, i);
            var next := end + (if i < |segs| - 1 then SILENCE else 0);
            var c := Copy(segs[i].start, segs[i].end, ToCs(offset), ToCs(end));
            if end <= offset then
              && AllPoints(segs, samples, overlap, i, offset) == AllPoints(segs, samples, overlap, i + 1, offset)
              && Copies(segs, samples, overlap, i, offset) == Copies(segs, samples, overlap, i + 1, offset)
            else
              && t + AllPoints(segs, samples, overlap, i, offset) ==
                 t + PointsOf(c) + Pause(segs, i, end) + AllPoints(segs, samples, overlap, i + 1, next)
              && copies + Copies(segs, samples, overlap, i, offset) ==
                 copies + [c] + Copies(segs, samples, overlap, i + 1, next)
  {
    hide PointsOf, Pause, ToCs, CopyLength;
  }

  /** How many samples of a segment are copied: up to its end, with the overlap except for the last
      segment, but never past the end of the audio. */
  function Stretch(segs: seq<Seg>, samples: int, overlap: nat, i: nat): int
    requires i < |segs|
  {
    var start, end := 160 * segs[i].start, 160 * segs[i].end + (if i + 1 < |segs| then overlap else 0);
    (if end < samples then end else samples) - (if start < samples - 1 then start else samples - 1)
  }

  /** The copies are those of the segments `from` that have samples, in order, at the sample offsets
      `at`: the first at 0, and 1600 samples of silence behind each. */
  predicate Laid(segs: seq<Seg>, samples: int, overlap: nat, copies: seq<Copy>, from: seq<nat>, at: seq<int>, n: nat) {
    && |copies| == |from| == |at| && n <= |segs|
    && (forall i :: 0 <= i < n ==> (i in from <==> Stretch(segs, samples, overlap, i) > 0))
    && (forall k :: 0 <= k < |from| ==> from[k] < n && LaidAt(segs, samples, overlap, copies[k], from[k], at[k]))
    && (forall k :: 0 <= k && k + 1 < |from| ==> from[k] < from[k + 1])
    && (at != [] ==> at[0] == 0)
    && forall k :: 0 <= k && k + 1 < |at| ==> at[k + 1] == at[k] + Stretch(segs, samples, overlap, from[k]) + 1600
  }

  predicate LaidAt(segs: seq<Seg>, samples: int, overlap: nat, c: Copy, i: nat, at: int)
    requires i < |segs|
  {
    && c.origStart == segs[i].start && c.origEnd == segs[i].end
    && NearestCs(c.vadStart, at) && NearestCs(c.vadEnd, at + Stretch(segs, samples, overlap, i))
  }

  /** The points that a copied segment contributes, with those at the two ends of the silence
      behind it. */
  predicate ContributedBy(segs: seq<Seg>, c: Copy, i: nat, q: Point) {
    || IsPoint(c, q)
    || (i + 1 < |segs| && (q == Point(c.vadEnd, c.origEnd) || q == Point(c.vadEnd + 10, segs[i + 1].start)))
  }

  predicate Contributed(segs: seq<Seg>, copies: seq<Copy>, from: seq<nat>, q: Point) {
    exists k :: 0 <= k < |copies| && k < |from| && ContributedBy(segs, copies[k], from[k], q)
  }

  lemma ContributedMore(segs: seq<Seg>, copies: seq<Copy>, from: seq<nat>, c: Copy, i: nat, q: Point)
    requires |copies| == |from|
    ensures Contributed(segs, copies + [c], from + [i], q) <==>
            Contributed(segs, copies, from, q) || ContributedBy(segs, c, i, q)
  {
    hide ContributedBy;
    var more, ids := copies + [c], from + [i];
    if k :| 0 <= k < |copies| && ContributedBy(segs, copies[k], from[k], q) {
      assert more[k] == copies[k] && ids[k] == from[k];
    }
    if ContributedBy(segs, c, i, q) {
      assert more[|copies|] == c && ids[|copies|] == i;
    }
  }

  lemma LaidMore(segs: seq<Seg>, samples: int, overlap: nat, copies: seq<Copy>, from: seq<nat>, at: seq<int>, i: nat,
                 c: Copy, offset: int)
    requires i < |segs| && Laid(segs, samples, overlap, copies, from, at, i)
    requires LaidAt(segs, samples, overlap, c, i, offset) && Stretch(segs, samples, overlap, i) > 0
    requires if at == [] then offset == 0
             else offset == at[|at| - 1] + Stretch(segs, samples, overlap, from[|at| - 1]) + 1600
    ensures Laid(segs, samples, overlap, copies + [c], from + [i], at + [offset], i + 1)
  {
    hide Stretch, LaidAt;
    forall j | 0 <= j < i + 1 ensures j in from + [i] <==> Stretch(segs, samples, overlap, j) > 0 {
    }
  }

  lemma StretchIsLength(segs: seq<Seg>, samples: int, overlap: nat, i: nat)
    requires i < |segs|
    ensures Stretch(segs, samples, overlap, i) == CopyLength(segs, samples, overlap, i)
  {
  }

  lemma CsIsNearest(samples: int)
    ensures NearestCs(ToCs(samples), samples) && ToCs(samples + 1600) == ToCs(samples) + 10
  {
  }

  /** Copies the segments, with silence between them, and notes where they came from. */
  method CollectPoints(segs: seq<Seg>, samples: int, overlap: nat)
    returns (t: seq<Point>, copies: seq<Copy>, ghost from: seq<nat>, ghost at: seq<int>)
    requires samples > 0
    ensures t == AllPoints(segs, samples, overlap, 0, 0)
    ensures copies == Copies(segs, samples, overlap, 0, 0)
    ensures Laid(segs, samples, overlap, copies, from, at, |segs|)
    ensures forall q :: q in t <==> Contributed(segs, copies, from, q)
  {
    hide PointsOf, ToCs, ToSamples, AllPoints, Copies, Contributed, IsPoint, Laid, Stretch;
    t, copies, from, at := [], [], [], [];
    NothingLaid(segs, samples, overlap);
    var offset := 0;
    for i := 0 to |segs|
      invariant offset >= 0
      invariant t + AllPoints(segs, samples, overlap, i, offset) == AllPoints(segs, samples, overlap, 0, 0)
      invariant copies + Copies(segs, samples, overlap, i, offset) == Copies(segs, samples, overlap, 0, 0)
      invariant Laid(segs, samples, overlap, copies, from, at, i) && |copies| == |from|
      invariant forall q :: q in t <==> Contributed(segs, copies, from, q)
      invariant i < |segs| ==> NextOffset(segs, samples, overlap, from, at, offset)
    {
      StretchIsLength(segs, samples, overlap, i);
      OneSegment(segs, samples, overlap, i, offset, t, copies);
      var start, end := ToSamples(segs[i].start), ToSamples(segs[i].end);
      if i < |segs| - 1 {
        end := end + overlap;
      }
      start := if start < samples - 1 then start else samples - 1;
      end := if end < samples then end else samples;
      var length := end - start;
      if length > 0 {
        var copy := Copy(segs[i].start, segs[i].end, ToCs(offset), ToCs(offset + length));
        assert copy.vadStart <= copy.vadEnd by { CsKeepsOrder(offset, offset + length); }
        var points := SegmentPoints(copy);
        CsIsNearest(offset);
        CsIsNearest(offset + length);
        NextIs(segs, samples, overlap, from, at, offset, i, length);
        LaidMore(segs, samples, overlap, copies, from, at, i, copy, offset);
        forall q ensures Contributed(segs, copies + [copy], from + [i], q) <==>
            Contributed(segs, copies, from, q) || ContributedBy(segs, copy, i, q)
        {
          ContributedMore(segs, copies, from, copy, i, q);
        }
        from, at := from + [i], at + [offset];
        copies := copies + [copy];
        t := t + points;
        offset := offset + length;
        if i < |segs| - 1 {
          var pauseStart, pauseEnd := ToCs(offset), ToCs(offset + SILENCE);
          t := t + [Point(pauseStart, segs[i].end), Point(pauseEnd, segs[i + 1].start)];
          offset := offset + SILENCE;
        } else {
          assert t + [] == t;
        }
      } else {
        LaidSkip(segs, samples, overlap, copies, from, at, i);
      }
    }
    NoneLeft(segs, samples, overlap, offset);
  }

  /** Where the next copy goes. */
  predicate NextOffset(segs: seq<Seg>, samples: int, overlap: nat, from: seq<nat>, at: seq<int>, offset: int) {
    && |from| == |at| && (at == [] ==> offset == 0)
    && (at != [] ==> from[|at| - 1] < |segs|
                     && offset == at[|at| - 1] + Stretch(segs, samples, overlap, from[|at| - 1]) + 1600)
  }

  lemma NextIs(segs: seq<Seg>, samples: int, overlap: nat, from: seq<nat>, at: seq<int>, offset: int, i: nat,
               length: int)
    requires i < |segs| && NextOffset(segs, samples, overlap, from, at, offset)
    requires length == Stretch(segs, samples, overlap, i)
    ensures NextOffset(segs, samples, overlap, from + [i], at + [offset], offset + length + 1600)
  {
    hide Stretch;
  }

  lemma NothingLaid(segs: seq<Seg>, samples: int, overlap: nat)
    ensures Laid(segs, samples, overlap, [], [], [], 0) && NextOffset(segs, samples, overlap, [], [], 0)
    ensures forall q :: !Contributed(segs, [], [], q)
  {
  }

  lemma LaidSkip(segs: seq<Seg>, samples: int, overlap: nat, copies: seq<Copy>, from: seq<nat>, at: seq<int>, i: nat)
    requires i < |segs| && Laid(segs, samples, overlap, copies, from, at, i) && Stretch(segs, samples, overlap, i) <= 0
    ensures Laid(segs, samples, overlap, copies, from, at, i + 1)
  {
    hide Stretch, LaidAt;
  }

  lemma NoneLeft(segs: seq<Seg>, samples: int, overlap: nat, offset: int)
    ensures AllPoints(segs, samples, overlap, |segs|, offset) == []
    ensures Copies(segs, samples, overlap, |segs|, offset) == []
  {
  }

  lemma NoPoints(processed: int, original: int)
    ensures Agrees([]) && Above([], processed, original)
  {
  }

  lemma PauseAgrees(segs: seq<Seg>, i: nat, offset: int)
    requires i + 1 < |segs| && segs[i].end <= segs[i + 1].start && ToCs(offset) <= ToCs(offset + SILENCE)
    ensures var t := Pause(segs, i, offset);
            && Agrees(t) && Above(t, ToCs(offset), segs[i].end)
            && Below(t, ToCs(offset + SILENCE), segs[i + 1].start)
  {
    hide ToCs;
  }

  lemma PointsUnfold(segs: seq<Seg>, samples: int, overlap: nat, i: nat, offset: int)
    requires i < |segs|
    ensures var end := offset + CopyLength(segs, samples, overlap, i);
            var next := end + (if i < |segs| - 1 then SILENCE else 0);
            var c := Copy(segs[i].start, segs[i].end, ToCs(offset), ToCs(end));
            AllPoints(segs, samples, overlap, i, offset) ==
              if end <= offset then AllPoints(segs, samples, overlap, i + 1, offset)
              else PointsOf(c) + (Pause(segs, i, end) + AllPoints(segs, samples, overlap, i + 1, next))
  {
    hide PointsOf, Pause, ToCs, CopyLength;
  }

  // ------------------------------------------------------ sorting and deduping

  predicate Sorted(t: seq<Point>) {
    forall i, j :: 0 <= i < j < |t| ==> t[i].processed <= t[j].processed
  }

  method Insert(r: seq<Point>, q: Point) returns (t: seq<Point>)
    requires Sorted(r)
    ensures Sorted(t) && multiset(t) == multiset(r) + multiset{q}
  {
    var k := 0;
    while k < |r| && r[k].processed <= q.processed
      invariant 0 <= k <= |r|
      invariant forall m :: 0 <= m < k ==> r[m].processed <= q.processed
    {
      k := k + 1;
    }
    hide Sorted;
    t := r[..k] + [q] + r[k..];
    InsertSorted(r, k, q);
    assert r == r[..k] + r[k..];
  }

  lemma InsertSorted(r: seq<Point>, k: nat, q: Point)
    requires Sorted(r) && k <= |r|
    requires forall m :: 0 <= m < k ==> r[m].processed <= q.processed
    requires k < |r| ==> q.processed <= r[k].processed
    ensures Sorted(r[..k] + [q] + r[k..])
  {
    var t := r[..k] + [q] + r[k..];
    forall i | k <= i < |r| ensures q.processed <= r[i].processed {
      assert k < i ==> r[k].processed <= r[i].processed;
    }
    forall i, j | 0 <= i < j < |t| ensures t[i].processed <= t[j].processed {
      var a := if i < k then r[i] else if i == k then q else r[i - 1];
      var b := if j < k then r[j] else if j == k then q else r[j - 1];
      assert t[i] == a && t[j] == b;
    }
  }

  /** Some order by processed time; nothing is said about points with the same time. */
  method Sort(s: seq<Point>) returns (r: seq<Point>)
    ensures Sorted(r) && multiset(r) == multiset(s)
  {
    hide Sorted;
    r := [];
    assert Sorted(r) by { NothingSorted(); }
    for n := 0 to |s|
      invariant Sorted(r) && multiset(r) == multiset(s[..n])
    {
      assert s[..n + 1] == s[..n] + [s[n]];
      r := Insert(r, s[n]);
    }
    assert s[..|s|] == s;
  }

  lemma NothingSorted()
    ensures Sorted([])
  {
  }

  /** Strictly rising in processed time, never falling in original time. */
  predicate Rising(t: seq<Point>) {
    && (forall i, j :: 0 <= i < j < |t| ==> t[i].processed < t[j].processed)
    && (forall i, j :: 0 <= i < j < |t| ==> t[i].original <= t[j].original)
  }

  /** What `Unique` has kept of the first `n` points. */
  predicate KeptOf(s: seq<Point>, r: seq<Point>, n: nat)
    requires n <= |s|
  {
    && Rising(r)
    && (r != [] <==> n > 0)
    && (n > 0 ==> r[|r| - 1].processed == s[n - 1].processed)
    && (forall k :: 0 <= k < |r| ==> r[k] in s[..n])
    && (forall m :: 0 <= m < n ==> Present(r, s[m].processed))
  }

  lemma KeepNext(s: seq<Point>, r: seq<Point>, n: nat)
    requires Sorted(s) && Agrees(s) && n < |s| && KeptOf(s, r, n)
    requires r == [] || r[|r| - 1].processed != s[n].processed
    ensures KeptOf(s, r + [s[n]], n + 1)
  {
    hide Sorted, Agrees, Rising;
    var t := r + [s[n]];
    RunBelow(s, r, n);
    RisePush(r, s[n]);
    assert s[..n + 1] == s[..n] + [s[n]];
    assert t[|r|] == s[n];
    forall m | 0 <= m < n + 1 ensures Present(t, s[m].processed) {
      if m < n {
        PresentPush(r, s[n], s[m].processed);
      }
    }
  }

  lemma PresentPush(r: seq<Point>, q: Point, processed: int)
    requires Present(r, processed)
    ensures Present(r + [q], processed)
  {
    var k :| 0 <= k < |r| && r[k].processed == processed;
    assert (r + [q])[k] == r[k];
  }

  lemma RisePush(r: seq<Point>, q: Point)
    requires Rising(r) && forall k :: 0 <= k < |r| ==> r[k].processed < q.processed && r[k].original <= q.original
    ensures Rising(r + [q])
  {
  }

  lemma SkipNext(s: seq<Point>, r: seq<Point>, n: nat)
    requires n < |s| && KeptOf(s, r, n) && r != [] && r[|r| - 1].processed == s[n].processed
    ensures KeptOf(s, r, n + 1)
  {
    hide Rising;
    assert s[..n + 1] == s[..n] + [s[n]];
    assert Present(r, s[n].processed);
  }

  lemma KeptNothing(s: seq<Point>)
    ensures KeptOf(s, [], 0)
  {
  }

  /** Keeps the first of each run of equal processed times. */
  method Unique(s: seq<Point>) returns (r: seq<Point>)
    requires Sorted(s) && Agrees(s)
    ensures Rising(r)
    ensures forall q :: q in r ==> q in s
    ensures forall q :: q in s ==> Present(r, q.processed)
  {
    hide Sorted, Agrees, KeptOf;
    r := [];
    KeptNothing(s);
    for n := 0 to |s|
      invariant KeptOf(s, r, n)
    {
      if r == [] || r[|r| - 1].processed != s[n].processed {
        KeepNext(s, r, n);
        r := r + [s[n]];
      } else {
        SkipNext(s, r, n);
      }
    }
    KeptAll(s, r);
  }

  lemma KeptAll(s: seq<Point>, r: seq<Point>)
    requires KeptOf(s, r, |s|)
    ensures Rising(r) && (forall q :: q in r ==> q in s) && (forall q :: q in s ==> Present(r, q.processed))
  {
    hide Rising;
    assert s[..|s|] == s;
    forall q | q in s ensures Present(r, q.processed) {
      var m :| 0 <= m < |s| && s[m] == q;
    }
  }

  predicate Present(t: seq<Point>, processed: int) {
    exists k :: 0 <= k < |t| && t[k].processed == processed
  }

  lemma RunBelow(s: seq<Point>, r: seq<Point>, n: nat)
    requires Sorted(s) && Agrees(s) && Rising(r) && n < |s|
    requires r != [] ==> n > 0 && r[|r| - 1].processed == s[n - 1].processed && r[|r| - 1].processed != s[n].processed
    requires forall k :: 0 <= k < |r| ==> r[k] in s[..n]
    ensures forall k :: 0 <= k < |r| ==> r[k].processed < s[n].processed && r[k].original <= s[n].original
  {
    forall k | 0 <= k < |r| ensures r[k].processed < s[n].processed && r[k].original <= s[n].original {
      var m :| 0 <= m < n && s[m] == r[k];
      assert s[n - 1].processed <= s[n].processed;
      assert s[m].processed <= s[n - 1].processed;
    }
  }

  lemma SortedAgrees(s: seq<Point>, r: seq<Point>)
    requires Agrees(s) && multiset(r) == multiset(s)
    ensures Agrees(r) && forall q :: q in r <==> q in s
  {
    forall q ensures q in r <==> q in s {
      assert q in multiset(r) <==> q in multiset(s);
    }
    forall i, j | 0 <= i < |r| && 0 <= j < |r| && r[i].processed < r[j].processed
      ensures r[i].original <= r[j].original
    {
      assert r[i] in s && r[j] in s;
    }
  }

  /** From ordered segments the table rises, whatever order points of equal time are put in; it
      has the processed times of all collected points, and no others. */
  method BuildTable(segs: seq<Seg>, samples: int, overlap: nat)
    returns (table: seq<Point>, copies: seq<Copy>, ghost from: seq<nat>, ghost at: seq<int>)
    requires Ordered(segs, if segs == [] then 0 else segs[|segs| - 1].end) && samples > 0
    ensures copies == Copies(segs, samples, overlap, 0, 0)
    ensures TableOf(table, AllPoints(segs, samples, overlap, 0, 0))
    ensures Laid(segs, samples, overlap, copies, from, at, |segs|) && Rising(table)
    ensures forall q :: q in table ==> Contributed(segs, copies, from, q)
    ensures forall q :: Contributed(segs, copies, from, q) ==> Present(table, q.processed)
  {
    hide Agrees, Sorted, Rising, Ordered, Present, AllPoints, Copies, Laid, Contributed;
    PointsAgree(segs, samples, overlap, 0, 0);
    var points;
    points, copies, from, at := CollectPoints(segs, samples, overlap);
    var sorted := Sort(points);
    SortedAgrees(points, sorted);
    table := Unique(sorted);
  }

  /** A rising table of some of the points, with all their processed times. */
  predicate TableOf(table: seq<Point>, points: seq<Point>) {
    && Rising(table)
    && (forall q :: q in table ==> q in points)
    && (forall q :: q in points ==> Present(table, q.processed))
  }

  // --------------------------------------------------------------- mapping back

  /** The first entry at or after a time. */
  function FirstAt(t: seq<Point>, v: int, from: nat): (i: nat)
    requires from <= |t|
    ensures from <= i <= |t|
    decreases |t| - from
  {
    if from == |t| || t[from].processed >= v then from else FirstAt(t, v, from + 1)
  }

  lemma {:induction false} FirstAtIs(t: seq<Point>, v: int, from: nat, i: nat)
    requires Rising(t) && from <= i <= |t|
    requires forall k :: from <= k < i ==> t[k].processed < v
    requires i < |t| ==> t[i].processed >= v
    ensures FirstAt(t, v, from) == i
    decreases i - from
  {
    if from < i {
      FirstAtIs(t, v, from + 1, i);
    }
  }

  lemma {:induction false} FirstAtMeans(t: seq<Point>, v: int, from: nat)
    requires from <= |t|
    ensures var i := FirstAt(t, v, from);
            (forall k :: from <= k < i ==> t[k].processed < v) && (i < |t| ==> t[i].processed >= v)
    decreases |t| - from
  {
    if from < |t| && t[from].processed < v {
      FirstAtMeans(t, v, from + 1);
    }
  }

  /** The original time of a processed time. */
  function Mapped(t: seq<Point>, v: int): int
    requires Rising(t)
  {
    if t == [] then v
    else if v <= t[0].processed then t[0].original
    else if v >= t[|t| - 1].processed then t[|t| - 1].original
    else
      FirstAtMeans(t, v, 0);
      var i := FirstAt(t, v, 0);
      Line(t[i - 1].processed, t[i - 1].original, t[i].processed, t[i].original, v)
  }

  /** `std::lower_bound` on the processed times. */
  method LowerBound(t: seq<Point>, v: int) returns (i: nat)
    requires Rising(t)
    ensures i == FirstAt(t, v, 0)
  {
    i := 0;
    var count := |t|;
    while count > 0
      invariant 0 <= i && 0 <= count && i + count <= |t|
      invariant forall k :: 0 <= k < i ==> t[k].processed < v
      invariant i + count < |t| ==> t[i + count].processed >= v
    {
      var step := count / 2;
      if t[i + step].processed < v {
        i := i + step + 1;
        count := count - step - 1;
      } else {
        count := step;
      }
    }
    FirstAtIs(t, v, 0, i);
  }

  /** Between two neighbouring entries the result is the whole part of the line through them. */
  lemma MappedOnLine(t: seq<Point>, v: int, i: nat)
    requires Rising(t) && 0 < i < |t| && t[i - 1].processed <= v <= t[i].processed
    ensures WholePart(t[i - 1].processed, t[i - 1].original, t[i].processed, t[i].original, v, Mapped(t, v))
  {
    hide Line, WholePart;
    LineIsWhole(t[i - 1].processed, t[i - 1].original, t[i].processed, t[i].original, v);
    LineEnds(t[i - 1].processed, t[i - 1].original, t[i].processed, t[i].original);
    if v == t[i - 1].processed {
      MappedExact(t, i - 1);
    } else if v == t[i].processed {
      MappedExact(t, i);
    } else {
      FirstAtIs(t, v, 0, i);
    }
  }

  method Map(t: seq<Point>, v: int) returns (o: int)
    requires Rising(t)
    ensures o == Mapped(t, v)
    ensures t == [] ==> o == v
    ensures t != [] && v <= t[0].processed ==> o == t[0].original
    ensures t != [] && v > t[0].processed && v >= t[|t| - 1].processed ==> o == t[|t| - 1].original
    ensures forall i :: 0 < i < |t| && t[i - 1].processed <= v <= t[i].processed ==>
      WholePart(t[i - 1].processed, t[i - 1].original, t[i].processed, t[i].original, v, o)
  {
    hide WholePart;
    forall i | 0 < i < |t| && t[i - 1].processed <= v <= t[i].processed
      ensures WholePart(t[i - 1].processed, t[i - 1].original, t[i].processed, t[i].original, v, Mapped(t, v))
    {
      MappedOnLine(t, v, i);
    }
    if t == [] {
      return v;
    }
    if v <= t[0].processed {
      return t[0].original;
    }
    if v >= t[|t| - 1].processed {
      return t[|t| - 1].original;
    }
    hide Line;
    var upper := LowerBound(t, v);
    FirstAtMeans(t, v, 0);
    var lower := upper - 1;
    LineEnds(t[lower].processed, t[lower].original, t[upper].processed, t[upper].original);
    if t[upper].processed == v {
      return t[upper].original;
    }
    var pDiff := t[upper].processed - t[lower].processed;
    var oDiff := t[upper].original - t[lower].original;
    var offset := v - t[lower].processed;
    if pDiff == 0 {
      assert false;
    }
    LineIs(t[lower].processed, t[lower].original, t[upper].processed, t[upper].original, v);
    return t[lower].original + (offset * oDiff) / pDiff;
  }

  /** Between two entries the result is between theirs. */
  lemma MappedBetween(t: seq<Point>, v: int)
    requires Rising(t) && t != [] && t[0].processed < v < t[|t| - 1].processed
    ensures var i := FirstAt(t, v, 0);
            0 < i < |t| && t[i - 1].processed < v <= t[i].processed
            && t[i - 1].original <= Mapped(t, v) <= t[i].original
            && (v == t[i].processed ==> Mapped(t, v) == t[i].original)
  {
    hide Line;
    FirstAtMeans(t, v, 0);
    var i := FirstAt(t, v, 0);
    LineEnds(t[i - 1].processed, t[i - 1].original, t[i].processed, t[i].original);
    LineRises(t[i - 1].processed, t[i - 1].original, t[i].processed, t[i].original, t[i - 1].processed, v);
    LineRises(t[i - 1].processed, t[i - 1].original, t[i].processed, t[i].original, v, t[i].processed);
  }

  lemma MappedBounded(t: seq<Point>, v: int)
    requires Rising(t) && t != []
    ensures t[0].original <= Mapped(t, v) <= t[|t| - 1].original
  {
    hide Line;
    if t[0].processed < v < t[|t| - 1].processed {
      MappedBetween(t, v);
    }
  }

  lemma MappedExact(t: seq<Point>, k: nat)
    requires Rising(t) && k < |t|
    ensures Mapped(t, t[k].processed) == t[k].original
  {
    hide Line;
    if 0 < k < |t| - 1 {
      MappedBetween(t, t[k].processed);
      FirstAtIs(t, t[k].processed, 0, k);
    }
  }

  /** Later processed times never map to earlier original times. */
  lemma MappedMonotone(t: seq<Point>, a: int, b: int)
    requires Rising(t) && a <= b
    ensures Mapped(t, a) <= Mapped(t, b)
  {
    hide Line, FirstAt, Mapped;
    if t != [] {
      MappedBounded(t, a);
      MappedBounded(t, b);
      MappedOutside(t, a);
      MappedOutside(t, b);
      if t[0].processed < a && b < t[|t| - 1].processed {
        MappedBetween(t, a);
        MappedBetween(t, b);
        SameOrLater(t, a, b);
      }
    } else {
      MappedOutside(t, a);
      MappedOutside(t, b);
    }
  }

  lemma MappedOutside(t: seq<Point>, v: int)
    requires Rising(t)
    ensures t == [] ==> Mapped(t, v) == v
    ensures t != [] && v <= t[0].processed ==> Mapped(t, v) == t[0].original
    ensures t != [] && v > t[0].processed && v >= t[|t| - 1].processed ==> Mapped(t, v) == t[|t| - 1].original
  {
  }

  lemma SameOrLater(t: seq<Point>, a: int, b: int)
    requires Rising(t) && t != [] && t[0].processed < a <= b < t[|t| - 1].processed
    ensures Mapped(t, a) <= Mapped(t, b)
  {
    hide Line;
    MappedBetween(t, a);
    MappedBetween(t, b);
    var i, j := FirstAt(t, a, 0), FirstAt(t, b, 0);
    if i == j {
      LineRises(t[i - 1].processed, t[i - 1].original, t[i].processed, t[i].original, a, b);
    } else {
      EarlierFirst(t, a, b);
      assert t[i].original <= t[j - 1].original by {
        assert i < j - 1 ==> t[i].original <= t[j - 1].original;
      }
    }
  }

  lemma EarlierFirst(t: seq<Point>, a: int, b: int)
    requires Rising(t) && a <= b
    ensures FirstAt(t, a, 0) <= FirstAt(t, b, 0)
  {
    FirstAtMeans(t, a, 0);
    FirstAtAtLeast(t, b, 0, FirstAt(t, a, 0));
  }

  lemma {:induction false} FirstAtAtLeast(t: seq<Point>, v: int, from: nat, i: nat)
    requires from <= i <= |t| && forall k :: from <= k < i ==> t[k].processed < v
    ensures FirstAt(t, v, from) >= i
    decreases i - from
  {
    if from < i {
      FirstAtAtLeast(t, v, from + 1, i);
    }
  }

  // ------------------------------------------------------- back into the segment

  /** Points with the same processed time agree on the original time. */
  predicate Consistent(t: seq<Point>) {
    forall p, q :: p in t && q in t && p.processed == q.processed ==> p.original == q.original
  }

  /** A copied segment put both its ends among the points. */
  lemma {:induction false} EndsCollected(segs: seq<Seg>, samples: int, overlap: nat, i: nat, offset: int, c: Copy)
    requires i <= |segs| && offset >= 0 && c in Copies(segs, samples, overlap, i, offset)
    ensures Point(c.vadStart, c.origStart) in AllPoints(segs, samples, overlap, i, offset)
    ensures Point(c.vadEnd, c.origEnd) in AllPoints(segs, samples, overlap, i, offset)
    ensures c.vadStart <= c.vadEnd
    decreases |segs| - i
  {
    hide ToCs, Pause, PointsOf, AllPoints, Copies;
    if i == |segs| {
      NoneLeft(segs, samples, overlap, offset);
    } else {
      var end := offset + CopyLength(segs, samples, overlap, i);
      var next := end + (if i < |segs| - 1 then SILENCE else 0);
      OneSegment(segs, samples, overlap, i, offset, [], []);
      if end <= offset {
        EndsCollected(segs, samples, overlap, i + 1, offset, c);
      } else {
        var first := Copy(segs[i].start, segs[i].end, ToCs(offset), ToCs(end));
        var rest := AllPoints(segs, samples, overlap, i + 1, next);
        CsKeepsOrder(offset, end);
        EndsAmong(first);
        assert [] + AllPoints(segs, samples, overlap, i, offset) == AllPoints(segs, samples, overlap, i, offset);
        assert [] + PointsOf(first) + Pause(segs, i, end) + rest == PointsOf(first) + (Pause(segs, i, end) + rest);
        assert [] + Copies(segs, samples, overlap, i, offset) == Copies(segs, samples, overlap, i, offset);
        if c != first {
          EndsCollected(segs, samples, overlap, i + 1, next, c);
        }
      }
    }
  }

  lemma EndsAmong(c: Copy)
    ensures Point(c.vadStart, c.origStart) in PointsOf(c) && Point(c.vadEnd, c.origEnd) in PointsOf(c)
  {
    assert PointsOf(c)[0] == Point(c.vadStart, c.origStart) && PointsOf(c)[1] == Point(c.vadEnd, c.origEnd);
  }

  lemma PointIsKept(table: seq<Point>, points: seq<Point>, q: Point)
    requires TableOf(table, points) && Consistent(points) && q in points
    ensures Mapped(table, q.processed) == q.original
  {
    hide Rising, Mapped;
    assert Present(table, q.processed);
    var k :| 0 <= k < |table| && table[k].processed == q.processed;
    assert table[k] in table && table[k] in points;
    MappedExact(table, k);
  }

  /** A time inside a copied segment maps into the original segment, and its ends to the ends,
      when no two collected points with the same processed time disagree. */
  lemma MapsIntoSegment(segs: seq<Seg>, samples: int, overlap: nat, table: seq<Point>, c: Copy, v: int)
    requires TableOf(table, AllPoints(segs, samples, overlap, 0, 0)) && c in Copies(segs, samples, overlap, 0, 0)
    requires Consistent(AllPoints(segs, samples, overlap, 0, 0)) && c.vadStart <= v <= c.vadEnd
    ensures c.origStart <= Mapped(table, v) <= c.origEnd
    ensures Mapped(table, c.vadStart) == c.origStart && Mapped(table, c.vadEnd) == c.origEnd
  {
    hide AllPoints, Copies, Mapped, Consistent;
    EndsCollected(segs, samples, overlap, 0, 0, c);
    PointIsKept(table, AllPoints(segs, samples, overlap, 0, 0), Point(c.vadStart, c.origStart));
    PointIsKept(table, AllPoints(segs, samples, overlap, 0, 0), Point(c.vadEnd, c.origEnd));
    MappedMonotone(table, c.vadStart, v);
    MappedMonotone(table, v, c.vadEnd);
  }

  /** All points at the first processed time have this original time. */
  predicate StartsAt(t: seq<Point>, processed: int, original: int) {
    forall q :: q in t ==> q.processed >= processed && (q.processed == processed ==> q.original == original)
  }

  predicate EndsAt(t: seq<Point>, processed: int, original: int) {
    forall q :: q in t ==> q.processed <= processed && (q.processed == processed ==> q.original == original)
  }

  lemma JoinConsistent(s: seq<Point>, t: seq<Point>, p: int, o: int, top: int, last: int)
    requires Consistent(s) && Consistent(t) && StartsAt(s, p, o) && EndsAt(s, top, last) && StartsAt(t, top, last)
    requires p < top
    ensures Consistent(s + t) && StartsAt(s + t, p, o)
  {
    assert forall q :: q in s + t <==> q in s || q in t;
  }

  lemma PointsConsistent(c: Copy)
    requires c.vadStart < c.vadEnd && c.origStart <= c.origEnd
    ensures Consistent(PointsOf(c)) && StartsAt(PointsOf(c), c.vadStart, c.origStart)
    ensures EndsAt(PointsOf(c), c.vadEnd, c.origEnd)
  {
    hide Line, PointsOf;
    PointsOnSegment(c);
    LineEnds(c.vadStart, c.origStart, c.vadEnd, c.origEnd);
    forall q | q in PointsOf(c) ensures OnSegment(q, c.vadStart, c.origStart, c.vadEnd, c.origEnd) {
      var k :| 0 <= k < |PointsOf(c)| && PointsOf(c)[k] == q;
    }
  }

  lemma PauseConsistent(segs: seq<Seg>, i: nat, offset: int)
    requires i + 1 < |segs| && offset >= 0
    ensures var t := Pause(segs, i, offset);
            && Consistent(t) && StartsAt(t, ToCs(offset), segs[i].end)
              && EndsAt(t, ToCs(offset + SILENCE), segs[i + 1].start)
            && ToCs(offset) < ToCs(offset + SILENCE)
  {
    CsKeepsOrder(offset, offset + SILENCE);
  }

  /** The points agree when every segment gives at least a centisecond of samples. */
  lemma {:induction false} LongCopiesAgree(segs: seq<Seg>, samples: int, overlap: nat, i: nat, offset: int)
    requires Ordered(segs, if segs == [] then 0 else segs[|segs| - 1].end) && i <= |segs| && offset >= 0
    requires forall k :: 0 <= k < |segs| ==> CopyLength(segs, samples, overlap, k) >= 160
    ensures Consistent(AllPoints(segs, samples, overlap, i, offset))
    ensures i < |segs| ==> StartsAt(AllPoints(segs, samples, overlap, i, offset), ToCs(offset), segs[i].start)
    decreases |segs| - i
  {
    hide Consistent, StartsAt, EndsAt, PointsOf, Ordered, CopyLength, ToCs, Pause, AllPoints;
    if i == |segs| {
      NoneLeft(segs, samples, overlap, offset);
      NothingDisagrees();
    } else {
      PointsUnfold(segs, samples, overlap, i, offset);
      var end := offset + CopyLength(segs, samples, overlap, i);
      var next := end + (if i < |segs| - 1 then SILENCE else 0);
      var c := Copy(segs[i].start, segs[i].end, ToCs(offset), ToCs(end));
      SegmentFacts(segs, i);
      CsKeepsOrder(offset, end);
      PointsConsistent(c);
      LongCopiesAgree(segs, samples, overlap, i + 1, next);
      var rest := AllPoints(segs, samples, overlap, i + 1, next);
      if i < |segs| - 1 {
        PauseConsistent(segs, i, end);
        JoinConsistent(Pause(segs, i, end), rest, ToCs(end), segs[i].end, ToCs(next), segs[i + 1].start);
        JoinConsistent(PointsOf(c), Pause(segs, i, end) + rest, c.vadStart, c.origStart, c.vadEnd, c.origEnd);
      } else {
        NoPause(segs, i, end);
        NoneLeft(segs, samples, overlap, next);
        assert PointsOf(c) + ([] + []) == PointsOf(c);
      }
    }
  }

  /** A segment without samples is not copied, and the pause before it leads to a point that the
      next copy contradicts. */
  lemma SkippedSegmentDisagrees()
    ensures var segs := [Seg(0, 100), Seg(150, 150), Seg(200, 300)];
            && Ordered(segs, 300) && CopyLength(segs, 100000, 0, 1) == 0
            && (forall c :: c in Copies(segs, 100000, 0, 0, 0) ==> c.vadEnd - c.vadStart == 100)
            && !Consistent(AllPoints(segs, 100000, 0, 0, 0))
  {
    var segs := [Seg(0, 100), Seg(150, 150), Seg(200, 300)];
    var first, last := Copy(0, 100, 0, 100), Copy(200, 300, 110, 210);
    assert CopyLength(segs, 100000, 0, 0) == 16000 && CopyLength(segs, 100000, 0, 2) == 16000;
    assert Copies(segs, 100000, 0, 3, 33600) == [] && AllPoints(segs, 100000, 0, 3, 33600) == [];
    assert Copies(segs, 100000, 0, 2, 17600) == [last];
    assert Copies(segs, 100000, 0, 1, 17600) == [last];
    assert Copies(segs, 100000, 0, 0, 0) == [first] + [last];
    assert AllPoints(segs, 100000, 0, 2, 17600) == PointsOf(last) + Pause(segs, 2, 33600) + [];
    assert AllPoints(segs, 100000, 0, 0, 0) ==
      PointsOf(first) + Pause(segs, 0, 16000) + AllPoints(segs, 100000, 0, 1, 17600);
    assert Pause(segs, 0, 16000)[1] == Point(110, 150) && PointsOf(last)[0] == Point(110, 200);
    assert Point(110, 150) in AllPoints(segs, 100000, 0, 0, 0)
      && Point(110, 200) in AllPoints(segs, 100000, 0, 2, 17600);
  }

  lemma NoPause(segs: seq<Seg>, i: nat, offset: int)
    requires i + 1 == |segs|
    ensures Pause(segs, i, offset) == []
  {
  }

  lemma NothingDisagrees()
    ensures Consistent([])
  {
  }
}
