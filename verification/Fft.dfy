/** The Cooley-Tukey transform over shared scratch buffers, against the plain sum. Numbers are
    reals. */
module Fft {
  import opened Modular

  datatype Complex = Complex(re: real, im: real) {
    function Plus(c: Complex): Complex {
      Complex(re + c.re, im + c.im)
    }

    function Minus(c: Complex): Complex {
      Complex(re - c.re, im - c.im)
    }

    function Times(c: Complex): Complex {
      Complex(re * c.re - im * c.im, re * c.im + im * c.re)
    }

    function Scale(r: real): Complex {
      Complex(r * re, r * im)
    }
  }

  const ZERO: Complex := Complex(0.0, 0.0)
  const ONE: Complex := Complex(1.0, 0.0)

  // ---------------------------------------------------------------- the table

  datatype Table = Table(cos: seq<real>, sin: seq<real>) {
    function Size(): nat {
      |cos|
    }

    /** The rotation by `i` steps, against the sense of the table's angles. */
    function W(i: int): Complex
      requires |sin| == |cos| > 0
    {
      Complex(cos[i % |cos|], -sin[i % |cos|])
    }

    predicate Adds(a: int, b: int)
      requires |sin| == |cos| > 0
    {
      W(a + b) == W(a).Times(W(b))
    }

    /** What the cosines and sines of equal steps round the circle satisfy. */
    ghost predicate Ok() {
      && |sin| == |cos| > 0
      && W(0) == ONE
      && (forall a, b :: 0 <= a < |cos| && 0 <= b < |cos| ==> Adds(a, b))
      && (|cos| % 2 == 0 ==> W(|cos| / 2) == Complex(-1.0, 0.0))
    }
  }

  lemma WAdds(t: Table, a: int, b: int)
    requires t.Ok()
    ensures t.W(a + b) == t.W(a).Times(t.W(b))
  {
    var n := t.Size();
    assert t.Adds(a % n, b % n);
    ModSumBoth(a, b, n);
    ModTwice(a, n);
    ModTwice(b, n);
  }

  lemma ModSumBoth(a: int, b: int, n: nat)
    requires n > 0
    ensures (a % n + b % n) % n == (a + b) % n
  {
    assert a + b == a % n + b % n + (a / n + b / n) * n;
    ModAddMultiple(a % n + b % n, a / n + b / n, n);
  }

  lemma ModTwice(a: int, n: nat)
    requires n > 0
    ensures a % n % n == a % n
  {
    DivModUnique(a % n, n, 0, a % n);
  }

  lemma WTurns(t: Table, a: int, k: int)
    requires t.Ok()
    ensures t.W(a + k * t.Size()) == t.W(a)
  {
    ModAddMultiple(a, k, t.Size());
  }

  // ------------------------------------------------------------------ the sum

  /** The first `n` terms of the transform's value number `k`. */
  function Dft(t: Table, x: seq<real>, step: nat, k: nat, n: nat): Complex
    requires |t.sin| == |t.cos| > 0 && n <= |x|
  {
    if n == 0 then ZERO else Dft(t, x, step, k, n - 1).Plus(t.W(k * (n - 1) * step).Scale(x[n - 1]))
  }

  function DftAt(t: Table, x: seq<real>, k: nat): Complex
    requires |t.sin| == |t.cos| > 0 && x != []
  {
    Dft(t, x, t.Size() / |x|, k, |x|)
  }

  function Evens(x: seq<real>): (e: seq<real>)
    requires |x| % 2 == 0
  {
    seq(|x| / 2, m requires 0 <= m < |x| / 2 => x[2 * m])
  }

  function Odds(x: seq<real>): (o: seq<real>)
    requires |x| % 2 == 0
  {
    seq(|x| / 2, m requires 0 <= m < |x| / 2 => x[2 * m + 1])
  }

  lemma TimesScale(w: Complex, v: Complex, r: real)
    ensures w.Times(v).Scale(r) == w.Times(v.Scale(r))
  {
    var c := v.Scale(r);
    assert r * (w.re * v.re - w.im * v.im) == w.re * (r * v.re) - w.im * (r * v.im);
    assert r * (w.re * v.im + w.im * v.re) == w.re * (r * v.im) + w.im * (r * v.re);
  }

  lemma TimesPlus(w: Complex, a: Complex, b: Complex)
    ensures w.Times(a.Plus(b)) == w.Times(a).Plus(w.Times(b))
  {
  }

  lemma Indices(k: int, m: int, step: int)
    ensures k * (2 * m) * step == k * m * (2 * step)
    ensures k * (2 * m + 1) * step == k * step + k * m * (2 * step)
  {
    assert k * (2 * m) == 2 * (k * m);
    assert 2 * (k * m) * step == (k * m) * (2 * step);
    assert k * (2 * m + 1) == k + 2 * (k * m);
    assert (k + 2 * (k * m)) * step == k * step + 2 * (k * m) * step;
  }

  lemma Regroup(e: Complex, a: Complex, w: Complex, o: Complex, v: Complex, r: real)
    ensures e.Plus(w.Times(o)).Plus(a).Plus(w.Times(v).Scale(r)) == e.Plus(a).Plus(w.Times(o.Plus(v.Scale(r))))
  {
    TimesScale(w, v, r);
    TimesPlus(w, o, v.Scale(r));
    hide Complex.Times, Complex.Scale;
  }

  /** The sum over all terms is the sum over the even ones and the turned sum over the odd ones. */
  lemma {:induction false} DftSplits(t: Table, x: seq<real>, step: nat, k: nat, m: nat)
    requires t.Ok() && |x| % 2 == 0 && 2 * m <= |x|
    ensures Dft(t, x, step, k, 2 * m) ==
            Dft(t, Evens(x), 2 * step, k, m).Plus(t.W(k * step).Times(Dft(t, Odds(x), 2 * step, k, m)))
  {
    hide Complex.Times, Complex.Scale, Complex.Plus, Table.W;
    if m == 0 {
      NoTerms(t.W(k * step));
    } else {
      var j := m - 1;
      DftSplits(t, x, step, k, j);
      Indices(k, j, step);
      WAdds(t, k * step, k * j * (2 * step));
      var e, o := Dft(t, Evens(x), 2 * step, k, j), Dft(t, Odds(x), 2 * step, k, j);
      var v := t.W(k * j * (2 * step));
      TwoTerms(t, x, step, k, j);
      Regroup(e, v.Scale(x[2 * j]), t.W(k * step), o, v, x[2 * j + 1]);
    }
  }

  lemma NoTerms(w: Complex)
    ensures ZERO.Plus(w.Times(ZERO)) == ZERO
  {
  }

  lemma TwoTerms(t: Table, x: seq<real>, step: nat, k: nat, j: nat)
    requires |t.sin| == |t.cos| > 0 && 2 * j + 1 < |x|
    ensures Dft(t, x, step, k, 2 * (j + 1)) ==
            Dft(t, x, step, k, 2 * j).Plus(t.W(k * (2 * j) * step).Scale(x[2 * j]))
              .Plus(t.W(k * (2 * j + 1) * step).Scale(x[2 * j + 1]))
  {
    hide Complex.Times, Complex.Scale, Complex.Plus, Table.W;
    assert Dft(t, x, step, k, 2 * j + 1) == Dft(t, x, step, k, 2 * j).Plus(t.W(k * (2 * j) * step).Scale(x[2 * j]));
  }

  /** A whole turn in the step leaves the sum alone. */
  lemma {:induction false} DftTurns(t: Table, x: seq<real>, step: nat, k: nat, h: nat, n: nat)
    requires t.Ok() && n <= |x| && step * h == t.Size()
    ensures Dft(t, x, step, k + h, n) == Dft(t, x, step, k, n)
  {
    hide Complex.Times, Complex.Scale, Complex.Plus, Table.W;
    if n > 0 {
      DftTurns(t, x, step, k, h, n - 1);
      TurnIndex(k, h, n - 1, step);
      WTurns(t, k * (n - 1) * step, n - 1);
    }
  }

  lemma TurnIndex(k: int, h: int, m: int, step: int)
    ensures (k + h) * m * step == k * m * step + m * (step * h)
  {
    assert (k + h) * m == k * m + h * m;
    assert (k * m + h * m) * step == k * m * step + h * m * step;
    assert h * m * step == m * (step * h) by {
      assert h * m == m * h;
      assert (m * h) * step == m * (h * step);
    }
  }

  /** Both halves of the transform, from the transforms of the even and odd inputs. */
  lemma Butterfly(t: Table, x: seq<real>, k: nat)
    requires t.Ok() && x != [] && |x| % 2 == 0 && k < |x| / 2 && t.Size() % |x| == 0
    ensures t.Size() % (|x| / 2) == 0
    ensures var e, o := DftAt(t, Evens(x), k), DftAt(t, Odds(x), k);
            var turned := t.W(k * (t.Size() / |x|)).Times(o);
            DftAt(t, x, k) == e.Plus(turned) && DftAt(t, x, k + |x| / 2) == e.Minus(turned)
  {
    hide Complex.Times, Complex.Scale, Complex.Plus, Complex.Minus, Table.W, Dft;
    var h := |x| / 2;
    var step := t.Size() / |x|;
    Steps(t.Size(), h, step);
    DftSplits(t, x, step, k, h);
    DftSplits(t, x, step, k + h, h);
    DftTurns(t, Evens(x), 2 * step, k, h, h);
    DftTurns(t, Odds(x), 2 * step, k, h, h);
    assert (k + h) * step == k * step + h * step;
    WAdds(t, k * step, h * step);
    var o := DftAt(t, Odds(x), k);
    assert t.W(h * step) == Complex(-1.0, 0.0);
    Opposite(DftAt(t, Evens(x), k), t.W(k * step), o);
  }

  lemma Steps(size: nat, h: nat, step: nat)
    requires h > 0 && size % (2 * h) == 0 && step == size / (2 * h)
    ensures step * (2 * h) == size && 2 * step * h == size && h * step == size / 2 && size % 2 == 0
    ensures size % h == 0 && size / h == 2 * step
  {
    assert size == step * (2 * h);
    assert step * (2 * h) == 2 * step * h;
    assert 2 * step * h == 2 * (h * step);
    DivModUnique(size, h, 2 * step, 0);
  }

  lemma Opposite(e: Complex, w: Complex, o: Complex)
    ensures e.Plus(w.Times(Complex(-1.0, 0.0)).Times(o)) == e.Minus(w.Times(o))
  {
  }

  // -------------------------------------------------------------- the procedures

  /** Complex value number `k` from position `at` on. */
  function Value(out: seq<real>, at: nat, k: nat): Complex
    requires at + 2 * k + 1 < |out|
  {
    Complex(out[at + 2 * k], out[at + 2 * k + 1])
  }

  /** The transform of `x` stands in `out` from `at` on. */
  predicate Spectrum(t: Table, x: seq<real>, out: seq<real>, at: nat)
    requires |t.sin| == |t.cos| > 0 && x != []
  {
    at + 2 * |x| <= |out| && forall k :: 0 <= k < |x| ==> Value(out, at, k) == DftAt(t, x, k)
  }

  /** Only positions from `lo` to below `hi` may differ. */
  predicate Outside(a: seq<real>, b: seq<real>, lo: nat, hi: nat) {
    |a| == |b| && forall i :: 0 <= i < |a| && !(lo <= i < hi) ==> a[i] == b[i]
  }

  lemma Through(a: seq<real>, b: seq<real>, c: seq<real>, lo: nat, hi: nat, p: nat, q: nat, r: nat, s: nat)
    requires Outside(a, b, p, q) && Outside(b, c, r, s) && lo <= p <= q <= hi && lo <= r <= s <= hi
    ensures Outside(a, c, lo, hi)
  {
  }

  method Naive(t: Table, inp: array<real>, ia: nat, n: nat, out: array<real>, oa: nat)
    requires t.Ok() && n > 0 && t.Size() % n == 0 && inp != out
    requires ia + n <= inp.Length && oa + 2 * n <= out.Length
    modifies out
    ensures Spectrum(t, inp[ia..ia + n], out[..], oa)
    ensures Outside(old(out[..]), out[..], oa, oa + 2 * n)
  {
    hide Complex.Times, Dft;
    var x := inp[ia..ia + n];
    var step := t.Size() / n;
    for k := 0 to n
      invariant forall j :: 0 <= j < k ==> Value(out[..], oa, j) == DftAt(t, x, j)
      invariant Outside(old(out[..]), out[..], oa, oa + 2 * n)
    {
      var re, im := NaiveSum(t, inp, ia, n, k, step);
      out[oa + 2 * k] := re;
      out[oa + 2 * k + 1] := im;
    }
  }

  /** The sum for one output value. */
  method NaiveSum(t: Table, inp: array<real>, ia: nat, n: nat, k: nat, step: nat) returns (re: real, im: real)
    requires |t.sin| == |t.cos| > 0 && ia + n <= inp.Length
    ensures Complex(re, im) == Dft(t, inp[ia..ia + n], step, k, n)
  {
    hide Complex.Times, Dft;
    ghost var x := inp[ia..ia + n];
    re, im := 0.0, 0.0;
    DftNone(t, x, step, k);
    for m := 0 to n
      invariant Complex(re, im) == Dft(t, x, step, k, m)
    {
      var idx := (k * m * step) % t.Size();
      DftNext(t, x, step, k, m, idx);
      re := re + inp[ia + m] * t.cos[idx];
      im := im - inp[ia + m] * t.sin[idx];
    }
  }

  lemma DftNone(t: Table, x: seq<real>, step: nat, k: nat)
    requires |t.sin| == |t.cos| > 0
    ensures Dft(t, x, step, k, 0) == ZERO
  {
  }

  lemma DftNext(t: Table, x: seq<real>, step: nat, k: nat, m: nat, idx: nat)
    requires |t.sin| == |t.cos| > 0 && m < |x| && idx == (k * m * step) % t.Size()
    ensures var sum := Dft(t, x, step, k, m);
            Dft(t, x, step, k, m + 1) == Complex(sum.re + x[m] * t.cos[idx], sum.im - x[m] * t.sin[idx])
  {
    assert t.W(k * m * step) == Complex(t.cos[idx], -t.sin[idx]);
  }

  /** Copies every other input, from `first` on, behind the inputs. */
  method CopyHalf(inp: array<real>, ia: nat, n: nat, first: nat)
    requires n % 2 == 0 && first < 2 && ia + 2 * n <= inp.Length
    modifies inp
    ensures Outside(old(inp[..]), inp[..], ia + n, ia + 2 * n)
    ensures inp[ia + n..ia + n + n / 2] == if first == 0 then Evens(old(inp[ia..ia + n]))
      else Odds(old(inp[ia..ia + n]))
  {
    hide Outside, Evens, Odds;
    ghost var was := inp[..];
    Untouched(was, ia + n, ia + 2 * n);
    for i := 0 to n / 2
      invariant Outside(was, inp[..], ia + n, ia + 2 * n)
      invariant forall k :: 0 <= k < i ==> inp[ia + n + k] == was[ia + 2 * k + first]
    {
      ghost var now := inp[..];
      AtOutside(was, now, ia + n, ia + 2 * n, ia + 2 * i + first);
      inp[ia + n + i] := inp[ia + 2 * i + first];
      OneMore(was, now, inp[..], ia + n, ia + 2 * n, ia + n + i);
    }
    HalfCopied(was, inp[..], ia, n, n / 2, first);
  }

  lemma AtOutside(a: seq<real>, b: seq<real>, lo: nat, hi: nat, i: nat)
    requires Outside(a, b, lo, hi) && i < |a| && !(lo <= i < hi)
    ensures b[i] == a[i]
  {
  }

  lemma OneMore(a: seq<real>, b: seq<real>, c: seq<real>, lo: nat, hi: nat, i: nat)
    requires Outside(a, b, lo, hi) && lo <= i < hi <= |a| && |c| == |b| && c == b[i := c[i]]
    ensures Outside(a, c, lo, hi)
  {
  }

  lemma HalfCopied(was: seq<real>, now: seq<real>, ia: nat, n: nat, h: nat, first: nat)
    requires n == 2 * h && first < 2 && ia + 2 * n <= |was| && |now| == |was|
    requires forall k :: 0 <= k < h ==> now[ia + n + k] == was[ia + 2 * k + first]
    ensures now[ia + n..ia + n + h] == if first == 0 then Evens(was[ia..ia + n]) else Odds(was[ia..ia + n])
  {
    var half, x := now[ia + n..ia + n + h], was[ia..ia + n];
    var e := if first == 0 then Evens(x) else Odds(x);
    assert |e| == h;
    forall k | 0 <= k < h ensures half[k] == e[k] {
      assert half[k] == now[ia + n + k];
      assert e[k] == x[2 * k + first];
      assert x[2 * k + first] == was[ia + (2 * k + first)];
    }
  }

  lemma OneInput(t: Table, x: seq<real>)
    requires t.Ok() && |x| == 1
    ensures DftAt(t, x, 0) == Complex(x[0], 0.0)
  {
    assert Dft(t, x, t.Size(), 0, 0) == ZERO;
  }

  /** Values `k` and `k + n / 2` from the half transforms behind the outputs. */
  method CombineAt(t: Table, n: nat, out: array<real>, oa: nat, k: nat)
    requires t.Ok() && n % 2 == 0 && k < n / 2 && t.Size() % n == 0 && oa + 6 * n <= out.Length
    modifies out
    ensures var turned := t.W(k * (t.Size() / n)).Times(Value(old(out[..]), oa + 3 * n, k));
            && Value(out[..], oa, k) == Value(old(out[..]), oa + 2 * n, k).Plus(turned)
            && Value(out[..], oa, k + n / 2) == Value(old(out[..]), oa + 2 * n, k).Minus(turned)
    ensures forall j :: 0 <= j < n && j != k && j != k + n / 2 ==> Value(out[..], oa, j) == Value(old(out[..]), oa, j)
    ensures Outside(old(out[..]), out[..], oa, oa + 2 * n)
  {
    hide Complex.Times, Complex.Plus, Complex.Minus;
    var half := n / 2;
    IndexInTable(k, t.Size(), n);
    var idx := k * (t.Size() / n);
    var re, im := t.cos[idx], -t.sin[idx];
    var ro, io := out[oa + 3 * n + 2 * k], out[oa + 3 * n + 2 * k + 1];
    var rev, iev := out[oa + 2 * n + 2 * k], out[oa + 2 * n + 2 * k + 1];
    Products(Complex(rev, iev), Complex(re, im), Complex(ro, io));
    assert t.W(idx) == Complex(re, im);
    out[oa + 2 * k] := rev + re * ro - im * io;
    out[oa + 2 * k + 1] := iev + re * io + im * ro;
    out[oa + 2 * (k + half)] := rev - re * ro + im * io;
    out[oa + 2 * (k + half) + 1] := iev - re * io - im * ro;
  }

  /** Puts the two half transforms together. */
  method Combine(t: Table, ghost x: seq<real>, n: nat, out: array<real>, oa: nat)
    requires t.Ok() && n > 0 && n % 2 == 0 && |x| == n && t.Size() % n == 0 && oa + 6 * n <= out.Length
    requires Spectrum(t, Evens(x), out[..], oa + 2 * n) && Spectrum(t, Odds(x), out[..], oa + 3 * n)
    modifies out
    ensures Spectrum(t, x, out[..], oa)
    ensures Outside(old(out[..]), out[..], oa, oa + 2 * n)
  {
    hide Complex.Times, Complex.Plus, Complex.Minus, DftAt, Evens, Odds, Outside, Value, Table.W, Spectrum;
    var half := n / 2;
    ghost var was := out[..];
    Untouched(was, oa, oa + 2 * n);
    for k := 0 to half
      invariant forall j :: 0 <= j < n && (j < k || half <= j < half + k) ==> Value(out[..], oa, j) == DftAt(t, x, j)
      invariant Outside(was, out[..], oa, oa + 2 * n)
    {
      ghost var now := out[..];
      Kept(was, now, oa, oa + 2 * n, oa + 2 * n, k);
      Kept(was, now, oa, oa + 2 * n, oa + 3 * n, k);
      HalfValues(t, x, was, oa, k);
      Butterfly(t, x, k);
      CombineAt(t, n, out, oa, k);
      Through(was, now, out[..], oa, oa + 2 * n, oa, oa + 2 * n, oa, oa + 2 * n);
    }
    AllValues(t, x, out[..], oa);
  }

  lemma HalfValues(t: Table, x: seq<real>, out: seq<real>, oa: nat, k: nat)
    requires t.Ok() && x != [] && |x| % 2 == 0 && k < |x| / 2
    requires Spectrum(t, Evens(x), out, oa + 2 * |x|) && Spectrum(t, Odds(x), out, oa + 3 * |x|)
    ensures oa + 4 * |x| <= |out|
    ensures Value(out, oa + 2 * |x|, k) == DftAt(t, Evens(x), k)
    ensures Value(out, oa + 3 * |x|, k) == DftAt(t, Odds(x), k)
  {
    hide DftAt, Value;
  }

  lemma AllValues(t: Table, x: seq<real>, out: seq<real>, oa: nat)
    requires t.Ok() && x != [] && oa + 2 * |x| <= |out|
    requires forall j :: 0 <= j < |x| ==> Value(out, oa, j) == DftAt(t, x, j)
    ensures Spectrum(t, x, out, oa)
  {
  }

  lemma InputsKept(was: seq<real>, now: seq<real>, ia: nat, n: nat)
    requires Outside(was, now, ia + n, ia + 2 * n) && ia + n <= |was|
    ensures now[ia..ia + n] == was[ia..ia + n]
  {
  }

  lemma Untouched(a: seq<real>, lo: nat, hi: nat)
    ensures Outside(a, a, lo, hi)
  {
  }

  lemma Kept(was: seq<real>, now: seq<real>, lo: nat, hi: nat, at: nat, k: nat)
    requires Outside(was, now, lo, hi) && (hi <= at || at + 2 * k + 1 < lo) && at + 2 * k + 1 < |was|
    ensures Value(now, at, k) == Value(was, at, k)
  {
  }

  lemma IndexInTable(k: nat, size: nat, n: nat)
    requires 2 * k < n && size > 0 && size % n == 0
    ensures 0 <= k * (size / n) < size && (k * (size / n)) % size == k * (size / n)
  {
    var step := size / n;
    assert size == step * n;
    FewerRows(k, n, step);
    DivModUnique(k * step, size, 0, k * step);
  }

  lemma FewerRows(k: nat, n: nat, step: int)
    requires k < n && step * n > 0
    ensures 0 <= k * step < step * n
  {
    assert step > 0;
    assert k * step >= 0;
    assert (n - k) * step > 0;
    assert (n - k) * step == step * n - k * step;
  }

  lemma Products(e: Complex, w: Complex, o: Complex)
    ensures e.Plus(w.Times(o)) == Complex(e.re + w.re * o.re - w.im * o.im, e.im + w.re * o.im + w.im * o.re)
    ensures e.Minus(w.Times(o)) == Complex(e.re - w.re * o.re + w.im * o.im, e.im - w.re * o.im - w.im * o.re)
  {
    var a, b, c, d := w.re * o.re, w.im * o.im, w.re * o.im, w.im * o.re;
    assert w.Times(o) == Complex(a - b, c + d);
    Gathered(e, a, b, c, d);
  }

  lemma Gathered(e: Complex, a: real, b: real, c: real, d: real)
    ensures e.Plus(Complex(a - b, c + d)) == Complex(e.re + a - b, e.im + c + d)
    ensures e.Minus(Complex(a - b, c + d)) == Complex(e.re - a + b, e.im - c - d)
  {
  }

  method Single(t: Table, inp: array<real>, ia: nat, out: array<real>, oa: nat)
    requires t.Ok() && inp != out && ia < inp.Length && oa + 6 <= out.Length
    modifies out
    ensures Spectrum(t, inp[ia..ia + 1], out[..], oa)
    ensures Outside(old(out[..]), out[..], oa, oa + 6)
  {
    out[oa] := inp[ia];
    out[oa + 1] := 0.0;
    OneSpectrum(t, inp[ia..ia + 1], out[..], oa);
  }

  /** The recursive transform: the halves share the space behind the inputs, one after the
      other, and leave their results behind the `2n` outputs. */
  method Fft(t: Table, inp: array<real>, ia: nat, n: nat, out: array<real>, oa: nat)
    requires t.Ok() && n > 0 && t.Size() % n == 0 && inp != out
    requires ia + 2 * n <= inp.Length && oa + 6 * n <= out.Length
    modifies inp, out
    ensures Outside(old(inp[..]), inp[..], ia + n, ia + 2 * n)
    ensures Spectrum(t, old(inp[ia..ia + n]), out[..], oa)
    ensures Outside(old(out[..]), out[..], oa, oa + 6 * n)
    decreases n
  {
    hide DftAt, Spectrum, Outside, Table.W, Evens, Odds;
    ghost var x := inp[ia..ia + n];
    if n == 1 {
      Single(t, inp, ia, out, oa);
      Untouched(inp[..], ia + n, ia + 2 * n);
      return;
    }
    var half := n / 2;
    if n - half * 2 == 1 {
      ghost var was := out[..];
      Naive(t, inp, ia, n, out, oa);
      Untouched(inp[..], ia + n, ia + 2 * n);
      Untouched(was, oa, oa);
      Through(was, was, out[..], oa, oa + 6 * n, oa, oa, oa, oa + 2 * n);
      return;
    }
    Steps(t.Size(), half, t.Size() / n);
    ghost var i0, o0 := inp[..], out[..];
    CopyHalf(inp, ia, n, 0);
    ghost var i1 := inp[..];
    Fft(t, inp, ia + n, half, out, oa + 2 * n);
    ghost var i2, o2 := inp[..], out[..];
    Through(i0, i1, i2, ia + n, ia + 2 * n, ia + n, ia + 2 * n, ia + n + half, ia + n + 2 * half);
    InputsKept(i0, i2, ia, n);
    CopyHalf(inp, ia, n, 1);
    ghost var i3 := inp[..];
    Through(i0, i2, i3, ia + n, ia + 2 * n, ia + n, ia + 2 * n, ia + n, ia + 2 * n);
    Fft(t, inp, ia + n, half, out, oa + 3 * n);
    ghost var i4, o4 := inp[..], out[..];
    Through(i0, i3, i4, ia + n, ia + 2 * n, ia + n, ia + 2 * n, ia + n + half, ia + n + 2 * half);
    SpectrumKept(t, Evens(x), o2, o4, oa + 2 * n, oa + 3 * n, oa + 6 * n);
    Through(o0, o2, o4, oa, oa + 6 * n, oa + 2 * n, oa + 5 * n, oa + 3 * n, oa + 6 * n);
    Combine(t, x, n, out, oa);
    Through(o0, o4, out[..], oa, oa + 6 * n, oa, oa + 6 * n, oa, oa + 2 * n);
  }

  lemma OneSpectrum(t: Table, x: seq<real>, out: seq<real>, oa: nat)
    requires t.Ok() && |x| == 1 && oa + 1 < |out| && out[oa] == x[0] && out[oa + 1] == 0.0
    ensures Spectrum(t, x, out, oa)
  {
    OneInput(t, x);
  }

  lemma SpectrumKept(t: Table, x: seq<real>, was: seq<real>, now: seq<real>, at: nat, lo: nat, hi: nat)
    requires t.Ok() && x != [] && Spectrum(t, x, was, at) && Outside(was, now, lo, hi) && at + 2 * |x| <= lo
    ensures Spectrum(t, x, now, at)
  {
    forall k | 0 <= k < |x| ensures Value(now, at, k) == Value(was, at, k) {
    }
  }
}
