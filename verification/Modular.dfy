/** Divisibility facts for a variable modulus. */
module Modular {

  lemma MultipleMod(k: int, m: nat)
    requires m > 0
    ensures (k * m) % m == 0
  {
    DivModUnique(k * m, m, k, 0);
  }

  lemma DivModUnique(x: int, m: nat, q: int, r: int)
    requires m > 0 && x == q * m + r && 0 <= r < m
    ensures x / m == q && x % m == r
  {
    var d := x / m - q;
    assert x == (x / m) * m + x % m;
    assert d * m == r - x % m by {
      assert d * m == (x / m) * m - q * m;
    }
    FarMultiples(d, m);
  }

  lemma FarMultiples(d: int, m: int)
    requires m > 0
    ensures d >= 1 ==> d * m >= m
    ensures d <= -1 ==> d * m <= -m
  {
    if d >= 1 {
      assert (d - 1) * m >= 0;
    } else if d <= -1 {
      assert (d + 1) * m <= 0;
    }
  }

  /** Shifting by a multiple of the modulus leaves the remainder alone. */
  lemma ModAddMultiple(x: int, k: int, m: nat)
    requires m > 0
    ensures (x + k * m) % m == x % m
  {
    assert x + k * m == (x / m + k) * m + x % m;
    DivModUnique(x + k * m, m, x / m + k, x % m);
  }

  /** `x` is a multiple of `m`, counted down rather than divided. */
  predicate Multiple(x: nat, m: nat)
    requires m > 0
  {
    if x < m then x == 0 else Multiple(x - m, m)
  }

  lemma {:induction false} MultipleIsMod(x: nat, m: nat)
    requires m > 0
    ensures Multiple(x, m) <==> x % m == 0
  {
    if x < m {
      DivModUnique(x, m, 0, x);
    } else {
      MultipleIsMod(x - m, m);
      ModAddMultiple(x, -1, m);
    }
  }

  lemma {:induction false} MultipleSum(x: nat, y: nat, m: nat)
    requires m > 0 && Multiple(y, m)
    ensures Multiple(x + y, m) <==> Multiple(x, m)
  {
    if y > 0 {
      MultipleSum(x, y - m, m);
    }
  }
}
