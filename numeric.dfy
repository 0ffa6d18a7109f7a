/**
 * The numeric helpers the sketch borrows from p5.js and JavaScript:
 * `constrain`, `map` (with and without clamping) and the `%` operator.
 * Numbers are modelled as reals; IEEE rounding is not modelled.
 */
module Numeric {

  function Min(a: real, b: real): real { if a <= b then a else b }

  function Max(a: real, b: real): real { if a >= b then a else b }

  /** p5's `constrain(n, low, high)`, i.e. `Math.max(Math.min(n, high), low)`. */
  function Constrain(n: real, low: real, high: real): (r: real)
    ensures low <= high ==> low <= r <= high
    ensures low <= n <= high ==> r == n
    ensures low <= high && n < low ==> r == low
    ensures low <= high && n > high ==> r == high
  {
    Max(Min(n, high), low)
  }

  /** The affine part of p5's `map`: sends `start1` to `start2` and `stop1` to `stop2`. */
  function LinearMap(v: real, start1: real, stop1: real, start2: real, stop2: real): (r: real)
    requires start1 != stop1
    ensures v == start1 ==> r == start2
    ensures v == stop1 ==> r == stop2
  {
    DivSelf(stop1 - start1);
    assert (start1 - start1) / (stop1 - start1) == 0.0;
    (v - start1) / (stop1 - start1) * (stop2 - start2) + start2
  }

  lemma DivSelf(d: real)
    requires d != 0.0
    ensures d / d == 1.0
  {
  }

  /** p5's `map(v, start1, stop1, start2, stop2, withinBounds)`. */
  function MapRange(v: real, start1: real, stop1: real, start2: real, stop2: real, withinBounds: bool): (r: real)
    requires start1 != stop1
    ensures withinBounds ==> Min(start2, stop2) <= r <= Max(start2, stop2)
    ensures !withinBounds ==> r == LinearMap(v, start1, stop1, start2, stop2)
    ensures var lin := LinearMap(v, start1, stop1, start2, stop2);
              Min(start2, stop2) <= lin <= Max(start2, stop2) ==> r == lin
    ensures var lin := LinearMap(v, start1, stop1, start2, stop2);
              withinBounds && lin < Min(start2, stop2) ==> r == Min(start2, stop2)
    ensures var lin := LinearMap(v, start1, stop1, start2, stop2);
              withinBounds && lin > Max(start2, stop2) ==> r == Max(start2, stop2)
  {
    var newval := LinearMap(v, start1, stop1, start2, stop2);
    if !withinBounds then newval
    else if start2 < stop2 then Constrain(newval, start2, stop2)
    else Constrain(newval, stop2, start2)
  }

  /** Truncation toward zero, as JavaScript's remainder uses it. */
  function Trunc(x: real): (n: int)
    ensures 0.0 <= x ==> 0 <= n && n as real <= x < n as real + 1.0
    ensures x < 0.0 ==> n <= 0 && n as real - 1.0 < x <= n as real
  {
    if x >= 0.0 then x.Floor else -((-x).Floor)
  }

  /**
   * JavaScript's `a % m` for a positive modulus: the remainder takes the sign
   * of the dividend (Dafny's own `%` is Euclidean and is not used for this).
   */
  function JsRem(a: real, m: real): (r: real)
    requires m > 0.0
    ensures 0.0 <= a ==> 0.0 <= r < m
    ensures a < 0.0 ==> -m < r <= 0.0
    ensures -m < a < m ==> r == a
    ensures ((a - r) / m).Floor as real == (a - r) / m
  {
    var q := Trunc(a / m);
    RemainderBounds(a, m, q);
    var r := a - m * q as real;
    WholeQuotient(m, q, a - r);
    r
  }

  /** A whole multiple of `m`, divided by `m`, is a whole number. */
  lemma WholeQuotient(m: real, q: int, d: real)
    requires m > 0.0 && d == m * q as real
    ensures (d / m).Floor as real == d / m
  {
    DivCancel(m, q as real);
  }

  lemma UnitScale(m: real, d: real)
    requires m > 0.0 && -1.0 < d < 1.0
    ensures 0.0 <= d ==> 0.0 <= m * d < m
    ensures d <= 0.0 ==> -m < m * d <= 0.0
  {
    assert m - m * d == m * (1.0 - d);
    assert m + m * d == m * (1.0 + d);
  }

  lemma MulMono(m: real, u: real, v: real)
    requires m > 0.0 && u <= v
    ensures m * u <= m * v
  {
    assert m * v - m * u == m * (v - u);
  }

  /** Dividing by a positive modulus keeps the sign, and maps (-m, m) into (-1, 1). */
  lemma QuotientSign(a: real, m: real)
    requires m > 0.0
    ensures 0.0 <= a ==> 0.0 <= a / m
    ensures a < 0.0 ==> a / m < 0.0
    ensures -m < a < m ==> -1.0 < a / m < 1.0
  {
    var x := a / m;
    assert m * x == a;
    assert 0.0 <= a ==> 0.0 <= x by {
      if x < 0.0 { MulMono(m, x, 0.0); }
    }
    assert a < 0.0 ==> x < 0.0 by {
      if x >= 0.0 { MulMono(m, 0.0, x); }
    }
    assert a < m ==> x < 1.0 by {
      if x >= 1.0 { MulMono(m, 1.0, x); }
    }
    assert -m < a ==> -1.0 < x by {
      if x <= -1.0 { MulMono(m, x, -1.0); }
    }
  }

  lemma RemainderNonNeg(a: real, m: real, qr: real)
    requires m > 0.0 && qr <= a / m < qr + 1.0
    ensures 0.0 <= a - m * qr < m
  {
    var d := a / m - qr;
    assert a - m * qr == m * d;
    UnitScale(m, d);
    assert 0.0 <= m * d < m;
  }

  lemma RemainderNeg(a: real, m: real, qr: real)
    requires m > 0.0 && qr - 1.0 < a / m <= qr
    ensures -m < a - m * qr <= 0.0
  {
    var d := a / m - qr;
    assert a - m * qr == m * d;
    UnitScale(m, d);
  }

  lemma RemainderBounds(a: real, m: real, q: int)
    requires m > 0.0 && q == Trunc(a / m)
    ensures 0.0 <= a ==> 0.0 <= a - m * q as real < m
    ensures a < 0.0 ==> -m < a - m * q as real <= 0.0
    ensures -m < a < m ==> q == 0
  {
    QuotientSign(a, m);
    if 0.0 <= a {
      RemainderNonNeg(a, m, q as real);
    } else {
      RemainderNeg(a, m, q as real);
    }
  }

  lemma DivMono(u: real, v: real, k: real)
    requires k > 0.0 && u <= v
    ensures u / k <= v / k
  {
    var p := u / k;
    var q := v / k;
    assert k * p == u && k * q == v;
    if p > q {
      MulMono(k, q, p);
    }
  }

  /** A part over a positive whole lies in [0, 1], below 1 for a proper part and at 1 for the whole. */
  lemma DivBounds(r: real, n: real)
    requires n > 0.0 && 0.0 <= r <= n
    ensures 0.0 <= r / n <= 1.0
    ensures r < n ==> r / n < 1.0
    ensures r == n ==> r / n == 1.0
  {
    DivMono(0.0, r, n);
    DivMono(r, n, n);
    var x := r / n;
    assert n * x == r;
    assert n * (1.0 - x) == n - r;
    if r == n {
      DivSelf(n);
    }
  }

  lemma DivCancel(r: real, x: real)
    requires r != 0.0
    ensures (r * x) / r == x
  {
  }

  /** With increasing ranges, p5's `map` is monotone in its value. */
  lemma MapRangeMono(v1: real, v2: real, start1: real, stop1: real, start2: real, stop2: real, withinBounds: bool)
    requires start1 < stop1 && start2 <= stop2 && v1 <= v2
    ensures MapRange(v1, start1, stop1, start2, stop2, withinBounds) <= MapRange(v2, start1, stop1, start2, stop2, withinBounds)
  {
    LinearMapMono(v1, v2, start1, stop1, start2, stop2);
    if withinBounds {
      ConstrainMono(LinearMap(v1, start1, stop1, start2, stop2), LinearMap(v2, start1, stop1, start2, stop2),
                    start2, stop2);
    }
  }

  lemma LinearMapMono(v1: real, v2: real, start1: real, stop1: real, start2: real, stop2: real)
    requires start1 < stop1 && start2 <= stop2 && v1 <= v2
    ensures LinearMap(v1, start1, stop1, start2, stop2) <= LinearMap(v2, start1, stop1, start2, stop2)
  {
    DivMono(v1 - start1, v2 - start1, stop1 - start1);
    var p := (v1 - start1) / (stop1 - start1);
    var q := (v2 - start1) / (stop1 - start1);
    if start2 < stop2 {
      MulMono(stop2 - start2, p, q);
      assert p * (stop2 - start2) <= q * (stop2 - start2);
    }
  }

  lemma ConstrainMono(n1: real, n2: real, low: real, high: real)
    requires n1 <= n2 && low <= high
    ensures Constrain(n1, low, high) <= Constrain(n2, low, high)
  {
  }
}
