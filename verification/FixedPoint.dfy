/** Fixed-point polynomials (chain/types/electionproof.go, `polyval`): numbers in Q.256
    format, evaluated by Horner's method with a rounding at every step. Coefficients
    are listed highest first; `n` says how many of them are used. The fixed-point
    number one is a parameter: `one` is 2^256 in the program. */
module FixedPoint {
  /** The number a fixed-point value stands for. */
  ghost function Value(x: int, one: int): real
    requires one > 0
  {
    x as real / one as real
  }

  /** A product of fixed-point values, rounded down. */
  function Product(x: int, y: int, one: int): int
    requires one > 0
  {
    (x * y) / one
  }

  ghost function Power(t: real, k: nat): real {
    if k == 0 then 1.0 else t * Power(t, k - 1)
  }

  /** `1 + t + ... + t^(n-1)` */
  ghost function Powers(t: real, n: nat): real {
    if n == 0 then 0.0 else Powers(t, n - 1) + Power(t, n - 1)
  }

  /** The polynomial times `t^k`, as a sum of powers. */
  ghost function Monomials(p: seq<int>, t: real, n: nat, k: nat): real
    requires n <= |p|
  {
    if n == 0 then 0.0 else p[n - 1] as real * Power(t, k) + Monomials(p, t, n - 1, k + 1)
  }

  /** The same polynomial by Horner's method, without rounding. */
  ghost function Horner(p: seq<int>, t: real, n: nat): real
    requires n <= |p|
  {
    if n == 0 then 0.0 else Horner(p, t, n - 1) * t + p[n - 1] as real
  }

  /** Horner's method as the program does it. */
  ghost function Rounded(p: seq<int>, x: int, n: nat, one: int): int
    requires n <= |p| && one > 0
  {
    if n == 0 then 0 else Product(Rounded(p, x, n - 1, one), x, one) + p[n - 1]
  }

  method Polyval(p: seq<int>, x: int, one: int) returns (res: int)
    requires p != [] && one > 0
    ensures res == Rounded(p, x, |p|, one)
  {
    res := p[0];
    assert Rounded(p, x, 1, one) == p[0];
    for i := 1 to |p|
      invariant res == Rounded(p, x, i, one)
    {
      var tmp := res * x;
      res := tmp / one;
      res := res + p[i];
    }
  }

  // ----- Horner's method is exact ----------------------------------------

  lemma Distribute(x: real, y: real, t: real)
    ensures (x + y) * t == x * t + y * t
  {
  }

  lemma Spread(h: real, t: real, c: real, power: real, next: real, exact: real)
    requires next == t * power && exact == h * t + c
    ensures exact * power == c * power + h * next
  {
    assert h * next == (h * t) * power;
  }

  lemma {:induction false} HornerTimes(p: seq<int>, t: real, n: nat, k: nat)
    requires n <= |p|
    ensures Horner(p, t, n) * Power(t, k) == Monomials(p, t, n, k)
  {
    if n > 0 {
      HornerTimes(p, t, n - 1, k + 1);
      Spread(Horner(p, t, n - 1), t, p[n - 1] as real, Power(t, k), Power(t, k + 1), Horner(p, t, n));
    }
  }

  lemma HornerIsExact(p: seq<int>, t: real)
    ensures Horner(p, t, |p|) == Monomials(p, t, |p|, 0)
  {
    HornerTimes(p, t, |p|, 0);
  }

  // ----- rounding --------------------------------------------------------

  lemma {:induction false} PowersStep(t: real, n: nat)
    ensures 1.0 + t * Powers(t, n) == Powers(t, n + 1)
  {
    if n > 0 {
      PowersStep(t, n - 1);
      Distribute(Powers(t, n - 1), Power(t, n - 1), t);
    }
  }

  /** One rounded product is less than one unit below the exact one. */
  lemma RoundOne(res: int, x: int, one: int)
    requires one > 0
    ensures 0.0 <= res as real * Value(x, one) - Product(res, x, one) as real < 1.0
  {
    var product := res * x;
    var q, r := product / one, product % one;
    assert product == q * one + r && 0 <= r < one;
    assert res as real * x as real == q as real * one as real + r as real;
    RoundReal(res as real, x as real, q as real, r as real, one as real);
  }

  lemma RoundReal(res: real, x: real, q: real, r: real, one: real)
    requires one > 0.0 && 0.0 <= r < one && res * x == q * one + r
    ensures 0.0 <= res * (x / one) - q < 1.0
  {
    var t := x / one;
    assert t * one == x;
    assert (res * t - q) * one == r by {
      assert (res * t - q) * one == res * (t * one) - q * one;
    }
    var e := res * t - q;
    assert e >= 0.0;
    if e >= 1.0 {
      Ordered(1.0, e, one);
      assert false;
    }
  }

  /** The point `t` stands for `x`, as far as rounded products can tell. */
  ghost predicate Near(x: int, t: real, one: int)
    requires one > 0
  {
    t >= 0.0 && forall res :: 0.0 <= res as real * t - Product(res, x, one) as real < 1.0
  }

  lemma ValueIsNear(x: int, one: int)
    requires x >= 0 && one > 0
    ensures Near(x, Value(x, one), one)
  {
    forall res: int
      ensures 0.0 <= res as real * Value(x, one) - Product(res, x, one) as real < 1.0
    {
      RoundOne(res, x, one);
    }
  }

  /** How far the rounded value falls short. */
  ghost function Error(p: seq<int>, x: int, t: real, n: nat, one: int): real
    requires n <= |p| && one > 0
  {
    Horner(p, t, n) - Rounded(p, x, n, one) as real
  }

  lemma ErrorOfConstant(p: seq<int>, x: int, t: real, one: int)
    requires p != [] && one > 0
    ensures Error(p, x, t, 1, one) == 0.0
  {
    assert Product(Rounded(p, x, 0, one), x, one) == 0 && Horner(p, t, 0) * t == 0.0;
  }

  lemma ErrorOfNext(p: seq<int>, x: int, t: real, n: nat, one: int, bound: real, more: real)
    requires n < |p| && one > 0 && Near(x, t, one)
    requires 0.0 <= Error(p, x, t, n, one) <= bound && more == 1.0 + t * bound
    ensures 0.0 <= Error(p, x, t, n + 1, one) < more
  {
    var exact, rounded := Horner(p, t, n), Rounded(p, x, n, one);
    assert Error(p, x, t, n + 1, one) == exact * t - Product(rounded, x, one) as real;
    ErrorStep(exact, rounded as real, Product(rounded, x, one) as real, t, bound, more);
  }

  lemma {:induction false} ErrorBound(p: seq<int>, x: int, t: real, n: nat, one: int)
    requires one > 0 && Near(x, t, one) && 0 < n <= |p|
    ensures 0.0 <= Error(p, x, t, n, one) <= Powers(t, n - 1)
    ensures n > 1 ==> Error(p, x, t, n, one) < Powers(t, n - 1)
  {
    if n == 1 {
      ErrorOfConstant(p, x, t, one);
    } else {
      ErrorBound(p, x, t, n - 1, one);
      PowersStep(t, n - 2);
      ErrorOfNext(p, x, t, n - 1, one, Powers(t, n - 2), Powers(t, n - 1));
    }
  }

  /** Rounding down costs nothing for a constant, otherwise less than the sum of the
      powers below the degree. */
  lemma RoundingError(p: seq<int>, x: int, one: int)
    requires x >= 0 && p != [] && one > 0
    ensures 0.0 <= Error(p, x, Value(x, one), |p|, one) <= Powers(Value(x, one), |p| - 1)
    ensures |p| > 1 ==> Error(p, x, Value(x, one), |p|, one) < Powers(Value(x, one), |p| - 1)
  {
    ValueIsNear(x, one);
    ErrorBound(p, x, Value(x, one), |p|, one);
  }

  lemma ErrorStep(exact: real, rounded: real, next: real, t: real, bound: real, more: real)
    requires more == 1.0 + t * bound
    requires t >= 0.0 && 0.0 <= exact - rounded <= bound && 0.0 <= rounded * t - next < 1.0
    ensures 0.0 <= exact * t - next < more
  {
    Ordered(0.0, exact - rounded, t);
    Ordered(exact - rounded, bound, t);
    DistributeMinus(exact, rounded, t);
    Between(exact * t, rounded * t, next, t * bound);
  }

  lemma DistributeMinus(x: real, y: real, t: real)
    ensures (x - y) * t == x * t - y * t
  {
  }

  lemma Between(exact: real, rounded: real, next: real, bound: real)
    requires 0.0 <= exact - rounded <= bound && 0.0 <= rounded - next < 1.0
    ensures 0.0 <= exact - next < 1.0 + bound
  {
  }

  lemma Ordered(x: real, y: real, t: real)
    requires x <= y && t >= 0.0
    ensures x * t <= y * t
  {
  }
}
