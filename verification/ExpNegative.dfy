/** The exponential as a quotient of polynomials (chain/types/electionproof.go,
    `expneg`). The coefficients are parameters; `ElectionConstants` shows that those of
    the program are as required here. */
module ExpNegative {
  import opened Arithmetic
  import opened FixedPoint

  /** Integer parameters of numerator and denominator, highest first, and the factor
      that shifts them to fixed point. */
  datatype Approximation = Approximation(num: seq<int>, deno: seq<int>, shift: int)

  /** The fixed-point number one: the constant term of both polynomials. */
  function One(c: Approximation): int
    requires c.num != []
  {
    c.num[|c.num| - 1] * c.shift
  }

  /** Aligned at the constant term, every coefficient of `q` is at least that of `p`. */
  ghost predicate Below(p: seq<int>, q: seq<int>) {
    |p| <= |q| && forall i :: 0 <= i < |p| ==> p[i] <= q[i + |q| - |p|]
  }

  /** Up to five the polynomial exceeds the worst rounding error. */
  ghost predicate High(p: seq<int>)
    requires p != []
  {
    forall t :: t <= 5.0 ==> Horner(p, t, |p|) >= Powers(5.0, |p| - 1)
  }

  ghost predicate Good(c: Approximation) {
    && c.num != [] && c.shift > 0 && High(c.num) && Below(c.num, c.deno)
    && (forall i :: 0 <= i < |c.deno| ==> c.deno[i] >= 0)
    && c.deno[|c.deno| - 1] == c.num[|c.num| - 1] > 0
  }

  lemma OnePositive(c: Approximation)
    requires Good(c)
    ensures One(c) > 0
  {
  }

  /** Integer parameters shifted to fixed point. */
  function Scaled(raw: seq<int>, shift: int): (r: seq<int>)
    ensures |r| == |raw| && forall i :: 0 <= i < |raw| ==> r[i] == raw[i] * shift
  {
    seq(|raw|, i requires 0 <= i < |raw| => raw[i] * shift)
  }

  // ----- the denominator -------------------------------------------------

  lemma ProductNonNegative(x: int, y: int, one: int)
    requires x >= 0 && y >= 0 && one > 0
    ensures Product(x, y, one) >= 0
  {
  }

  lemma {:induction false} RoundedAtLeast(p: seq<int>, x: int, n: nat, one: int)
    requires x >= 0 && n <= |p| && one > 0 && forall i :: 0 <= i < n ==> p[i] >= 0
    ensures Rounded(p, x, n, one) >= if n == 0 then 0 else p[n - 1]
  {
    if n > 0 {
      RoundedAtLeast(p, x, n - 1, one);
      ProductNonNegative(Rounded(p, x, n - 1, one), x, one);
    }
  }

  lemma ScaledNonNegative(p: seq<int>, shift: int)
    requires shift > 0 && forall i :: 0 <= i < |p| ==> p[i] >= 0
    ensures forall i :: 0 <= i < |p| ==> Scaled(p, shift)[i] >= 0
  {
    forall i | 0 <= i < |p|
      ensures Scaled(p, shift)[i] >= 0
    {
      assert p[i] * shift >= 0;
    }
  }

  ghost function Deno(c: Approximation, x: int): int
    requires Good(c)
  {
    OnePositive(c);
    Rounded(Scaled(c.deno, c.shift), x, |c.deno|, One(c))
  }

  ghost function Num(c: Approximation, x: int): int
    requires Good(c)
  {
    OnePositive(c);
    Rounded(Scaled(c.num, c.shift), x, |c.num|, One(c))
  }

  lemma DenominatorAtLeastOne(c: Approximation, x: int)
    requires Good(c) && x >= 0
    ensures Deno(c, x) >= One(c) > 0
  {
    OnePositive(c);
    ScaledNonNegative(c.deno, c.shift);
    RoundedAtLeast(Scaled(c.deno, c.shift), x, |c.deno|, One(c));
  }

  // ----- the numerator does not exceed the denominator -------------------

  lemma ProductMonotone(x: int, y: int, z: int, one: int)
    requires x <= y && z >= 0 && one > 0
    ensures Product(x, z, one) <= Product(y, z, one)
  {
    TimesMonotone(x, y, z);
    DivMonotone(x * z, y * z, one);
  }

  lemma {:induction false} RoundedBelow(p: seq<int>, q: seq<int>, x: int, n: nat, one: int)
    requires x >= 0 && one > 0 && Below(p, q) && n <= |p| && forall i :: 0 <= i < |q| ==> q[i] >= 0
    ensures Rounded(p, x, n, one) <= Rounded(q, x, n + |q| - |p|, one)
  {
    var shift := |q| - |p|;
    if n == 0 {
      RoundedAtLeast(q, x, shift, one);
    } else {
      RoundedBelow(p, q, x, n - 1, one);
      ProductMonotone(Rounded(p, x, n - 1, one), Rounded(q, x, n - 1 + shift, one), x, one);
      assert p[n - 1] <= q[n - 1 + shift];
    }
  }

  lemma ScaledBelow(p: seq<int>, q: seq<int>, shift: int)
    requires Below(p, q) && shift > 0
    ensures Below(Scaled(p, shift), Scaled(q, shift))
  {
    forall i | 0 <= i < |p|
      ensures Scaled(p, shift)[i] <= Scaled(q, shift)[i + |q| - |p|]
    {
      TimesMonotone(p[i], q[i + |q| - |p|], shift);
    }
  }

  lemma NumeratorAtMostDenominator(c: Approximation, x: int)
    requires Good(c) && x >= 0
    ensures Num(c, x) <= Deno(c, x)
  {
    OnePositive(c);
    ScaledNonNegative(c.deno, c.shift);
    ScaledBelow(c.num, c.deno, c.shift);
    RoundedBelow(Scaled(c.num, c.shift), Scaled(c.deno, c.shift), x, |c.num|, One(c));
  }

  // ----- the numerator is not negative up to five ------------------------

  lemma ScaledStep(h: real, t: real, c: real, shift: real, scaled: real, d: real, next: real, scaledNext: real)
    requires scaled == h * shift && d == c * shift && next == h * t + c && scaledNext == scaled * t + d
    ensures scaledNext == next * shift
  {
    assert (h * shift) * t == (h * t) * shift;
  }

  lemma {:induction false} HornerScaled(p: seq<int>, q: seq<int>, t: real, n: nat, shift: int)
    requires n <= |p| && q == Scaled(p, shift)
    ensures Horner(q, t, n) == Horner(p, t, n) * shift as real
  {
    if n > 0 {
      HornerScaled(p, q, t, n - 1, shift);
      var c, d := p[n - 1], q[n - 1];
      assert d as real == c as real * shift as real;
      ScaledStep(Horner(p, t, n - 1), t, c as real, shift as real, Horner(q, t, n - 1), d as real, Horner(p, t, n), Horner(q, t, n));
    }
  }

  lemma ProductUpTo(t: real, u: real, p: real, q: real)
    requires 0.0 <= t <= u && 0.0 <= p <= q
    ensures 0.0 <= t * p <= u * q
  {
    Ordered(p, q, t);
    Ordered(t, u, q);
  }

  lemma {:induction false} PowersUpTo(t: real, u: real, n: nat)
    requires 0.0 <= t <= u
    ensures 0.0 <= Power(t, n) <= Power(u, n) && 0.0 <= Powers(t, n) <= Powers(u, n)
  {
    if n > 0 {
      PowersUpTo(t, u, n - 1);
      ProductUpTo(t, u, Power(t, n - 1), Power(u, n - 1));
    }
  }

  lemma ValueUpToFive(x: int, one: int)
    requires one > 0 && 0 <= x <= 5 * one
    ensures 0.0 <= Value(x, one) <= 5.0
  {
  }

  lemma Enough(high: real, h: real, shift: int, scaled: real, rounded: int, error: real)
    requires 0.0 <= error <= high <= h && shift > 0 && scaled == h * shift as real
    requires scaled - rounded as real <= error
    ensures rounded >= 0
  {
    Ordered(1.0, shift as real, h);
  }

  lemma NumeratorNonNegative(c: Approximation, x: int)
    requires Good(c) && 0 <= x <= 5 * One(c)
    ensures Num(c, x) >= 0
  {
    OnePositive(c);
    var one, n := One(c), |c.num|;
    var p, t := Scaled(c.num, c.shift), Value(x, one);
    ValueUpToFive(x, one);
    HornerScaled(c.num, p, t, n, c.shift);
    RoundingError(p, x, one);
    PowersUpTo(t, 5.0, n - 1);
    Enough(Powers(5.0, n - 1), Horner(c.num, t, n), c.shift, Horner(p, t, n), Rounded(p, x, n, one), Powers(t, n - 1));
  }

  // ----- the exponential -------------------------------------------------

  ghost function ExpNeg(c: Approximation, x: int): int
    requires Good(c) && x >= 0
  {
    DenominatorAtLeastOne(c, x);
    (Num(c, x) * One(c)) / Deno(c, x)
  }

  method ComputeExpNeg(c: Approximation, x: int) returns (r: int)
    requires Good(c) && x >= 0
    ensures r == ExpNeg(c, x)
  {
    OnePositive(c);
    DenominatorAtLeastOne(c, x);
    var num := Polyval(Scaled(c.num, c.shift), x, One(c));
    var deno := Polyval(Scaled(c.deno, c.shift), x, One(c));
    num := num * One(c);
    r := num / deno;
  }

  lemma QuotientWithin(num: int, deno: int, one: int)
    requires 0 <= num <= deno && deno > 0 && one > 0
    ensures 0 <= (num * one) / deno <= one
  {
    TimesMonotone(num, deno, one);
    DivAtMost(num * one, deno, one);
  }

  /** The exponential of a rate up to five is a probability. */
  lemma ExpNegWithin(c: Approximation, x: int)
    requires Good(c) && 0 <= x <= 5 * One(c)
    ensures 0 <= ExpNeg(c, x) <= One(c)
  {
    NumeratorNonNegative(c, x);
    DenominatorAtLeastOne(c, x);
    NumeratorAtMostDenominator(c, x);
    QuotientWithin(Num(c, x), Deno(c, x), One(c));
  }

  lemma {:induction false} RoundedAtZero(p: seq<int>, n: nat, one: int)
    requires 0 < n <= |p| && one > 0
    ensures Rounded(p, 0, n, one) == p[n - 1]
  {
    assert Product(Rounded(p, 0, n - 1, one), 0, one) == 0;
  }

  lemma ExpNegOfZero(c: Approximation)
    requires Good(c)
    ensures ExpNeg(c, 0) == One(c)
  {
    OnePositive(c);
    RoundedAtZero(Scaled(c.num, c.shift), |c.num|, One(c));
    RoundedAtZero(Scaled(c.deno, c.shift), |c.deno|, One(c));
    Exact(One(c), One(c));
  }
}
