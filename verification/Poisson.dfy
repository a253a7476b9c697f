/** The inverted Poisson distribution, built up term by term, and the number of its
    terms above a hash (chain/types/electionproof.go, `poiss` and `ComputeWinCount`). */
module Poisson {
  import opened FixedPoint

  const MAX_WIN_COUNT: nat := 15

  /** The probability of `k`, from the probability `elam` of zero. */
  ghost function Pmf(elam: int, lam: int, k: nat, one: int): int
    requires one > 0
  {
    if k == 0 then elam else Product(Pmf(elam, lam, k - 1, one) / k, lam, one)
  }

  /** One minus the sum of the first `k + 1` probabilities. */
  ghost function Icdf(elam: int, lam: int, k: nat, one: int): int
    requires one > 0
  {
    if k == 0 then one - elam else Icdf(elam, lam, k - 1, one) - Pmf(elam, lam, k, one)
  }

  /** The terms computed so far. */
  ghost predicate Terms(terms: seq<int>, elam: int, lam: int, one: int)
    requires one > 0
  {
    forall i :: 0 <= i < |terms| ==> Term(terms, elam, lam, i, one)
  }

  ghost predicate Term(terms: seq<int>, elam: int, lam: int, i: nat, one: int)
    requires i < |terms| && one > 0
  {
    terms[i] == Icdf(elam, lam, i, one)
  }

  lemma TermsStep(terms: seq<int>, elam: int, lam: int, k: nat, pmf: int, more: seq<int>, one: int)
    requires one > 0 && Terms(terms, elam, lam, one) && |terms| == k > 0
    requires pmf == Pmf(elam, lam, k, one) && more == terms + [terms[k - 1] - pmf]
    ensures Terms(more, elam, lam, one)
  {
    assert Term(terms, elam, lam, k - 1, one);
    forall i | 0 <= i < |more|
      ensures Term(more, elam, lam, i, one)
    {
      assert i < k ==> Term(terms, elam, lam, i, one) && more[i] == terms[i];
    }
  }

  class Poiss {
    var lam: int
    var pmf: int
    var icdf: int
    var tmp: int
    var k: nat
    const one: int
    ghost var elam: int
    ghost var terms: seq<int>

    ghost predicate Valid()
      reads this
    {
      one > 0 && pmf == Pmf(elam, lam, k, one) && |terms| == k + 1 && terms[k] == icdf && Terms(terms, elam, lam, one)
    }

    constructor (lambda: int, p0: int, unit: int)
      requires unit > 0
      ensures Valid() && lam == lambda && elam == p0 && one == unit && k == 0
    {
      one := unit;
      lam, elam, pmf, icdf, tmp, k := lambda, p0, p0, unit - p0, p0, 0;
      terms := [unit - p0];
    }

    method Next() returns (r: int)
      requires Valid()
      modifies this
      ensures Valid() && lam == old(lam) && elam == old(elam) && k == old(k) + 1
      ensures terms == old(terms) + [r] && r == icdf
    {
      k := k + 1;
      tmp := k;
      pmf := pmf / tmp;
      tmp := pmf * lam;
      pmf := tmp / one;
      icdf := icdf - pmf;
      TermsStep(terms, elam, lam, k, pmf, terms + [icdf], one);
      terms := terms + [icdf];
      return icdf;
    }
  }

  /** The number of terms of the inverted distribution above the hash, which all come
      first, up to the maximum. */
  ghost predicate IsWinCount(hash: int, elam: int, lam: int, j: nat, one: int)
    requires one > 0
  {
    && j <= MAX_WIN_COUNT
    && (forall i :: 0 <= i < j ==> hash < Icdf(elam, lam, i, one))
    && (j < MAX_WIN_COUNT ==> hash >= Icdf(elam, lam, j, one))
  }

  /** A higher hash never wins more. */
  lemma HigherHash(low: int, high: int, elam: int, lam: int, j: nat, k: nat, one: int)
    requires one > 0 && low <= high && IsWinCount(low, elam, lam, j, one) && IsWinCount(high, elam, lam, k, one)
    ensures k <= j
  {
    assert j < MAX_WIN_COUNT ==> low >= Icdf(elam, lam, j, one);
  }

  method CountWins(hash: nat, lam: int, elam: int, one: int) returns (j: nat)
    requires one > 0
    ensures IsWinCount(hash, elam, lam, j, one)
  {
    var p := new Poiss(lam, elam, one);
    var rhs := p.icdf;
    j := 0;
    while hash < rhs && j < MAX_WIN_COUNT
      invariant p.Valid() && p.lam == lam && p.elam == elam && p.one == one && p.k == j && rhs == p.icdf && j <= MAX_WIN_COUNT
      invariant forall i :: 0 <= i < j ==> hash < p.terms[i]
      decreases MAX_WIN_COUNT - j
    {
      rhs := p.Next();
      j := j + 1;
    }
    WinsFromTerms(hash, elam, lam, j, p.terms, one);
  }

  lemma WinsFromTerms(hash: int, elam: int, lam: int, j: nat, terms: seq<int>, one: int)
    requires one > 0 && Terms(terms, elam, lam, one) && |terms| == j + 1 && j <= MAX_WIN_COUNT
    requires (forall i :: 0 <= i < j ==> hash < terms[i]) && (hash >= terms[j] || j == MAX_WIN_COUNT)
    ensures IsWinCount(hash, elam, lam, j, one)
  {
    assert Term(terms, elam, lam, j, one);
    forall i | 0 <= i < j
      ensures hash < Icdf(elam, lam, i, one)
    {
      assert Term(terms, elam, lam, i, one);
    }
  }
}
