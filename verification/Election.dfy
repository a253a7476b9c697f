/** Leader election (chain/types/electionproof.go): the number of wins of an election
    proof. */
module Election {
  import opened Arithmetic
  import opened FixedPoint
  import opened Poisson
  import opened ExpNegative

  const BLOCKS_PER_EPOCH: int := 5

  // ----- the rate --------------------------------------------------------

  ghost function Rate(power: int, totalPower: int, one: int): int
    requires totalPower != 0
  {
    (power * BLOCKS_PER_EPOCH * one) / totalPower
  }

  method Lambda(power: int, totalPower: int, one: int) returns (lam: int)
    requires totalPower != 0
    ensures lam == Rate(power, totalPower, one)
    ensures totalPower > 0 ==> lam * totalPower <= power * BLOCKS_PER_EPOCH * one < (lam + 1) * totalPower
  {
    lam := power * BLOCKS_PER_EPOCH;
    lam := lam * one;
    if totalPower > 0 {
      Floor(lam, totalPower);
    }
    lam := lam / totalPower;
  }

  lemma Floor(n: int, d: int)
    requires d > 0
    ensures (n / d) * d <= n < (n / d + 1) * d
  {
    var q := n / d;
    assert n == q * d + n % d && (q + 1) * d == q * d + d;
  }

  lemma RateNonNegative(power: int, totalPower: int, one: int)
    requires power >= 0 && totalPower > 0 && one > 0
    ensures Rate(power, totalPower, one) >= 0
  {
    assert power * BLOCKS_PER_EPOCH * one >= 0;
  }

  lemma RateWithin(power: int, totalPower: int, one: int)
    requires 0 <= power <= totalPower && totalPower > 0 && one > 0
    ensures 0 <= Rate(power, totalPower, one) <= 5 * one
  {
    RateNonNegative(power, totalPower, one);
    TimesMonotone(power, totalPower, 5 * one);
    DivAtMost(power * BLOCKS_PER_EPOCH * one, totalPower, 5 * one);
  }

  // ----- the inverted distribution ---------------------------------------

  lemma {:induction false} PmfNonNegative(elam: int, lam: int, k: nat, one: int)
    requires elam >= 0 && lam >= 0 && one > 0
    ensures Pmf(elam, lam, k, one) >= 0
  {
    if k > 0 {
      PmfNonNegative(elam, lam, k - 1, one);
      ProductNonNegative(Pmf(elam, lam, k - 1, one) / k, lam, one);
    }
  }

  lemma {:induction false} IcdfFalls(elam: int, lam: int, i: nat, j: nat, one: int)
    requires elam >= 0 && lam >= 0 && one > 0 && i <= j
    ensures Icdf(elam, lam, j, one) <= Icdf(elam, lam, i, one)
  {
    if i < j {
      IcdfFalls(elam, lam, i, j - 1, one);
      PmfNonNegative(elam, lam, j, one);
    }
  }

  // ----- counting wins ---------------------------------------------------

  /** The count of wins for a rate. */
  ghost predicate Wins(c: Approximation, hash: int, lam: int, j: nat)
    requires Good(c) && lam >= 0
  {
    OnePositive(c);
    IsWinCount(hash, ExpNeg(c, lam), lam, j, One(c))
  }

  /** The count of an election proof whose hash is given. */
  method ComputeWinCount(c: Approximation, hash: nat, power: nat, totalPower: nat) returns (j: nat)
    requires Good(c) && totalPower > 0
    ensures Rate(power, totalPower, One(c)) >= 0 && Wins(c, hash, Rate(power, totalPower, One(c)), j)
  {
    OnePositive(c);
    var rate := Lambda(power, totalPower, One(c));
    RateNonNegative(power, totalPower, One(c));
    var elam := ComputeExpNeg(c, rate);
    j := CountWins(hash, rate, elam, One(c));
  }

  /** The terms above the hash are exactly those before the count: for a share of the
      total power the count is the number of terms above the hash. */
  lemma WinCountIsCut(c: Approximation, hash: int, lam: int, j: nat, i: nat)
    requires Good(c) && 0 <= lam <= 5 * One(c) && Wins(c, hash, lam, j) && i < MAX_WIN_COUNT
    ensures One(c) > 0 && (hash < Icdf(ExpNeg(c, lam), lam, i, One(c)) <==> i < j)
  {
    OnePositive(c);
    ExpNegWithin(c, lam);
    if j <= i {
      IcdfFalls(ExpNeg(c, lam), lam, j, i, One(c));
    }
  }

  /** A higher hash never wins more. */
  lemma HigherHashWinsLess(c: Approximation, low: int, high: int, lam: int, j: nat, k: nat)
    requires Good(c) && lam >= 0 && low <= high && Wins(c, low, lam, j) && Wins(c, high, lam, k)
    ensures k <= j
  {
    OnePositive(c);
    HigherHash(low, high, ExpNeg(c, lam), lam, j, k, One(c));
  }

  lemma NoPowerNeverWins(c: Approximation, hash: nat, j: nat)
    requires Good(c) && Wins(c, hash, 0, j)
    ensures j == 0
  {
    OnePositive(c);
    ExpNegOfZero(c);
    assert Icdf(ExpNeg(c, 0), 0, 0, One(c)) == 0;
  }
}
