/** Facts about products and quotients that the solver needs spelled out. */
module Arithmetic {
  lemma TimesMonotone(x: int, y: int, z: int)
    requires x <= y && z >= 0
    ensures x * z <= y * z
  {
  }

  lemma Cancel(d: int, x: int, c: int)
    requires d > 0 && d * x <= d * c
    ensures x <= c
  {
  }

  lemma DivAtMost(n: int, d: int, c: int)
    requires d > 0 && n <= d * c
    ensures n / d <= c
  {
    assert d * (n / d) <= n;
    Cancel(d, n / d, c);
  }

  lemma DivMonotone(a: int, b: int, d: int)
    requires a <= b && d > 0
    ensures a / d <= b / d
  {
    var q, r := b / d, b % d;
    assert b == d * q + r && 0 <= r < d;
    assert a < d * (q + 1);
    var p := a / d;
    assert d * p <= a;
    if p > q {
      TimesMonotone(q + 1, p, d);
      assert false;
    }
  }

  lemma DivMod(n: nat, p: nat, x: nat, r: nat)
    requires p > 0 && n == p * x + r && r < p
    ensures n / p == x && n % p == r
  {
    var q, s := n / p, n % p;
    assert n == p * q + s && 0 <= s < p;
    assert q < x ==> p * (q + 1) <= p * x;
    assert q > x ==> p * (x + 1) <= p * q;
  }

  lemma Exact(x: nat, p: nat)
    requires p > 0
    ensures (x * p) % p == 0 && (x * p) / p == x
  {
    assert x * p == p * x + 0;
    DivMod(x * p, p, x, 0);
  }
}
