/** Printing and parsing FIL amounts (chain/types/fil.go). Amounts are in attoFIL; a FIL
    is 10^18 of them. */
module Fil {
  import opened Wrappers
  import opened Arithmetic

  // ----- decimal numbers -------------------------------------------------

  predicate IsDigit(c: char) {
    '0' <= c <= '9'
  }

  function Digit(d: nat): (c: char)
    requires d < 10
    ensures IsDigit(c) && DigitValue(c) == d
  {
    '0' + d as char
  }

  function DigitValue(c: char): (d: nat)
    requires IsDigit(c)
    ensures d < 10
  {
    c as int - '0' as int
  }

  ghost predicate AllDigits(s: string) {
    forall i :: 0 <= i < |s| ==> IsDigit(s[i])
  }

  function Pow10(k: nat): (p: nat)
    ensures p > 0
  {
    if k == 0 then 1 else 10 * Pow10(k - 1)
  }

  /** Decimal digits without leading zeros. */
  function Digits(n: nat): (s: string)
    ensures s != "" && AllDigits(s)
  {
    if n < 10 then [Digit(n)] else Digits(n / 10) + [Digit(n % 10)]
  }

  /** The last `k` decimal digits. */
  function Padded(n: nat, k: nat): (s: string)
    ensures |s| == k && AllDigits(s)
  {
    if k == 0 then "" else Padded(n / 10, k - 1) + [Digit(n % 10)]
  }

  function Value(s: string): nat
    requires AllDigits(s)
  {
    if s == "" then 0 else 10 * Value(s[..|s| - 1]) + DigitValue(s[|s| - 1])
  }

  // ----- trimming --------------------------------------------------------

  function TrimRight(s: string, cut: set<char>): string {
    if s != "" && s[|s| - 1] in cut then TrimRight(s[..|s| - 1], cut) else s
  }

  /** The number of leading characters that belong to the set. */
  function LeadingIn(s: string, cut: set<char>): (n: nat)
    ensures n <= |s|
  {
    if s != "" && s[0] in cut then 1 + LeadingIn(s[1..], cut) else 0
  }

  const NUMERIC: set<char> := {'.', '1', '2', '3', '4', '5', '6', '7', '8', '9', '0'}
  const SPACE: set<char> := {' ', '\t', '\n', '\r'}

  function TrimSpace(s: string): string {
    TrimRight(s[LeadingIn(s, SPACE)..], SPACE)
  }

  function ToLower(s: string): string {
    seq(|s|, i requires 0 <= i < |s| => if 'A' <= s[i] <= 'Z' then 'a' + (s[i] - 'A') else s[i])
  }

  // ----- printing --------------------------------------------------------

  const PRECISION: nat := 18
  const ATTO_PER_FIL: nat := 1_000_000_000_000_000_000

  /** A number with `k` decimal places. */
  function FloatString(sign: string, whole: nat, fraction: nat, k: nat): string {
    sign + Digits(whole) + "." + Padded(fraction, k)
  }

  function Trimmed(s: string): string {
    TrimRight(TrimRight(s, {'0'}), {'.'})
  }

  function ToString(n: int): string {
    var abs := if n < 0 then -n else n;
    if n == 0 then "0 FIL"
    else Trimmed(FloatString(if n < 0 then "-" else "", abs / ATTO_PER_FIL, abs % ATTO_PER_FIL, PRECISION)) + " FIL"
  }

  // ----- parsing ---------------------------------------------------------

  /** A decimal number: its digits as an integer, and how many follow the point. */
  datatype Decimal = Decimal(digits: nat, places: nat)

  function PointIn(s: string): (i: nat)
    ensures i <= |s| && (i < |s| ==> s[i] == '.') && forall k :: 0 <= k < i ==> s[k] != '.'
  {
    if s == "" || s[0] == '.' then 0 else 1 + PointIn(s[1..])
  }

  /** A decimal number has digits and at most one point. */
  function ParseDecimal(s: string): Option<Decimal> {
    var i := PointIn(s);
    var fraction := if i < |s| then s[i + 1..] else "";
    var digits := s[..i] + fraction;
    if digits != "" && forall k :: 0 <= k < |digits| ==> IsDigit(digits[k]) then Some(Decimal(Value(digits), |fraction|)) else None
  }

  /** The number in units of which `one` make up a whole; it must not have a fraction. */
  function Rescaled(d: Decimal, one: nat): Option<int> {
    var scaled := d.digits * one;
    if scaled % Pow10(d.places) == 0 then Some(scaled / Pow10(d.places)) else None
  }

  function ParseFil(s: string): Option<int> {
    var n := LeadingIn(s, NUMERIC);
    var suffix := s[n..];
    var norm := ToLower(TrimSpace(suffix));
    if suffix != "" && norm !in {"", "fil", "attofil", "afil"} then None
    else
      var attofil := norm in {"attofil", "afil"};
      var r := ParseDecimal(s[..n]);
      if r.None? then None
      else Rescaled(r.value, if attofil then 1 else ATTO_PER_FIL)
  }

  // ----- digits and values -----------------------------------------------

  lemma {:induction false} ValueAppend(a: string, b: string)
    requires AllDigits(a) && AllDigits(b)
    ensures AllDigits(a + b) && Value(a + b) == Value(a) * Pow10(|b|) + Value(b)
    decreases |b|
  {
    if b == "" {
      assert a + b == a;
    } else {
      var front := b[..|b| - 1];
      ValueAppend(a, front);
      assert (a + b)[..|a + b| - 1] == a + front && (a + b)[|a + b| - 1] == b[|b| - 1];
      Shift(Value(a), Pow10(|front|), Value(front));
    }
  }

  lemma Shift(v: nat, p: nat, w: nat)
    ensures 10 * (v * p + w) == v * (10 * p) + 10 * w
  {
  }

  lemma {:induction false} ValueOfDigits(n: nat)
    ensures Value(Digits(n)) == n
  {
    if n < 10 {
      assert Digits(n)[..0] == "";
    } else {
      ValueOfDigits(n / 10);
      assert Digits(n)[..|Digits(n)| - 1] == Digits(n / 10);
    }
  }

  lemma {:induction false} ValueOfPadded(n: nat, k: nat)
    requires n < Pow10(k)
    ensures Value(Padded(n, k)) == n
  {
    if k > 0 {
      var q, d, front := n / 10, n % 10, Padded(n / 10, k - 1);
      TenthBelow(n, q, d, Pow10(k - 1));
      ValueOfPadded(q, k - 1);
      ValueOneMore(front, d);
      assert Padded(n, k) == front + [Digit(d)];
    }
  }

  lemma ValueOneMore(s: string, d: nat)
    requires AllDigits(s) && d < 10
    ensures AllDigits(s + [Digit(d)]) && Value(s + [Digit(d)]) == 10 * Value(s) + d
  {
    var more := s + [Digit(d)];
    assert more[..|s|] == s && more[|s|] == Digit(d);
  }

  lemma TenthBelow(n: nat, q: nat, d: nat, p: nat)
    requires q == n / 10 && d == n % 10 && n < 10 * p
    ensures 10 * q + d == n && q < p
  {
  }

  ghost predicate AllZero(s: string) {
    forall i :: 0 <= i < |s| ==> s[i] == '0'
  }

  lemma {:induction false} ValueOfZeros(s: string)
    requires AllZero(s)
    ensures AllDigits(s) && Value(s) == 0
  {
    if s != "" {
      ValueOfZeros(s[..|s| - 1]);
    }
  }

  // ----- trimming the printed number -------------------------------------

  /** Trimmed zeros are zeros, and what is left does not end in one. */
  lemma {:induction false} TrimZeros(s: string) returns (zeros: string)
    ensures s == TrimRight(s, {'0'}) + zeros && AllZero(zeros)
    ensures TrimRight(s, {'0'}) != "" ==> TrimRight(s, {'0'})[|TrimRight(s, {'0'})| - 1] != '0'
  {
    if s != "" && s[|s| - 1] == '0' {
      var front := s[..|s| - 1];
      var fewer := TrimZeros(front);
      zeros := fewer + ['0'];
      assert s == front + ['0'];
      assert s == TrimRight(front, {'0'}) + zeros;
    } else {
      zeros := "";
    }
  }

  /** Trimming stops at the point. */
  lemma {:induction false} TrimAfterPoint(head: string, s: string)
    requires head != "" && head[|head| - 1] != '0'
    ensures TrimRight(head + s, {'0'}) == head + TrimRight(s, {'0'})
    decreases |s|
  {
    if s == "" {
      assert head + s == head;
    } else if s[|s| - 1] == '0' {
      assert (head + s)[..|head + s| - 1] == head + s[..|s| - 1];
      TrimAfterPoint(head, s[..|s| - 1]);
    }
  }

  /** The printed number: whole digits, and the decimal places without trailing zeros. */
  lemma Printed(whole: nat, fraction: nat, k: nat, head: string, padded: string, places: string)
    requires head == Digits(whole) && padded == Padded(fraction, k) && places == TrimRight(padded, {'0'})
    ensures Trimmed(FloatString("", whole, fraction, k)) == head + if places == "" then "" else "." + places
  {
    assert "" + head == head;
    TrimAfterPoint(head + ".", padded);
    var zeros := TrimZeros(padded);
    assert places != "" ==> padded[|places| - 1] == places[|places| - 1];
    PointTrimmed(head, places);
  }

  lemma PointTrimmed(head: string, places: string)
    requires head != "" && AllDigits(head) && (places != "" ==> places[|places| - 1] != '.')
    ensures TrimRight(head + "." + places, {'.'}) == head + if places == "" then "" else "." + places
  {
    if places == "" {
      assert head + "." + places == head + ['.'] && head + "" == head;
      TrimOne(head, '.');
    } else {
      assert head + "." + places == head + ("." + places);
      TrimNone(head + "." + places, '.');
    }
  }

  lemma TrimNone(s: string, c: char)
    requires s != "" && s[|s| - 1] != c
    ensures TrimRight(s, {c}) == s
  {
  }

  lemma TrimOne(s: string, c: char)
    requires s != "" && s[|s| - 1] != c
    ensures TrimRight(s + [c], {c}) == s
  {
    var more := s + [c];
    assert more[..|s|] == s && more[|s|] == c;
    TrimNone(s, c);
  }

  // ----- parsing the printed number --------------------------------------

  lemma {:induction false} LeadingAll(s: string, rest: string, cut: set<char>)
    requires forall i :: 0 <= i < |s| ==> s[i] in cut
    requires rest == "" || rest[0] !in cut
    ensures LeadingIn(s + rest, cut) == |s|
    decreases |s|
  {
    if s == "" {
      assert s + rest == rest;
    } else {
      assert (s + rest)[1..] == s[1..] + rest;
      LeadingAll(s[1..], rest, cut);
    }
  }

  lemma {:induction false} PointAfter(whole: string, rest: string)
    requires AllDigits(whole) && (rest == "" || rest[0] == '.')
    ensures PointIn(whole + rest) == |whole|
    decreases |whole|
  {
    if whole == "" {
      assert whole + rest == rest;
    } else {
      assert (whole + rest)[1..] == whole[1..] + rest;
      PointAfter(whole[1..], rest);
    }
  }

  lemma DecimalOf(whole: string, places: string, s: string)
    requires whole != "" && AllDigits(whole) && AllDigits(places)
    requires s == whole + if places == "" then "" else "." + places
    ensures AllDigits(whole + places) && ParseDecimal(s) == Some(Decimal(Value(whole + places), |places|))
    ensures forall i :: 0 <= i < |s| ==> s[i] in NUMERIC
  {
    var rest := if places == "" then "" else "." + places;
    PointAfter(whole, rest);
    assert s[..|whole|] == whole;
    assert places != "" ==> s[|whole| + 1..] == places;
    assert whole + "" == whole;
    forall i | 0 <= i < |s|
      ensures s[i] in NUMERIC
    {
      assert s[i] == '.' || IsDigit(s[i]);
    }
  }

  lemma SuffixIsFil()
    ensures ToLower(TrimSpace(" FIL")) == "fil"
  {
    assert " FIL"[1..] == "FIL";
    assert LeadingIn("FIL", SPACE) == 0 && LeadingIn(" FIL", SPACE) == 1;
    assert TrimSpace(" FIL") == "FIL";
    assert ToLower("FIL") == "fil";
  }

  /** A number followed by the FIL suffix is rescaled and must be whole. */
  lemma ParseNumber(s: string, d: Decimal)
    requires (forall i :: 0 <= i < |s| ==> s[i] in NUMERIC) && ParseDecimal(s) == Some(d)
    ensures ParseFil(s + " FIL") == Rescaled(d, ATTO_PER_FIL)
  {
    var all := s + " FIL";
    LeadingAll(s, " FIL", NUMERIC);
    assert all[..|s|] == s && all[|s|..] == " FIL";
    SuffixIsFil();
  }

  // ----- the round trip --------------------------------------------------

  lemma {:induction false} Pow10Add(i: nat, j: nat)
    ensures Pow10(i + j) == Pow10(i) * Pow10(j)
  {
    if i > 0 {
      Pow10Add(i - 1, j);
      Shift(Pow10(i - 1), Pow10(j), 0);
    }
  }

  lemma Rescale(digits: nat, m: nat, z: nat, whole: nat, fraction: nat, kept: nat, amount: nat)
    requires m + z == PRECISION && digits == whole * Pow10(m) + kept && fraction == kept * Pow10(z)
    requires amount == whole * ATTO_PER_FIL + fraction
    ensures Rescaled(Decimal(digits, m), ATTO_PER_FIL) == Some(amount)
  {
    Pow10Add(m, z);
    PrecisionPower();
    Quotient(digits, Pow10(m), Pow10(z), ATTO_PER_FIL);
    Expand(whole, Pow10(m), kept, Pow10(z), digits, ATTO_PER_FIL);
  }

  lemma PrecisionPower()
    ensures Pow10(PRECISION) == ATTO_PER_FIL
  {
    assert Pow10(6) == 1_000_000;
    Pow10Add(6, 6);
    Pow10Add(12, 6);
  }

  lemma Quotient(d: nat, p: nat, q: nat, r: nat)
    requires p > 0 && r == p * q
    ensures (d * r) % p == 0 && (d * r) / p == d * q
  {
    var x := d * q;
    assert d * r == x * p;
    Exact(x, p);
  }

  lemma Expand(whole: nat, p: nat, kept: nat, q: nat, digits: nat, r: nat)
    requires digits == whole * p + kept && r == p * q
    ensures digits * q == whole * r + kept * q
  {
    assert (whole * p) * q == whole * (p * q);
    assert (whole * p + kept) * q == (whole * p) * q + kept * q;
  }

  /** What the printed digits are worth. */
  lemma DigitsWorth(whole: nat, fraction: nat, k: nat, head: string, padded: string, places: string)
    requires fraction < Pow10(k) && head == Digits(whole)
    requires padded == Padded(fraction, k) && places == TrimRight(padded, {'0'})
    ensures AllDigits(places) && AllDigits(head + places) && |places| <= k
    ensures Value(head + places) == whole * Pow10(|places|) + Value(places)
    ensures fraction == Value(places) * Pow10(k - |places|)
  {
    var zeros := TrimZeros(padded);
    assert forall i :: 0 <= i < |places| ==> places[i] == padded[i];
    ValueAppend(head, places);
    ValueOfDigits(whole);
    ValueOfPadded(fraction, k);
    ValueOfZeros(zeros);
    ValueAppend(places, zeros);
  }

  lemma DigitsRescaled(whole: nat, fraction: nat, k: nat, head: string, padded: string, places: string, amount: nat)
    requires k == PRECISION && fraction < Pow10(k) && amount == whole * ATTO_PER_FIL + fraction && head == Digits(whole)
    requires padded == Padded(fraction, k) && places == TrimRight(padded, {'0'})
    ensures AllDigits(places) && AllDigits(head + places)
    ensures Rescaled(Decimal(Value(head + places), |places|), ATTO_PER_FIL) == Some(amount)
  {
    DigitsWorth(whole, fraction, k, head, padded, places);
    Rescale(Value(head + places), |places|, k - |places|, whole, fraction, Value(places), amount);
  }

  lemma PartsRoundTrip(whole: nat, fraction: nat, k: nat, amount: nat)
    requires k == PRECISION && fraction < Pow10(k) && amount == whole * ATTO_PER_FIL + fraction
    ensures ParseFil(Trimmed(FloatString("", whole, fraction, k)) + " FIL") == Some(amount)
  {
    var head, padded := Digits(whole), Padded(fraction, k);
    var places := TrimRight(padded, {'0'});
    DigitsRescaled(whole, fraction, k, head, padded, places, amount);
    PrintedParses(whole, fraction, k, head, padded, places);
  }

  lemma PrintedParses(whole: nat, fraction: nat, k: nat, head: string, padded: string, places: string)
    requires head == Digits(whole) && padded == Padded(fraction, k) && places == TrimRight(padded, {'0'})
    requires AllDigits(places) && AllDigits(head + places)
    ensures ParseFil(Trimmed(FloatString("", whole, fraction, k)) + " FIL") == Rescaled(Decimal(Value(head + places), |places|), ATTO_PER_FIL)
  {
    var s := head + if places == "" then "" else "." + places;
    Printed(whole, fraction, k, head, padded, places);
    DecimalOf(head, places, s);
    ParseNumber(s, Decimal(Value(head + places), |places|));
  }

  lemma PositiveRoundTrip(n: nat)
    requires n > 0
    ensures ParseFil(ToString(n)) == Some(n)
  {
    PrecisionPower();
    PartsRoundTrip(n / ATTO_PER_FIL, n % ATTO_PER_FIL, PRECISION, n);
  }

  lemma ZeroRoundTrip()
    ensures ParseFil(ToString(0)) == Some(0)
  {
    assert "0" + " FIL" == "0 FIL";
    assert Digits(0) == "0" && "0" + "" == "0";
    DecimalOf("0", "", "0");
    ValueOfDigits(0);
    ParseNumber("0", Decimal(0, 0));
  }

  /** A negative amount prints with a sign, which the parser does not take. */
  lemma NegativeIsRefused(n: int)
    requires n < 0
    ensures ParseFil(ToString(n)) == None
  {
    var s := ToString(n);
    FirstIsSign(n);
    assert LeadingIn(s, NUMERIC) == 0;
    assert s[0..] == s && s[..0] == "";
    assert ParseDecimal("") == None;
  }

  lemma FirstIsSign(n: int)
    requires n < 0
    ensures ToString(n) != "" && ToString(n)[0] == '-'
  {
    var f := FloatString("-", -n / ATTO_PER_FIL, -n % ATTO_PER_FIL, PRECISION);
    assert f[0] == '-';
    TrimKeepsFirst(f, {'0'});
    TrimKeepsFirst(TrimRight(f, {'0'}), {'.'});
  }

  lemma {:induction false} TrimKeepsFirst(s: string, cut: set<char>)
    requires s != "" && s[0] !in cut
    ensures TrimRight(s, cut) != "" && TrimRight(s, cut)[0] == s[0]
  {
    if s[|s| - 1] in cut {
      TrimKeepsFirst(s[..|s| - 1], cut);
    }
  }

  /** Parsing what was printed gives the amount back, exactly when it is not negative. */
  lemma RoundTrip(n: int)
    ensures ParseFil(ToString(n)) == Some(n) <==> n >= 0
  {
    if n > 0 {
      PositiveRoundTrip(n);
    } else if n == 0 {
      ZeroRoundTrip();
    } else {
      NegativeIsRefused(n);
    }
  }
}
