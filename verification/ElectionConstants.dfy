/** The coefficients of the program (chain/types/electionproof.go): they make a good
    approximation of the exponential. */
module ElectionConstants {
  import opened FixedPoint
  import opened ExpNegative

  const NUM: seq<int> := [
    -648770010757830093818553637600,
    67469480939593786226847644286976,
    -3197587544499098424029388939001856,
    89244641121992890118377641805348864,
    -1579656163641440567800982336819953664,
    17685496037279256458459817590917169152,
    -115682590513835356866803355398940131328,
    340282366920938463463374607431768211456]

  const DENO: seq<int> := [
    1225524182432722209606361,
    114095592300906098243859450,
    5665570424063336070530214243,
    194450132448609991765137938448,
    5068267641632683791026134915072,
    104716890604972796896895427629056,
    1748338658439454459487681798864896,
    23704654329841312470660182937960448,
    259380097567996910282699886670381056,
    2250336698853390384720606936038375424,
    14978272436876548034486263159246028800,
    72144088983913131323343765784380833792,
    224599776407103106596571252037123047424,
    340282366920938463463374607431768211456]

  const SHIFT: int := 0x1_0000000000000000_0000000000000000   // 2^128

  const PROGRAM: Approximation := Approximation(NUM, DENO, SHIFT)

  // ----- polynomial division ---------------------------------------------

  /** Horner's method at the integer `a`, all intermediate values; the last one is the
      value, the others are the quotient by `t - a`. */
  ghost predicate Running(p: seq<int>, row: seq<int>, a: int, n: nat) {
    && n < |p| && n < |row| && row[0] == p[0]
    && (forall i :: 0 < i <= n ==> row[i] == row[i - 1] * a + p[i])
  }

  lemma DivisionStep(h: real, r: real, c: real, a: real, t: real, u: real, exact: real, quotient: real, next: real)
    requires u == t - a && exact == h * u + r && quotient == h * t + r && next == r * a + c
    ensures exact * t + c == quotient * u + next
  {
    assert (h * u) * t == (h * t) * u;
    assert r * t == r * u + r * a;
  }

  /** The intermediate values of Horner's method. */
  ghost predicate Stages(p: seq<int>, t: real, hs: seq<real>) {
    |hs| == |p| + 1 && hs[0] == 0.0 && forall i :: 0 <= i < |p| ==> Stage(p, t, hs, i)
  }

  ghost predicate Stage(p: seq<int>, t: real, hs: seq<real>, i: nat)
    requires i < |p| && |hs| == |p| + 1
  {
    hs[i + 1] == hs[i] * t + p[i] as real
  }

  ghost function StagesOf(p: seq<int>, t: real): (hs: seq<real>)
    ensures Stages(p, t, hs) && forall i :: 0 <= i <= |p| ==> hs[i] == Horner(p, t, i)
  {
    seq(|p| + 1, i requires 0 <= i <= |p| => Horner(p, t, i))
  }

  /** Polynomial division by `t - a`, stage by stage. */
  lemma {:induction false} Division(p: seq<int>, row: seq<int>, a: int, t: real, u: real, n: nat, hp: seq<real>, hq: seq<real>)
    requires Running(p, row, a, n) && u == t - a as real
    requires Stages(p, t, hp) && Stages(row, t, hq)
    ensures hp[n + 1] == hq[n] * u + row[n] as real
  {
    assert Stage(p, t, hp, n);
    if n > 0 {
      Division(p, row, a, t, u, n - 1, hp, hq);
      assert Stage(row, t, hq, n - 1);
      assert row[n] as real == row[n - 1] as real * a as real + p[n] as real;
      DivisionStep(hq[n - 1], row[n - 1] as real, p[n] as real, a as real, t, u, hp[n], hq[n], row[n] as real);
    }
  }

  lemma SignOfProduct(q: real, u: real)
    requires u <= 0.0
    ensures if q <= 0.0 then q * u >= 0.0 else q * u <= 0.0
  {
  }

  lemma SignAt(p: seq<int>, row: seq<int>, a: int, t: real, up: bool, n: nat, hp: seq<real>, hq: seq<real>)
    requires Running(p, row, a, n) && t <= a as real
    requires Stages(p, t, hp) && Stages(row, t, hq)
    requires if up then hq[n] <= 0.0 else hq[n] >= 0.0
    ensures if up then hp[n + 1] >= row[n] as real else hp[n + 1] <= row[n] as real
  {
    Division(p, row, a, t, t - a as real, n, hp, hq);
    SignOfProduct(hq[n], t - a as real);
  }

  /** Left of `a`, a polynomial exceeds its value at `a` when the quotient is negative there. */
  lemma SignStep(p: seq<int>, row: seq<int>, a: int, t: real, up: bool, n: nat)
    requires Running(p, row, a, n) && t <= a as real
    requires if up then Horner(row, t, n) <= 0.0 else Horner(row, t, n) >= 0.0
    ensures if up then Horner(p, t, n + 1) >= row[n] as real else Horner(p, t, n + 1) <= row[n] as real
  {
    SignAt(p, row, a, t, up, n, StagesOf(p, t), StagesOf(row, t));
  }

  // Horner's method at five, applied to the numerator, to the quotient, and so on. The
  // last value of each row alternates in sign.

  const ROW1: seq<int> := [
    -648770010757830093818553637600,
    64225630885804635757754876098976,
    -2876459390070075245240614558506976,
    74862344171642513892174569012813984,
    -1205344442783227998340109491755883744,
    11658773823363116466759270132137750432,
    -57388721397019774533007004738251379168,
    53338759935839590798339583740511315616]

  const ROW2: seq<int> := [
    -648770010757830093818553637600,
    60981780832015485288662107910976,
    -2571550485909997818797304018952096,
    62004591742092524798188048918053504,
    -895321484072765374349169247165616224,
    7182166402999289595013423896309669312,
    -21477889382023326557939885256703032608]

  const ROW3: seq<int> := [
    -648770010757830093818553637600,
    57737930778226334819569339722976,
    -2282860832018866144699457320337216,
    50590287581998194074690762316367424,
    -642370046162774403975715435583779104,
    3970316172185417575134846718390773792]

  const ROW4: seq<int> := [
    -648770010757830093818553637600,
    54494080724437184350476571534976,
    -2010390428396680222947074462662336,
    40538335440014792959955390003055744,
    -439678368962700439175938485568500384]

  const ROW5: seq<int> := [
    -648770010757830093818553637600,
    51250230670648033881383803346976,
    -1754139275043440053540155445927456,
    31767639064797592692254612773418464]

  const ROW6: seq<int> := [
    -648770010757830093818553637600,
    48006380616858883412291035158976,
    -1514107371959145636478700270132576]

  const ROW7: seq<int> := [
    -648770010757830093818553637600,
    44762530563069732943198266970976]

  const ROW8: seq<int> := [-648770010757830093818553637600]

  lemma Row1()
    ensures Running(NUM, ROW1, 5, 7)
  {
  }

  lemma Row2()
    ensures Running(ROW1, ROW2, 5, 6)
  {
  }

  lemma Row3()
    ensures Running(ROW2, ROW3, 5, 5)
  {
  }

  lemma Row4()
    ensures Running(ROW3, ROW4, 5, 4)
  {
  }

  lemma Row5()
    ensures Running(ROW4, ROW5, 5, 3)
  {
  }

  lemma Row6()
    ensures Running(ROW5, ROW6, 5, 2)
  {
  }

  lemma Row7()
    ensures Running(ROW6, ROW7, 5, 1)
  {
  }

  lemma Row8()
    ensures Running(ROW7, ROW8, 5, 0)
  {
  }

  /** Up to five the numerator stays above its value at five. */
  lemma NumeratorAtLeast(t: real)
    requires t <= 5.0
    ensures Horner(NUM, t, 8) >= ROW1[7] as real
  {
    Row8();
    SignStep(ROW7, ROW8, 5, t, false, 0);
    Row7();
    SignStep(ROW6, ROW7, 5, t, true, 1);
    Row6();
    SignStep(ROW5, ROW6, 5, t, false, 2);
    Row5();
    SignStep(ROW4, ROW5, 5, t, true, 3);
    Row4();
    SignStep(ROW3, ROW4, 5, t, false, 4);
    Row3();
    SignStep(ROW2, ROW3, 5, t, true, 5);
    Row2();
    SignStep(ROW1, ROW2, 5, t, false, 6);
    Row1();
    SignStep(NUM, ROW1, 5, t, true, 7);
  }

  lemma PowersOfFive()
    ensures Powers(5.0, 7) == 19531.0
  {
    assert Power(5.0, 1) == 5.0 && Power(5.0, 2) == 25.0 && Power(5.0, 3) == 125.0;
    assert Power(5.0, 4) == 625.0 && Power(5.0, 5) == 3125.0 && Power(5.0, 6) == 15625.0;
    assert Powers(5.0, 2) == 6.0 && Powers(5.0, 4) == 156.0;
  }

  lemma NumeratorIsHigh()
    ensures High(NUM)
  {
    PowersOfFive();
    forall t: real | t <= 5.0
      ensures Horner(NUM, t, 8) >= Powers(5.0, 7)
    {
      NumeratorAtLeast(t);
    }
  }

  lemma DenominatorIsAbove()
    ensures Below(NUM, DENO) && forall i :: 0 <= i < |DENO| ==> DENO[i] >= 0
  {
  }

  /** The program's coefficients are good, and one is 2^256. */
  lemma ProgramIsGood()
    ensures Good(PROGRAM)
    ensures One(PROGRAM) == 0x1_0000000000000000_0000000000000000_0000000000000000_0000000000000000
  {
    NumeratorIsHigh();
    DenominatorIsAbove();
  }
}
