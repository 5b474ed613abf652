/** The five operations of wasm_rounding.h: nearest hardware arithmetic turned into directed rounding. */
module SoftwareRounding {
  import opened Powers
  import opened Double
  import opened Rounding
  import opened DirectedStep
  import opened ScaledCompare
  import opened Format
  import opened SumOnBits
  import opened LostTies
  import Hardware

  /** (x > 0) - (x < 0), which is 0 for a NaN. */
  function Comparison(x: Bits): int {
    (if AboveZero(x) then 1 else 0) - (if BelowZero(x) then 1 else 0)
  }

  /** Section 6.3: the sign of an exact zero sum. */
  function ExactZeroSum(mode: Mode, a: Bits, b: Bits): Bits {
    if Negative(a) == Negative(b) then a else Join(mode == 1, 0)
  }

  /** The modes in which a result larger in size than the exact one has to be stepped back. */
  predicate StepsBack(mode: Mode, negative: bool) {
    mode == 3 || mode == if negative then 2 else 1
  }

  lemma SumIsNearest(a: Bits, b: Bits)
    requires Finite(a) && Finite(b)
    ensures var r := Hardware.Add(a, b);
      && (Value(a) + Value(b) != 0 ==>
          NearestPattern(Hardware.SumExact(a, b), Pattern(r)) && Negative(r) == (Value(a) + Value(b) < 0))
      && (Zero(r) <==> Value(a) + Value(b) == 0)
      && (!Finite(r) ==> Pattern(r) == INFINITY)
      && (Value(a) + Value(b) == 0 ==> r == ExactZeroSum(0, a, b))
  {
    hide Mag;
    var s := Value(a) + Value(b);
    if s == 0 {
      ZeroSumOperands(a, b);
    } else {
      PositiveRoundsToPositive(Abs(s), Hardware.NearestOf(Hardware.SumExact(a, b)));
    }
  }

  lemma ZeroSumOperands(a: Bits, b: Bits)
    requires Value(a) + Value(b) == 0
    ensures Negative(a) == Negative(b) ==> Zero(a) && Zero(b) && a == b == Join(Negative(a), 0)
  {
    hide Mag;
    MagSmallest();
    MagOrder(0, Pattern(a));
    MagOrder(0, Pattern(b));
    assert a == Join(Negative(a), Pattern(a)) && b == Join(Negative(b), Pattern(b));
  }

  lemma PositiveRoundsToPositive(s: nat, p: nat)
    requires s > 0 && NearestPattern(Ratio(s, 1), p)
    ensures p > 0
  {
    hide Mag;
    MagSmallest();
    var side := Side(Ratio(s, 1), Mag(0) + Mag(1));
    assert side > 0;
  }

  lemma NearestSumIsRounded(a: Bits, b: Bits)
    requires Finite(a) && Finite(b) && Value(a) + Value(b) != 0
    ensures Rounded(0, Value(a) + Value(b) < 0, Hardware.SumExact(a, b), Hardware.Add(a, b))
  {
    hide Hardware.Add;
    SumIsNearest(a, b);
  }

  lemma SumOverflows(mode: Mode, a: Bits, b: Bits)
    requires Finite(a) && Finite(b) && !Finite(Hardware.Add(a, b))
    ensures Value(a) + Value(b) != 0 && !LostTie(a, b)
    ensures Rounded(mode, Value(a) + Value(b) < 0, Hardware.SumExact(a, b), Overflow(mode, Hardware.Add(a, b)))
  {
    hide Hardware.Add, Mag, Rounded, LostTie;
    SumIsNearest(a, b);
    OverflowRounds(mode, Value(a) + Value(b) < 0, Hardware.SumExact(a, b), Hardware.Add(a, b));
    if LostTie(a, b) {
      LostTieSum(a, b);
    }
  }

  lemma SumAdjusts(mode: Mode, a: Bits, b: Bits)
    requires mode != 0 && Finite(a) && Finite(b) && Finite(Hardware.Add(a, b)) && Value(a) + Value(b) != 0
    ensures var r := Hardware.Add(a, b);
      Rounded(mode, Value(a) + Value(b) < 0, Hardware.SumExact(a, b), Adjust(mode, r, Comparison(SumError(a, b, r))))
      <==> !(LostTie(a, b) && StepsBack(mode, Negative(b)))
  {
    hide Hardware.Add, Hardware.Sub, SumError, Mag, Rounded, LostTie, Adjust;
    var r, negative, x := Hardware.Add(a, b), Value(a) + Value(b) < 0, Hardware.SumExact(a, b);
    SumIsNearest(a, b);
    AdjustRounds(mode, negative, x, r);
    if Finite(Hardware.Sub(r, a)) {
      SumErrorExact(a, b);
      ErrorSignOfSum(a, b, r, SumError(a, b, r));
      if LostTie(a, b) {
        LostTieOverflows(a, b);
      }
    } else {
      OverflowIsLostTie(a, b);
      LostTieErrorIsNaN(a, b);
      LostTieSum(a, b);
      LostTieResult(mode, a, b, r);
    }
  }

  lemma ErrorSignOfSum(a: Bits, b: Bits, r: Bits, error: Bits)
    requires Negative(r) == (Value(a) + Value(b) < 0)
    requires Finite(error) && Value(error) == Value(a) + Value(b) - Value(r)
    ensures Comparison(error) == ErrorSign(Value(a) + Value(b) < 0, Hardware.SumExact(a, b), Pattern(r))
  {
    hide Mag;
    MagSmallest();
    MagOrder(0, Pattern(error));
  }

  /** With the error lost, r is returned as it is: right except where it has to be stepped back. */
  lemma LostTieResult(mode: Mode, a: Bits, b: Bits, r: Bits)
    requires mode != 0 && Finite(r) && Value(a) + Value(b) != 0
    requires Negative(r) == (Value(a) + Value(b) < 0) == Negative(b)
    requires Abs(Value(a) + Value(b)) + Pow2(MAX_SCALE - 1) == Mag(Pattern(r))
    requires var x := Hardware.SumExact(a, b); var negative := Value(a) + Value(b) < 0;
      Rounded(mode, negative, x, Adjust(mode, r, ErrorSign(negative, x, Pattern(r))))
    ensures Adjust(mode, r, 0) == r
    ensures Rounded(mode, Value(a) + Value(b) < 0, Hardware.SumExact(a, b), r) <==> !StepsBack(mode, Negative(b))
  {
    hide Mag, Pow2;
  }

  method Add(mode: Mode, a: Bits, b: Bits) returns (out: Bits)
    ensures mode == 0 || !Finite(a) || !Finite(b) ==> out == Hardware.Add(a, b)
    ensures Finite(a) && Finite(b) && Value(a) + Value(b) == 0 ==> out == ExactZeroSum(mode, a, b)
    ensures Finite(a) && Finite(b) && Value(a) + Value(b) != 0 ==>
      (Rounded(mode, Value(a) + Value(b) < 0, Hardware.SumExact(a, b), out)
       <==> !(LostTie(a, b) && StepsBack(mode, Negative(b))))
  {
    hide Hardware.Add, Mag, Pow2, Rounded, Adjust, LostTie;
    var r := Hardware.Add(a, b);
    if Finite(a) && Finite(b) {
      SumIsNearest(a, b);
    }
    if mode == 0 || !Finite(a) || !Finite(b) {
      if Finite(a) && Finite(b) && Value(a) + Value(b) != 0 {
        NearestSumIsRounded(a, b);
      }
      return r;
    }
    if !Finite(r) {
      SumOverflows(mode, a, b);
      return Overflow(mode, r);
    }
    if Zero(r) {
      if Negative(a) == Negative(b) {
        return a;
      }
      return if mode == 1 then Join(true, 0) else Join(false, 0);
    }
    var bv := Hardware.Sub(r, a);
    var av := Hardware.Sub(r, bv);
    var error := Hardware.Add(Hardware.Sub(a, av), Hardware.Sub(b, bv));
    SumAdjusts(mode, a, b);
    return Adjust(mode, r, Comparison(error));
  }

  /** The concrete failure: kMax - 3 * 2^970 is not correctly rounded downward or toward zero. */
  method AddLosesATie(mode: Mode) returns (out: Bits)
    requires mode == 1 || mode == 3
    ensures var a, b := MINUS_THREE_UNITS, MAX_FINITE;
      Finite(a) && Finite(b) && !Rounded(mode, Value(a) + Value(b) < 0, Hardware.SumExact(a, b), out)
  {
    hide Mag, LostTie, Rounded;
    FamilyHasAPair();
    LostTieSum(MINUS_THREE_UNITS, MAX_FINITE);
    out := Add(mode, MINUS_THREE_UNITS, MAX_FINITE);
  }

  method Sub(mode: Mode, a: Bits, b: Bits) returns (out: Bits)
    ensures mode == 0 || !Finite(a) || !Finite(b) ==> out == Hardware.Sub(a, b)
    ensures Finite(a) && Finite(b) && Value(a) == Value(b) ==> out == ExactZeroSum(mode, a, Negate(b))
    ensures Finite(a) && Finite(b) && Value(a) != Value(b) ==>
      (Rounded(mode, Value(a) < Value(b), Hardware.SumExact(a, Negate(b)), out)
       <==> !(LostTie(a, Negate(b)) && StepsBack(mode, !Negative(b))))
  {
    hide Hardware.Add, Mag, Pow2, Rounded, LostTie;
    out := Add(mode, a, Negate(b));
  }

  /** |x| = m * 2^e for finite x. */
  method Split(x: Bits) returns (m: nat, e: int)
    ensures m < PRECISION && e + Hardware.UNIT_EXPONENT >= 0
    ensures Mag(Pattern(x)) == Scaled(m, e + Hardware.UNIT_EXPONENT)
  {
    var u := x % SIGN_BIT;
    var exponent := u / HIDDEN_BIT;
    var fraction := u % HIDDEN_BIT;
    if exponent == 0 {
      m := fraction;
      e := -1074;
    } else {
      m := fraction + HIDDEN_BIT;
      e := exponent - 1075;
    }
  }

  lemma SignificandProduct(m: nat, n: nat)
    requires m < PRECISION && n < PRECISION
    ensures Times(m, n) < LIMIT
  {
    assert m * n <= m * PRECISION <= PRECISION * PRECISION;
  }

  lemma ScaledProduct(m: nat, e: nat, n: nat, f: nat)
    ensures Scaled(Times(m, n), e + f) == Times(Scaled(m, e), Scaled(n, f))
  {
    Pow2Add(e, f);
    Regroup(m, n, Pow2(e), Pow2(f));
  }

  lemma Regroup(m: nat, n: nat, p: nat, q: nat)
    ensures (m * n) * (p * q) == (m * p) * (n * q)
  {
  }

  lemma ScaledTwice(m: nat, e: nat, k: nat)
    ensures Scaled(Scaled(m, e), k) == Scaled(m, e + k)
  {
    Pow2Add(e, k);
    Associate(m, Pow2(e), Pow2(k), Pow2(e + k));
  }

  lemma RatioSide(num: nat, den: Positive, h: nat)
    ensures Side(Ratio(num, den), 2 * h) == Sign(num - Times(h, den))
  {
    var c := h * den;
    assert (2 * h) * den == 2 * c;
  }

  lemma ScaledIsTimes(m: nat, k: nat)
    ensures Scaled(m, k) == Times(m, Pow2(k))
  {
  }

  /** The integer comparison of mul is the comparison of the exact product with r. */
  lemma ProductComparison(ma: nat, ea: int, mb: nat, eb: int, mr: nat, er: int, k: nat)
    requires ea + k >= 0 && eb + k >= 0 && er + k >= 0
    ensures Side(Ratio(Times(Scaled(ma, ea + k), Scaled(mb, eb + k)), Pow2(k)), 2 * Scaled(mr, er + k))
      == ScaledSign(Times(ma, mb), ea + eb, mr, er)
  {
    hide Scaled, Pow2, Times, Side, ScaledSign;
    RatioSide(Times(Scaled(ma, ea + k), Scaled(mb, eb + k)), Pow2(k), Scaled(mr, er + k));
    ScaledIsTimes(Scaled(mr, er + k), k);
    ScaledTwice(mr, er + k, k);
    ScaledProduct(ma, ea + k, mb, eb + k);
    ScaledSignShift(Times(ma, mb), ea + k + (eb + k), mr, er + k + k, 2 * k);
  }

  /** |a| / |b| > |r| exactly when |a| > |r| * |b|. */
  lemma QuotientComparison(ma: nat, ea: int, mb: nat, eb: int, mr: nat, er: int, k: nat)
    requires ea + k >= 0 && eb + k >= 0 && er + k >= 0 && mb > 0
    ensures Side(Ratio(Scaled(Scaled(ma, ea + k), k), Scaled(mb, eb + k)), 2 * Scaled(mr, er + k))
      == ScaledSign(ma, ea, Times(mr, mb), er + eb)
  {
    hide Scaled, Pow2, Times, Side, ScaledSign;
    RatioSide(Scaled(Scaled(ma, ea + k), k), Scaled(mb, eb + k), Scaled(mr, er + k));
    ScaledTwice(ma, ea + k, k);
    ScaledProduct(mr, er + k, mb, eb + k);
    ScaledSignShift(ma, ea + k + k, Times(mr, mb), er + k + (eb + k), 2 * k);
  }

  lemma RootSide(square: Positive, h: nat)
    ensures Side(Root(square), 2 * h) == Sign(square - Times(h, h))
  {
    assert (2 * h) * (2 * h) == 4 * (h * h);
  }

  /** The root exceeds r exactly when a > r * r. */
  lemma RootComparison(ma: nat, ea: int, mr: nat, er: int, k: nat)
    requires ea + k >= 0 && er + k >= 0 && ma > 0
    ensures Side(Root(Scaled(Scaled(ma, ea + k), k)), 2 * Scaled(mr, er + k))
      == ScaledSign(ma, ea, Times(mr, mr), 2 * er)
  {
    hide Scaled, Pow2, Times, Side, ScaledSign;
    RootSide(Scaled(Scaled(ma, ea + k), k), Scaled(mr, er + k));
    ScaledTwice(ma, ea + k, k);
    ScaledProduct(mr, er + k, mr, er + k);
    ScaledSignShift(ma, ea + k + k, Times(mr, mr), er + k + (er + k), 2 * k);
  }

  /** An exact zero is its own nearest result, in every mode. */
  lemma ZeroIsRounded(mode: Mode, negative: bool, x: Exact)
    requires x.Ratio? && x.num == 0
    ensures Rounded(mode, negative, x, Join(negative, Hardware.NearestOf(x)))
  {
    hide Mag, Rounded;
    var p := Hardware.NearestOf(x);
    MagSmallest();
    MagOrder(0, p);
    var side := Side(x, Mag(0) + Mag(p));
    NegativeProduct(Mag(p), x.den);
    ExactIsRounded(mode, negative, x, 0);
  }

  lemma NegativeProduct(m: nat, den: Positive)
    ensures m > 0 ==> m * den > 0
  {
  }

  lemma ProductAsIs(mode: Mode, a: Bits, b: Bits)
    requires Finite(a) && Finite(b) && (mode == 0 || Zero(a) || Zero(b))
    ensures Rounded(mode, Negative(a) != Negative(b), Hardware.ProductExact(a, b), Hardware.Mul(a, b))
  {
    hide Mag, Pow2;
    if Zero(a) || Zero(b) {
      MagSmallest();
      ZeroIsRounded(mode, Negative(a) != Negative(b), Hardware.ProductExact(a, b));
    }
  }

  method Mul(mode: Mode, a: Bits, b: Bits) returns (out: Bits)
    ensures !Finite(a) || !Finite(b) || mode == 0 ==> out == Hardware.Mul(a, b)
    ensures Finite(a) && Finite(b) ==>
      Rounded(mode, Negative(a) != Negative(b), Hardware.ProductExact(a, b), out)
  {
    hide Mag, Pow2, Rounded, Adjust, Side, ScaledSign, Scaled, Times;
    var r := Hardware.Mul(a, b);
    if mode == 0 || !Finite(a) || !Finite(b) || Zero(a) || Zero(b) {
      if Finite(a) && Finite(b) {
        ProductAsIs(mode, a, b);
      }
      return r;
    }
    ghost var x := Hardware.ProductExact(a, b);
    var exactNegative := Negative(a) != Negative(b);
    if !Finite(r) {
      OverflowRounds(mode, exactNegative, x, r);
      return Overflow(mode, r);
    }
    var ma, ea := Split(a);
    var mb, eb := Split(b);
    var magnitude;
    if Zero(r) {
      magnitude := 1;
      PositiveOperands(a, b);
      PositiveAboveZero(x);
    } else {
      var mr, er := Split(r);
      SignificandProduct(ma, mb);
      SignificandFits(mr);
      magnitude := CompareScaled(Times(ma, mb), ea + eb, mr, er);
      ProductComparison(ma, ea, mb, eb, mr, er, Hardware.UNIT_EXPONENT);
    }
    AdjustRounds(mode, exactNegative, x, r);
    return Adjust(mode, r, if exactNegative then -magnitude else magnitude);
  }

  lemma SignificandFits(m: nat)
    requires m < PRECISION
    ensures m < LIMIT
  {
  }

  lemma PositiveAboveZero(x: Exact)
    requires x.Ratio? ==> x.num > 0
    ensures Side(x, 2 * Mag(0)) == 1
  {
    MagSmallest();
  }

  lemma PositiveOperands(a: Bits, b: Bits)
    requires !Zero(a) && !Zero(b)
    ensures Hardware.ProductExact(a, b).num > 0 && Hardware.QuotientExact(a, b).num > 0
  {
    hide Mag, Pow2;
    MagSmallest();
    MagOrder(0, Pattern(a));
    MagOrder(0, Pattern(b));
  }

  lemma QuotientAsIs(mode: Mode, a: Bits, b: Bits)
    requires Finite(a) && Finite(b) && !Zero(b) && (mode == 0 || Zero(a))
    ensures Rounded(mode, Negative(a) != Negative(b), Hardware.QuotientExact(a, b), Hardware.Div(a, b))
  {
    hide Mag, Pow2;
    if Zero(a) {
      MagSmallest();
      ZeroIsRounded(mode, Negative(a) != Negative(b), Hardware.QuotientExact(a, b));
    }
  }

  method Div(mode: Mode, a: Bits, b: Bits) returns (out: Bits)
    ensures !Finite(a) || !Finite(b) || Zero(b) || mode == 0 ==> out == Hardware.Div(a, b)
    ensures Finite(a) && Finite(b) && !Zero(b) ==>
      Rounded(mode, Negative(a) != Negative(b), Hardware.QuotientExact(a, b), out)
  {
    hide Mag, Pow2, Rounded, Adjust, Side, ScaledSign, Scaled, Times;
    var r := Hardware.Div(a, b);
    if mode == 0 || !Finite(a) || !Finite(b) || Zero(a) || Zero(b) {
      if Finite(a) && Finite(b) && !Zero(b) {
        QuotientAsIs(mode, a, b);
      }
      return r;
    }
    ghost var x := Hardware.QuotientExact(a, b);
    var exactNegative := Negative(a) != Negative(b);
    if !Finite(r) {
      OverflowRounds(mode, exactNegative, x, r);
      return Overflow(mode, r);
    }
    PositiveOperands(a, b);
    var ma, ea := Split(a);
    var mb, eb := Split(b);
    var magnitude;
    if Zero(r) {
      magnitude := 1;
      PositiveAboveZero(x);
    } else {
      var mr, er := Split(r);
      SignificandProduct(mr, mb);
      SignificandFits(ma);
      magnitude := CompareScaled(ma, ea, Times(mr, mb), er + eb);
      PositiveSignificand(b, mb, eb);
      QuotientComparison(ma, ea, mb, eb, mr, er, Hardware.UNIT_EXPONENT);
    }
    AdjustRounds(mode, exactNegative, x, r);
    return Adjust(mode, r, if exactNegative then -magnitude else magnitude);
  }

  lemma PositiveSignificand(b: Bits, m: nat, e: int)
    requires !Zero(b) && e + Hardware.UNIT_EXPONENT >= 0
    requires Mag(Pattern(b)) == Scaled(m, e + Hardware.UNIT_EXPONENT)
    ensures m > 0
  {
    hide Mag, Pow2;
    MagSmallest();
    MagOrder(0, Pattern(b));
  }

  /** Section 4.3.1: below the midpoint of kMax and 2^1024 nothing overflows. */
  lemma BelowOverflow(x: Exact, p: nat)
    requires NearestPattern(x, p) && Side(x, Mag(MAX_FINITE) + Mag(INFINITY)) < 0
    ensures p < INFINITY
  {
    hide Side, Mag;
  }

  /** The root of a finite number never overflows. */
  lemma RootIsFinite(a: Bits, p: nat)
    requires Finite(a) && !Zero(a) && NearestPattern(Hardware.RootExact(a), p)
    ensures p < INFINITY
  {
    hide Mag, Pow2, Scaled, Side, NearestPattern;
    TopPatterns();
    MagOrder(0, Pattern(a));
    MagOrder(Pattern(a), INFINITY);
    RootBelowTop(Mag(Pattern(a)), Mag(INFINITY), Mag(MAX_FINITE));
    BelowOverflow(Hardware.RootExact(a), p);
  }

  lemma RootBelowTop(m: nat, top: nat, below: nat)
    requires 0 < m < top && top == Top(MAX_SCALE)
    ensures Side(Root(Scaled(m, Hardware.UNIT_EXPONENT)), below + top) < 0
  {
    hide Pow2;
    var u := Pow2(Hardware.UNIT_EXPONENT);
    Pow2Monotone(Hardware.UNIT_EXPONENT, MAX_SCALE);
    FourTimesBelow(m, u, Pow2(MAX_SCALE), top, below);
  }

  lemma FourTimesBelow(m: nat, u: nat, v: nat, top: nat, below: nat)
    requires m < top && 0 < u <= v && top == PRECISION * v
    ensures 4 * (m * u) < (below + top) * (below + top)
  {
    assert m * u <= m * v;
    assert 4 * v <= top;
    assert m * (4 * v) <= m * top;
    assert m * top < top * top;
    assert (below + top) * (below + top) == top * top + below * (2 * top + below);
    assert 0 <= below * (2 * top + below);
    assert 4 * (m * v) == m * (4 * v);
  }

  /** r is the nearest root, computed by the caller. */
  method Sqrt(mode: Mode, a: Bits, r: Bits) returns (out: Bits)
    requires r == Hardware.Sqrt(a)
    ensures !Finite(a) || !AboveZero(a) || mode == 0 ==> out == r
    ensures Finite(a) && AboveZero(a) ==> Rounded(mode, false, Hardware.RootExact(a), out)
  {
    hide Mag, Pow2, Rounded, Adjust, Side, ScaledSign, Scaled, Times;
    if mode == 0 || !Finite(a) || !AboveZero(a) {
      if Finite(a) && AboveZero(a) {
        NearestRoot(a);
      }
      return r;
    }
    var ma, ea := Split(a);
    var mr, er := Split(r);
    ghost var x := Hardware.RootExact(a);
    RootIsFinite(a, Pattern(r));
    SignificandProduct(mr, mr);
    SignificandFits(ma);
    PositiveSignificand(a, ma, ea);
    RootComparison(ma, ea, mr, er, Hardware.UNIT_EXPONENT);
    AdjustRounds(mode, false, x, r);
    var side := CompareScaled(ma, ea, Times(mr, mr), 2 * er);
    return Adjust(mode, r, side);
  }

  lemma NearestRoot(a: Bits)
    requires Finite(a) && AboveZero(a)
    ensures Rounded(0, false, Hardware.RootExact(a), Hardware.Sqrt(a))
  {
    hide Mag, Pow2;
  }
}
