/**
 * The only sums for which TwoSum's error is not a number: b is the largest finite number and
 * a + b lies midway between two numbers of the top binade with the even one farther from zero.
 */
module LostTies {
  import opened Powers
  import opened Double
  import opened Rounding
  import opened Format
  import opened TwoSum
  import opened SumOnBits
  import Hardware

  function Quotient(c: nat, p: nat): nat
    requires p > 0
  {
    c / p
  }

  /** |a| is n half-units of the top binade. */
  predicate HalfUnits(c: nat, n: nat) {
    c == Scaled(n, MAX_SCALE - 1)
  }

  /** The whole family, on the operands alone: |b| = kMax, opposite signs, |a| = n * 2^970 with n = 3 mod 4 and n <= 2^53 - 5. */
  predicate LostTie(a: Bits, b: Bits) {
    var n := Quotient(Mag(Pattern(a)), Pow2(MAX_SCALE - 1));
    && Pattern(b) == MAX_FINITE
    && Negative(a) != Negative(b)
    && HalfUnits(Mag(Pattern(a)), n)
    && n % 4 == 3
    && n + 5 <= PRECISION
  }

  lemma QuotientOfMultiple(n: nat, p: nat)
    requires p > 0
    ensures Quotient(n * p, p) == n
  {
    var c := n * p;
    DivisionBounds(c, p);
    var q := c / p;
    GridGap(q, n, p);
    GridGap(n, q, p);
  }

  /** -3 * 2^970: with the largest finite double, the first pair of the family. */
  const MINUS_THREE_UNITS: Bits := 0xfca8_0000_0000_0000

  lemma FamilyHasAPair()
    ensures LostTie(MINUS_THREE_UNITS, MAX_FINITE)
    ensures Finite(MINUS_THREE_UNITS) && Finite(MAX_FINITE)
    ensures Negative(MINUS_THREE_UNITS) && !Negative(MAX_FINITE)
  {
    hide Scaled, Pow2;
    var p := Pattern(MINUS_THREE_UNITS);
    assert p / HIDDEN_BIT == 1994 && p % HIDDEN_BIT == 0x8_0000_0000_0000;
    ThreeUnits(MAX_SCALE - 1);
    ScaledAsProduct(3, MAX_SCALE - 1);
    QuotientOfMultiple(3, Pow2(MAX_SCALE - 1));
  }

  /** A significand of 2^52 + 2^51 at 1993 places is three at the given place. */
  lemma ThreeUnits(place: nat)
    requires place == 2044
    ensures Scaled(HIDDEN_BIT + 0x8_0000_0000_0000, 1993) == Scaled(3, place)
  {
    var low: nat := 51;
    Pow2Of51(low);
    Pow2Add(low, 1993);
    ThreeTimes(Pow2(low), Pow2(1993));
  }

  lemma ThreeTimes(u: nat, p: nat)
    ensures (3 * u) * p == 3 * (u * p)
  {
  }

  lemma Pow2Of51(n: nat)
    requires n == 51
    ensures Pow2(n) == 0x8_0000_0000_0000
  {
    hide Pow2;
    SmallPowers();
    Pow2Add(8, 8);
    Pow2Add(16, 16);
    Pow2Add(32, 8);
    Pow2Add(40, 4);
    Pow2Add(44, 7);
    Pow2Add(4, 4);
  }

  lemma ScaledAsProduct(m: nat, e: nat)
    ensures Scaled(m, e) == m * Pow2(e)
  {
    hide Pow2;
  }

  /** Patterns of the top binade: magnitude m * 2^2045 with m the low digits and the parity of the pattern. */
  lemma TopBinade(p: nat)
    requires 2046 * HIDDEN_BIT <= p < INFINITY
    ensures Scale(p) == MAX_SCALE && Significand(p) % 2 == p % 2
    ensures Mag(p) == Scaled(2 * Significand(p), MAX_SCALE - 1)
    ensures Mag(p + 1) == Scaled(2 * Significand(p) + 2, MAX_SCALE - 1)
  {
    hide Mag, Scaled, Pow2;
    assert p / HIDDEN_BIT == 2046;
    assert p == 2046 * HIDDEN_BIT + p % HIDDEN_BIT;
    TopBinadeScaled(p);
  }

  lemma TopBinadeScaled(p: nat)
    requires Scale(p) == MAX_SCALE
    ensures Mag(p) == Scaled(2 * Significand(p), MAX_SCALE - 1)
    ensures Mag(p + 1) == Scaled(2 * Significand(p) + 2, MAX_SCALE - 1)
  {
    var m, k := Significand(p), MAX_SCALE - 1;
    DoubleScaled(m, k);
    MagStep(p);
    ScaledSum(2 * m, 2, k);
  }

  lemma ScaledSum(m: nat, n: nat, k: nat)
    ensures Scaled(m + n, k) == Scaled(m, k) + Scaled(n, k)
  {
    var p := Pow2(k);
    assert (m + n) * p == m * p + n * p;
  }

  lemma TwoUnits(k: nat)
    ensures Scaled(2, k) == 2 * Pow2(k) && Scaled(1, k) == Pow2(k)
  {
  }

  lemma ScaledInjective(m: nat, n: nat, k: nat)
    ensures Scaled(m, k) == Scaled(n, k) <==> m == n
    ensures Scaled(m, k) <= Scaled(n, k) <==> m <= n
  {
    if m < n {
      GridGap(m, n, Pow2(k));
    } else if n < m {
      GridGap(n, m, Pow2(k));
    }
  }

  lemma OneUnitBelow(p: nat)
    requires 2046 * HIDDEN_BIT < p <= INFINITY
    ensures Mag(p) == Mag(p - 1) + 2 * Pow2(MAX_SCALE - 1)
  {
    hide Mag, Scaled, Pow2;
    TopBinade(p - 1);
    ScaledSum(2 * Significand(p - 1), 2, MAX_SCALE - 1);
    TwoUnits(MAX_SCALE - 1);
  }

  /** A nearest result half a top unit away can only come from a tie in the top binade. */
  lemma HalfUnitErrorIsTop(s: nat, p: nat)
    requires NearestPattern(IntegerExact(s), p) && p < INFINITY && Mag(p) == s + Pow2(MAX_SCALE - 1)
    ensures s >= Scaled(PRECISION, MAX_SCALE - 1)
    ensures 2046 * HIDDEN_BIT < p
  {
    hide Mag, Scaled, Pow2;
    NearestIsNear(s, Join(false, p));
    if s < Scaled(PRECISION, MAX_SCALE - 1) {
      var y := RoundToGrid(s, MAX_SCALE - 2, MAX_SCALE);
      assert Abs(Mag(p) - s) <= Abs(y - s);
      Pow2Monotone(MAX_SCALE - 2, MAX_SCALE - 1);
    }
    var q := NormalPattern(HIDDEN_BIT, MAX_SCALE);
    DoubleScaled(HIDDEN_BIT, MAX_SCALE - 1);
    MagOrder(q, p);
  }

  /** If |a| + s = kMax and s was rounded up by half a unit, |a| is in the family. */
  lemma HalfUnitErrorIsLostTie(s: nat, c: nat, p: nat) returns (n: nat)
    requires NearestPattern(IntegerExact(s), p) && p < INFINITY && Mag(p) == s + Pow2(MAX_SCALE - 1)
    requires s + c == Mag(MAX_FINITE)
    ensures HalfUnits(c, n) && n % 4 == 3 && n + 5 <= PRECISION
  {
    hide Mag, Scaled, Pow2;
    var k := MAX_SCALE - 1;
    HalfUnitErrorIsTop(s, p);
    TopBinade(p);
    var m := Significand(p);
    OneUnitBelow(p);
    TwoUnits(k);
    TieParity(s, p);
    SumOfHalfUnits(s, m, k);
    ScaledInjective(PRECISION, 2 * m - 1, k);
    TopBinade(MAX_FINITE);
    assert Significand(MAX_FINITE) == PRECISION - 1;
    n := 2 * PRECISION - 1 - 2 * m;
    ScaledSum(2 * m - 1, n, k);
  }

  lemma SumOfHalfUnits(s: nat, m: nat, k: nat)
    requires m > 0 && s + Pow2(k) == Scaled(2 * m, k)
    ensures s == Scaled(2 * m - 1, k)
  {
    ScaledSum(2 * m - 1, 1, k);
  }

  lemma TieParity(s: nat, p: nat)
    requires NearestPattern(IntegerExact(s), p) && p > 0 && Mag(p) == s + Pow2(MAX_SCALE - 1)
    requires Mag(p) == Mag(p - 1) + 2 * Pow2(MAX_SCALE - 1)
    ensures p % 2 == 0
  {
    hide Mag, Pow2;
    assert Side(IntegerExact(s), Mag(p - 1) + Mag(p)) == 0;
  }

  /** Conversely a sum in the family is rounded up by exactly half a unit. */
  lemma LostTieRoundsAway(s: nat, c: nat, n: nat) returns (p: nat)
    requires HalfUnits(c, n) && n % 4 == 3 && n + 5 <= PRECISION && s + c == Mag(MAX_FINITE)
    ensures p < INFINITY && NearestPattern(IntegerExact(s), p) && Mag(p) == s + Pow2(MAX_SCALE - 1)
  {
    hide Mag, Scaled, Pow2;
    var k := MAX_SCALE - 1;
    var m := (2 * PRECISION - 1 - n) / 2;
    assert 2 * m - 1 + n == 2 * (PRECISION - 1) && m % 2 == 0;
    p := NormalPattern(m, MAX_SCALE);
    TopBinade(MAX_FINITE);
    assert Significand(MAX_FINITE) == PRECISION - 1;
    ScaledSum(2 * m - 1, n, k);
    ScaledSum(2 * m - 1, 1, k);
    TwoUnits(k);
    TopBinade(p);
    OneUnitBelow(p);
    TieRoundsUp(s, p);
  }

  lemma TieRoundsUp(s: nat, p: nat)
    requires 0 < p <= INFINITY && p % 2 == 0
    requires Mag(p) == s + Pow2(MAX_SCALE - 1) && Mag(p) == Mag(p - 1) + 2 * Pow2(MAX_SCALE - 1)
    ensures NearestPattern(IntegerExact(s), p)
  {
    hide Mag, Pow2;
    assert Side(IntegerExact(s), 2 * Mag(p)) < 0;
    assert Side(IntegerExact(s), Mag(p - 1) + Mag(p)) == 0;
    Hardware.UpperIsNearest(IntegerExact(s), p - 1);
  }

  lemma FamilyBelowMax(a: Bits, b: Bits)
    requires LostTie(a, b)
    ensures Mag(Pattern(a)) < Mag(MAX_FINITE)
  {
    hide Mag, Scaled, Pow2;
    var n := Quotient(Mag(Pattern(a)), Pow2(MAX_SCALE - 1));
    TopBinade(MAX_FINITE);
    ScaledInjective(2 * Significand(MAX_FINITE), n, MAX_SCALE - 1);
    assert Significand(MAX_FINITE) == PRECISION - 1;
  }

  lemma LargestPlusUnit()
    ensures Mag(INFINITY) == Mag(MAX_FINITE) + 2 * Pow2(MAX_SCALE - 1)
  {
    MagStep(MAX_FINITE);
    TopPatterns();
  }

  /** The magnitudes of a family member: what a + b is rounded to, and by how much. */
  lemma LostTieSum(a: Bits, b: Bits)
    requires Finite(a) && LostTie(a, b)
    ensures var r := Hardware.Add(a, b);
      && Finite(r)
      && Negative(r) == Negative(b)
      && Abs(Value(a) + Value(b)) + Pow2(MAX_SCALE - 1) == Mag(Pattern(r))
      && (Value(a) + Value(b) < 0 <==> Negative(b))
      && Value(a) + Value(b) != 0
  {
    hide Mag, Scaled, Pow2;
    var c := Mag(Pattern(a));
    FamilyBelowMax(a, b);
    var s := Mag(MAX_FINITE) - c;
    assert Abs(Value(a) + Value(b)) == s;
    var p := LostTieRoundsAway(s, c, Quotient(c, Pow2(MAX_SCALE - 1)));
    assert Hardware.SumExact(a, b) == IntegerExact(s);
    NearestUnique(IntegerExact(s), p, Hardware.NearestOf(IntegerExact(s)));
  }

  /** Then r - a is itself a tie, between kMax and 2^1024, and overflows. */
  lemma LostTieOverflows(a: Bits, b: Bits)
    requires Finite(a) && LostTie(a, b)
    ensures Hardware.Sub(Hardware.Add(a, b), a) == Join(Negative(b), INFINITY)
  {
    LostTieSum(a, b);
    FamilyBelowMax(a, b);
    OverflowingSum(Hardware.Add(a, b), Negate(a));
  }

  lemma OverflowingSum(x: Bits, y: Bits)
    requires Finite(x) && Finite(y) && Negative(x) == Negative(y)
    requires Mag(Pattern(x)) + Mag(Pattern(y)) == Mag(MAX_FINITE) + Pow2(MAX_SCALE - 1)
    ensures Hardware.Add(x, y) == Join(Negative(x), INFINITY)
  {
    hide Mag, Pow2;
    LargestPlusUnit();
    var s := Mag(MAX_FINITE) + Pow2(MAX_SCALE - 1);
    assert Abs(Value(x) + Value(y)) == s;
    TieRoundsUp(s, INFINITY);
    assert Hardware.SumExact(x, y) == IntegerExact(s);
    NearestUnique(IntegerExact(s), INFINITY, Hardware.NearestOf(IntegerExact(s)));
  }

  /** On the family the error term is inf - inf. */
  lemma LostTieErrorIsNaN(a: Bits, b: Bits)
    requires Finite(a) && LostTie(a, b)
    ensures NaN(SumError(a, b, Hardware.Add(a, b)))
  {
    hide Hardware.NearestOf, Mag, Pow2;
    var r := Hardware.Add(a, b);
    LostTieSum(a, b);
    LostTieOverflows(a, b);
    var sign := Negative(b);
    var bv := Join(sign, INFINITY);
    assert Negate(bv) == Join(!sign, INFINITY);
    assert Hardware.Sub(r, bv) == Join(!sign, INFINITY);
    assert Negate(Join(!sign, INFINITY)) == bv;
    assert Hardware.Sub(a, Join(!sign, INFINITY)) == bv;
    assert Hardware.Sub(b, bv) == Join(!sign, INFINITY);
  }

  /** Off the family bv stays finite. */
  lemma OverflowIsLostTie(a: Bits, b: Bits)
    requires Finite(a) && Finite(b) && Finite(Hardware.Add(a, b))
    requires !Finite(Hardware.Sub(Hardware.Add(a, b), a))
    ensures LostTie(a, b)
  {
    hide Hardware.Sub, Hardware.Add, Mag, Scaled, Pow2, LostTie;
    var r, t := Hardware.Add(a, b), MAX_SCALE;
    var bv := Hardware.Sub(r, a);
    FiniteIsOperand(a);
    FiniteIsOperand(b);
    AddIsNear(a, b);
    SubIsNear(r, a);
    OverflowNeedsTie(Value(a), Value(b), Value(r), Value(bv), t);
    TopPatterns();
    MagOrder(Pattern(b), MAX_FINITE);
    HalfOfTop(t);
    LostTieFromError(a, b);
  }

  /** What r - (a + b) is when TwoSum overflows: half a top unit, away from zero. */
  predicate LosesHalfUnit(a: Bits, b: Bits, r: Bits) {
    Value(r) - (Value(a) + Value(b))
    == if Value(b) > 0 then Pow2(MAX_SCALE - 1) as int else -(Pow2(MAX_SCALE - 1) as int)
  }

  lemma OppositeSigns(a: Bits, b: Bits, r: Bits)
    requires Finite(r) && Pattern(b) == MAX_FINITE && Mag(Pattern(a)) < Mag(MAX_FINITE)
    requires LosesHalfUnit(a, b, r)
    ensures Negative(a) != Negative(b)
    ensures Abs(Value(a) + Value(b)) + Mag(Pattern(a)) == Mag(MAX_FINITE)
    ensures Value(a) + Value(b) != 0 && (Value(a) + Value(b) < 0 <==> Negative(b))
    ensures Negative(r) == Negative(b) ==> Mag(Pattern(r)) == Abs(Value(a) + Value(b)) + Pow2(MAX_SCALE - 1)
  {
    hide Mag, Pow2;
    MagOrder(MAX_FINITE, Pattern(r));
  }

  lemma LostTieFromError(a: Bits, b: Bits)
    requires Finite(a) && Finite(b) && Finite(Hardware.Add(a, b)) && Pattern(b) == MAX_FINITE
    requires Mag(Pattern(a)) < Mag(MAX_FINITE) && LosesHalfUnit(a, b, Hardware.Add(a, b))
    ensures LostTie(a, b)
  {
    hide Mag, Scaled, Pow2, LosesHalfUnit;
    var r, c := Hardware.Add(a, b), Mag(Pattern(a));
    OppositeSigns(a, b, r);
    var s := Abs(Value(a) + Value(b));
    assert Hardware.SumExact(a, b) == IntegerExact(s);
    var n := HalfUnitErrorIsLostTie(s, c, Pattern(r));
    QuotientOfScaled(n);
  }

  lemma QuotientOfScaled(n: nat)
    ensures Quotient(Scaled(n, MAX_SCALE - 1), Pow2(MAX_SCALE - 1)) == n
  {
    QuotientOfMultiple(n, Pow2(MAX_SCALE - 1));
  }
}
