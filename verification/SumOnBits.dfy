/** TwoSum as the source runs it: on bit patterns, with the hardware's nearest addition. */
module SumOnBits {
  import opened Powers
  import opened Double
  import opened Rounding
  import opened Format
  import opened TwoSum
  import Hardware

  /** Scale of the top binade: its unit in the last place is 2^2045 * 2^-1074. */
  const MAX_SCALE: nat := 2045

  lemma TopPatterns()
    ensures Mag(INFINITY) == Top(MAX_SCALE)
    ensures Mag(MAX_FINITE) + Pow2(MAX_SCALE) == Top(MAX_SCALE)
    ensures Scale(MAX_FINITE) == MAX_SCALE
  {
    assert INFINITY / HIDDEN_BIT == 2047 && INFINITY % HIDDEN_BIT == 0;
    assert Mag(INFINITY) == Scaled(HIDDEN_BIT, MAX_SCALE + 1);
    DoubleScaled(HIDDEN_BIT, MAX_SCALE);
    assert MAX_FINITE / HIDDEN_BIT == 2046;
    MagStep(MAX_FINITE);
  }

  lemma DoubleScaled(m: nat, k: nat)
    ensures Scaled(m, k + 1) == Scaled(2 * m, k)
  {
    ScaledStep(m, k);
    var p := Pow2(k);
    assert (2 * m) * p == 2 * (m * p);
  }

  lemma ScaleBound(p: nat)
    requires p < INFINITY
    ensures Scale(p) <= MAX_SCALE
  {
    assert p / HIDDEN_BIT <= 2046;
  }

  lemma PatternIsMember(p: nat)
    requires p <= INFINITY
    ensures Member(Mag(p), MAX_SCALE) && Mag(p) <= Top(MAX_SCALE)
    ensures p < INFINITY <==> Mag(p) < Top(MAX_SCALE)
  {
    TopPatterns();
    MagOrder(p, INFINITY);
    if p == INFINITY {
      BoundIsMember(MAX_SCALE, MAX_SCALE);
    } else {
      ScaleBound(p);
      assert IsTimes(Mag(p), Significand(p), Scale(p));
      GridGap(PRECISION, Significand(p), Pow2(Scale(p)));
      assert Fits(Mag(p), Scale(p));
    }
  }

  /** Every nonnegative member is the magnitude of a pattern. */
  lemma {:induction false} PatternOf(m: nat, k: nat) returns (q: nat)
    requires m <= PRECISION
    ensures Mag(q) == Scaled(m, k)
    decreases k, PRECISION - m
  {
    if m == PRECISION {
      DoubleScaled(HIDDEN_BIT, k);
      q := NormalPattern(HIDDEN_BIT, k + 1);
    } else if m >= HIDDEN_BIT {
      q := NormalPattern(m, k);
    } else if k == 0 {
      q := m;
      assert q / HIDDEN_BIT == 0;
    } else {
      DoubleScaled(m, k - 1);
      q := PatternOf(2 * m, k - 1);
    }
  }

  lemma NormalPattern(m: nat, k: nat) returns (q: nat)
    requires HIDDEN_BIT <= m < PRECISION
    ensures q == k * HIDDEN_BIT + m
    ensures Significand(q) == m && Scale(q) == k && Mag(q) == Scaled(m, k)
  {
    q := k * HIDDEN_BIT + m;
    assert q == (k + 1) * HIDDEN_BIT + (m - HIDDEN_BIT);
    assert q / HIDDEN_BIT == k + 1 && q % HIDDEN_BIT == m - HIDDEN_BIT;
  }

  lemma MemberHasPattern(y: int) returns (q: nat)
    requires Member(y, MAX_SCALE) && Abs(y) <= Top(MAX_SCALE)
    ensures q <= INFINITY && Mag(q) == Abs(y)
  {
    hide Mag, Scaled, Pow2;
    var k: nat :| k <= MAX_SCALE && Fits(y, k);
    var n := SignificandOf(y, k);
    q := PatternOf(n, k);
    TopPatterns();
    MagOrder(INFINITY, q);
  }

  lemma SignificandOf(y: int, k: nat) returns (n: nat)
    requires Fits(y, k)
    ensures n <= PRECISION && Abs(y) == Scaled(n, k)
  {
    hide Scaled, Pow2;
    n := AbsMultiple(y, k);
    ScaledGap(PRECISION, n, k);
  }

  function IntegerExact(s: int): Exact {
    Ratio(Abs(s), 1)
  }

  /** The bit-level notion of nearest implies the integer one. */
  lemma NearestIsNear(s: int, r: Bits)
    requires NearestPattern(IntegerExact(s), Pattern(r))
    requires Negative(r) == (s < 0) || (s == 0 && Zero(r))
    ensures Near(Value(r), s, MAX_SCALE)
  {
    var p := Pattern(r);
    PatternIsMember(p);
    MemberNegated(Mag(p), MAX_SCALE);
    forall y: int | Member(y, MAX_SCALE) && Abs(y) <= Top(MAX_SCALE)
      ensures Abs(Value(r) - s) <= Abs(y - s)
    {
      var q := MemberHasPattern(y);
      NearerMagnitude(Abs(s), p, q);
    }
  }

  lemma NearerMagnitude(s: nat, p: nat, q: nat)
    requires NearestPattern(IntegerExact(s), p) && q <= INFINITY
    ensures Abs(Mag(p) - s) <= Abs(Mag(q) - s)
  {
    MagOrder(p, q);
    if q < p {
      assert Side(IntegerExact(s), Mag(q) + Mag(p)) >= 0;
    } else if p < q {
      assert Side(IntegerExact(s), Mag(p) + Mag(q)) <= 0;
    }
  }

  lemma FiniteIsOperand(r: Bits)
    requires Finite(r)
    ensures Operand(Value(r), MAX_SCALE)
  {
    PatternIsMember(Pattern(r));
    MemberNegated(Mag(Pattern(r)), MAX_SCALE);
  }

  /** The hardware sum of finite operands is a nearest number, and infinite exactly when it reaches the top. */
  lemma AddIsNear(a: Bits, b: Bits)
    requires Finite(a) && Finite(b)
    ensures var r := Hardware.Add(a, b);
      && !NaN(r)
      && Near(Value(r), Value(a) + Value(b), MAX_SCALE)
      && (Finite(r) <==> Abs(Value(r)) < Top(MAX_SCALE))
  {
    var s, r := Value(a) + Value(b), Hardware.Add(a, b);
    if s == 0 {
      ZeroIsNearest();
    }
    assert Hardware.SumExact(a, b) == IntegerExact(s);
    NearestIsNear(s, r);
    PatternIsMember(Pattern(r));
  }

  lemma ZeroIsNearest()
    ensures NearestPattern(IntegerExact(0), 0)
  {
    forall q: nat | 0 < q <= INFINITY
      ensures Side(IntegerExact(0), Mag(0) + Mag(q)) < 0
    {
      MagOrder(0, q);
    }
  }

  /** A representable sum is returned as it is. */
  lemma AddExact(a: Bits, b: Bits)
    requires Finite(a) && Finite(b) && Operand(Value(a) + Value(b), MAX_SCALE)
    ensures var r := Hardware.Add(a, b);
      Finite(r) && Value(r) == Value(a) + Value(b)
  {
    AddIsNear(a, b);
    NearExact(Value(Hardware.Add(a, b)), Value(a) + Value(b), MAX_SCALE);
  }

  lemma SubIsNear(a: Bits, b: Bits)
    requires Finite(a) && Finite(b)
    ensures var r := Hardware.Sub(a, b);
      && !NaN(r)
      && Near(Value(r), Value(a) - Value(b), MAX_SCALE)
      && (Finite(r) <==> Abs(Value(r)) < Top(MAX_SCALE))
  {
    AddIsNear(a, Negate(b));
    assert Value(a) + Value(Negate(b)) == Value(a) - Value(b);
  }

  lemma SubExact(a: Bits, b: Bits)
    requires Finite(a) && Finite(b) && Operand(Value(a) - Value(b), MAX_SCALE)
    ensures var r := Hardware.Sub(a, b);
      Finite(r) && Value(r) == Value(a) - Value(b)
  {
    assert Value(a) + Value(Negate(b)) == Value(a) - Value(b);
    AddExact(a, Negate(b));
  }

  /** The last three lines of add before adjust: error = (a - (r - bv)) + (b - bv). */
  function SumError(a: Bits, b: Bits, r: Bits): Bits {
    var bv := Hardware.Sub(r, a);
    var av := Hardware.Sub(r, bv);
    Hardware.Add(Hardware.Sub(a, av), Hardware.Sub(b, bv))
  }

  /** TwoSum returns a + b - r exactly whenever bv = r - a stays finite. */
  lemma SumErrorExact(a: Bits, b: Bits)
    requires Finite(a) && Finite(b) && Finite(Hardware.Add(a, b))
    requires Finite(Hardware.Sub(Hardware.Add(a, b), a))
    ensures var r := Hardware.Add(a, b);
      Finite(SumError(a, b, r)) && Value(SumError(a, b, r)) == Value(a) + Value(b) - Value(r)
  {
    hide Hardware.Add, Hardware.Sub, SumError, Mag, Value, Near, Operand, Top;
    var r := Hardware.Add(a, b);
    var bv := Hardware.Sub(r, a);
    FiniteIsOperand(a);
    FiniteIsOperand(b);
    AddIsNear(a, b);
    SubIsNear(r, a);
    LaterStepsExact(Value(a), Value(b), Value(r), Value(bv), MAX_SCALE);
    StepsFromOperands(a, b, r, bv);
  }

  lemma StepsFromOperands(a: Bits, b: Bits, r: Bits, bv: Bits)
    requires Finite(a) && Finite(b) && Finite(r) && Finite(bv) && bv == Hardware.Sub(r, a)
    requires Operand(Value(r) - Value(bv), MAX_SCALE)
    requires Operand(Value(a) - (Value(r) - Value(bv)), MAX_SCALE)
    requires Operand(Value(b) - Value(bv), MAX_SCALE)
    requires Operand(Value(a) + Value(b) - Value(r), MAX_SCALE)
    ensures Finite(SumError(a, b, r)) && Value(SumError(a, b, r)) == Value(a) + Value(b) - Value(r)
  {
    hide Hardware.Add, Hardware.Sub, Mag, Value, Near, Operand, Top;
    SubExact(r, bv);
    var av := Hardware.Sub(r, bv);
    SubExact(a, av);
    SubExact(b, bv);
    var da, db := Hardware.Sub(a, av), Hardware.Sub(b, bv);
    assert Value(da) + Value(db) == Value(a) + Value(b) - Value(r);
    AddExact(da, db);
  }
}
