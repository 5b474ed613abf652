/** Knuth's TwoSum on any nearest rounding: which intermediate results are exact, and when one overflows. */
module TwoSum {
  import opened Powers
  import opened Format

  /** A finite number of the format. */
  ghost predicate Operand(x: int, t: nat) {
    Member(x, t) && Abs(x) < Top(t)
  }

  /** Half a unit in the last place of the top binade bounds every finite rounding error. */
  lemma FiniteError(v: int, s: int, t: nat)
    requires Near(v, s, t) && Abs(v) < Top(t) && t > 0
    ensures Abs(v - s) <= Pow2(t - 1)
    ensures Abs(s) < Top(t)
  {
    hide Near, Scaled, Pow2;
    var top: int := Top(t);
    BoundIsMember(t, t);
    MemberNegated(top, t);
    NearMonotone(v, s, top, t);
    NearMonotone(v, s, -top, t);
    var y := RoundToGrid(s, t - 1, t);
    NearWithin(v, s, y, t);
  }

  /** Below 2^53 * 2^(k + 1) every integer has a member within 2^k. */
  lemma RoundToGrid(s: int, k: nat, t: nat) returns (y: int)
    requires k + 1 <= t && Abs(s) < Scaled(PRECISION, k + 1)
    ensures Member(y, t) && Abs(y) <= Top(t) && Abs(y - s) <= Pow2(k)
  {
    var p, h: nat := Pow2(k + 1), Pow2(k);
    var m := (s + h) / p;
    DivisionBounds(s + h, p);
    y := m * p;
    assert IsTimes(y, m, k + 1);
    QuotientBound(m, p, PRECISION, h, s);
    ScaledMonotone(PRECISION, k + 1, t);
    assert Fits(y, k + 1);
  }

  lemma DivisionBounds(x: int, p: nat)
    requires p > 0
    ensures x / p * p <= x < x / p * p + p
  {
  }

  lemma QuotientBound(m: int, p: nat, n: nat, h: nat, s: int)
    requires p == 2 * h && h > 0 && m * p <= s + h < m * p + p && Abs(s) < n * p
    ensures Abs(m * p) <= n * p
  {
    var minus: int := 0 - n;
    MulSum(0, n, p);
    GridGap(n, m, p);
    GridGap(m, n, p);
    GridGap(m, minus, p);
    GridGap(minus, m, p);
  }

  /** Case 1: the first operand is the larger, and bv = r - a needs no rounding. */
  lemma LargerFirst(a: int, b: int, r: int, t: nat)
    requires t > 0 && Operand(a, t) && Operand(b, t) && Near(r, a + b, t) && Abs(r) < Top(t)
    requires Abs(b) <= Abs(a)
    ensures Operand(r - a, t) && Operand(a + b - r, t)
  {
    hide Near, Scaled, Pow2;
    HalfOfTop(t);
    SumMinusLarger(a, b, r, t);
    SumErrorIsMember(a, b, r, t);
    FiniteError(r, a + b, t);
    OperandGap(b, t);
  }

  /** A finite number stays one whole unit, 2^t, below the top. */
  lemma OperandGap(x: int, t: nat)
    requires Operand(x, t)
    ensures Abs(x) + Pow2(t) <= Top(t)
  {
    var k: nat :| k <= t && Fits(x, k);
    if k < t {
      ScaledStep(PRECISION, k);
      ScaledMonotone(PRECISION, k + 1, t);
      GridGap(1, PRECISION, Pow2(t));
    } else {
      TopGridGap(x, t);
    }
  }

  lemma TopGridGap(x: int, t: nat)
    requires Multiple(x, t) && Abs(x) < Top(t)
    ensures Abs(x) + Pow2(t) <= Top(t)
  {
    hide Scaled, Pow2;
    var n := AbsMultiple(x, t);
    ScaledGap(n, PRECISION, t);
  }

  /** Case 2: b is the larger but the sum cancels below |a|; then the sum itself was exact. */
  lemma Cancelled(a: int, b: int, r: int, t: nat)
    requires Operand(a, t) && Operand(b, t) && Near(r, a + b, t)
    requires Abs(a) < Abs(b) && Abs(r) < Abs(a)
    ensures r == a + b
  {
    hide Near, Scaled, Pow2;
    var k := CommonGrid(a, b, t);
    MultipleSum(a, b, k);
    NearOnGrid(r, a + b, k, t);
  }

  lemma Triangle(b: int, bv: int, d: int)
    requires Abs(bv - d) <= Abs(b - d)
    ensures Abs(b - bv) <= 2 * Abs(b - d)
  {
  }

  /** b - bv is at most twice the error of the sum, because b itself was a candidate for bv. */
  lemma DifferenceBound(a: int, b: int, r: int, bv: int, t: nat)
    requires t > 0 && Operand(a, t) && Operand(b, t) && Near(r, a + b, t) && Abs(r) < Top(t)
    requires Near(bv, r - a, t)
    ensures Abs(b - bv) <= 2 * Abs(a + b - r)
    ensures Abs(a + b - r) <= Abs(a) && Abs(a + b - r) <= Pow2(t - 1)
    ensures r == a + b ==> bv == b
    ensures bv == r - a ==> Abs(b - bv) <= Abs(a)
  {
    hide Near, Scaled, Pow2;
    SumErrorIsMember(a, b, r, t);
    FiniteError(r, a + b, t);
    var d := r - a;
    NearWithin(bv, d, b, t);
    assert Abs(b - d) == Abs(a + b - r);
    Triangle(b, bv, d);
  }

  /** Case 3: b - bv needs no rounding, though bv = r - a was rounded. */
  lemma SecondDifference(a: int, b: int, r: int, bv: int, t: nat)
    requires t > 0 && Operand(a, t) && Operand(b, t) && Abs(a) < Abs(b) && Abs(r) < Top(t)
    requires Near(r, a + b, t) && Near(bv, r - a, t) && Abs(bv) < Top(t)
    ensures Member(b - bv, t)
  {
    hide Near, Scaled, Pow2;
    var k := CommonGrid(a, b, t);
    MultipleSum(a, b, k);
    NearOnGrid(r, a + b, k, t);
    MultipleSum(r, a, k);
    NearOnGrid(bv, r - a, k, t);
    MultipleSum(b, bv, k);
    DifferenceBound(a, b, r, bv, t);
    if r == a + b {
      ZeroIsMember(t);
    } else if bv == r - a {
      assert Fits(b - bv, k);
    } else {
      CoarseDifference(a, b, r, bv, k, t);
    }
  }

  lemma CoarseDifference(a: int, b: int, r: int, bv: int, k: nat, t: nat)
    requires k < t && Member(b, t) && Abs(a) <= Abs(b) && Abs(a) <= Scaled(PRECISION, k)
    requires Multiple(a, k) && Multiple(b, k) && Multiple(bv, k + 1) && Multiple(b - bv, k)
    requires Near(r, a + b, t) && Abs(b - bv) <= 2 * Abs(a + b - r) && Abs(a + b - r) <= Abs(a)
    ensures Member(b - bv, t)
  {
    hide Near, Scaled, Pow2;
    ScaledStep(PRECISION, k);
    if Multiple(b, k + 1) {
      MultipleSum(b, bv, k + 1);
      assert Fits(b - bv, k + 1);
    } else {
      OddIsShort(b, k, t);
      MultipleSum(a, b, k);
      GridDistance(r, a + b, k, t);
      GridGap(1, PRECISION, Pow2(k));
      assert Fits(b - bv, k);
    }
  }

  /** Once bv is finite, every later difference of TwoSum is exact, and so is their sum. */
  lemma LaterStepsExact(a: int, b: int, r: int, bv: int, t: nat)
    requires t > 0 && Operand(a, t) && Operand(b, t) && Near(r, a + b, t) && Abs(r) < Top(t)
    requires Near(bv, r - a, t) && Abs(bv) < Top(t)
    ensures Operand(r - bv, t) && Operand(a - (r - bv), t) && Operand(b - bv, t) && Operand(a + b - r, t)
  {
    hide Near, Scaled, Pow2;
    ZeroIsMember(t);
    SumErrorIsMember(a, b, r, t);
    if Abs(b) <= Abs(a) {
      LargerFirst(a, b, r, t);
      NearExact(bv, r - a, t);
    } else if Abs(r) < Abs(a) {
      Cancelled(a, b, r, t);
      NearExact(bv, r - a, t);
    } else {
      SmallerFirst(a, b, r, bv, t);
    }
  }

  lemma SmallerFirst(a: int, b: int, r: int, bv: int, t: nat)
    requires t > 0 && Operand(a, t) && Operand(b, t) && Near(r, a + b, t) && Abs(r) < Top(t)
    requires Near(bv, r - a, t) && Abs(bv) < Top(t) && Abs(a) < Abs(b) && Abs(a) <= Abs(r)
    ensures Operand(r - bv, t) && Operand(a - (r - bv), t) && Operand(b - bv, t)
  {
    hide Near, Scaled, Pow2;
    var c, d := -a, r - a;
    MemberNegated(a, t);
    assert r + c == d;
    NearInRange(r, a + b, t);
    SumMinusLarger(r, c, bv, t);
    MemberNegated(bv - r, t);
    assert -(bv - r) == r - bv;
    SumErrorIsMember(r, c, bv, t);
    MemberNegated(d - bv, t);
    assert -(d - bv) == a - (r - bv);
    SecondDifference(a, b, r, bv, t);
    SmallerFirstRange(a, b, r, bv, t);
  }

  lemma SmallerFirstRange(a: int, b: int, r: int, bv: int, t: nat)
    requires t > 0 && Operand(a, t) && Operand(b, t) && Near(r, a + b, t) && Abs(r) < Top(t)
    requires Near(bv, r - a, t) && Abs(bv) < Top(t)
    ensures Abs(r - bv) < Top(t) && Abs(a - (r - bv)) < Top(t) && Abs(b - bv) < Top(t)
  {
    hide Near, Scaled, Pow2;
    FiniteError(bv, r - a, t);
    OperandGap(a, t);
    HalfOfTop(t);
    DifferenceBound(a, b, r, bv, t);
  }

  lemma HalfOfTop(t: nat)
    requires t > 0
    ensures Pow2(t) == 2 * Pow2(t - 1) && 2 * Pow2(t) <= Top(t)
  {
    GridGap(1, PRECISION, Pow2(t));
  }

  /** bv = r - a can only leave the finite range when b is the largest number and the sum lost exactly half a unit. */
  lemma OverflowNeedsTie(a: int, b: int, r: int, bv: int, t: nat)
    requires t > 0 && Operand(a, t) && Operand(b, t) && Near(r, a + b, t) && Abs(r) < Top(t)
    requires Near(bv, r - a, t) && Abs(bv) == Top(t)
    ensures Abs(b) + Pow2(t) == Top(t) && Abs(a) < Abs(b)
    ensures r - (a + b) == if b > 0 then Pow2(t - 1) as int else -(Pow2(t - 1) as int)
  {
    hide Near, Scaled, Pow2;
    FiniteError(r, a + b, t);
    if Abs(b) <= Abs(a) {
      LargerFirst(a, b, r, t);
      NearExact(bv, r - a, t);
    }
    OperandGap(b, t);
    HalfOfTop(t);
    LargestIsMember(t);
    var largest, d := Top(t) - Pow2(t), r - a;
    MemberNegated(largest, t);
    NearWithin(bv, d, largest, t);
    NearWithin(bv, d, -largest, t);
    TieFromOverflow(bv, d, b, largest, Pow2(t - 1));
  }

  lemma TieFromOverflow(bv: int, d: int, b: int, largest: int, half: int)
    requires half > 0 && largest >= 2 * half && Abs(bv) == largest + 2 * half
    requires Abs(bv - d) <= Abs(largest - d) && Abs(bv - d) <= Abs(-largest - d)
    requires Abs(b) <= largest && Abs(d - b) <= half
    ensures Abs(b) == largest && d - b == if b > 0 then half else -half
  {
  }

  lemma LargestIsMember(t: nat)
    ensures Pow2(t) < Top(t)
    ensures Member(Top(t) - Pow2(t), t)
  {
    hide Pow2;
    var p := Pow2(t);
    GridGap(1, PRECISION, p);
    PreviousMultiple(PRECISION, p);
    assert IsTimes(Top(t) - p, PRECISION - 1, t);
    assert Fits(Top(t) - p, t);
  }

  lemma PreviousMultiple(n: int, p: int)
    ensures (n - 1) * p == n * p - p
  {
  }
}
