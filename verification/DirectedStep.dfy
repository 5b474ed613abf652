/** From a nearest result and the side of the exact value to the directed result. */
module DirectedStep {
  import opened Double
  import opened Rounding

  /** r > 0 and r < 0 as the C++ comparisons see a number. */
  predicate AboveZero(r: Bits) {
    !Negative(r) && !Zero(r) && !NaN(r)
  }

  predicate BelowZero(r: Bits) {
    Negative(r) && !Zero(r) && !NaN(r)
  }

  /** Moves the nearest result toward the exact value; errorSign is the sign of (exact - r). */
  function Adjust(mode: Mode, r: Bits, errorSign: int): Bits {
    if errorSign == 0 then r
    else match mode
      case 1 => if errorSign < 0 then NextDown(r) else r
      case 2 => if errorSign > 0 then NextUp(r) else r
      case 3 =>
        if AboveZero(r) && errorSign < 0 then NextDown(r)
        else if BelowZero(r) && errorSign > 0 then NextUp(r)
        else r
      case _ => r
  }

  /** The result when the nearest result overflowed to r = +-infinity. */
  function Overflow(mode: Mode, r: Bits): Bits {
    match mode
    case 1 => if Negative(r) then r else MAX_FINITE
    case 2 => if Negative(r) then Join(true, MAX_FINITE) else r
    case 3 => Join(Negative(r), MAX_FINITE)
    case _ => r
  }

  /** The bit-level steps move the magnitude by one pattern, toward or away from zero. */
  lemma StepFromJoin(negative: bool, p: nat)
    requires p <= INFINITY
    ensures negative || p == 0 ==> NextDown(Join(negative, p)) == Join(true, p + 1)
    ensures !negative || p == 0 ==> NextUp(Join(negative, p)) == Join(false, p + 1)
    ensures p > 0 ==> (if negative then NextUp(Join(negative, p)) else NextDown(Join(negative, p))) == Join(negative, p - 1)
  {
    var u := Join(negative, p);
    assert Negate(u) == Join(!negative, p);
    assert Negate(Join(!negative, p + 1)) == Join(negative, p + 1);
  }

  /** NextUp is the successor in the order of values, from minus infinity on: no double lies strictly between. */
  lemma NextUpIsSuccessor(u: Bits, y: Bits)
    requires Finite(u) || u == Join(true, INFINITY)
    requires Finite(y)
    ensures var v := NextUp(u);
      && Value(u) < Value(v)
      && (Value(y) <= Value(u) || Value(v) <= Value(y))
      && (Pattern(v) == INFINITY <==> Pattern(u) == MAX_FINITE && !Negative(u))
  {
    hide Mag;
    MagSmallest();
    var p, q := Pattern(u), Pattern(y);
    assert u == Join(Negative(u), p);
    StepFromJoin(Negative(u), p);
    MagOrder(p, q);
    MagOrder(0, q);
    if Negative(u) && p > 0 {
      MagOrder(p - 1, p);
      MagOrder(0, p - 1);
      MagOrder(q, p - 1);
    } else {
      MagOrder(p, p + 1);
      MagOrder(0, p);
      MagOrder(q, p + 1);
    }
  }

  /** Dually for NextDown, which the source defines through negation. */
  lemma NextDownIsPredecessor(u: Bits, y: Bits)
    requires Finite(u) || u == Join(false, INFINITY)
    requires Finite(y)
    ensures var v := NextDown(u);
      && Value(v) < Value(u)
      && (Value(y) >= Value(u) || Value(v) >= Value(y))
      && (Pattern(v) == INFINITY <==> Pattern(u) == MAX_FINITE && Negative(u))
  {
    hide Mag;
    NextUpIsSuccessor(Negate(u), Negate(y));
  }

  /** Stepping back returns the same number; only the sign of a zero can change. */
  lemma NextDownUndoesNextUp(u: Bits)
    requires Finite(u)
    ensures Value(NextDown(NextUp(u))) == Value(u)
    ensures !Zero(u) ==> NextDown(NextUp(u)) == u
  {
    hide Mag;
    MagSmallest();
    var p := Pattern(u);
    assert u == Join(Negative(u), p);
    StepFromJoin(Negative(u), p);
    if Negative(u) && p > 0 {
      StepFromJoin(true, p - 1);
    } else {
      StepFromJoin(false, p + 1);
    }
  }

  /** A magnitude p with Mag(p) <= x and no finite pattern in between is x cut off toward zero. */
  lemma Truncated(negative: bool, x: Exact, p: nat)
    requires p < INFINITY && Side(x, 2 * Mag(p)) >= 0
    requires p < MAX_FINITE ==> Side(x, 2 * Mag(p + 1)) < 0
    ensures Rounded(3, negative, x, Join(negative, p))
    ensures Rounded(if negative then 2 else 1, negative, x, Join(negative, p))
  {
    hide Mag;
    var r := Join(negative, p);
    forall y: Bits | Finite(y)
      ensures !negative && Compare(negative, x, Value(y)) >= 0 ==> Value(y) <= Value(r)
      ensures negative && Compare(negative, x, Value(y)) <= 0 ==> Value(r) <= Value(y)
    {
      var q := Pattern(y);
      if p < q && Negative(y) == negative {
        MagMonotone(p + 1, q);
        if p + 1 < q {
          MagMonotone(p + 1, q);
          SideMonotone(x, 2 * Mag(p + 1), 2 * Mag(q));
        }
      } else if q <= p {
        MagMonotone(q, p);
      }
    }
  }

  /** A magnitude p with x <= Mag(p) and Mag(p - 1) < x is x carried away from zero, infinity included. */
  lemma Carried(negative: bool, x: Exact, p: nat)
    requires 0 < p <= INFINITY && Side(x, 2 * Mag(p - 1)) > 0
    requires p < INFINITY ==> Side(x, 2 * Mag(p)) <= 0
    ensures Rounded(if negative then 1 else 2, negative, x, Join(negative, p))
  {
    hide Mag;
    var r := Join(negative, p);
    forall y: Bits | Finite(y)
      ensures !negative && Compare(negative, x, Value(y)) <= 0 ==> p < INFINITY && Value(r) <= Value(y)
      ensures negative && Compare(negative, x, Value(y)) >= 0 ==> p < INFINITY && Value(y) <= Value(r)
    {
      var q := Pattern(y);
      if q < p {
        if q < p - 1 {
          MagMonotone(q, p - 1);
          SideMonotone(x, 2 * Mag(q), 2 * Mag(p - 1));
        }
        assert Side(x, 2 * Mag(q)) > 0;
        if Negative(y) != negative && q > 0 {
          MagMonotone(0, q);
        }
      } else {
        MagMonotone(p, q);
      }
    }
  }

  lemma NeverBelowZero(x: Exact)
    ensures Side(x, 2 * Mag(0)) >= 0
  {
    MagSmallest();
  }

  lemma NearestModeIsRounded(negative: bool, x: Exact, p: nat)
    requires NearestPattern(x, p)
    ensures Rounded(0, negative, x, Join(negative, p))
  {
  }

  /** With r a nearest result, x lies within one step of r. */
  lemma NearestBracket(x: Exact, p: nat)
    requires NearestPattern(x, p) && p < INFINITY
    ensures Side(x, 2 * Mag(p + 1)) < 0
    ensures p > 0 ==> Side(x, 2 * Mag(p - 1)) > 0
    ensures p == 0 ==> Side(x, 2 * Mag(p)) >= 0
  {
    hide Mag, Side;
    NeverBelowZero(x);
    MagMonotone(p, p + 1);
    SideMonotone(x, Mag(p) + Mag(p + 1), 2 * Mag(p + 1));
    if p > 0 {
      MagMonotone(p - 1, p);
      SideMonotone(x, 2 * Mag(p - 1), Mag(p - 1) + Mag(p));
    }
  }

  /** The sign of (exact - r) as seen from the magnitudes. */
  function ErrorSign(negative: bool, x: Exact, p: nat): int {
    var side := Side(x, 2 * Mag(p));
    if negative then -side else side
  }

  /** Main result on one step: a nearest result and the side of the exact value give the directed result. */
  lemma AdjustRounds(mode: Mode, negative: bool, x: Exact, r: Bits)
    requires NearestPattern(x, Pattern(r)) && Finite(r) && Negative(r) == negative
    ensures Rounded(mode, negative, x, Adjust(mode, r, ErrorSign(negative, x, Pattern(r))))
  {
    hide Mag, Side, Rounded;
    var p := Pattern(r);
    var side := Side(x, 2 * Mag(p));
    assert r == Join(negative, p);
    NearestBracket(x, p);
    StepFromJoin(negative, p);
    if side == 0 {
      ExactIsRounded(mode, negative, x, p);
    } else if side > 0 {
      NearestTooSmall(mode, negative, x, p);
    } else {
      NearestTooLarge(mode, negative, x, p);
    }
  }

  lemma NearestTooSmall(mode: Mode, negative: bool, x: Exact, p: nat)
    requires NearestPattern(x, p) && p < INFINITY && Side(x, 2 * Mag(p)) > 0
    ensures mode == 0 || mode == 3 || mode == (if negative then 2 else 1) ==> Rounded(mode, negative, x, Join(negative, p))
    ensures mode == (if negative then 1 else 2) ==> Rounded(mode, negative, x, Join(negative, p + 1))
  {
    hide Mag, Side, Rounded;
    NearestModeIsRounded(negative, x, p);
    NearestBracket(x, p);
    Truncated(negative, x, p);
    Carried(negative, x, p + 1);
  }

  lemma NearestTooLarge(mode: Mode, negative: bool, x: Exact, p: nat)
    requires NearestPattern(x, p) && p < INFINITY && Side(x, 2 * Mag(p)) < 0
    ensures p > 0
    ensures mode == 3 || mode == (if negative then 2 else 1) ==> Rounded(mode, negative, x, Join(negative, p - 1))
    ensures mode == 0 || mode == (if negative then 1 else 2) ==> Rounded(mode, negative, x, Join(negative, p))
  {
    hide Mag, Side, Rounded;
    NearestModeIsRounded(negative, x, p);
    NearestBracket(x, p);
    Truncated(negative, x, p - 1);
    Carried(negative, x, p);
  }

  lemma ExactIsRounded(mode: Mode, negative: bool, x: Exact, p: nat)
    requires NearestPattern(x, p) && p < INFINITY && Side(x, 2 * Mag(p)) == 0
    ensures Rounded(mode, negative, x, Join(negative, p))
  {
    hide Mag;
    var r := Join(negative, p);
    forall y: Bits | Finite(y)
      ensures Compare(negative, x, Value(y)) >= 0 ==> Value(y) <= Value(r)
      ensures Compare(negative, x, Value(y)) <= 0 ==> Value(r) <= Value(y)
    {
      var q := Pattern(y);
      if q < p {
        MagMonotone(q, p);
        SideMonotone(x, 2 * Mag(q), 2 * Mag(p));
      } else if p < q {
        MagMonotone(p, q);
        SideMonotone(x, 2 * Mag(p), 2 * Mag(q));
      }
      MagMonotone(0, p);
      MagMonotone(0, q);
    }
  }

  /** Section 7.4: the four overflow results. */
  lemma OverflowRounds(mode: Mode, negative: bool, x: Exact, r: Bits)
    requires NearestPattern(x, Pattern(r)) && Pattern(r) == INFINITY && Negative(r) == negative
    ensures Rounded(mode, negative, x, Overflow(mode, r))
  {
    hide Mag, Side, Rounded;
    NearestModeIsRounded(negative, x, INFINITY);
    assert r == Join(negative, INFINITY);
    assert MAX_FINITE == INFINITY - 1;
    MagMonotone(MAX_FINITE, INFINITY);
    SideMonotone(x, 2 * Mag(MAX_FINITE), Mag(MAX_FINITE) + Mag(INFINITY));
    Truncated(negative, x, MAX_FINITE);
    Carried(negative, x, INFINITY);
  }
}
