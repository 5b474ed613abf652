/**
 * Floating-point numbers as integers: multiples of 2^k of at most 53 bits, for k up to t, the
 * largest scale. Facts about any nearest rounding of an integer into that set.
 */
module Format {
  import opened Powers

  const PRECISION: nat := 0x20_0000_0000_0000

  function Abs(x: int): nat {
    if x < 0 then -x else x
  }

  /** One unit beyond the largest finite number: 2^53 * 2^t. */
  function Top(t: nat): nat {
    Scaled(PRECISION, t)
  }

  ghost predicate Fits(x: int, k: nat) {
    Multiple(x, k) && Abs(x) <= Scaled(PRECISION, k)
  }

  ghost predicate Member(x: int, t: nat) {
    exists k: nat :: k <= t && Fits(x, k)
  }

  /** v is as near to s as any number of the format up to 2^53 * 2^t; ties are open. */
  ghost predicate Near(v: int, s: int, t: nat) {
    && Member(v, t)
    && Abs(v) <= Top(t)
    && forall y: int {:trigger Member(y, t)} :: Member(y, t) && Abs(y) <= Top(t) ==> Abs(v - s) <= Abs(y - s)
  }

  lemma AbsMultiple(x: int, k: nat) returns (n: nat)
    requires Multiple(x, k)
    ensures Abs(x) == Scaled(n, k)
  {
    var m :| IsTimes(x, m, k);
    MulSum(0, m, Pow2(k));
    n := if m < 0 then -m else m;
  }

  /** Distinct multiples of 2^k are 2^k apart. */
  lemma ScaledGap(m: nat, n: nat, k: nat)
    ensures m < n ==> Scaled(m, k) + Pow2(k) <= Scaled(n, k)
    ensures n <= m ==> Scaled(n, k) <= Scaled(m, k)
  {
    GridGap(m, n, Pow2(k));
  }

  lemma NearInRange(v: int, s: int, t: nat)
    requires Near(v, s, t)
    ensures Member(v, t) && Abs(v) <= Top(t)
  {
  }

  lemma FitsNegated(x: int, k: nat)
    requires Fits(x, k)
    ensures Fits(-x, k)
  {
    MultipleSum(x, x, k);
  }

  lemma MemberNegated(x: int, t: nat)
    requires Member(x, t)
    ensures Member(-x, t)
  {
    var k: nat :| k <= t && Fits(x, k);
    FitsNegated(x, k);
  }

  lemma ScaledStep(m: nat, k: nat)
    ensures Scaled(m, k + 1) == 2 * Scaled(m, k)
  {
    var p := Pow2(k);
    assert Pow2(k + 1) == 2 * p;
    assert m * (2 * p) == 2 * (m * p);
  }

  lemma ScaledMonotone(m: nat, j: nat, k: nat)
    requires j <= k
    ensures Scaled(m, j) <= Scaled(m, k)
  {
    Pow2Monotone(j, k);
    ProductMonotone(m, Pow2(j), Pow2(k));
  }

  lemma ProductMonotone(m: nat, p: nat, q: nat)
    requires p <= q
    ensures m * p <= m * q
  {
    MulNonnegative(q - p, m);
    MulSum(p, q - p, m);
  }

  /** A power of two times 2^53 is a member up to the top. */
  lemma BoundIsMember(k: nat, t: nat)
    requires k <= t
    ensures Fits(Scaled(PRECISION, k), k) && Member(Scaled(PRECISION, k), t)
    ensures Scaled(PRECISION, k) <= Top(t)
  {
    assert IsTimes(Scaled(PRECISION, k), PRECISION, k);
    ScaledMonotone(PRECISION, k, t);
  }

  lemma ZeroIsMember(t: nat)
    ensures Member(0, t)
  {
    assert IsTimes(0, 0, 0);
    assert Fits(0, 0);
  }

  lemma NearWithin(v: int, s: int, y: int, t: nat)
    requires Near(v, s, t) && Member(y, t) && Abs(y) <= Top(t)
    ensures Abs(v - s) <= Abs(y - s)
  {
  }

  lemma NearExact(v: int, s: int, t: nat)
    requires Near(v, s, t) && Member(s, t) && Abs(s) <= Top(t)
    ensures v == s
  {
    assert Abs(v - s) <= Abs(s - s);
  }

  lemma NearMonotone(v: int, s: int, y: int, t: nat)
    requires Near(v, s, t) && Member(y, t) && Abs(y) <= Top(t)
    ensures y <= s ==> y <= v
    ensures s <= y ==> v <= y
  {
  }

  /** Two numbers of the format on a common grid 2^k, one of them within 53 bits of it. */
  lemma CommonGrid(a: int, b: int, t: nat) returns (k: nat)
    requires Member(a, t) && Member(b, t)
    ensures k <= t && Multiple(a, k) && Multiple(b, k)
    ensures Abs(a) <= Scaled(PRECISION, k) || Abs(b) <= Scaled(PRECISION, k)
  {
    var j: nat :| j <= t && Fits(a, j);
    var i: nat :| i <= t && Fits(b, i);
    if j <= i {
      k := j;
      MultipleWeaken(b, j, i);
    } else {
      k := i;
      MultipleWeaken(a, i, j);
    }
  }

  /** A member at least 2^(53 + k) in size is a multiple of 2^(k + 1). */
  lemma LargeIsCoarse(v: int, k: nat, t: nat)
    requires Member(v, t) && Abs(v) >= Scaled(PRECISION, k)
    ensures Multiple(v, k + 1) && Multiple(v, k)
  {
    var j: nat :| j <= t && Fits(v, j);
    if j > k {
      MultipleWeaken(v, k + 1, j);
    } else {
      ScaledMonotone(PRECISION, j, k);
      assert Abs(v) == Scaled(PRECISION, k);
      assert PRECISION == 2 * 0x10_0000_0000_0000;
      assert IsTimes(Scaled(PRECISION, k), 0x10_0000_0000_0000, k + 1);
      MultipleSum(Scaled(PRECISION, k), Scaled(PRECISION, k), k + 1);
    }
    MultipleWeaken(v, k, k + 1);
  }

  /** Rounding stays on the grid of its operand; past 53 bits it moves to the next coarser grid. */
  lemma NearOnGrid(v: int, s: int, k: nat, t: nat)
    requires Near(v, s, t) && Multiple(s, k) && k <= t
    ensures Multiple(v, k)
    ensures v == s || (Multiple(v, k + 1) && Abs(v) >= Scaled(PRECISION, k))
  {
    BoundIsMember(k, t);
    var bound: int := Scaled(PRECISION, k);
    if Abs(s) <= bound {
      assert Fits(s, k);
      NearExact(v, s, t);
    } else {
      MemberNegated(bound, t);
      NearMonotone(v, s, bound, t);
      NearMonotone(v, s, -bound, t);
      LargeIsCoarse(v, k, t);
    }
  }

  /** The error of a rounded sum is itself a number of the format, and no larger than either operand. */
  lemma SumErrorIsMember(a: int, b: int, v: int, t: nat)
    requires Member(a, t) && Member(b, t) && Near(v, a + b, t)
    requires Abs(a) <= Top(t) && Abs(b) <= Top(t)
    ensures Member(a + b - v, t)
    ensures Abs(a + b - v) <= Abs(a) && Abs(a + b - v) <= Abs(b)
  {
    assert Abs(v - (a + b)) <= Abs(b - (a + b));
    assert Abs(v - (a + b)) <= Abs(a - (a + b));
    var k := CommonGrid(a, b, t);
    MultipleSum(a, b, k);
    NearOnGrid(v, a + b, k, t);
    MultipleSum(a + b, v, k);
    assert Fits(a + b - v, k);
  }

  /** Dekker: the rounded sum minus the larger operand needs no rounding. */
  lemma SumMinusLarger(a: int, b: int, v: int, t: nat)
    requires Member(a, t) && Member(b, t) && Near(v, a + b, t) && Abs(b) <= Abs(a) <= Top(t)
    requires Abs(v) < Top(t)
    ensures Member(v - a, t)
  {
    hide Near, Scaled, Pow2;
    var k := CommonGrid(a, b, t);
    MultipleSum(a, b, k);
    NearOnGrid(v, a + b, k, t);
    SumErrorIsMember(a, b, v, t);
    if v == a + b {
      assert v - a == b;
    } else {
      CoarseRemainder(a, b, v, k, t);
    }
  }

  lemma CoarseRemainder(a: int, b: int, v: int, k: nat, t: nat)
    requires Member(a, t) && Near(v, a + b, t) && Multiple(a, k) && Multiple(a + b, k) && Multiple(v, k + 1)
    requires Abs(b) <= Abs(a) && Abs(b) <= Scaled(PRECISION, k) && Abs(a + b - v) <= Abs(b) && k < t
    ensures Member(v - a, t)
  {
    hide Near, Scaled, Pow2;
    ScaledStep(PRECISION, k);
    if Multiple(a, k + 1) {
      MultipleSum(v, a, k + 1);
      assert Fits(v - a, k + 1);
    } else {
      OddIsShort(a, k, t);
      GridDistance(v, a + b, k, t);
      MultipleWeaken(v, k, k + 1);
      MultipleSum(v, a, k);
      assert Fits(v - a, k);
    }
  }

  /** An odd multiple of 2^k fits 53 bits of grid k with one unit to spare. */
  lemma OddIsShort(a: int, k: nat, t: nat)
    requires Member(a, t) && Multiple(a, k) && !Multiple(a, k + 1)
    ensures Abs(a) + Pow2(k) <= Scaled(PRECISION, k)
  {
    hide Scaled, Pow2;
    if Abs(a) >= Scaled(PRECISION, k) {
      LargeIsCoarse(a, k, t);
    } else {
      var n := AbsMultiple(a, k);
      ScaledGap(n, PRECISION, k);
    }
  }

  /** On grid 2^k, below 2^(54 + k), a nearest result is at most 2^k away. */
  lemma GridDistance(v: int, s: int, k: nat, t: nat)
    requires Near(v, s, t) && Multiple(s, k) && k + 1 <= t && Abs(s) <= Scaled(PRECISION, k + 1)
    ensures Abs(v - s) <= Pow2(k)
  {
    ScaledMonotone(PRECISION, k + 1, t);
    MultipleHalves(s, k);
    if Multiple(s, k + 1) {
      assert Fits(s, k + 1);
      NearExact(v, s, t);
    } else {
      var y := if s > 0 then s - Pow2(k) else s + Pow2(k);
      NonzeroMultiple(s, k);
      assert Fits(y, k + 1);
      assert Member(y, t);
    }
  }

  lemma NonzeroMultiple(s: int, k: nat)
    requires Multiple(s, k)
    ensures s == 0 || Abs(s) >= Pow2(k)
  {
    var n := AbsMultiple(s, k);
    ScaledGap(0, n, k);
  }
}
