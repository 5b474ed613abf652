/** What IEEE 754 asks of a rounded result, stated over all doubles and without any algorithm. */
module Rounding {
  import opened Powers
  import opened Double

  type Positive = n: nat | n > 0 witness 1

  /**
   * An exact nonnegative result in units of 2^-1074: a quotient of integers (sums, products,
   * quotients) or the square root of one.
   */
  datatype Exact = Ratio(num: nat, den: Positive) | Root(square: Positive)

  /** 0 nearest, 1 down, 2 up, 3 toward zero. */
  type Mode = m: nat | m < 4

  /** Sign of 2x - h: compares x with a whole or half unit. */
  function Side(x: Exact, h: nat): int {
    match x
    case Ratio(num, den) => Sign(2 * num - h * den)
    case Root(square) => Sign(4 * square - h * h)
  }

  lemma SideMonotone(x: Exact, h: nat, k: nat)
    requires h < k
    ensures Side(x, h) <= 0 ==> Side(x, k) < 0
    ensures Side(x, k) >= 0 ==> Side(x, h) > 0
  {
    match x
    case Ratio(num, den) =>
      assert (k - h) * den > 0;
      assert k * den == h * den + (k - h) * den;
    case Root(square) =>
      assert k * k == h * h + (k - h) * (k + h);
      assert (k - h) * (k + h) > 0;
  }

  /** Sign of (exact - v), the exact result being x or -x. */
  function Compare(negative: bool, x: Exact, v: int): int {
    if negative then
      if v > 0 then -1 else -Side(x, 2 * (-v))
    else
      if v < 0 then 1 else Side(x, 2 * v)
  }

  /** Section 4.3.2: the double closest to and no greater than the exact result, or -infinity. */
  ghost predicate RoundsDown(negative: bool, x: Exact, r: Bits) {
    if Finite(r) then
      && Compare(negative, x, Value(r)) >= 0
      && forall y: Bits :: Finite(y) && Compare(negative, x, Value(y)) >= 0 ==> Value(y) <= Value(r)
    else
      && r == Join(true, INFINITY)
      && forall y: Bits :: Finite(y) ==> Compare(negative, x, Value(y)) < 0
  }

  /** Section 4.3.2: the double closest to and no less than the exact result, or +infinity. */
  ghost predicate RoundsUp(negative: bool, x: Exact, r: Bits) {
    if Finite(r) then
      && Compare(negative, x, Value(r)) <= 0
      && forall y: Bits :: Finite(y) && Compare(negative, x, Value(y)) <= 0 ==> Value(r) <= Value(y)
    else
      && r == Join(false, INFINITY)
      && forall y: Bits :: Finite(y) ==> Compare(negative, x, Value(y)) > 0
  }

  /**
   * Section 4.3.1: no pattern up to 2^1024 is nearer to x, and a tie goes to the even pattern.
   * Choosing 2^1024 itself means overflow.
   */
  ghost predicate NearestPattern(x: Exact, p: nat) {
    && p <= INFINITY
    && (forall q: nat :: q < p ==> var s := Side(x, Mag(q) + Mag(p)); s > 0 || (s == 0 && p % 2 == 0))
    && (forall q: nat :: p < q <= INFINITY ==> var s := Side(x, Mag(p) + Mag(q)); s < 0 || (s == 0 && p % 2 == 0))
  }

  /** r is the correctly rounded double for the exact result x or -x in this mode. */
  ghost predicate Rounded(mode: Mode, negative: bool, x: Exact, r: Bits) {
    && Negative(r) == negative
    && match mode
       case 0 => NearestPattern(x, Pattern(r))
       case 1 => RoundsDown(negative, x, r)
       case 2 => RoundsUp(negative, x, r)
       case 3 => if negative then RoundsUp(negative, x, r) else RoundsDown(negative, x, r)
  }

  /** A correctly rounded result exists at most once, so Rounded fixes every bit. */
  lemma RoundedUnique(mode: Mode, negative: bool, x: Exact, r: Bits, s: Bits)
    requires Rounded(mode, negative, x, r) && Rounded(mode, negative, x, s)
    ensures r == s
  {
    hide Mag, Side;
    if mode == 0 {
      NearestUnique(x, Pattern(r), Pattern(s));
    } else {
      assert Finite(Join(false, 0));
      MagOrder(Pattern(r), Pattern(s));
    }
    assert r == Join(negative, Pattern(r)) && s == Join(negative, Pattern(s));
  }

  lemma NearestUnique(x: Exact, p: nat, q: nat)
    requires NearestPattern(x, p) && NearestPattern(x, q)
    ensures p == q
  {
    hide Mag, Side;
    if p < q {
      NotBothNearest(x, p, q);
    } else if q < p {
      NotBothNearest(x, q, p);
    }
  }

  /** Two patterns cannot both be nearest: a tie makes both even, and then p + 1 between them is nearer. */
  lemma NotBothNearest(x: Exact, p: nat, q: nat)
    requires p < q
    ensures !NearestPattern(x, p) || !NearestPattern(x, q)
  {
    hide Mag, Side;
    if p % 2 == 0 && q % 2 == 0 {
      var a, b, c := Mag(p), Mag(p + 1), Mag(q);
      MagMonotone(p + 1, q);
      SideMonotone(x, a + b, a + c);
    }
  }
}
