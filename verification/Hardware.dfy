/** WebAssembly's own double operations: IEEE 754 with round to nearest, ties to even, as total functions. */
module Hardware {
  import opened Powers
  import opened Double
  import opened Rounding

  const QUIET_NAN: Bits := 0x7ff8_0000_0000_0000

  /** 1.0 counted in units of 2^-1074. */
  const UNIT_EXPONENT: nat := 1074

  /** The largest pattern up to p whose magnitude does not exceed x. */
  function FloorFrom(x: Exact, p: nat): (q: nat)
    ensures q <= p && Side(x, 2 * Mag(q)) >= 0
    ensures q < p ==> Side(x, 2 * Mag(q + 1)) < 0
  {
    if p == 0 || Side(x, 2 * Mag(p)) >= 0 then p else FloorFrom(x, p - 1)
  }

  function NearestOf(x: Exact): (p: nat)
    ensures NearestPattern(x, p)
  {
    var p := FloorFrom(x, INFINITY);
    if p < INFINITY && UpperWins(x, p) then
      UpperIsNearest(x, p);
      p + 1
    else
      LowerIsNearest(x, p);
      p
  }

  /** x is beyond the midpoint of p and p + 1, or on it with p odd. */
  predicate UpperWins(x: Exact, p: nat) {
    var s := Side(x, Mag(p) + Mag(p + 1));
    s > 0 || (s == 0 && p % 2 != 0)
  }

  lemma LowerIsNearest(x: Exact, p: nat)
    requires p <= INFINITY && Side(x, 2 * Mag(p)) >= 0
    requires p < INFINITY ==> !UpperWins(x, p)
    ensures NearestPattern(x, p)
  {
    hide Mag, Side;
    forall q: nat | q < p
      ensures Side(x, Mag(q) + Mag(p)) > 0
    {
      MagMonotone(q, p);
      SideMonotone(x, Mag(q) + Mag(p), 2 * Mag(p));
    }
    forall q: nat | p < q <= INFINITY
      ensures var s := Side(x, Mag(p) + Mag(q)); s < 0 || (s == 0 && p % 2 == 0)
    {
      if p + 1 < q {
        MagMonotone(p + 1, q);
        SideMonotone(x, Mag(p) + Mag(p + 1), Mag(p) + Mag(q));
      }
    }
  }

  lemma UpperIsNearest(x: Exact, p: nat)
    requires p < INFINITY && Side(x, 2 * Mag(p + 1)) < 0 && UpperWins(x, p)
    ensures NearestPattern(x, p + 1)
  {
    hide Mag, Side;
    forall q: nat | q < p + 1
      ensures var s := Side(x, Mag(q) + Mag(p + 1)); s > 0 || (s == 0 && (p + 1) % 2 == 0)
    {
      if q < p {
        MagMonotone(q, p);
        SideMonotone(x, Mag(q) + Mag(p + 1), Mag(p) + Mag(p + 1));
      }
    }
    forall q: nat | p + 1 < q <= INFINITY
      ensures Side(x, Mag(p + 1) + Mag(q)) < 0
    {
      MagMonotone(p + 1, q);
      SideMonotone(x, 2 * Mag(p + 1), Mag(p + 1) + Mag(q));
    }
  }

  function SumExact(a: Bits, b: Bits): Exact {
    var sum := Value(a) + Value(b);
    Ratio(if sum < 0 then -sum else sum, 1)
  }

  function ProductExact(a: Bits, b: Bits): Exact {
    Ratio(Times(Mag(Pattern(a)), Mag(Pattern(b))), Pow2(UNIT_EXPONENT))
  }

  function QuotientExact(a: Bits, b: Bits): Exact
    requires !Zero(b)
  {
    MagOrder(0, Pattern(b));
    Ratio(Scaled(Mag(Pattern(a)), UNIT_EXPONENT), Mag(Pattern(b)))
  }

  function RootExact(a: Bits): Exact
    requires !Zero(a)
  {
    MagOrder(0, Pattern(a));
    Root(Scaled(Mag(Pattern(a)), UNIT_EXPONENT))
  }

  function Add(a: Bits, b: Bits): Bits {
    if NaN(a) || NaN(b) then QUIET_NAN
    else if !Finite(a) then
      if !Finite(b) && Negative(a) != Negative(b) then QUIET_NAN else a
    else if !Finite(b) then b
    else if Value(a) + Value(b) == 0 then Join(Negative(a) && Negative(b), 0)
    else Join(Value(a) + Value(b) < 0, NearestOf(SumExact(a, b)))
  }

  function Sub(a: Bits, b: Bits): Bits {
    Add(a, Negate(b))
  }

  function Mul(a: Bits, b: Bits): Bits {
    var negative := Negative(a) != Negative(b);
    if NaN(a) || NaN(b) then QUIET_NAN
    else if !Finite(a) || !Finite(b) then
      if Zero(a) || Zero(b) then QUIET_NAN else Join(negative, INFINITY)
    else Join(negative, NearestOf(ProductExact(a, b)))
  }

  function Div(a: Bits, b: Bits): Bits {
    var negative := Negative(a) != Negative(b);
    if NaN(a) || NaN(b) then QUIET_NAN
    else if !Finite(a) then
      if !Finite(b) then QUIET_NAN else Join(negative, INFINITY)
    else if !Finite(b) then Join(negative, 0)
    else if Zero(b) then
      if Zero(a) then QUIET_NAN else Join(negative, INFINITY)
    else Join(negative, NearestOf(QuotientExact(a, b)))
  }

  function Sqrt(a: Bits): Bits {
    if NaN(a) then QUIET_NAN
    else if Zero(a) then a
    else if Negative(a) then QUIET_NAN
    else if !Finite(a) then a
    else Join(false, NearestOf(RootExact(a)))
  }
}
