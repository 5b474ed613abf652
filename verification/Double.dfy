/** IEEE 754 binary64 as the bit patterns wasm_rounding.h works on. */
module Double {
  import opened Powers

  const SIGN_BIT: nat := 0x8000_0000_0000_0000
  const HIDDEN_BIT: nat := 0x10_0000_0000_0000
  const INFINITY: nat := 0x7ff0_0000_0000_0000
  const MAX_FINITE: nat := 0x7fef_ffff_ffff_ffff

  /** A 64-bit pattern; the C++ masks and shifts become / and % by powers of two. */
  type Bits = u: nat | u < 0x1_0000_0000_0000_0000

  /** The low 63 bits: exponent field and fraction. */
  function Pattern(u: Bits): (p: nat)
    ensures p < SIGN_BIT
  {
    u % SIGN_BIT
  }

  predicate Negative(u: Bits) {
    u / SIGN_BIT != 0
  }

  predicate Finite(u: Bits) {
    Pattern(u) < INFINITY
  }

  predicate NaN(u: Bits) {
    Pattern(u) > INFINITY
  }

  predicate Zero(u: Bits) {
    Pattern(u) == 0
  }

  function Join(negative: bool, p: nat): (u: Bits)
    requires p < SIGN_BIT
    ensures Negative(u) == negative && Pattern(u) == p
  {
    if negative then SIGN_BIT + p else p
  }

  /** Unary minus: flips the sign bit of any pattern. */
  function Negate(u: Bits): (v: Bits)
    ensures Negative(v) == !Negative(u) && Pattern(v) == Pattern(u)
  {
    Join(!Negative(u), Pattern(u))
  }

  function ExponentField(p: nat): nat {
    p / HIDDEN_BIT
  }

  /** Integer significand, below 2^53. */
  function Significand(p: nat): (m: nat)
    ensures m < 2 * HIDDEN_BIT
  {
    if ExponentField(p) == 0 then p else p % HIDDEN_BIT + HIDDEN_BIT
  }

  /** Exponent of the last place, in units of 2^-1074. */
  function Scale(p: nat): nat {
    if ExponentField(p) == 0 then 0 else ExponentField(p) - 1
  }

  /** |x| in units of 2^-1074. The infinity pattern stands for 2^1024, the overflow threshold of section 4.3.1. */
  function Mag(p: nat): nat {
    Scaled(Significand(p), Scale(p))
  }

  function Value(u: Bits): int {
    var magnitude: int := Mag(Pattern(u));
    if Negative(u) then -magnitude else magnitude
  }

  /** Adjacent patterns are one unit in the last place apart. */
  lemma MagStep(p: nat)
    ensures Mag(p + 1) == Mag(p) + Pow2(Scale(p))
  {
    var e, f := p / HIDDEN_BIT, p % HIDDEN_BIT;
    if f + 1 < HIDDEN_BIT {
      assert (p + 1) / HIDDEN_BIT == e && (p + 1) % HIDDEN_BIT == f + 1;
      assert Significand(p + 1) == Significand(p) + 1;
      assert (Significand(p) + 1) * Pow2(Scale(p)) == Mag(p) + Pow2(Scale(p));
    } else {
      assert (p + 1) / HIDDEN_BIT == e + 1 && (p + 1) % HIDDEN_BIT == 0;
      if e > 0 {
        assert Pow2(Scale(p + 1)) == 2 * Pow2(Scale(p));
        assert HIDDEN_BIT * (2 * Pow2(Scale(p))) == (2 * HIDDEN_BIT) * Pow2(Scale(p));
        assert Significand(p) == 2 * HIDDEN_BIT - 1;
        assert (2 * HIDDEN_BIT - 1) * Pow2(Scale(p)) + Pow2(Scale(p)) == (2 * HIDDEN_BIT) * Pow2(Scale(p));
      } else {
        assert Pow2(0) == 1;
      }
    }
  }

  lemma {:induction false} MagMonotone(p: nat, q: nat)
    requires p <= q
    ensures Mag(p) <= Mag(q)
    ensures p < q ==> Mag(p) < Mag(q)
    decreases q - p
  {
    if p < q {
      MagMonotone(p, q - 1);
      MagStep(q - 1);
    }
  }

  lemma MagOrder(p: nat, q: nat)
    ensures Mag(p) < Mag(q) <==> p < q
    ensures Mag(p) == Mag(q) <==> p == q
  {
    if p <= q {
      MagMonotone(p, q);
    } else {
      MagMonotone(q, p);
    }
  }

  lemma MagSmallest()
    ensures Mag(0) == 0 && Mag(1) == 1
  {
  }

  /** Smallest double greater than x, on the pattern as the source steps it. */
  function NextUp(u: Bits): Bits {
    if Zero(u) then 1
    else if Negative(u) then u - 1
    else u + 1
  }

  function NextDown(u: Bits): Bits {
    Negate(NextUp(Negate(u)))
  }
}
