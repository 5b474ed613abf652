/** Comparison of a * 2^ea with b * 2^eb in 128-bit integers. */
module ScaledCompare {
  import opened Powers

  type U128 = v: nat | v < 0x1_0000_0000_0000_0000_0000_0000_0000_0000

  const LIMIT: nat := 0x8000_0000_0000_0000_0000_0000_0000_0000

  /** The C++ shift on unsigned __int128: undefined from 128 on, and bits above 127 are lost. */
  function ShiftLeft(v: U128, n: nat): U128
    requires n < 128
  {
    Scaled(v, n) % 0x1_0000_0000_0000_0000_0000_0000_0000_0000
  }

  /** length is the position of the highest set bit of v, counted from one. */
  predicate HasBitLength(v: nat, length: nat) {
    if v == 0 then length == 0 else length > 0 && Pow2(length - 1) <= v < Pow2(length)
  }

  /** The sign of a * 2^ea - b * 2^eb. */
  function ScaledSign(a: nat, ea: int, b: nat, eb: int): int {
    if ea <= eb then Sign(a - Scaled(b, eb - ea)) else Sign(Scaled(a, ea - eb) - b)
  }

  /** v shifted right by length leaves rest. */
  predicate Shifted(v: nat, length: nat, rest: nat) {
    rest * Pow2(length) <= v < (rest + 1) * Pow2(length)
  }

  method BitLength(v: U128) returns (length: nat)
    ensures HasBitLength(v, length)
  {
    length := 0;
    var rest := v;
    while rest != 0
      invariant Shifted(v, length, rest)
      invariant rest == 0 ==> HasBitLength(v, length)
      decreases rest
    {
      HalveStep(v, length, rest);
      length := length + 1;
      rest := rest / 2;
    }
  }

  lemma HalveStep(v: nat, length: nat, rest: nat)
    requires rest > 0 && Shifted(v, length, rest)
    ensures Shifted(v, length + 1, rest / 2)
    ensures rest / 2 == 0 ==> HasBitLength(v, length + 1)
  {
    var half, p := rest / 2, Pow2(length);
    assert Pow2(length + 1) == 2 * p;
    Scale(2 * half, rest, p);
    Scale(rest + 1, 2 * (half + 1), p);
    assert half * (2 * p) == (2 * half) * p;
    assert (half + 1) * (2 * p) == (2 * (half + 1)) * p;
    Scale(1, rest, p);
  }

  lemma Scale(x: nat, y: nat, s: nat)
    requires x <= y
    ensures x * s <= y * s
  {
  }

  lemma BitLengthScaled(a: nat, la: nat, n: nat)
    requires a > 0 && HasBitLength(a, la)
    ensures Pow2(la + n - 1) <= Scaled(a, n) < Pow2(la + n)
  {
    var p := Pow2(n);
    Pow2Add(la - 1, n);
    Pow2Add(la, n);
    Scale(Pow2(la - 1), a, p);
    Scale(a + 1, Pow2(la), p);
    assert (a + 1) * p == a * p + p;
  }

  lemma BitLengthOrder(a: nat, la: nat, b: nat, lb: nat, n: nat)
    requires a > 0 && b > 0 && HasBitLength(a, la) && HasBitLength(b, lb)
    ensures la + n > lb ==> Scaled(a, n) > b
    ensures la + n < lb ==> Scaled(a, n) < b
    ensures la + n <= lb ==> Scaled(a, n) < Pow2(lb)
  {
    BitLengthScaled(a, la, n);
    OrderFromBitLength(Scaled(a, n), la + n, b, lb);
  }

  lemma OrderFromBitLength(a: nat, la: nat, b: nat, lb: nat)
    requires a > 0 && b > 0 && HasBitLength(a, la) && HasBitLength(b, lb)
    ensures la > lb ==> a > b
    ensures la < lb ==> a < b
    ensures la <= lb ==> a < Pow2(lb)
  {
    if la > lb {
      Pow2Monotone(lb, la - 1);
    } else if la < lb {
      Pow2Monotone(la, lb - 1);
      Pow2Monotone(la, lb);
    }
  }

  /** A value below 2^127 has at most 127 bits. */
  lemma BitLengthBound(v: nat, length: nat)
    requires HasBitLength(v, length) && v < LIMIT
    ensures length <= 127
  {
    if length > 127 {
      Pow2Monotone(127, length - 1);
      Pow2Of127();
    }
  }

  lemma Pow2Of127()
    ensures Pow2(127) == LIMIT
  {
    hide Pow2;
    SmallPowers();
    Pow2Add(8, 8);
    Pow2Add(16, 16);
    Pow2Add(32, 32);
    Pow2Add(64, 32);
    Pow2Add(96, 16);
    Pow2Add(112, 8);
    Pow2Add(120, 7);
  }

  lemma ZeroOperand(a: nat, ea: int, b: nat, eb: int)
    requires a == 0 || b == 0
    ensures ScaledSign(a, ea, b, eb) == (if a != 0 then 1 else 0) - (if b != 0 then 1 else 0)
  {
  }

  lemma UnscaledSame(v: nat)
    ensures Scaled(v, 0) == v
  {
  }

  method CompareScaled(a: U128, ea: int, b: U128, eb: int) returns (s: int)
    requires a < LIMIT && b < LIMIT
    ensures s == ScaledSign(a, ea, b, eb)
  {
    hide Scaled, Pow2;
    if a == 0 || b == 0 {
      ZeroOperand(a, ea, b, eb);
      return (if a != 0 then 1 else 0) - (if b != 0 then 1 else 0);
    }
    var bits := BitLength(a);
    var otherBits := BitLength(b);
    var la, lb := bits + ea, otherBits + eb;
    BitLengthBound(a, bits);
    BitLengthBound(b, otherBits);
    if ea > eb {
      BitLengthOrder(a, bits, b, otherBits, ea - eb);
    } else {
      BitLengthOrder(b, otherBits, a, bits, eb - ea);
    }
    if la != lb {
      s := if la > lb then 1 else -1;
      return;
    }
    var left, right := a, b;
    Pow2Of127();
    if ea > eb {
      Pow2Monotone(otherBits, 127);
      left := ShiftLeft(left, ea - eb);
    } else if eb > ea {
      Pow2Monotone(bits, 127);
      right := ShiftLeft(right, eb - ea);
    } else {
      UnscaledSame(b);
    }
    s := (if left > right then 1 else 0) - (if left < right then 1 else 0);
  }

  /** The sign only depends on the difference of the exponents. */
  lemma ScaledSignShift(a: nat, ea: nat, b: nat, eb: nat, shift: int)
    ensures ScaledSign(a, ea - shift, b, eb - shift) == Sign(Scaled(a, ea) - Scaled(b, eb))
  {
    if ea <= eb {
      Pow2Add(eb - ea, ea);
      SignAligned(a, b, Pow2(eb - ea), Pow2(ea), Pow2(eb));
    } else {
      Pow2Add(ea - eb, eb);
      SignAligned(b, a, Pow2(ea - eb), Pow2(eb), Pow2(ea));
    }
  }

  lemma SignAligned(a: nat, b: nat, p: nat, s: nat, top: nat)
    requires s > 0 && top == p * s
    ensures Sign(a - b * p) == Sign(a * s - b * top)
    ensures Sign(b * p - a) == Sign(b * top - a * s)
  {
    var m := b * p;
    Associate(b, p, s, top);
    Distribute(a, m, s);
    Distribute(m, a, s);
    SignScale(a - m, s);
    SignScale(m - a, s);
  }

  lemma Associate(b: nat, p: nat, s: nat, top: nat)
    requires top == p * s
    ensures b * top == (b * p) * s
  {
  }

  lemma Distribute(a: int, b: int, s: int)
    ensures (a - b) * s == a * s - b * s
  {
  }
}
