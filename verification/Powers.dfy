/** Powers of two over unbounded integers, and divisibility by them. */
module Powers {

  function Pow2(n: nat): (r: nat)
    ensures r > 0
  {
    if n == 0 then 1 else 2 * Pow2(n - 1)
  }

  /** m * 2^e. */
  function Scaled(m: nat, e: nat): (r: nat)
    ensures m > 0 ==> r > 0
  {
    m * Pow2(e)
  }

  function Times(a: nat, b: nat): (c: nat)
    ensures a > 0 && b > 0 ==> c > 0
  {
    a * b
  }

  function Sign(x: int): int {
    if x > 0 then 1 else if x < 0 then -1 else 0
  }

  lemma {:induction false} Pow2Add(a: nat, b: nat)
    ensures Pow2(a + b) == Pow2(a) * Pow2(b)
  {
    if a > 0 {
      Pow2Add(a - 1, b);
      assert Pow2(a + b) == 2 * (Pow2(a - 1) * Pow2(b));
    }
  }

  lemma SmallPowers()
    ensures Pow2(7) == 0x80 && Pow2(8) == 0x100
  {
  }

  lemma {:induction false} Pow2Monotone(a: nat, b: nat)
    requires a <= b
    ensures Pow2(a) <= Pow2(b)
    ensures a < b ==> 2 * Pow2(a) <= Pow2(b)
  {
    if a < b {
      Pow2Monotone(a, b - 1);
    }
  }

  predicate IsTimes(x: int, m: int, k: nat) {
    x == m * Pow2(k)
  }

  /** x is a multiple of 2^k. */
  ghost predicate Multiple(x: int, k: nat) {
    exists m: int :: IsTimes(x, m, k)
  }

  lemma MultipleSum(x: int, y: int, k: nat)
    requires Multiple(x, k) && Multiple(y, k)
    ensures Multiple(x + y, k) && Multiple(x - y, k) && Multiple(-x, k)
  {
    var m :| IsTimes(x, m, k);
    var n :| IsTimes(y, n, k);
    assert IsTimes(x + y, m + n, k);
    assert IsTimes(x - y, m - n, k);
    assert IsTimes(-x, -m, k);
  }

  lemma MultipleWeaken(x: int, j: nat, k: nat)
    requires Multiple(x, k) && j <= k
    ensures Multiple(x, j)
  {
    var m :| IsTimes(x, m, k);
    Pow2Add(k - j, j);
    assert m * (Pow2(k - j) * Pow2(j)) == (m * Pow2(k - j)) * Pow2(j);
    assert IsTimes(x, m * Pow2(k - j), j);
  }

  /** Every multiple of 2^k is a multiple of 2^(k+1), or off one by exactly 2^k. */
  lemma MultipleHalves(x: int, k: nat)
    requires Multiple(x, k)
    ensures Multiple(x, k + 1) || (Multiple(x - Pow2(k), k + 1) && Multiple(x + Pow2(k), k + 1))
  {
    var m :| IsTimes(x, m, k);
    var h := m / 2;
    assert Pow2(k + 1) == 2 * Pow2(k);
    if m == 2 * h {
      assert IsTimes(x, h, k + 1);
    } else {
      assert m == 2 * h + 1;
      assert x - Pow2(k) == (2 * h) * Pow2(k) && x + Pow2(k) == (2 * (h + 1)) * Pow2(k);
      assert IsTimes(x - Pow2(k), h, k + 1);
      assert IsTimes(x + Pow2(k), h + 1, k + 1);
    }
  }

  lemma SignScale(x: int, s: int)
    requires s > 0
    ensures Sign(x * s) == Sign(x)
  {
    if x > 0 {
      assert x * s > 0;
    } else if x < 0 {
      assert x * s < 0;
    }
  }

  lemma MulSum(x: int, y: int, p: int)
    ensures (x + y) * p == x * p + y * p
    ensures (x - y) * p == x * p - y * p
  {
  }

  lemma MulNonnegative(x: nat, p: nat)
    ensures x * p >= 0
  {
  }

  /** Distinct multiples of p are p apart. */
  lemma GridGap(m: int, n: int, p: nat)
    ensures m < n ==> m * p + p <= n * p
    ensures n <= m ==> n * p <= m * p
  {
    if m < n {
      var d: nat := n - m - 1;
      MulNonnegative(d, p);
      MulSum(m, 1 + d, p);
      MulSum(1, d, p);
    } else {
      MulNonnegative(m - n, p);
      MulSum(n, m - n, p);
    }
  }
}
