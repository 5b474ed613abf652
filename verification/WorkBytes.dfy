/** The byte layout of RandomX work: 32 bytes of challenge, then the nonce as 8 little-endian bytes. */
module WorkBytes {
  import opened Options
  import opened Powers

  type byte = x: int | 0 <= x < 256
  type uint32 = x: int | 0 <= x < 0x1_0000_0000
  type uint64 = x: int | 0 <= x < 0x1_0000_0000_0000_0000
  type Bytes32 = s: seq<byte> | |s| == 32 witness seq(32, _ => 0)

  const UINT64_MAX: uint64 := 0xffff_ffff_ffff_ffff

  /** RandomX itself is foreign code: any function from inputs to 32 bytes. */
  type RandomX = seq<byte> -> Bytes32

  function LittleEndian(s: seq<byte>): nat {
    if s == [] then 0 else s[0] + 256 * LittleEndian(s[1..])
  }

  function BigEndian(s: seq<byte>): nat {
    if s == [] then 0 else 256 * BigEndian(s[..|s| - 1]) + s[|s| - 1]
  }

  function ToLittleEndian(n: nat, width: nat): (s: seq<byte>)
    ensures |s| == width
  {
    if width == 0 then [] else [n % 256] + ToLittleEndian(n / 256, width - 1)
  }

  /** The specification side: what the protocol package hashes, and when a nonce is a solution. */
  function RandomXInput(challenge: Bytes32, nonce: uint64): seq<byte> {
    challenge + ToLittleEndian(nonce, 8)
  }

  predicate IsHashAtOrBelowTarget(hash: Bytes32, target: nat) {
    BigEndian(hash) <= target
  }

  predicate Solves(randomX: RandomX, challenge: Bytes32, target: nat, nonce: uint64) {
    IsHashAtOrBelowTarget(randomX(RandomXInput(challenge, nonce)), target)
  }

  lemma {:induction false} BytesRoundTrip(n: nat, width: nat)
    ensures LittleEndian(ToLittleEndian(n, width)) == n % Pow2(8 * width)
  {
    if width == 0 {
      assert Pow2(0) == 1;
    } else {
      BytesRoundTrip(n / 256, width - 1);
      assert ToLittleEndian(n, width)[1..] == ToLittleEndian(n / 256, width - 1);
      Pow2Of8(width - 1);
      RemainderSplit(n, Pow2(8 * (width - 1)));
    }
  }

  lemma Pow2Of8(k: nat)
    ensures Pow2(8 * (k + 1)) == 256 * Pow2(8 * k)
  {
    Pow2Add(8, 8 * k);
    assert Pow2(8) == 256;
  }

  lemma RemainderSplit(n: nat, m: nat)
    requires m > 0
    ensures n % (256 * m) == n % 256 + 256 * (n / 256 % m)
  {
    var q, r := n / 256 / m, n / 256 % m;
    assert n / 256 == q * m + r;
    assert n == (256 * m) * q + (256 * r + n % 256);
    assert 0 <= 256 * r + n % 256 < 256 * m;
    Quotient(n, 256 * m, q, 256 * r + n % 256);
  }

  lemma Quotient(n: nat, d: nat, q: nat, r: nat)
    requires n == d * q + r && r < d
    ensures n / d == q && n % d == r
  {
    assert d * (n / d) + n % d == n;
    Times2Factor(d, n / d, q);
    if n / d > q {
      AtLeast(d, n / d - q);
    } else if n / d < q {
      AtLeast(d, q - n / d);
    }
  }

  lemma Times2Factor(d: nat, a: nat, b: nat)
    ensures d * a - d * b == d * (a - b)
    ensures d * b - d * a == d * (b - a)
  {
  }

  lemma AtLeast(d: nat, k: nat)
    requires k >= 1
    ensures d * k >= d
  {
  }

  lemma {:induction false} ByteAt(n: nat, width: nat, i: nat)
    requires i < width
    ensures ToLittleEndian(n, width)[i] == n / Pow2(8 * i) % 256
  {
    if i == 0 {
      assert Pow2(0) == 1;
    } else {
      ByteAt(n / 256, width - 1, i - 1);
      Pow2Of8(i - 1);
      DivideTwice(n, Pow2(8 * (i - 1)));
    }
  }

  lemma DivideTwice(n: nat, m: nat)
    requires m > 0
    ensures n / 256 / m == n / (256 * m)
  {
    var q, r := n / 256 / m, n / 256 % m;
    assert n / 256 == q * m + r;
    assert n == (256 * m) * q + (256 * r + n % 256);
    Quotient(n, 256 * m, q, 256 * r + n % 256);
  }

  /** A uint64 nonce survives being written and read back. */
  lemma NonceRoundTrip(nonce: uint64)
    ensures LittleEndian(ToLittleEndian(nonce, 8)) == nonce
  {
    BytesRoundTrip(nonce, 8);
    Pow2Of64();
  }

  lemma Pow2Of64()
    ensures Pow2(64) == 0x1_0000_0000_0000_0000
  {
    hide Pow2;
    SmallPowers();
    Pow2Add(8, 8);
    Pow2Add(16, 16);
    Pow2Add(32, 32);
  }

  /** Different nonces give different RandomX inputs. */
  lemma InputIsInjective(challenge: Bytes32, a: uint64, b: uint64)
    requires RandomXInput(challenge, a) == RandomXInput(challenge, b)
    ensures a == b
  {
    assert RandomXInput(challenge, a)[32..] == ToLittleEndian(a, 8);
    assert RandomXInput(challenge, b)[32..] == ToLittleEndian(b, 8);
    NonceRoundTrip(a);
    NonceRoundTrip(b);
  }

  /** The first differing byte decides which of two numbers is larger. */
  lemma {:induction false} FirstDifference(a: seq<byte>, b: seq<byte>, i: nat)
    requires |a| == |b| && i < |a| && a[..i] == b[..i] && a[i] < b[i]
    ensures BigEndian(a) < BigEndian(b)
    decreases |a|
  {
    var n := |a| - 1;
    assert a == a[..n] + [a[n]] && b == b[..n] + [b[n]];
    if i < n {
      assert a[..n][..i] == a[..i] && b[..n][..i] == b[..i];
      FirstDifference(a[..n], b[..n], i);
    }
  }

  method AtOrBelow(hash: array<byte>, target: array<byte>) returns (below: bool)
    requires hash.Length == 32 && target.Length == 32
    ensures below <==> BigEndian(hash[..]) <= BigEndian(target[..])
  {
    for index := 0 to 32
      invariant hash[..index] == target[..index]
    {
      if hash[index] < target[index] {
        FirstDifference(hash[..], target[..], index);
        return true;
      }
      if hash[index] > target[index] {
        FirstDifference(target[..], hash[..], index);
        return false;
      }
    }
    assert hash[..] == hash[..32] && target[..] == target[..32];
    return true;
  }

  method WriteNonceLittleEndian(input: array<byte>, nonce: uint64)
    requires input.Length == 40
    modifies input
    ensures input[..] == old(input[..32]) + ToLittleEndian(nonce, 8)
  {
    for index := 0 to 8
      invariant input[..32] == old(input[..32])
      invariant input[32..32 + index] == ToLittleEndian(nonce, 8)[..index]
    {
      ByteAt(nonce, 8, index);
      input[32 + index] := nonce / Pow2(index * 8) % 256;
    }
    assert input[..] == input[..32] + input[32..];
  }

  /** buildRandomXInput. */
  method BuildRandomXInput(challengeInput: Bytes32, workNonce: uint64) returns (input: array<byte>)
    ensures fresh(input) && input[..] == RandomXInput(challengeInput, workNonce)
  {
    input := new byte[40](_ => 0);
    for index := 0 to 32
      invariant input[..index] == challengeInput[..index]
    {
      input[index] := challengeInput[index];
    }
    WriteNonceLittleEndian(input, workNonce);
  }

  lemma {:induction false} PrependByte(d: byte, s: seq<byte>)
    ensures BigEndian([d] + s) == d * Pow2(8 * |s|) + BigEndian(s)
  {
    var all := [d] + s;
    if s == [] {
      assert all[..0] == [] && Pow2(0) == 1;
    } else {
      var init := s[..|s| - 1];
      assert all[..|all| - 1] == [d] + init;
      PrependByte(d, init);
      Pow2Of8(|init|);
      assert BigEndian(all) == 256 * (d * Pow2(8 * |init|) + BigEndian(init)) + s[|s| - 1];
      MoveFactor(d, Pow2(8 * |init|));
    }
  }

  lemma MoveFactor(d: nat, p: nat)
    ensures 256 * (d * p) == d * (256 * p)
  {
  }

  /** arcalsTarget: the decimal target as 32 big-endian bytes; refused when zero or too wide. */
  method TargetBytes(value: nat) returns (bytes: Option<array<byte>>)
    ensures bytes.Some? <==> 0 < value < Pow2(256)
    ensures bytes.Some? ==> fresh(bytes.value) && bytes.value.Length == 32 && BigEndian(bytes.value[..]) == value
  {
    hide BigEndian, Pow2, Split;
    if value == 0 || value >= Pow2(256) {
      return None;
    }
    var out := new byte[32](_ => 0);
    var rest := value;
    StartBytes(value, out[32..]);
    for index := 32 downto 0
      invariant Split(value, rest, out[index..])
    {
      ghost var before := out[index + 1..];
      out[index] := rest % 256;
      assert out[index..] == [rest % 256] + before;
      SplitStep(value, rest, before);
      rest := rest / 256;
    }
    assert out[0..] == out[..];
    AllBytes(value, rest, out[..]);
    return Some(out);
  }

  /** The digits written so far, below what is left to write. */
  predicate Split(value: nat, rest: nat, low: seq<byte>) {
    value == rest * Pow2(8 * |low|) + BigEndian(low)
  }

  lemma StartBytes(value: nat, low: seq<byte>)
    requires low == []
    ensures Split(value, value, low)
  {
    assert Pow2(0) == 1;
  }

  lemma SplitStep(value: nat, rest: nat, low: seq<byte>)
    requires Split(value, rest, low)
    ensures Split(value, rest / 256, [rest % 256] + low)
  {
    PrependByte(rest % 256, low);
    Pow2Of8(|low|);
    TakeByte(rest, Pow2(8 * |low|));
  }

  lemma AllBytes(value: nat, rest: nat, low: seq<byte>)
    requires Split(value, rest, low) && |low| == 32 && value < Pow2(256)
    ensures BigEndian(low) == value
  {
    hide Pow2, BigEndian;
    NothingLeft(value, rest, Pow2(256), BigEndian(low));
  }

  lemma TakeByte(n: nat, p: nat)
    ensures n * p == (n / 256) * (256 * p) + (n % 256) * p
  {
    var q, r := n / 256, n % 256;
    assert n == q * 256 + r;
    assert n * p == (q * 256) * p + r * p;
  }

  lemma NothingLeft(value: nat, rest: nat, p: nat, low: nat)
    requires value == rest * p + low && value < p
    ensures value == low
  {
    if rest > 0 {
      AtLeast(p, rest);
    }
  }

  /** The loop that reads a work nonce out of a result view, most significant byte first. */
  method DecodeNonce(view: array<byte>) returns (nonce: nat)
    requires view.Length >= 8
    ensures nonce == LittleEndian(view[..8])
  {
    hide LittleEndian;
    nonce := 0;
    ghost var bytes := view[..8];
    NoBytes(bytes[8..]);
    for index := 8 downto 0
      invariant nonce == LittleEndian(bytes[index..])
    {
      ReadByte(bytes, index);
      nonce := nonce * 256 + view[index];
    }
    assert bytes[0..] == bytes;
  }

  lemma NoBytes(s: seq<byte>)
    requires s == []
    ensures LittleEndian(s) == 0
  {
  }

  lemma ReadByte(s: seq<byte>, i: nat)
    requires i < |s|
    ensures LittleEndian(s[i..]) == s[i] + 256 * LittleEndian(s[i + 1..])
  {
    assert s[i..][1..] == s[i + 1..];
  }
}
