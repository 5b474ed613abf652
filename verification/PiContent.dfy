/** Pi content: 360 decimal digits packed two to a byte. */
module PiContent {
  import opened Options
  import opened WorkBytes

  const PI_DIGITS_PER_ARCAL: nat := 360
  const PACKED_PI_BYTES: nat := 180

  predicate IsDigit(c: char) {
    '0' <= c <= '9'
  }

  predicate IsPiText(digits: string) {
    |digits| == PI_DIGITS_PER_ARCAL && forall i :: 0 <= i < |digits| ==> IsDigit(digits[i])
  }

  function DigitValue(c: char): (v: nat)
    requires IsDigit(c)
    ensures v <= 9
  {
    c as int - '0' as int
  }

  function DigitChar(v: nat): char
    requires v <= 15
  {
    if v <= 9 then ('0' as int + v) as char else 'x'
  }

  /** validatePackedPiDigits on bytes. */
  predicate IsPackedPi(packed: seq<byte>) {
    |packed| == PACKED_PI_BYTES && forall i :: 0 <= i < |packed| ==> packed[i] / 16 <= 9 && packed[i] % 16 <= 9
  }

  /** What the map and join of unpackPiDigits produce. */
  function Unpacked(packed: seq<byte>): (digits: string)
    ensures |digits| == 2 * |packed|
    ensures forall i :: 0 <= i < |packed| ==>
      digits[2 * i] == DigitChar(packed[i] / 16) && digits[2 * i + 1] == DigitChar(packed[i] % 16)
  {
    if packed == [] then [] else [DigitChar(packed[0] / 16), DigitChar(packed[0] % 16)] + Unpacked(packed[1..])
  }

  function UnpackPiDigits(packed: seq<byte>): Option<string> {
    if IsPackedPi(packed) then Some(Unpacked(packed)) else None
  }

  /** packPiDigits: fills the byte array, or refuses anything but 360 decimal digits. */
  method PackPiDigits(digits: string) returns (packed: Option<seq<byte>>)
    ensures packed.Some? <==> IsPiText(digits)
    ensures packed.Some? ==> IsPackedPi(packed.value) && UnpackPiDigits(packed.value) == Some(digits)
  {
    if |digits| != PI_DIGITS_PER_ARCAL || exists i :: 0 <= i < |digits| && !IsDigit(digits[i]) {
      return None;
    }
    var bytes := new byte[PACKED_PI_BYTES](_ => 0);
    for index := 0 to PACKED_PI_BYTES
      invariant forall i :: 0 <= i < index ==>
        bytes[i] == DigitValue(digits[2 * i]) * 16 + DigitValue(digits[2 * i + 1])
    {
      var high := DigitValue(digits[index * 2]);
      var low := DigitValue(digits[index * 2 + 1]);
      bytes[index] := high * 16 + low;
    }
    PackedReadsBack(bytes[..], digits);
    return Some(bytes[..]);
  }

  lemma PackedReadsBack(packed: seq<byte>, digits: string)
    requires IsPiText(digits) && |packed| == PACKED_PI_BYTES
    requires forall i :: 0 <= i < |packed| ==> packed[i] == DigitValue(digits[2 * i]) * 16 + DigitValue(digits[2 * i + 1])
    ensures IsPackedPi(packed) && Unpacked(packed) == digits
  {
    hide DigitValue, DigitChar;
    forall i | 0 <= i < |packed|
      ensures packed[i] / 16 <= 9 && packed[i] % 16 <= 9
      ensures Unpacked(packed)[2 * i] == digits[2 * i] && Unpacked(packed)[2 * i + 1] == digits[2 * i + 1]
    {
      OneByte(packed[i], digits[2 * i], digits[2 * i + 1]);
    }
    SameByPairs(Unpacked(packed), digits);
  }

  lemma OneByte(b: byte, high: char, low: char)
    requires IsDigit(high) && IsDigit(low) && b == DigitValue(high) * 16 + DigitValue(low)
    ensures b / 16 <= 9 && b % 16 <= 9 && DigitChar(b / 16) == high && DigitChar(b % 16) == low
  {
    Nibbles(DigitValue(high), DigitValue(low));
  }

  lemma Nibbles(high: nat, low: nat)
    requires low < 16
    ensures (high * 16 + low) / 16 == high && (high * 16 + low) % 16 == low
  {
  }

  lemma SameByPairs(a: string, b: string)
    requires |a| == |b| && |a| % 2 == 0
    requires forall i :: 0 <= i < |a| / 2 ==> a[2 * i] == b[2 * i] && a[2 * i + 1] == b[2 * i + 1]
    ensures a == b
  {
    forall k | 0 <= k < |a| ensures a[k] == b[k] {
      var i := k / 2;
      assert a[2 * i] == b[2 * i] && a[2 * i + 1] == b[2 * i + 1];
    }
  }

  lemma DigitsAreInjective(v: nat, w: nat)
    requires v <= 9 && w <= 9 && DigitChar(v) == DigitChar(w)
    ensures v == w
  {
  }

  /** Unpacked text is Pi text, and only one packing unpacks to it: packing it again gives back the same bytes. */
  lemma UnpackingIsInjective(packed: seq<byte>, other: seq<byte>)
    requires IsPackedPi(packed) && IsPackedPi(other) && Unpacked(packed) == Unpacked(other)
    ensures IsPiText(Unpacked(packed)) && packed == other
  {
    forall k | 0 <= k < |Unpacked(packed)| ensures IsDigit(Unpacked(packed)[k]) {
      var i := k / 2;
      assert Unpacked(packed)[2 * i] == DigitChar(packed[i] / 16) && Unpacked(packed)[2 * i + 1] == DigitChar(packed[i] % 16);
    }
    forall i | 0 <= i < |packed| ensures packed[i] == other[i] {
      assert Unpacked(packed)[2 * i] == Unpacked(other)[2 * i] && Unpacked(packed)[2 * i + 1] == Unpacked(other)[2 * i + 1];
      DigitsAreInjective(packed[i] / 16, other[i] / 16);
      DigitsAreInjective(packed[i] % 16, other[i] % 16);
    }
  }
}
