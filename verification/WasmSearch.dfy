/** The WebAssembly search entry point and the browser Worker loop around it. */
module WasmSearch {
  import opened Powers
  import opened WorkBytes

  /** The nonces one searcher tries, in order. */
  function NonceAt(start: nat, stride: nat, k: nat): nat {
    start + k * stride
  }

  lemma NextNonce(start: nat, stride: nat, k: nat)
    ensures NonceAt(start, stride, k + 1) == NonceAt(start, stride, k) + stride
    ensures NonceAt(start, stride, 0) == start
    ensures NonceAt(NonceAt(start, stride, k), stride, 0) == NonceAt(start, stride, k)
  {
  }

  datatype Work = Work(randomX: RandomX, challenge: Bytes32, target: nat)

  predicate Wins(work: Work, nonce: nat) {
    nonce <= UINT64_MAX && Solves(work.randomX, work.challenge, work.target, nonce)
  }

  /** The first `tried` nonces exist as uint64 and none of them is a solution. */
  ghost predicate AllMiss(work: Work, start: nat, stride: nat, tried: nat) {
    forall k :: 0 <= k < tried ==> NonceAt(start, stride, k) <= UINT64_MAX && !Wins(work, NonceAt(start, stride, k))
  }

  /** One attempt after `tried` misses found a solution. */
  ghost predicate HitAfter(work: Work, start: nat, stride: nat, tried: nat) {
    AllMiss(work, start, stride, tried) && Wins(work, NonceAt(start, stride, tried))
  }

  function HashOf(work: Work, nonce: uint64): Bytes32 {
    work.randomX(RandomXInput(work.challenge, nonce))
  }

  method CalculateHash(randomX: RandomX, input: array<byte>, hash: array<byte>)
    requires hash.Length == 32 && input != hash
    modifies hash
    ensures hash[..] == randomX(input[..])
  {
    var digest := randomX(input[..]);
    for index := 0 to 32
      invariant hash[..index] == digest[..index]
    {
      hash[index] := digest[index];
    }
    assert hash[..] == hash[..32] && digest == digest[..32];
  }

  /** The little-endian loops that write a nonce or a count into the result buffer. */
  method PutLittleEndian(result: array<byte>, offset: nat, value: nat, width: nat)
    requires offset + width <= result.Length
    modifies result
    ensures result[..] == old(result[..offset]) + ToLittleEndian(value, width) + old(result[offset + width..])
  {
    for index := 0 to width
      invariant result[..offset] == old(result[..offset])
      invariant result[offset..offset + index] == ToLittleEndian(value, width)[..index]
      invariant result[offset + width..] == old(result[offset + width..])
    {
      ByteAt(value, width, index);
      result[offset + index] := value / Pow2(index * 8) % 256;
    }
    assert result[..] == result[..offset] + result[offset..offset + width] + result[offset + width..];
  }

  /** What the 44 result bytes say. */
  function Nonce(result: seq<byte>): nat
    requires |result| == 44
  {
    LittleEndian(result[..8])
  }

  function Tried(result: seq<byte>): nat
    requires |result| == 44
  {
    LittleEndian(result[40..])
  }

  lemma CountRoundTrip(tried: uint32)
    ensures LittleEndian(ToLittleEndian(tried, 4)) == tried
  {
    BytesRoundTrip(tried, 4);
    Pow2Of32();
  }

  lemma Pow2Of32()
    ensures Pow2(32) == 0x1_0000_0000
  {
    hide Pow2;
    SmallPowers();
    Pow2Add(8, 8);
    Pow2Add(16, 16);
  }

  method RecordHit(result: array<byte>, nonce: uint64, hash: array<byte>)
    requires result.Length == 44 && hash.Length == 32 && hash != result
    modifies result
    ensures Nonce(result[..]) == nonce && result[8..40] == hash[..]
  {
    hide LittleEndian;
    PutLittleEndian(result, 0, nonce, 8);
    assert result[..8] == ToLittleEndian(nonce, 8);
    NonceRoundTrip(nonce);
    for index := 0 to 32
      invariant result[..8] == ToLittleEndian(nonce, 8)
      invariant result[8..8 + index] == hash[..index]
    {
      result[8 + index] := hash[index];
    }
  }

  method RecordTried(result: array<byte>, tried: uint32)
    requires result.Length == 44
    modifies result
    ensures result[..40] == old(result[..40]) && Tried(result[..]) == tried
  {
    PutLittleEndian(result, 40, tried, 4);
    assert result[40..] == ToLittleEndian(tried, 4);
    CountRoundTrip(tried);
  }

  /**
   * arx_search: tries up to `count` nonces from startHigh:startLow. On 1 the result holds the first
   * solution, its hash and the number of attempts; on 0 every attempt missed and the search ran out
   * of count or of uint64 nonces.
   */
  method ArxSearch(
    prepared: bool, work: Work, challengeInput: array<byte>, target: array<byte>,
    startLow: uint32, startHigh: uint32, stride: uint32, count: uint32, result: array<byte>)
    returns (status: int)
    requires challengeInput.Length == 32 && target.Length == 32 && result.Length == 44
    requires result != challengeInput && result != target
    requires challengeInput[..] == work.challenge && BigEndian(target[..]) == work.target
    modifies result
    ensures !prepared <==> status == -1
    ensures prepared && stride == 0 <==> status == -2
    ensures prepared && stride > 0 <==> status in {0, 1}
    ensures status < 0 ==> result[..] == old(result[..])
    ensures status == 1 ==>
      var start, tried := startHigh * 0x1_0000_0000 + startLow, Tried(result[..]);
      && 1 <= tried <= count && HitAfter(work, start, stride, tried - 1)
      && Nonce(result[..]) == NonceAt(start, stride, tried - 1)
      && result[8..40] == HashOf(work, NonceAt(start, stride, tried - 1))
    ensures status == 0 ==>
      var start, tried := startHigh * 0x1_0000_0000 + startLow, Tried(result[..]);
      && tried <= count && AllMiss(work, start, stride, tried) && result[..40] == old(result[..40])
      && (tried < count ==> tried > 0 && NonceAt(start, stride, tried) > UINT64_MAX)
  {
    hide BigEndian, LittleEndian, NonceAt;
    if !prepared {
      return -1;
    }
    if stride == 0 {
      return -2;
    }
    var input := new byte[40](_ => 0);
    forall index | 0 <= index < 32 {
      input[index] := challengeInput[index];
    }
    assert input[..32] == challengeInput[..];
    var hash := new byte[32](_ => 0);
    ghost var start := startHigh * 0x1_0000_0000 + startLow;
    var nonce: uint64 := startHigh * 0x1_0000_0000 + startLow;
    var tried: uint32 := 0;
    status := 0;
    var index := 0;
    NextNonce(start, stride, 0);
    while index < count
      invariant 0 <= index <= count && tried == index && status == 0
      invariant input[..32] == work.challenge
      invariant nonce == NonceAt(start, stride, index)
      invariant AllMiss(work, start, stride, index)
      invariant result[..] == old(result[..])
    {
      WriteNonceLittleEndian(input, nonce);
      CalculateHash(work.randomX, input, hash);
      tried := tried + 1;
      var below := AtOrBelow(hash, target);
      assert hash[..] == HashOf(work, nonce) && target[..] == old(target[..]);
      assert below == Wins(work, nonce);
      if below {
        RecordHit(result, nonce, hash);
        assert HitAfter(work, start, stride, tried - 1);
        status := 1;
        break;
      }
      NextNonce(start, stride, index);
      if nonce > UINT64_MAX - stride {
        break;
      }
      nonce := nonce + stride;
      index := index + 1;
    }
    ghost var recorded := result[..];
    RecordTried(result, tried);
    assert result[..][..8] == result[..40][..8] == recorded[..40][..8] == recorded[..8];
    assert result[8..40] == result[..40][8..] == recorded[..40][8..] == recorded[8..40];
  }
}
