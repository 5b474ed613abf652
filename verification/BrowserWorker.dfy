/** The browser Worker's search loop, and what N Workers cover together. */
module BrowserWorker {
  import opened Powers
  import opened WorkBytes
  import opened WasmSearch

  datatype Outcome =
    | InvalidStart
    | ChallengeExpired(tried: nat)
    | Solution(workNonce: nat, hash: Bytes32, tried: nat)
    | SpaceExhausted(tried: nat)
    | EngineFailed

  /** A uint64 nonce handed over as two 32-bit halves is put together again. */
  lemma Halves(nonce: uint64)
    ensures nonce / 0x1_0000_0000 * 0x1_0000_0000 + nonce % 0x1_0000_0000 == nonce
    ensures 0 <= nonce / 0x1_0000_0000 < 0x1_0000_0000
  {
  }

  /**
   * arcalsRun from the parsed START message on: `secondsLeft` is the k-th reading of the clock, `status`
   * what arx_prepare returned. A solution is the first one on this Worker's stride.
   */
  method ArcalsRun(
    randomX: RandomX, challenge: Bytes32, target: nat, startNonce: int, stride: int,
    secondsLeft: nat -> int, status: int) returns (outcome: Outcome)
    ensures outcome.InvalidStart? <==>
      target == 0 || target >= Pow2(256) || startNonce < 0 || startNonce > UINT64_MAX || stride < 1 || stride > 1024
    ensures outcome.Solution? ==>
      var work := Work(randomX, challenge, target);
      && outcome.tried >= 1 && HitAfter(work, startNonce, stride, outcome.tried - 1)
      && outcome.workNonce == NonceAt(startNonce, stride, outcome.tried - 1)
      && outcome.hash == HashOf(work, outcome.workNonce)
    ensures outcome.SpaceExhausted? ==>
      && AllMiss(Work(randomX, challenge, target), startNonce, stride, outcome.tried)
      && NonceAt(startNonce, stride, outcome.tried) > UINT64_MAX
    ensures outcome.ChallengeExpired? ==>
      AllMiss(Work(randomX, challenge, target), startNonce, stride, outcome.tried)
    ensures outcome.EngineFailed? ==> status != 0
  {
    hide BigEndian, LittleEndian, NonceAt, Pow2, HitAfter, Wins;
    var bytes := TargetBytes(target);
    if bytes.None? || startNonce < 0 || startNonce > UINT64_MAX || stride < 1 || stride > 1024 {
      return InvalidStart;
    }
    if secondsLeft(0) <= 1 {
      return ChallengeExpired(0);
    }
    if status != 0 {
      return EngineFailed;
    }
    ghost var work := Work(randomX, challenge, target);
    var bound := bytes.value;
    var challengeInput := new byte[32](i requires 0 <= i < 32 => challenge[i]);
    assert challengeInput[..] == challenge;
    var result := new byte[44](_ => 0);
    var tried := 0;
    var nonce: uint64 := startNonce;
    NextNonce(startNonce, stride, 0);
    while true
      invariant nonce == NonceAt(startNonce, stride, tried) <= UINT64_MAX
      invariant AllMiss(work, startNonce, stride, tried)
      invariant challengeInput[..] == challenge && BigEndian(bound[..]) == target
      decreases UINT64_MAX - nonce
    {
      if secondsLeft(tried + 1) <= 1 {
        return ChallengeExpired(tried);
      }
      Halves(nonce);
      var found := ArxSearch(
        true, Work(randomX, challenge, target), challengeInput, bound,
        nonce % 0x1_0000_0000, nonce / 0x1_0000_0000, stride, 1, result);
      OneAttempt(work, nonce, stride, found, result[..]);
      tried := tried + 1;
      if found == 1 {
        var workNonce := DecodeNonce(result);
        assert result[..][..8] == result[..8];
        AfterMisses(work, startNonce, stride, tried - 1);
        return Solution(workNonce, result[8..40], tried);
      }
      AllMissGrows(work, startNonce, stride, tried - 1);
      NextNonce(startNonce, stride, tried - 1);
      if nonce > UINT64_MAX - stride {
        return SpaceExhausted(tried);
      }
      nonce := nonce + stride;
      assert challengeInput[..] == challenge;
    }
  }

  /** What a batch of one nonce reports. */
  lemma OneAttempt(work: Work, nonce: uint64, stride: nat, found: int, result: seq<byte>)
    requires |result| == 44
    requires found == 1 ==>
      && 1 <= Tried(result) <= 1 && HitAfter(work, nonce, stride, Tried(result) - 1)
      && Nonce(result) == NonceAt(nonce, stride, Tried(result) - 1)
      && result[8..40] == HashOf(work, NonceAt(nonce, stride, Tried(result) - 1))
    requires found == 0 ==>
      && Tried(result) <= 1 && AllMiss(work, nonce, stride, Tried(result)) && (Tried(result) < 1 ==> Tried(result) > 0)
    ensures found == 1 ==> Wins(work, nonce) && Nonce(result) == nonce && result[8..40] == HashOf(work, nonce)
    ensures found == 0 ==> !Wins(work, nonce)
  {
    hide Tried, Nonce, Wins, HashOf;
    assert NonceAt(nonce, stride, 0) == nonce;
  }

  lemma AllMissGrows(work: Work, start: nat, stride: nat, tried: nat)
    requires AllMiss(work, start, stride, tried)
    requires NonceAt(start, stride, tried) <= UINT64_MAX && !Wins(work, NonceAt(start, stride, tried))
    ensures AllMiss(work, start, stride, tried + 1)
  {
    hide NonceAt, Wins;
  }

  lemma AfterMisses(work: Work, start: nat, stride: nat, tried: nat)
    requires AllMiss(work, start, stride, tried) && Wins(work, NonceAt(start, stride, tried))
    ensures HitAfter(work, start, stride, tried)
  {
  }

  /** Worker i with stride N tries nonce n, as its attempt n / N, exactly when i is n % N. */
  lemma TriedByOneWorker(workers: nat, n: nat, i: nat, k: nat)
    requires i < workers
    ensures NonceAt(n % workers, workers, n / workers) == n
    ensures NonceAt(i, workers, k) == n <==> i == n % workers && k == n / workers
  {
    if NonceAt(i, workers, k) == n {
      assert n == workers * k + i;
      Quotient(n, workers, k, i);
    }
  }

  /** After k attempts of every Worker exactly the nonces below k * N have been tried. */
  lemma RoundsAreAPrefix(workers: nat, rounds: nat, n: nat)
    requires workers > 0
    ensures n < workers * rounds <==> n / workers < rounds
  {
    assert n == workers * (n / workers) + n % workers;
    if n / workers < rounds {
      assert workers * (n / workers + 1) <= workers * rounds;
    } else {
      assert workers * rounds <= workers * (n / workers);
    }
  }

  /** If every one of N Workers has missed in its first k attempts, no nonce below k * N is a solution. */
  lemma RoundsCover(work: Work, workers: nat, rounds: nat)
    requires workers > 0
    requires forall i :: 0 <= i < workers ==> AllMiss(work, i, workers, rounds)
    ensures forall n: nat :: n < workers * rounds ==> !Wins(work, n)
  {
    hide NonceAt, Wins;
    forall n: nat | n < workers * rounds ensures !Wins(work, n) {
      RoundsAreAPrefix(workers, rounds, n);
      TriedByOneWorker(workers, n, n % workers, n / workers);
      assert AllMiss(work, n % workers, workers, rounds);
    }
  }

  /** If N Workers have all exhausted the nonce space, no uint64 is a solution: the strides cover all of it. */
  lemma ExhaustedMeansNone(work: Work, workers: nat, tried: seq<nat>)
    requires |tried| == workers > 0
    requires forall i :: 0 <= i < workers ==>
      AllMiss(work, i, workers, tried[i]) && NonceAt(i, workers, tried[i]) > UINT64_MAX
    ensures forall n: nat :: !Wins(work, n)
  {
    hide NonceAt, Wins;
    forall n: nat ensures !Wins(work, n) {
      if n <= UINT64_MAX {
        var i := n % workers;
        TriedByOneWorker(workers, n, i, n / workers);
        assert AllMiss(work, i, workers, tried[i]) && NonceAt(i, workers, tried[i]) > UINT64_MAX;
        if tried[i] <= n / workers {
          LaterIsLarger(i, workers, tried[i], n / workers);
        }
      } else {
        TooLarge(work, n);
      }
    }
  }

  lemma LaterIsLarger(start: nat, stride: nat, earlier: nat, later: nat)
    requires earlier <= later
    ensures NonceAt(start, stride, earlier) <= NonceAt(start, stride, later)
  {
    assert earlier * stride <= later * stride;
  }

  lemma TooLarge(work: Work, n: nat)
    requires n > UINT64_MAX
    ensures !Wins(work, n)
  {
  }
}
