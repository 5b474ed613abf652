/** What the terminal message of a native search means, under every interleaving of its threads. */
module NativeCoverage {
  import opened WorkBytes
  import opened WasmSearch
  import opened NativeSearch

  lemma {:induction false} NothingCounted(pcs: seq<Pc>, tried: seq<seq<nat>>)
    requires |pcs| == |tried|
    requires forall i :: 0 <= i < |pcs| ==> pcs[i] == Starting && tried[i] == []
    ensures Finishes(pcs) == 0 && CountedByAll(pcs, tried) == 0
  {
    if pcs != [] {
      NothingCounted(pcs[1..], tried[1..]);
    }
  }

  lemma InitialInv(job: Job)
    requires Accepted(job)
    ensures Inv(job, Initial(job))
  {
    NothingCounted(Initial(job).pcs, Initial(job).tried);
  }

  lemma StepKeepsInv(job: Job, s: State, event: Event)
    requires Inv(job, s)
    ensures Inv(job, Step(job, s, event))
  {
    hide MoveThread, HistoryOk, Misses, Wins, Finishes, CountedByAll;
    match event
    case CancelJob =>
      var after := Step(job, s, event);
      forall t | 0 <= t < job.threads ensures ThreadOk(job, after, t) {
        assert ThreadOk(job, s, t);
      }
    case Move(t, expired, throws) =>
      if t < |s.pcs| {
        if throws && MayThrow(s.pcs[t]) {
          ThrowKeepsInv(job, s, t);
        } else {
          MoveKeepsInv(job, s, t, expired);
        }
      }
  }

  lemma {:induction false} RunKeepsInv(job: Job, s: State, events: seq<Event>)
    requires Inv(job, s)
    ensures Inv(job, Run(job, s, events))
    decreases |events|
  {
    if events != [] {
      StepKeepsInv(job, s, events[0]);
      RunKeepsInv(job, Step(job, s, events[0]), events[1..]);
    }
  }

  lemma {:induction false} RunAppend(job: Job, s: State, first: seq<Event>, rest: seq<Event>)
    ensures Run(job, s, first + rest) == Run(job, Run(job, s, first), rest)
    decreases |first|
  {
    if first == [] {
      assert first + rest == rest;
    } else {
      assert (first + rest)[0] == first[0] && (first + rest)[1..] == first[1..] + rest;
      RunAppend(job, Step(job, s, first[0]), first[1..], rest);
    }
  }

  /** Reached by the threads of an accepted job in some interleaving, with every worker thread done. */
  ghost predicate Ended(job: Job, s: State) {
    && Accepted(job)
    && (exists events :: s == Run(job, Initial(job), events))
    && s.done == job.threads
  }

  lemma EndedInv(job: Job, s: State)
    requires Ended(job, s)
    ensures Inv(job, s)
    ensures forall t :: 0 <= t < job.threads ==> s.pcs[t].Finished?
  {
    var events :| s == Run(job, Initial(job), events);
    InitialInv(job);
    RunKeepsInv(job, Initial(job), events);
    AllFinished(s.pcs);
  }

  lemma {:induction false} AllFinished(pcs: seq<Pc>)
    ensures Finishes(pcs) <= |pcs|
    ensures Finishes(pcs) == |pcs| ==> forall t :: 0 <= t < |pcs| ==> pcs[t].Finished?
  {
    if pcs != [] {
      AllFinished(pcs[1..]);
      if Finishes(pcs) == |pcs| {
        forall t | 0 <= t < |pcs| ensures pcs[t].Finished? {
          if t > 0 {
            assert pcs[t] == pcs[1..][t - 1];
          }
        }
      }
    }
  }

  /** Main result: a reported solution is one thread's own nonce with its own hash, at or below target and in range. */
  lemma SolutionIsSound(job: Job, s: State) returns (w: nat)
    requires Ended(job, s) && Report(s).Solution?
    ensures w < job.threads && w < |s.tried| && Report(s).nonce in s.tried[w]
    ensures job.startNonce <= Report(s).nonce < job.startNonce + Limit(job)
    ensures Report(s).nonce <= UINT64_MAX
    ensures Report(s).hash == job.work.randomX(RandomXInput(job.work.challenge, Report(s).nonce))
    ensures BigEndian(Report(s).hash) <= job.work.target
  {
    hide HistoryOk, Misses, LeftOk, Ordinal, CountedByAll, Finishes, BigEndian, Limit;
    EndedInv(job, s);
    w := s.winner.value;
    assert ThreadOk(job, s, w);
    InRange(job, s.tried[w], w, s.foundNonce);
  }

  lemma InRange(job: Job, tried: seq<nat>, t: nat, nonce: nat)
    requires HistoryOk(job, t, tried) && nonce in tried
    ensures job.startNonce <= nonce < job.startNonce + Limit(job)
  {
    hide Ordinal, Limit;
  }

  /** Attempt number k of thread t, counting as if its ordinal never wrapped. */
  function Straight(job: Job, t: nat, k: nat): nat {
    t + k * job.threads
  }

  lemma {:induction false} OrdinalIsStraight(job: Job, t: nat, k: nat)
    requires t < SPACE && (k > 0 ==> Straight(job, t, k) < SPACE)
    ensures Ordinal(job, t, k) == Straight(job, t, k)
  {
    if k > 0 {
      StraightStep(job, t, k - 1);
      OrdinalIsStraight(job, t, k - 1);
    }
  }

  lemma StraightStep(job: Job, t: nat, k: nat)
    ensures Straight(job, t, k + 1) == Straight(job, t, k) + job.threads
    ensures Straight(job, t, 0) == t
  {
  }

  lemma StraightGrows(job: Job, t: nat, j: nat, k: nat)
    requires j <= k
    ensures Straight(job, t, j) <= Straight(job, t, k)
  {
    assert j * job.threads <= k * job.threads;
  }

  /** An exhausted search without a clock: every thread ran off the end of its range and missed throughout. */
  lemma ExhaustedThread(job: Job, s: State, t: nat)
    requires Ended(job, s) && Report(s).Exhausted? && !job.timed && t < job.threads
    ensures t < |s.tried|
    ensures Ordinal(job, t, |s.tried[t]|) >= Limit(job)
    ensures HistoryOk(job, t, s.tried[t]) && Misses(job, s.tried[t], |s.tried[t]|)
  {
    hide HistoryOk, Misses, Ordinal, Limit;
    EndedInv(job, s);
    assert ThreadOk(job, s, t);
  }

  /** Every attempt below the limit was made. */
  lemma AttemptMade(job: Job, s: State, t: nat, k: nat)
    requires Ended(job, s) && Report(s).Exhausted? && !job.timed && t < job.threads
    requires Straight(job, t, k) < Limit(job)
    ensures t < |s.tried| && k < |s.tried[t]| && s.tried[t][k] == job.startNonce + Straight(job, t, k)
  {
    hide Straight, Misses, Ordinal;
    ExhaustedThread(job, s, t);
    var n := |s.tried[t]|;
    StraightStep(job, t, 0);
    OrdinalIsStraight(job, t, k);
    if n <= k {
      StraightGrows(job, t, n, k);
      OrdinalIsStraight(job, t, n);
    }
  }

  lemma WhichThread(job: Job, o: nat)
    requires job.threads > 0
    ensures o % job.threads < job.threads && Straight(job, o % job.threads, o / job.threads) == o
  {
  }

  /** Main result: `exhausted` without a time limit means no nonce in range is a solution, and each was hashed. */
  lemma ExhaustedMeansNone(job: Job, s: State, o: nat)
    requires Ended(job, s) && Report(s).Exhausted? && !job.timed && o < Limit(job)
    ensures !Wins(job.work, job.startNonce + o)
    ensures var t := o % job.threads; t < |s.tried| && job.startNonce + o in s.tried[t]
  {
    hide Straight, Ordinal, Wins, HistoryOk, Ended, Report, Limit;
    EndedSizes(job, s);
    WhichThread(job, o);
    AttemptMade(job, s, o % job.threads, o / job.threads);
    ExhaustedThread(job, s, o % job.threads);
  }

  /** No nonce was hashed twice, by one thread or by two. */
  ghost predicate EachOnce(s: State) {
    forall t, i, u, j ::
      0 <= t < |s.tried| && 0 <= i < |s.tried[t]| && 0 <= u < |s.tried| && 0 <= j < |s.tried[u]| && s.tried[t][i] == s.tried[u][j]
      ==> t == u && i == j
  }

  /** maxHashes, cut to the nonces left, plus the thread count fits uint64: no ordinal wraps. */
  predicate NoWrap(job: Job) {
    Limit(job) + job.threads <= SPACE
  }

  lemma {:induction false} NoWrapOrdinal(job: Job, t: nat, tried: seq<nat>, k: nat)
    requires Accepted(job) && NoWrap(job) && t < job.threads && HistoryOk(job, t, tried) && k <= |tried|
    ensures Ordinal(job, t, k) == Straight(job, t, k)
    ensures Straight(job, t, k) < SPACE
  {
    hide Limit, Straight, Wins;
    StraightStep(job, t, 0);
    if k > 0 {
      NoWrapOrdinal(job, t, tried, k - 1);
      StraightStep(job, t, k - 1);
      assert Ordinal(job, t, k - 1) < Limit(job);
    }
  }

  lemma SplitIsUnique(job: Job, t: nat, i: nat, u: nat, j: nat)
    requires t < job.threads && u < job.threads && Straight(job, t, i) == Straight(job, u, j)
    ensures t == u && i == j
  {
    Quotient(Straight(job, t, i), job.threads, i, t);
    Quotient(Straight(job, u, j), job.threads, j, u);
  }

  lemma NoWrapEachOnce(job: Job, s: State)
    requires Ended(job, s) && NoWrap(job)
    ensures EachOnce(s)
  {
    hide Straight, Ordinal, NoWrap, Misses, LeftOk, WinnerOk, Limit, Wins;
    EndedInv(job, s);
    forall t, i, u, j | 0 <= t < |s.tried| && 0 <= i < |s.tried[t]| && 0 <= u < |s.tried| && 0 <= j < |s.tried[u]|
      && s.tried[t][i] == s.tried[u][j]
      ensures t == u && i == j
    {
      assert ThreadOk(job, s, t) && ThreadOk(job, s, u);
      NoWrapOrdinal(job, t, s.tried[t], i);
      NoWrapOrdinal(job, u, s.tried[u], j);
      SplitIsUnique(job, t, i, u, j);
    }
  }

  /** When an ordinal wraps, the thread that owns the last nonce starts over on a nonce hashed at the very beginning. */
  lemma WrapRepeats(job: Job, s: State)
    requires Ended(job, s) && Report(s).Exhausted? && !job.timed && !NoWrap(job)
    ensures !EachOnce(s)
  {
    hide Straight, Misses, HistoryOk, Wins, Ended, Report, Limit, Ordinal, NoWrap, Bump;
    EndedSizes(job, s);
    var last, again := WrapTarget(job);
    var t, k := last % job.threads, last / job.threads;
    WhichThread(job, last);
    AttemptMade(job, s, t, k);
    OrdinalIsStraight(job, t, k);
    OrdinalStep(job, t, k);
    ExhaustedThread(job, s, t);
    StraightStep(job, again, 0);
    AttemptMade(job, s, again, 0);
    NextTried(job, s.tried[t], t, k + 1);
    assert s.tried[t][k + 1] == s.tried[again][0];
  }

  /** The last ordinal in range, and the small one that follows it after the wrap. */
  lemma WrapTarget(job: Job) returns (last: nat, again: nat)
    requires Accepted(job) && !NoWrap(job)
    ensures last < Limit(job) && last < SPACE && Bump(job, last) == again
    ensures again < job.threads && again < Limit(job)
  {
    last := Limit(job) - 1;
    again := last + job.threads - SPACE;
  }

  lemma OrdinalStep(job: Job, t: nat, k: nat)
    ensures Ordinal(job, t, k + 1) == Bump(job, Ordinal(job, t, k))
  {
  }

  lemma EndedSizes(job: Job, s: State)
    requires Ended(job, s)
    ensures |s.tried| == job.threads && 1 <= job.threads <= 256 && job.maxHashes > 0
  {
    EndedInv(job, s);
  }

  lemma NextTried(job: Job, tried: seq<nat>, t: nat, k: nat)
    requires HistoryOk(job, t, tried) && k <= |tried|
    requires Ordinal(job, t, |tried|) >= Limit(job) && Ordinal(job, t, k) < Limit(job)
    ensures k < |tried| && tried[k] == job.startNonce + Ordinal(job, t, k)
  {
    hide Ordinal, Limit;
  }

  /** Main result: an exhausted search hashed each nonce exactly once if and only if no ordinal could wrap. */
  lemma ExactlyOnceIff(job: Job, s: State)
    requires Ended(job, s) && Report(s).Exhausted? && !job.timed
    ensures EachOnce(s) <==> Limit(job) + job.threads <= SPACE
  {
    hide EachOnce, Ended, Report, Limit;
    if NoWrap(job) {
      NoWrapEachOnce(job, s);
    } else {
      WrapRepeats(job, s);
    }
  }

  /** How many attempts below the limit belong to thread t. */
  lemma Share(job: Job, t: nat, n: nat)
    requires 0 <= t < job.threads
    requires Straight(job, t, n) >= Limit(job) && (n > 0 ==> Straight(job, t, n - 1) < Limit(job))
    ensures n == Limit(job) / job.threads + (if t < Limit(job) % job.threads then 1 else 0)
  {
    hide Limit;
    Recompose(Limit(job), job.threads);
    CeilingShare(job.threads, Limit(job) / job.threads, Limit(job) % job.threads, t, n);
  }

  lemma CeilingShare(d: nat, q: nat, r: nat, t: nat, n: nat)
    requires t < d && r < d
    requires t + n * d >= d * q + r && (n > 0 ==> t + (n - 1) * d < d * q + r)
    ensures n == q + (if t < r then 1 else 0)
  {
    MultiplesApart(d, n, q);
    if n > 0 {
      MultiplesApart(d, q, n - 1);
    }
    LinearShare(d, q, r, t, n, n * d, d * q, if n > 0 then (n - 1) * d else 0);
  }

  lemma MultiplesApart(d: nat, a: nat, b: nat)
    ensures a < b ==> a * d + d <= b * d
    ensures a * d == d * a && b * d == d * b
  {
    if a < b {
      Multiples(d, a + 1, b);
    }
  }

  lemma LinearShare(d: nat, q: nat, r: nat, t: nat, n: nat, nd: nat, qd: nat, pd: nat)
    requires t < d && r < d
    requires t + nd >= qd + r && (n > 0 ==> t + pd < qd + r)
    requires (n < q ==> nd + d <= qd) && (n == q ==> nd == qd) && (n == q + 1 ==> pd == qd) && (n > q + 1 ==> qd + d <= pd)
    ensures n == q + (if t < r then 1 else 0)
  {
  }

  lemma Multiples(d: nat, a: nat, b: nat)
    requires a <= b
    ensures a * d <= b * d
    ensures (a + 1) * d == a * d + d
  {
  }

  /** The shares of the first m threads. */
  lemma {:induction false} ShareSum(job: Job, s: State, m: nat)
    requires Accepted(job) && m <= job.threads == |s.pcs| == |s.tried|
    requires forall t :: 0 <= t < job.threads ==>
      !s.pcs[t].Counting? && |s.tried[t]| == Limit(job) / job.threads + (if t < Limit(job) % job.threads then 1 else 0)
    ensures CountedByAll(s.pcs[job.threads - m..], s.tried[job.threads - m..]) ==
      m * (Limit(job) / job.threads) + (if job.threads - m < Limit(job) % job.threads then Limit(job) % job.threads - (job.threads - m) else 0)
  {
    hide Limit;
    if m > 0 {
      ShareSum(job, s, m - 1);
      var i := job.threads - m;
      assert s.pcs[i..][1..] == s.pcs[i + 1..] && s.tried[i..][1..] == s.tried[i + 1..];
      Multiples(Limit(job) / job.threads, m - 1, m);
    }
  }

  /** Main result: under the same condition the reported count is the number of nonces in range. */
  lemma ExhaustedCount(job: Job, s: State)
    requires Ended(job, s) && Report(s).Exhausted? && !job.timed && NoWrap(job)
    ensures Report(s).count == Limit(job)
  {
    hide Straight, Ordinal, Misses, HistoryOk, Limit, CountedByAll, WinnerOk;
    EndedInv(job, s);
    forall t | 0 <= t < job.threads
      ensures |s.tried[t]| == Limit(job) / job.threads + (if t < Limit(job) % job.threads then 1 else 0)
    {
      ThreadShare(job, s, t);
    }
    ShareSum(job, s, job.threads);
    assert s.pcs[0..] == s.pcs && s.tried[0..] == s.tried;
    Recompose(Limit(job), job.threads);
    SmallRemainder(job, s);
  }

  lemma SmallRemainder(job: Job, s: State)
    requires Accepted(job) && NoWrap(job)
    ensures Limit(job) % SPACE == Limit(job)
  {
  }

  lemma Recompose(n: nat, d: nat)
    requires d > 0
    ensures d * (n / d) + n % d == n
  {
  }

  lemma ThreadShare(job: Job, s: State, t: nat)
    requires Ended(job, s) && Report(s).Exhausted? && !job.timed && NoWrap(job) && t < job.threads
    ensures t < |s.tried| && |s.tried[t]| == Limit(job) / job.threads + (if t < Limit(job) % job.threads then 1 else 0)
  {
    hide Straight, Ordinal, Misses, Limit, NoWrap;
    ExhaustedThread(job, s, t);
    var n := |s.tried[t]|;
    NoWrapOrdinal(job, t, s.tried[t], n);
    if n > 0 {
      NoWrapOrdinal(job, t, s.tried[t], n - 1);
    }
    Share(job, t, n);
  }
}
