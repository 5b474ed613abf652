/** The native multi-threaded search as a transition system: any interleaving of the threads' atomic steps. */
module NativeSearch {
  import opened Options
  import opened WorkBytes
  import opened WasmSearch

  const SPACE: nat := 0x1_0000_0000_0000_0000

  datatype Job = Job(work: Work, startNonce: uint64, threads: nat, maxHashes: uint64, timed: bool)

  /** What `search` accepts; stride must repeat threads. */
  predicate Accepted(job: Job) {
    1 <= job.threads <= 256 && job.maxHashes > 0
  }

  /** Ordinals that have a nonce and may be hashed. */
  function Limit(job: Job): nat {
    if job.maxHashes <= UINT64_MAX - job.startNonce then job.maxHashes else SPACE - job.startNonce
  }

  /** Where a thread is between two accesses to shared state. */
  datatype Pc =
    | Starting
    | LoopTest(ordinal: nat)
    | CancelTest(ordinal: nat)
    | FoundTest(ordinal: nat)
    | ClockTest(ordinal: nat)
    | RangeTest(ordinal: nat)
    | Computing(ordinal: nat)
    | Counting(ordinal: nat, digest: Bytes32)
    | Comparing(ordinal: nat, digest: Bytes32)
    | Exchanging(ordinal: nat, digest: Bytes32)
    | Publishing(ordinal: nat, digest: Bytes32)
    | Failing
    | Stopping
    | Leaving
    | Finished

  /** Shared variables, thread positions, and as history every nonce each thread has hashed and who won the exchange. */
  datatype State = State(
    pcs: seq<Pc>, found: bool, cancel: bool, error: bool, foundNonce: nat, foundHash: Bytes32, hashes: nat, done: nat,
    tried: seq<seq<nat>>, winner: Option<nat>)

  datatype Event = Move(thread: nat, expired: bool, throws: bool) | CancelJob

  function Initial(job: Job): State {
    State(
      seq(job.threads, _ => Starting), false, false, false, 0, seq(32, _ => 0), 0, 0, seq(job.threads, _ => []), None)
  }

  function Bump(job: Job, ordinal: nat): nat {
    (ordinal + job.threads) % SPACE
  }

  /** Creating a VM, hashing and locking may throw; tests, atomics and comparisons do not. */
  predicate MayThrow(pc: Pc) {
    pc.Starting? || pc.Computing? || pc.Publishing?
  }

  function Goto(s: State, thread: nat, pc: Pc): State
    requires thread < |s.pcs|
  {
    s.(pcs := s.pcs[thread := pc])
  }

  /** The loop condition and the four tests before hashing; they write nothing shared. */
  function AfterTest(job: Job, s: State, t: nat, pc: Pc, expired: bool): Pc {
    match pc
    case Starting => LoopTest(t)
    case LoopTest(o) => if o < job.maxHashes then CancelTest(o) else Leaving
    case CancelTest(o) => if s.cancel then Leaving else FoundTest(o)
    case FoundTest(o) => if s.found then Leaving else ClockTest(o)
    case ClockTest(o) => if job.timed && expired then Leaving else RangeTest(o)
    case RangeTest(o) => if o > UINT64_MAX - job.startNonce then Leaving else Computing(o)
    case _ => pc
  }

  function MoveThread(job: Job, s: State, t: nat, expired: bool): State
    requires t < |s.pcs| == |s.tried|
  {
    match s.pcs[t]
    case Computing(o) =>
      var nonce := job.startNonce + o;
      var digest := if nonce <= UINT64_MAX then HashOf(job.work, nonce) else seq(32, _ => 0);
      Goto(s, t, Counting(o, digest)).(tried := s.tried[t := s.tried[t] + [nonce]])
    case Counting(o, digest) => Goto(s, t, Comparing(o, digest)).(hashes := (s.hashes + 1) % SPACE)
    case Comparing(o, digest) =>
      Goto(s, t, if IsHashAtOrBelowTarget(digest, job.work.target) then Exchanging(o, digest) else LoopTest(Bump(job, o)))
    case Exchanging(o, digest) =>
      if s.found then Goto(s, t, Leaving) else Goto(s, t, Publishing(o, digest)).(found := true, winner := Some(t))
    case Publishing(o, digest) => Goto(s, t, Leaving).(foundNonce := job.startNonce + o, foundHash := digest)
    case Failing => Goto(s, t, Stopping).(error := true)
    case Stopping => Goto(s, t, Leaving).(cancel := true)
    case Leaving => Goto(s, t, Finished).(done := s.done + 1)
    case _ => Goto(s, t, AfterTest(job, s, t, s.pcs[t], expired))
  }

  function Step(job: Job, s: State, event: Event): State {
    match event
    case CancelJob => s.(cancel := true)
    case Move(t, expired, throws) =>
      if t >= |s.pcs| || |s.pcs| != |s.tried| then s
      else if throws && MayThrow(s.pcs[t]) then Goto(s, t, Failing)
      else MoveThread(job, s, t, expired)
  }

  function Run(job: Job, s: State, events: seq<Event>): State
    decreases |events|
  {
    if events == [] then s else Run(job, Step(job, s, events[0]), events[1..])
  }

  datatype Verdict = WorkerFailure | Solution(nonce: nat, hash: Bytes32, count: nat) | Cancelled(count: nat) | Exhausted(count: nat)

  /** The terminal message, decided after every worker thread is done and joined. */
  function Report(s: State): Verdict {
    if s.error then WorkerFailure
    else if s.found then Solution(s.foundNonce, s.foundHash, s.hashes)
    else if s.cancel then Cancelled(s.hashes)
    else Exhausted(s.hashes)
  }

  /** The k-th value of a thread's ordinal variable, wrapping as uint64 does. */
  function Ordinal(job: Job, t: nat, k: nat): nat {
    if k == 0 then t else Bump(job, Ordinal(job, t, k - 1))
  }

  predicate BeforeHash(pc: Pc) {
    pc.LoopTest? || pc.CancelTest? || pc.FoundTest? || pc.ClockTest? || pc.RangeTest? || pc.Computing?
  }

  predicate AfterHash(pc: Pc) {
    pc.Counting? || pc.Comparing? || pc.Exchanging? || pc.Publishing?
  }

  /** The nonces a thread has hashed are its own ordinals in order, all within the limit. */
  ghost predicate HistoryOk(job: Job, t: nat, tried: seq<nat>) {
    forall k :: 0 <= k < |tried| ==> tried[k] == job.startNonce + Ordinal(job, t, k) && Ordinal(job, t, k) < Limit(job)
  }

  ghost predicate Misses(job: Job, tried: seq<nat>, n: nat) {
    forall k :: 0 <= k < n && k < |tried| ==> !Wins(job.work, tried[k])
  }

  /** Without found, cancel or a clock, a thread leaves only when its ordinal is out of range, having missed throughout. */
  ghost predicate LeftOk(job: Job, s: State, t: nat) {
    t < |s.tried| && (!s.found && !s.cancel && !s.error && !job.timed ==>
      Ordinal(job, t, |s.tried[t]|) >= Limit(job) && Misses(job, s.tried[t], |s.tried[t]|))
  }

  ghost predicate PcOk(job: Job, s: State, t: nat, pc: Pc) {
    && t < |s.tried|
    && var tried := s.tried[t];
      && (pc.Starting? ==> tried == [])
      && (BeforeHash(pc) ==> pc.ordinal == Ordinal(job, t, |tried|) && Misses(job, tried, |tried|))
      && (BeforeHash(pc) && !pc.LoopTest? ==> pc.ordinal < job.maxHashes)
      && (pc.Computing? ==> pc.ordinal < Limit(job))
      && (AfterHash(pc) ==>
            && tried != [] && pc.ordinal == Ordinal(job, t, |tried| - 1) && pc.ordinal < Limit(job)
            && Misses(job, tried, |tried| - 1)
            && tried[|tried| - 1] == job.startNonce + pc.ordinal <= UINT64_MAX
            && pc.digest == HashOf(job.work, job.startNonce + pc.ordinal))
      && (pc.Exchanging? || pc.Publishing? ==> Wins(job.work, job.startNonce + pc.ordinal))
      && (pc.Publishing? ==> s.winner == Some(t))
      && (pc.Stopping? ==> s.error)
      && (pc.Leaving? || pc.Finished? ==> LeftOk(job, s, t))
  }

  ghost predicate ThreadOk(job: Job, s: State, t: nat) {
    t < |s.pcs| && t < |s.tried| && HistoryOk(job, t, s.tried[t]) && PcOk(job, s, t, s.pcs[t])
  }

  /** foundNonce and foundHash are one thread's own pair. */
  ghost predicate Published(job: Job, s: State, w: nat) {
    && w < |s.tried| && s.foundNonce in s.tried[w]
    && Wins(job.work, s.foundNonce) && s.foundHash == HashOf(job.work, s.foundNonce)
  }

  ghost predicate WinnerOk(job: Job, s: State) {
    && (s.found <==> s.winner.Some?)
    && (s.winner.Some? ==>
          && s.winner.value < |s.pcs|
          && (s.error || s.pcs[s.winner.value].Publishing? || s.pcs[s.winner.value].Failing? || Published(job, s, s.winner.value)))
  }

  function Finishes(pcs: seq<Pc>): nat {
    if pcs == [] then 0 else (if pcs[0].Finished? then 1 else 0) + Finishes(pcs[1..])
  }

  /** Hashes this thread has added to the shared counter. */
  function Counted(pc: Pc, tried: seq<nat>): nat {
    if pc.Counting? && tried != [] then |tried| - 1 else |tried|
  }

  function CountedByAll(pcs: seq<Pc>, tried: seq<seq<nat>>): nat
    requires |pcs| == |tried|
  {
    if pcs == [] then 0 else Counted(pcs[0], tried[0]) + CountedByAll(pcs[1..], tried[1..])
  }

  ghost predicate Inv(job: Job, s: State) {
    && Accepted(job)
    && |s.pcs| == |s.tried| == job.threads
    && (forall t :: 0 <= t < job.threads ==> ThreadOk(job, s, t))
    && WinnerOk(job, s)
    && s.done == Finishes(s.pcs)
    && s.hashes == CountedByAll(s.pcs, s.tried) % SPACE
  }

  lemma {:induction false} FinishesUpdate(pcs: seq<Pc>, t: nat, pc: Pc)
    requires t < |pcs|
    ensures Finishes(pcs[t := pc]) + (if pcs[t].Finished? then 1 else 0) == Finishes(pcs) + (if pc.Finished? then 1 else 0)
  {
    if t > 0 {
      assert pcs[t := pc][1..] == pcs[1..][t - 1 := pc];
      FinishesUpdate(pcs[1..], t - 1, pc);
    } else {
      assert pcs[0 := pc][1..] == pcs[1..];
    }
  }

  lemma {:induction false} CountedUpdate(pcs: seq<Pc>, tried: seq<seq<nat>>, t: nat, pc: Pc, list: seq<nat>)
    requires t < |pcs| == |tried|
    ensures CountedByAll(pcs[t := pc], tried[t := list]) + Counted(pcs[t], tried[t])
      == CountedByAll(pcs, tried) + Counted(pc, list)
  {
    if t > 0 {
      assert pcs[t := pc][1..] == pcs[1..][t - 1 := pc] && tried[t := list][1..] == tried[1..][t - 1 := list];
      CountedUpdate(pcs[1..], tried[1..], t - 1, pc, list);
    } else {
      assert pcs[0 := pc][1..] == pcs[1..] && tried[0 := list][1..] == tried[1..];
    }
  }

  /** Shared flags only ever rise, so threads that did not move keep their facts. */
  lemma OthersKeep(job: Job, s: State, after: State, t: nat, u: nat)
    requires Inv(job, s) && t < job.threads && u < job.threads && u != t
    requires |after.pcs| == |after.tried| == job.threads && after.pcs[u] == s.pcs[u] && after.tried[u] == s.tried[u]
    requires (s.found ==> after.found) && (s.cancel ==> after.cancel) && (s.error ==> after.error)
    requires s.winner.Some? ==> after.winner == s.winner
    ensures ThreadOk(job, after, u)
  {
    hide HistoryOk, Misses, Wins, HashOf, Limit, Finishes, CountedByAll, Ordinal, WinnerOk;
    assert ThreadOk(job, s, u);
  }

  lemma LimitIs(job: Job, o: nat)
    ensures o >= job.maxHashes || o > UINT64_MAX - job.startNonce <==> o >= Limit(job)
  {
  }

  /** A thread about to hash: every test that lets it on, or out. */
  lemma TestKeeps(job: Job, s: State, t: nat, expired: bool)
    requires Inv(job, s) && t < job.threads
    requires s.pcs[t].Starting? || (BeforeHash(s.pcs[t]) && !s.pcs[t].Computing?)
    ensures ThreadOk(job, MoveThread(job, s, t, expired), t)
  {
    hide HistoryOk, Misses, Wins, HashOf, Limit, WinnerOk;
    assert ThreadOk(job, s, t);
    if !s.pcs[t].Starting? {
      LimitIs(job, s.pcs[t].ordinal);
    } else {
      assert Misses(job, s.tried[t], 0) by {
        NothingMissed(job, s.tried[t]);
      }
    }
  }

  lemma NothingMissed(job: Job, tried: seq<nat>)
    ensures Misses(job, tried, 0)
  {
  }

  /** Hashing one more nonce extends the thread's history by the next ordinal. */
  lemma HashKeeps(job: Job, s: State, t: nat, expired: bool)
    requires Inv(job, s) && t < job.threads && s.pcs[t].Computing?
    ensures ThreadOk(job, MoveThread(job, s, t, expired), t)
  {
    hide Wins, HashOf, WinnerOk, Ordinal;
    assert ThreadOk(job, s, t);
    LimitIs(job, s.pcs[t].ordinal);
  }

  /** A computed hash is compared; a miss goes round the loop, a hit tries to publish. */
  lemma CompareKeeps(job: Job, s: State, t: nat, expired: bool)
    requires Inv(job, s) && t < job.threads && (s.pcs[t].Counting? || s.pcs[t].Comparing?)
    ensures ThreadOk(job, MoveThread(job, s, t, expired), t)
  {
    hide Limit, WinnerOk, HistoryOk, IsHashAtOrBelowTarget, RandomXInput;
    assert ThreadOk(job, s, t);
  }

  predicate Ending(pc: Pc) {
    pc.Failing? || pc.Stopping? || pc.Leaving? || pc.Finished?
  }

  lemma PublishKeeps(job: Job, s: State, t: nat, expired: bool)
    requires Inv(job, s) && t < job.threads
    requires s.pcs[t].Exchanging? || s.pcs[t].Publishing?
    ensures ThreadOk(job, MoveThread(job, s, t, expired), t)
  {
    hide Limit, HistoryOk, Misses, Wins, HashOf, Ordinal, CountedByAll, Finishes;
    assert ThreadOk(job, s, t);
  }

  lemma EndingKeeps(job: Job, s: State, t: nat, expired: bool)
    requires Inv(job, s) && t < job.threads && Ending(s.pcs[t])
    ensures ThreadOk(job, MoveThread(job, s, t, expired), t)
  {
    hide Limit, HistoryOk, Misses, Wins, HashOf, Ordinal, CountedByAll, Finishes;
    assert ThreadOk(job, s, t);
  }

  lemma MoveKeepsThread(job: Job, s: State, t: nat, expired: bool)
    requires Inv(job, s) && t < job.threads
    ensures ThreadOk(job, MoveThread(job, s, t, expired), t)
  {
    hide Inv, ThreadOk, MoveThread;
    assert job.threads == |s.pcs| == |s.tried| by {
      Sizes(job, s);
    }
    match s.pcs[t]
    case Computing(_) => HashKeeps(job, s, t, expired);
    case Counting(_, _) => CompareKeeps(job, s, t, expired);
    case Comparing(_, _) => CompareKeeps(job, s, t, expired);
    case Exchanging(_, _) => PublishKeeps(job, s, t, expired);
    case Publishing(_, _) => PublishKeeps(job, s, t, expired);
    case Failing => EndingKeeps(job, s, t, expired);
    case Stopping => EndingKeeps(job, s, t, expired);
    case Leaving => EndingKeeps(job, s, t, expired);
    case Finished => EndingKeeps(job, s, t, expired);
    case _ => TestKeeps(job, s, t, expired);
  }

  lemma Sizes(job: Job, s: State)
    requires Inv(job, s)
    ensures |s.pcs| == |s.tried| == job.threads && Accepted(job)
  {
  }

  /** The winner of the exchange publishes its own nonce and hash, unless it fails first. */
  lemma MoveKeepsWinner(job: Job, s: State, t: nat, expired: bool)
    requires Inv(job, s) && t < job.threads
    ensures WinnerOk(job, MoveThread(job, s, t, expired))
  {
    hide ThreadOk, WinnerOk, MoveThread, Finishes, CountedByAll, Accepted;
    assert ThreadOk(job, s, t);
    if s.pcs[t].Publishing? {
      PublishingKeepsWinner(job, s, t, expired);
    } else {
      OthersKeepWinner(job, s, t, expired);
    }
  }

  lemma PublishingKeepsWinner(job: Job, s: State, t: nat, expired: bool)
    requires |s.pcs| == |s.tried| && ThreadOk(job, s, t) && WinnerOk(job, s) && s.pcs[t].Publishing?
    ensures WinnerOk(job, MoveThread(job, s, t, expired))
  {
    hide Limit, HistoryOk, Misses, Wins, HashOf, IsHashAtOrBelowTarget, Bump, LeftOk, AfterTest;
    var tried := s.tried[t];
    assert tried[|tried| - 1] in tried;
  }

  lemma OthersKeepWinner(job: Job, s: State, t: nat, expired: bool)
    requires |s.pcs| == |s.tried| && t < |s.pcs| && WinnerOk(job, s) && !s.pcs[t].Publishing?
    ensures WinnerOk(job, MoveThread(job, s, t, expired))
  {
    hide Wins, HashOf, IsHashAtOrBelowTarget, Bump, AfterTest;
  }

  /** A move rewrites one thread's position and at most its own history; flags only rise. */
  lemma MoveShape(job: Job, s: State, t: nat, expired: bool)
    requires t < |s.pcs| == |s.tried|
    ensures var after := MoveThread(job, s, t, expired);
      && |after.pcs| == |s.pcs| && |after.tried| == |s.tried|
      && after.pcs == s.pcs[t := after.pcs[t]] && after.tried == s.tried[t := after.tried[t]]
  {
    hide HashOf, IsHashAtOrBelowTarget, Bump, AfterTest;
    if !s.pcs[t].Computing? {
      SameHistory(job, s, t, expired);
      assert s.tried == s.tried[t := s.tried[t]];
    }
  }

  lemma SameHistory(job: Job, s: State, t: nat, expired: bool)
    requires t < |s.pcs| == |s.tried| && !s.pcs[t].Computing?
    ensures MoveThread(job, s, t, expired).tried == s.tried
  {
    hide HashOf, IsHashAtOrBelowTarget, Bump, AfterTest;
  }

  lemma FlagsRise(job: Job, s: State, t: nat, expired: bool)
    requires t < |s.pcs| == |s.tried|
    requires s.found <==> s.winner.Some?
    ensures var after := MoveThread(job, s, t, expired);
      && (s.found ==> after.found) && (s.cancel ==> after.cancel) && (s.error ==> after.error)
      && (s.winner.Some? ==> after.winner == s.winner)
  {
    hide HashOf, IsHashAtOrBelowTarget, Bump, AfterTest;
  }

  /** Only finishing raises done. */
  lemma DoneCounts(job: Job, s: State, t: nat, expired: bool)
    requires t < |s.pcs| == |s.tried|
    ensures var after := MoveThread(job, s, t, expired);
      |after.pcs| == |s.pcs|
      && after.done + (if s.pcs[t].Finished? then 1 else 0) == s.done + (if after.pcs[t].Finished? then 1 else 0)
  {
    hide HashOf, IsHashAtOrBelowTarget, Bump, AfterTest;
    TestStays(job, s, t, s.pcs[t], expired);
  }

  /** Tests neither finish a thread nor count a hash. */
  lemma TestStays(job: Job, s: State, t: nat, pc: Pc, expired: bool)
    ensures AfterTest(job, s, t, pc, expired).Finished? <==> pc.Finished?
    ensures AfterTest(job, s, t, pc, expired).Counting? <==> pc.Counting?
  {
  }

  /** Only counting raises hashes: hashing itself leaves the thread with one hash still to count. */
  lemma HashesCount(job: Job, s: State, t: nat, expired: bool)
    requires t < |s.pcs| == |s.tried|
    requires s.pcs[t].Counting? ==> s.tried[t] != []
    ensures var after := MoveThread(job, s, t, expired);
      && |after.pcs| == |s.pcs| && |after.tried| == |s.tried|
      && after.hashes == (if s.pcs[t].Counting? then (s.hashes + 1) % SPACE else s.hashes)
      && Counted(after.pcs[t], after.tried[t]) == Counted(s.pcs[t], s.tried[t]) + (if s.pcs[t].Counting? then 1 else 0)
  {
    hide HashOf, IsHashAtOrBelowTarget, Bump, Counted, AfterTest;
    TestStays(job, s, t, s.pcs[t], expired);
    if s.pcs[t].Computing? || s.pcs[t].Counting? {
      HashAdds(s.pcs[t], MoveThread(job, s, t, expired).pcs[t], s.tried[t], MoveThread(job, s, t, expired).tried[t]);
    } else {
      SameCount(s.pcs[t], MoveThread(job, s, t, expired).pcs[t], s.tried[t]);
    }
  }

  lemma HashAdds(pc: Pc, next: Pc, tried: seq<nat>, later: seq<nat>)
    requires (pc.Computing? && next.Counting? && |later| == |tried| + 1)
      || (pc.Counting? && !next.Counting? && tried == later && tried != [])
    ensures Counted(next, later) == Counted(pc, tried) + (if pc.Counting? then 1 else 0)
  {
  }

  lemma SameCount(pc: Pc, next: Pc, tried: seq<nat>)
    requires !pc.Counting? && !next.Counting?
    ensures Counted(next, tried) == Counted(pc, tried)
  {
  }

  lemma MoveKeepsCounts(job: Job, s: State, t: nat, expired: bool)
    requires Inv(job, s) && t < job.threads
    ensures var after := MoveThread(job, s, t, expired);
      && |after.pcs| == |after.tried| == job.threads
      && after.done == Finishes(after.pcs) && after.hashes == CountedByAll(after.pcs, after.tried) % SPACE
  {
    hide HistoryOk, Misses, WinnerOk, LeftOk, CountedByAll, Finishes, Counted, MoveThread;
    assert ThreadOk(job, s, t);
    var after := MoveThread(job, s, t, expired);
    MoveShape(job, s, t, expired);
    DoneCounts(job, s, t, expired);
    HashesCount(job, s, t, expired);
    FinishesUpdate(s.pcs, t, after.pcs[t]);
    CountedUpdate(s.pcs, s.tried, t, after.pcs[t], after.tried[t]);
  }

  lemma MoveKeepsInv(job: Job, s: State, t: nat, expired: bool)
    requires Inv(job, s) && t < job.threads
    ensures Inv(job, MoveThread(job, s, t, expired))
  {
    hide ThreadOk, MoveThread, Finishes, CountedByAll;
    var after := MoveThread(job, s, t, expired);
    MoveShape(job, s, t, expired);
    FlagsRise(job, s, t, expired);
    MoveKeepsThread(job, s, t, expired);
    MoveKeepsWinner(job, s, t, expired);
    MoveKeepsCounts(job, s, t, expired);
    forall u | 0 <= u < job.threads ensures ThreadOk(job, after, u) {
      if u != t {
        OthersKeep(job, s, after, t, u);
      }
    }
  }

  lemma ThrowKeepsInv(job: Job, s: State, t: nat)
    requires Inv(job, s) && t < job.threads && MayThrow(s.pcs[t])
    ensures Inv(job, Goto(s, t, Failing))
  {
    hide Limit, HistoryOk, Misses, Wins, HashOf, Ordinal, Finishes, CountedByAll;
    var after := Goto(s, t, Failing);
    assert ThreadOk(job, s, t);
    FinishesUpdate(s.pcs, t, Failing);
    CountedUpdate(s.pcs, s.tried, t, Failing, s.tried[t]);
    assert after.tried == s.tried[t := s.tried[t]];
    forall u | 0 <= u < job.threads ensures ThreadOk(job, after, u) {
      if u != t {
        OthersKeep(job, s, after, t, u);
      }
    }
  }
}
