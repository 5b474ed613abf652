/** A native search comes to its terminal message: every thread leaves after a bounded number of its own moves. */
module NativeProgress {
  import opened WasmSearch
  import opened WorkBytes
  import opened NativeSearch
  import opened NativeCoverage
  import opened NativeExhaustion

  /** How many moves the thread can still make when its ordinal sequence reaches the limit at `last`. */
  function MovesLeft(pc: Pc, tried: nat, last: nat): int {
    match pc
    case Starting => 10 * (last - tried) + 16
    case LoopTest(_) => 10 * (last - tried) + 15
    case CancelTest(_) => 10 * (last - tried) + 14
    case FoundTest(_) => 10 * (last - tried) + 13
    case ClockTest(_) => 10 * (last - tried) + 12
    case RangeTest(_) => 10 * (last - tried) + 11
    case Computing(_) => 10 * (last - tried) + 10
    case Counting(_, _) => 10 * (last - tried) + 19
    case Comparing(_, _) => 10 * (last - tried) + 18
    case Exchanging(_, _) => 10 * (last - tried) + 17
    case Publishing(_, _) => 10 * (last - tried) + 16
    case Failing => 3
    case Stopping => 2
    case Leaving => 1
    case Finished => 0
  }

  function Left(s: State, t: nat, last: nat): int
    requires t < |s.pcs| == |s.tried|
  {
    MovesLeft(s.pcs[t], |s.tried[t]|, last)
  }

  /** A thread has never hashed as far as an ordinal that is out of range. */
  lemma NotPast(job: Job, s: State, t: nat, last: nat)
    requires Inv(job, s) && t < job.threads && Ordinal(job, t, last) >= Limit(job)
    ensures |s.pcs| == |s.tried| == job.threads && |s.tried[t]| <= last
    ensures s.pcs[t].Computing? ==> |s.tried[t]| < last
    ensures 0 <= Left(s, t, last) <= 10 * last + 19
    ensures Left(s, t, last) == 0 ==> s.pcs[t].Finished?
  {
    hide Ordinal, Limit, Misses, Wins, HashOf, WinnerOk, Finishes, CountedByAll;
    assert ThreadOk(job, s, t);
    InRangeSoFar(job, t, s.tried[t], last);
  }

  lemma InRangeSoFar(job: Job, t: nat, tried: seq<nat>, k: nat)
    requires HistoryOk(job, t, tried)
    ensures k < |tried| ==> Ordinal(job, t, k) < Limit(job)
  {
    hide Ordinal, Limit;
  }

  lemma OwnMove(job: Job, s: State, t: nat, expired: bool, throws: bool, last: nat)
    requires Inv(job, s) && t < job.threads && Ordinal(job, t, last) >= Limit(job)
    requires |s.pcs| == |s.tried| == job.threads && !s.pcs[t].Finished?
    ensures var after := Step(job, s, Move(t, expired, throws));
      |after.pcs| == |after.tried| == job.threads && Left(after, t, last) < Left(s, t, last)
  {
    hide Inv, Ordinal, Limit, HashOf, IsHashAtOrBelowTarget, Bump, AfterTest, MovesLeft;
    NotPast(job, s, t, last);
    if throws && MayThrow(s.pcs[t]) {
      ThrowCounts(s.pcs[t], |s.tried[t]|, last);
    } else {
      MoveShape(job, s, t, expired);
      var after := MoveThread(job, s, t, expired);
      if s.pcs[t].Starting? || (BeforeHash(s.pcs[t]) && !s.pcs[t].Computing?) {
        TestCounts(job, s, t, s.pcs[t], expired, |s.tried[t]|, last);
      } else {
        MoveCounts(s.pcs[t], after.pcs[t], |s.tried[t]|, |after.tried[t]|, last);
      }
    }
  }

  lemma ThrowCounts(pc: Pc, tried: nat, last: nat)
    requires MayThrow(pc) && tried <= last
    ensures MovesLeft(Failing, tried, last) < MovesLeft(pc, tried, last)
  {
  }

  lemma TestCounts(job: Job, s: State, t: nat, pc: Pc, expired: bool, tried: nat, last: nat)
    requires tried <= last && (pc.Starting? || (BeforeHash(pc) && !pc.Computing?))
    ensures MovesLeft(AfterTest(job, s, t, pc, expired), tried, last) < MovesLeft(pc, tried, last)
  {
  }

  /** The remaining kinds of move, with hashing the only one that lengthens the history. */
  lemma MoveCounts(pc: Pc, next: Pc, tried: nat, later: nat, last: nat)
    requires tried <= last && (pc.Computing? ==> tried < last)
    requires later == if pc.Computing? then tried + 1 else tried
    requires
      || (pc.Computing? && next.Counting?) || (pc.Counting? && next.Comparing?)
      || (pc.Comparing? && (next.Exchanging? || next.LoopTest?)) || (pc.Exchanging? && (next.Publishing? || next.Leaving?))
      || (pc.Publishing? && next.Leaving?) || (pc.Failing? && next.Stopping?) || (pc.Stopping? && next.Leaving?)
      || (pc.Leaving? && next.Finished?)
    ensures MovesLeft(next, later, last) < MovesLeft(pc, tried, last)
  {
  }

  /** Nobody else moves a thread, and a finished thread stays finished. */
  lemma OthersMove(job: Job, s: State, event: Event, t: nat)
    requires Inv(job, s) && t < job.threads && (event.Move? ==> event.thread != t || s.pcs[t].Finished?)
    ensures var after := Step(job, s, event);
      |after.pcs| == |after.tried| == |s.pcs| == |s.tried| == job.threads
      && after.pcs[t] == s.pcs[t] && after.tried[t] == s.tried[t]
  {
    hide ThreadOk, WinnerOk, MoveThread, Finishes, CountedByAll;
    if event.Move? && event.thread < job.threads && !(event.throws && MayThrow(s.pcs[event.thread])) {
      MoveShape(job, s, event.thread, event.expired);
      if event.thread == t {
        FinishedStays(job, s, t, event.expired);
      }
    }
  }

  lemma FinishedStays(job: Job, s: State, t: nat, expired: bool)
    requires t < |s.pcs| == |s.tried| && s.pcs[t].Finished?
    ensures MoveThread(job, s, t, expired).pcs == s.pcs && MoveThread(job, s, t, expired).tried == s.tried
  {
  }

  function MovesOf(events: seq<Event>, t: nat): nat {
    if events == [] then 0
    else (if events[0].Move? && events[0].thread == t then 1 else 0) + MovesOf(events[1..], t)
  }

  /** Each own move uses up one of the moves left, whatever the other threads do in between. */
  lemma {:induction false} MovesRunOut(job: Job, s: State, events: seq<Event>, t: nat, last: nat)
    requires Inv(job, s) && t < job.threads && Ordinal(job, t, last) >= Limit(job)
    ensures var after := Run(job, s, events);
      && |s.pcs| == |s.tried| == |after.pcs| == |after.tried| == job.threads
      && (after.pcs[t].Finished? || Left(after, t, last) + MovesOf(events, t) <= Left(s, t, last))
    decreases |events|
  {
    hide Inv, Ordinal, Limit, Step, MovesLeft;
    NotPast(job, s, t, last);
    if events != [] {
      var next := Step(job, s, events[0]);
      StepKeepsInv(job, s, events[0]);
      if events[0].Move? && events[0].thread == t && !s.pcs[t].Finished? {
        OwnMove(job, s, t, events[0].expired, events[0].throws, last);
      } else {
        OthersMove(job, s, events[0], t);
      }
      MovesRunOut(job, next, events[1..], t, last);
      if s.pcs[t].Finished? {
        StaysFinished(job, next, events[1..], t);
      }
    }
  }

  lemma {:induction false} StaysFinished(job: Job, s: State, events: seq<Event>, t: nat)
    requires Inv(job, s) && t < job.threads && |s.pcs| == job.threads && s.pcs[t].Finished?
    ensures |Run(job, s, events).pcs| == job.threads && Run(job, s, events).pcs[t].Finished?
    decreases |events|
  {
    hide Inv, Step;
    if events != [] {
      StepKeepsInv(job, s, events[0]);
      OthersMove(job, s, events[0], t);
      StaysFinished(job, Step(job, s, events[0]), events[1..], t);
    }
  }

  /** Every thread gets at least this many moves. */
  ghost predicate Fair(job: Job, events: seq<Event>, bound: nat) {
    forall t :: 0 <= t < job.threads ==> MovesOf(events, t) >= bound
  }

  /** Where each of the first m threads leaves the range at the latest. */
  lemma {:induction false} LatestEnd(job: Job, m: nat) returns (lasts: seq<nat>, bound: nat)
    requires Accepted(job) && m <= job.threads && SPACE - Limit(job) >= Spacing(job)
    ensures |lasts| == m
    ensures forall t :: 0 <= t < m ==> Ordinal(job, t, lasts[t]) >= Limit(job) && 10 * lasts[t] + 20 <= bound
  {
    hide Ordinal, Limit, Spacing;
    lasts, bound := [], 0;
    if m > 0 {
      var before, b := LatestEnd(job, m - 1);
      var last := ReachesEnd(job, m - 1);
      lasts := before + [last];
      bound := if b > 10 * last + 20 then b else 10 * last + 20;
    }
  }

  /**
   * Main result: if `Spacing` ordinals lie beyond the limit, as when none can wrap, there is a bound such
   * that whenever every thread has moved that often, in whatever order, all worker threads are done.
   */
  lemma ThreadsEnd(job: Job) returns (bound: nat)
    requires Accepted(job) && SPACE - Limit(job) >= Spacing(job)
    ensures forall s, events :: Inv(job, s) && Fair(job, events, bound) ==> Run(job, s, events).done == job.threads
  {
    hide Ordinal, Limit, Spacing, Inv, Fair;
    var lasts: seq<nat>;
    lasts, bound := LatestEnd(job, job.threads);
    forall s, events | Inv(job, s) && Fair(job, events, bound) ensures Run(job, s, events).done == job.threads {
      AllEnd(job, s, events, lasts, bound);
    }
  }

  lemma AllEnd(job: Job, s: State, events: seq<Event>, lasts: seq<nat>, bound: nat)
    requires Accepted(job) && Inv(job, s) && Fair(job, events, bound) && |lasts| == job.threads
    requires forall t :: 0 <= t < job.threads ==> Ordinal(job, t, lasts[t]) >= Limit(job) && 10 * lasts[t] + 20 <= bound
    ensures Run(job, s, events).done == job.threads
  {
    hide Ordinal, Limit, Inv, MovesLeft, Run;
    RunKeepsInv(job, s, events);
    var after := Run(job, s, events);
    Sizes(job, after);
    forall t | 0 <= t < job.threads ensures after.pcs[t].Finished? {
      NotPast(job, s, t, lasts[t]);
      NotPast(job, after, t, lasts[t]);
      MovesRunOut(job, s, events, t, lasts[t]);
    }
    FinishedCount(job, after);
  }

  lemma FinishedCount(job: Job, s: State)
    requires Inv(job, s) && |s.pcs| == job.threads && forall t :: 0 <= t < job.threads ==> s.pcs[t].Finished?
    ensures s.done == job.threads
  {
    AllFinishedCount(s.pcs);
  }

  lemma {:induction false} AllFinishedCount(pcs: seq<Pc>)
    requires forall t :: 0 <= t < |pcs| ==> pcs[t].Finished?
    ensures Finishes(pcs) == |pcs|
  {
    if pcs != [] {
      AllFinishedCount(pcs[1..]);
    }
  }

  /** A search whose ordinals cannot wrap has the room. */
  lemma NoWrapHasRoom(job: Job)
    requires Accepted(job) && NoWrap(job)
    ensures SPACE - Limit(job) >= Spacing(job)
  {
    hide Limit;
    Factored(job.threads);
  }
}
