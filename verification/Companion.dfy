/** The Compute Companion's job scheduler: a queue in submission order that computes one job at a time. */
module Companion {
  import opened Options

  datatype Status = Queued | Computing | SolutionFound | Failed | Expired | Cancelled

  /** jobId is a random UUID in the program; here ids are handed out in order, so none repeats. */
  datatype Job = Job(
    id: nat, workKey: string, expiresAt: int, status: Status, aborted: bool, finishedAt: Option<int>)

  const MAX_PENDING_JOBS: nat := 8
  const FINISHED_RETENTION_MS := 600_000
  const MIN_START_SECONDS := 5

  predicate IsTerminal(status: Status) {
    !status.Queued? && !status.Computing?
  }

  /** Work that a repeated submission is pointed at. */
  predicate Live(job: Job) {
    job.status.Queued? || job.status.Computing? || job.status.SolutionFound?
  }

  function Finish(job: Job, status: Status, now: int): Job {
    job.(status := status, finishedAt := Some(now))
  }

  predicate TooLate(job: Job, now: int) {
    job.expiresAt <= now / 1000 + MIN_START_SECONDS
  }

  function Pending(jobs: seq<Job>): nat {
    if jobs == [] then 0 else Pending(jobs[..|jobs| - 1]) + (if IsTerminal(jobs[|jobs| - 1].status) then 0 else 1)
  }

  predicate Stale(job: Job, cutoff: int) {
    job.finishedAt.Some? && job.finishedAt.value < cutoff
  }

  function Kept(jobs: seq<Job>, cutoff: int): seq<Job> {
    if jobs == [] then []
    else
      var last := jobs[|jobs| - 1];
      Kept(jobs[..|jobs| - 1], cutoff) + if Stale(last, cutoff) then [] else [last]
  }

  ghost predicate Consistent(jobs: seq<Job>) {
    && (forall i, j :: 0 <= i < j < |jobs| ==> jobs[i].id < jobs[j].id)
    && (forall i, j :: 0 <= i < j < |jobs| && Live(jobs[i]) && Live(jobs[j]) ==> jobs[i].workKey != jobs[j].workKey)
    && (forall i :: 0 <= i < |jobs| ==> (jobs[i].finishedAt.Some? <==> IsTerminal(jobs[i].status)))
    && Pending(jobs) <= MAX_PENDING_JOBS
  }

  /** `running` is exactly the one computing job. */
  ghost predicate RunningOk(jobs: seq<Job>, running: Option<nat>) {
    && (forall i :: 0 <= i < |jobs| ==> (jobs[i].status.Computing? <==> running == Some(jobs[i].id)))
    && (running.Some? ==> exists i :: 0 <= i < |jobs| && jobs[i].id == running.value)
  }

  predicate NothingQueued(jobs: seq<Job>) {
    forall i :: 0 <= i < |jobs| ==> !jobs[i].status.Queued?
  }

  /** Jobs have started in submission order, and everything still queued was submitted after all of them. */
  ghost predicate StartsInOrder(started: seq<nat>, jobs: seq<Job>, next: nat) {
    && (forall i, j :: 0 <= i < j < |started| ==> started[i] < started[j])
    && (forall i, j :: 0 <= i < |started| && 0 <= j < |jobs| && jobs[j].status.Queued? ==> started[i] < jobs[j].id)
    && (forall i :: 0 <= i < |started| ==> started[i] < next)
    && (forall j :: 0 <= j < |jobs| ==> jobs[j].id < next)
  }

  /** Finished jobs stay as they are until they are dropped. */
  ghost predicate FinishedStay(before: seq<Job>, after: seq<Job>) {
    forall i, j :: 0 <= i < |before| && 0 <= j < |after| && before[i].id == after[j].id && IsTerminal(before[i].status)
      ==> after[j] == before[i]
  }

  /** pump passed over k jobs: queued ones among them had expired; the next one, if any, was queued in time and now computes. */
  predicate PumpedAt(before: seq<Job>, after: seq<Job>, running: Option<nat>, now: int, k: nat) {
    && |after| == |before| && k <= |before|
    && (forall i :: 0 <= i < k ==>
          if before[i].status.Queued? then TooLate(before[i], now) && after[i] == Finish(before[i], Expired, now)
          else after[i] == before[i])
    && (forall i :: k < i < |before| ==> after[i] == before[i])
    && (k < |before| ==>
          && before[k].status.Queued? && !TooLate(before[k], now)
          && after[k] == before[k].(status := Computing) && running == Some(before[k].id))
    && (k == |before| ==> running == None)
  }

  ghost predicate Pumped(before: seq<Job>, after: seq<Job>, running: Option<nat>, now: int) {
    exists k: nat :: PumpedAt(before, after, running, now, k)
  }

  lemma {:induction false} PendingUpdate(jobs: seq<Job>, i: nat, job: Job)
    requires i < |jobs|
    ensures Pending(jobs[i := job]) + (if IsTerminal(jobs[i].status) then 0 else 1)
      == Pending(jobs) + (if IsTerminal(job.status) then 0 else 1)
  {
    var n := |jobs| - 1;
    if i < n {
      assert jobs[i := job][..n] == jobs[..n][i := job];
      PendingUpdate(jobs[..n], i, job);
    } else {
      assert jobs[i := job][..n] == jobs[..n];
    }
  }

  lemma {:induction false} KeptMembers(jobs: seq<Job>, cutoff: int)
    ensures forall job :: job in Kept(jobs, cutoff) <==> job in jobs && !Stale(job, cutoff)
  {
    if jobs != [] {
      var n := |jobs| - 1;
      KeptMembers(jobs[..n], cutoff);
      assert jobs == jobs[..n] + [jobs[n]];
    }
  }

  /** Only finished jobs are dropped, so the number of unfinished ones stays. */
  lemma {:induction false} KeptPending(jobs: seq<Job>, cutoff: int)
    requires forall i :: 0 <= i < |jobs| ==> (jobs[i].finishedAt.Some? <==> IsTerminal(jobs[i].status))
    ensures Pending(Kept(jobs, cutoff)) == Pending(jobs)
  {
    if jobs != [] {
      var n := |jobs| - 1;
      var kept := Kept(jobs[..n], cutoff);
      KeptPending(jobs[..n], cutoff);
      assert (kept + [jobs[n]])[..|kept|] == kept && kept + [] == kept;
    }
  }

  lemma {:induction false} KeptOrder(jobs: seq<Job>, cutoff: int)
    requires forall i, j :: 0 <= i < j < |jobs| ==> jobs[i].id < jobs[j].id
    ensures forall i, j :: 0 <= i < j < |Kept(jobs, cutoff)| ==> Kept(jobs, cutoff)[i].id < Kept(jobs, cutoff)[j].id
  {
    if jobs != [] {
      var n := |jobs| - 1;
      var kept := Kept(jobs[..n], cutoff);
      KeptOrder(jobs[..n], cutoff);
      KeptAreThere(jobs[..n], cutoff);
    }
  }

  lemma KeptAreThere(jobs: seq<Job>, cutoff: int)
    ensures forall i :: 0 <= i < |Kept(jobs, cutoff)| ==> Kept(jobs, cutoff)[i] in jobs
  {
    hide Kept;
    KeptMembers(jobs, cutoff);
    forall i | 0 <= i < |Kept(jobs, cutoff)| ensures Kept(jobs, cutoff)[i] in jobs {
      assert Kept(jobs, cutoff)[i] in Kept(jobs, cutoff);
    }
  }

  lemma KeptConsistent(jobs: seq<Job>, running: Option<nat>, cutoff: int)
    requires Consistent(jobs) && RunningOk(jobs, running)
    ensures Consistent(Kept(jobs, cutoff)) && RunningOk(Kept(jobs, cutoff), running)
    ensures FinishedStay(jobs, Kept(jobs, cutoff))
  {
    hide Pending, Kept;
    KeptMembers(jobs, cutoff);
    KeptPending(jobs, cutoff);
    KeptOrder(jobs, cutoff);
    KeptAreThere(jobs, cutoff);
    var kept := Kept(jobs, cutoff);
    if running.Some? {
      var i :| 0 <= i < |jobs| && jobs[i].id == running.value;
      assert jobs[i] in kept;
    }
  }

  ghost predicate Scheduled(jobs: seq<Job>, running: Option<nat>, started: seq<nat>, next: nat) {
    Consistent(jobs) && RunningOk(jobs, running) && StartsInOrder(started, jobs, next)
  }

  lemma KeptScheduled(jobs: seq<Job>, running: Option<nat>, started: seq<nat>, next: nat, cutoff: int)
    requires Scheduled(jobs, running, started, next)
    ensures Scheduled(Kept(jobs, cutoff), running, started, next)
    ensures NothingQueued(jobs) ==> NothingQueued(Kept(jobs, cutoff))
  {
    hide Kept, Consistent, RunningOk;
    KeptConsistent(jobs, running, cutoff);
    KeptAreThere(jobs, cutoff);
  }

  lemma ScheduledStay(jobs: seq<Job>, running: Option<nat>, started: seq<nat>, next: nat, cutoff: int)
    requires Scheduled(jobs, running, started, next)
    ensures FinishedStay(jobs, Kept(jobs, cutoff))
  {
    hide Kept, FinishedStay;
    KeptConsistent(jobs, running, cutoff);
  }

  lemma FinishQueued(
    jobs: seq<Job>, running: Option<nat>, started: seq<nat>, next: nat, k: nat, status: Status, now: int)
    requires Scheduled(jobs, running, started, next) && k < |jobs| && jobs[k].status.Queued?
    requires status.Expired? || status.Cancelled?
    ensures Scheduled(jobs[k := Finish(jobs[k], status, now)], running, started, next)
    ensures Pending(jobs[k := Finish(jobs[k], status, now)]) < Pending(jobs)
    ensures FinishedStay(jobs, jobs[k := Finish(jobs[k], status, now)])
  {
    hide Pending;
    PendingUpdate(jobs, k, Finish(jobs[k], status, now));
    if running.Some? {
      var i :| 0 <= i < |jobs| && jobs[i].id == running.value;
      assert jobs[k := Finish(jobs[k], status, now)][i].id == running.value;
    }
  }

  lemma StartQueued(jobs: seq<Job>, started: seq<nat>, next: nat, k: nat)
    requires Scheduled(jobs, None, started, next) && k < |jobs| && jobs[k].status.Queued?
    requires forall i :: 0 <= i < k ==> !jobs[i].status.Queued?
    ensures Scheduled(jobs[k := jobs[k].(status := Computing)], Some(jobs[k].id), started + [jobs[k].id], next)
  {
    hide Pending;
    PendingUpdate(jobs, k, jobs[k].(status := Computing));
    assert jobs[k := jobs[k].(status := Computing)][k].id == jobs[k].id;
  }

  class CompanionJobs {
    var jobs: seq<Job>
    var running: Option<nat>
    var next: nat
    /** History: the ids of the jobs that began to compute, in that order. */
    ghost var started: seq<nat>

    ghost predicate Waiting()
      reads this
    {
      Scheduled(jobs, running, started, next)
    }

    ghost predicate Valid()
      reads this
    {
      Waiting() && (running.None? ==> NothingQueued(jobs))
    }

    constructor ()
      ensures Valid() && jobs == [] && running.None? && started == []
    {
      jobs, running, next, started := [], None, 0, [];
    }

    method Prune(now: int)
      requires Valid()
      modifies this`jobs
      ensures Valid() && jobs == Kept(old(jobs), now - FINISHED_RETENTION_MS) && FinishedStay(old(jobs), jobs)
    {
      hide Kept, Scheduled;
      var cutoff := now - FINISHED_RETENTION_MS;
      KeptScheduled(jobs, running, started, next, cutoff);
      ScheduledStay(jobs, running, started, next, cutoff);
      var all := jobs;
      var kept := [];
      KeepNone(all[..0], cutoff);
      for i := 0 to |all|
        invariant kept == Kept(all[..i], cutoff) && jobs == all
      {
        KeepOneMore(all, i, cutoff);
        if !Stale(all[i], cutoff) {
          kept := kept + [all[i]];
        }
      }
      assert all[..|all|] == all;
      jobs := kept;
    }

    /** Starts the first job still worth starting; queued jobs before it have expired. Its recursion ends as fewer jobs are queued. */
    method Pump(now: int)
      requires Waiting()
      modifies this`jobs, this`running, this`started
      ensures Valid()
      ensures old(running).Some? ==> jobs == old(jobs) && running == old(running) && started == old(started)
      ensures old(running).None? ==> Pumped(old(jobs), jobs, running, now)
      ensures old(running).None? ==> started == old(started) + if running.Some? then [running.value] else []
      decreases Pending(jobs)
    {
      hide Pending, Scheduled, PumpedAt;
      if running.Some? {
        return;
      }
      var k := 0;
      while k < |jobs| && !jobs[k].status.Queued?
        invariant k <= |jobs| && jobs == old(jobs) && running == old(running) && started == old(started)
        invariant forall i :: 0 <= i < k ==> !jobs[i].status.Queued?
      {
        k := k + 1;
      }
      if k == |jobs| {
        PumpedNothing(jobs, now);
        return;
      }
      ghost var before := jobs;
      if TooLate(jobs[k], now) {
        FinishQueued(jobs, running, started, next, k, Expired, now);
        jobs := jobs[k := Finish(jobs[k], Expired, now)];
        ghost var expired := jobs;
        Pump(now);
        PumpedAfterExpiry(before, expired, jobs, running, now, k);
      } else {
        StartQueued(jobs, started, next, k);
        running := Some(jobs[k].id);
        started := started + [jobs[k].id];
        jobs := jobs[k := jobs[k].(status := Computing)];
        PumpedHere(before, now, k);
      }
    }

    /**
     * Identical live work maps to the job already there; otherwise the job joins the queue if fewer
     * than eight are unfinished, and starts at once if nothing runs.
     */
    method Submit(workKey: string, expiresAt: int, now: int) returns (result: Submission)
      requires Valid()
      modifies this
      ensures Valid() && FinishedStay(old(jobs), jobs)
      ensures var kept := Kept(old(jobs), now - FINISHED_RETENTION_MS);
        match result
        case Existing(id) =>
          && jobs == kept && next == old(next) && running == old(running) && started == old(started)
          && exists i :: 0 <= i < |kept| && kept[i].id == id && kept[i].workKey == workKey && Live(kept[i])
        case TooManyJobs =>
          && jobs == kept && next == old(next) && running == old(running) && started == old(started)
          && Pending(kept) >= MAX_PENDING_JOBS && forall i :: 0 <= i < |kept| && Live(kept[i]) ==> kept[i].workKey != workKey
        case Accepted(id) =>
          && id == old(next) && next == id + 1 && Pending(kept) < MAX_PENDING_JOBS
          && (forall i :: 0 <= i < |kept| && Live(kept[i]) ==> kept[i].workKey != workKey)
          && var queue := kept + [NewJob(id, workKey, expiresAt)];
            if old(running).Some? then jobs == queue && running == old(running) else Pumped(queue, jobs, running, now)
    {
      hide Kept, Scheduled, FinishedStay, Pending, Pumped;
      IdsBelow(jobs, running, started, next);
      Prune(now);
      ghost var kept := jobs;
      var i := 0;
      while i < |jobs|
        invariant i <= |jobs| && jobs == kept && Valid() && next == old(next) && running == old(running) && started == old(started)
        invariant forall j :: 0 <= j < i && Live(jobs[j]) ==> jobs[j].workKey != workKey
      {
        if jobs[i].workKey == workKey && Live(jobs[i]) {
          return Existing(jobs[i].id);
        }
        i := i + 1;
      }
      if Pending(jobs) >= MAX_PENDING_JOBS {
        return TooManyJobs;
      }
      QueueOne(jobs, running, started, next, workKey, expiresAt);
      jobs := jobs + [NewJob(next, workKey, expiresAt)];
      next := next + 1;
      result := Accepted(next - 1);
      ghost var queue := jobs;
      Pump(now);
      SubmittedStay(old(jobs), kept, queue, jobs, running, now, old(next), workKey, expiresAt);
    }

    /** A queued job is cancelled at once; a computing one is told to stop; a finished or unknown one is left alone. */
    method Cancel(id: nat, now: int)
      requires Valid()
      modifies this`jobs
      ensures Valid() && FinishedStay(old(jobs), jobs) && |jobs| == |old(jobs)|
      ensures forall i :: 0 <= i < |jobs| ==>
        jobs[i] == if old(jobs)[i].id == id then Stopped(old(jobs)[i], now) else old(jobs)[i]
    {
      hide Scheduled, Pending;
      ScheduledIsSorted(jobs, running, started, next);
      var k := 0;
      while k < |jobs| && jobs[k].id != id
        invariant k <= |jobs| && jobs == old(jobs) && forall i :: 0 <= i < k ==> jobs[i].id != id
      {
        k := k + 1;
      }
      if k == |jobs| || IsTerminal(jobs[k].status) {
        SameStay(jobs, running, started, next);
        return;
      }
      if jobs[k].status.Queued? {
        FinishQueued(jobs, running, started, next, k, Cancelled, now);
        jobs := jobs[k := Finish(jobs[k], Cancelled, now)];
      } else {
        AbortComputing(jobs, running, started, next, k);
        jobs := jobs[k := jobs[k].(aborted := true)];
      }
    }

    /** Shutdown: nothing stays queued, and the running job is told to stop. */
    method CancelAll(now: int)
      requires Valid()
      modifies this`jobs
      ensures Valid() && |jobs| == |old(jobs)|
      ensures forall i :: 0 <= i < |jobs| ==> jobs[i] == Stopped(old(jobs)[i], now)
    {
      hide Scheduled;
      var k := 0;
      while k < |jobs|
        invariant k <= |jobs| == |old(jobs)| && Valid()
        invariant forall i :: 0 <= i < k ==> jobs[i] == Stopped(old(jobs)[i], now)
        invariant forall i :: k <= i < |jobs| ==> jobs[i] == old(jobs)[i]
      {
        ScheduledIsSorted(jobs, running, started, next);
        Cancel(jobs[k].id, now);
        k := k + 1;
      }
    }

    /** The miner's promise settles: the running job ends, and the next queued job, if any, starts. */
    method Settle(solved: bool, now: int)
      requires Valid() && running.Some?
      modifies this
      ensures Valid() && FinishedStay(old(jobs), jobs) && next == old(next)
      ensures exists k :: (0 <= k < |old(jobs)| && old(running) == Some(old(jobs)[k].id)
        && Pumped(old(jobs)[k := Settled(old(jobs)[k], solved, now)], jobs, running, now))
    {
      hide Scheduled, Pending, Pumped, FinishedStay;
      RunningIsThere(jobs, running, started, next);
      var k := 0;
      while jobs[k].id != running.value
        invariant k < |jobs| && jobs == old(jobs) && running == old(running) && started == old(started)
        invariant exists i :: k <= i < |jobs| && jobs[i].id == running.value
        decreases |jobs| - k
      {
        k := k + 1;
      }
      SettleRunning(jobs, running, started, next, k, solved, now);
      ghost var settled := jobs[k := Settled(jobs[k], solved, now)];
      jobs := jobs[k := Settled(jobs[k], solved, now)];
      running := None;
      Pump(now);
      PumpStays(old(jobs), settled, jobs, running, now);
    }
  }

  datatype Submission = Existing(id: nat) | TooManyJobs | Accepted(id: nat)

  function NewJob(id: nat, workKey: string, expiresAt: int): Job {
    Job(id, workKey, expiresAt, Queued, false, None)
  }

  function Stopped(job: Job, now: int): Job {
    if job.status.Queued? then Finish(job, Cancelled, now)
    else if job.status.Computing? then job.(aborted := true)
    else job
  }

  function Settled(job: Job, solved: bool, now: int): Job {
    if solved then Finish(job, SolutionFound, now)
    else if job.aborted then Finish(job, Cancelled, now)
    else if job.expiresAt <= now / 1000 then Finish(job, Expired, now)
    else Finish(job, Failed, now)
  }

  lemma PendingAppend(jobs: seq<Job>, job: Job)
    ensures Pending(jobs + [job]) == Pending(jobs) + if IsTerminal(job.status) then 0 else 1
  {
    assert (jobs + [job])[..|jobs|] == jobs;
  }

  lemma QueueOne(jobs: seq<Job>, running: Option<nat>, started: seq<nat>, next: nat, workKey: string, expiresAt: int)
    requires Scheduled(jobs, running, started, next) && Pending(jobs) < MAX_PENDING_JOBS
    requires forall i :: 0 <= i < |jobs| && Live(jobs[i]) ==> jobs[i].workKey != workKey
    ensures Scheduled(jobs + [NewJob(next, workKey, expiresAt)], running, started, next + 1)
  {
    hide Consistent, RunningOk, Pending, Live;
    QueueConsistent(jobs, next, workKey, expiresAt);
    QueueRunning(jobs, running, next, workKey, expiresAt);
  }

  lemma QueueConsistent(jobs: seq<Job>, next: nat, workKey: string, expiresAt: int)
    requires Consistent(jobs) && Pending(jobs) < MAX_PENDING_JOBS
    requires forall i :: 0 <= i < |jobs| ==> jobs[i].id < next
    requires forall i :: 0 <= i < |jobs| && Live(jobs[i]) ==> jobs[i].workKey != workKey
    ensures Consistent(jobs + [NewJob(next, workKey, expiresAt)])
  {
    hide Pending, Live;
    PendingAppend(jobs, NewJob(next, workKey, expiresAt));
  }

  lemma QueueRunning(jobs: seq<Job>, running: Option<nat>, next: nat, workKey: string, expiresAt: int)
    requires RunningOk(jobs, running)
    requires forall i :: 0 <= i < |jobs| ==> jobs[i].id < next
    ensures RunningOk(jobs + [NewJob(next, workKey, expiresAt)], running)
  {
    var queue := jobs + [NewJob(next, workKey, expiresAt)];
    if running.Some? {
      var i :| 0 <= i < |jobs| && jobs[i].id == running.value;
      assert queue[i].id == running.value;
    }
  }

  lemma IdsBelow(jobs: seq<Job>, running: Option<nat>, started: seq<nat>, next: nat)
    requires Scheduled(jobs, running, started, next)
    ensures forall i :: 0 <= i < |jobs| ==> jobs[i].id < next
  {
  }

  lemma ScheduledIsSorted(jobs: seq<Job>, running: Option<nat>, started: seq<nat>, next: nat)
    requires Scheduled(jobs, running, started, next)
    ensures forall i, j :: 0 <= i < j < |jobs| ==> jobs[i].id < jobs[j].id
  {
  }

  lemma SameStay(jobs: seq<Job>, running: Option<nat>, started: seq<nat>, next: nat)
    requires Scheduled(jobs, running, started, next)
    ensures FinishedStay(jobs, jobs)
  {
    forall i, j | 0 <= i < |jobs| && 0 <= j < |jobs| && jobs[i].id == jobs[j].id
      ensures i == j
    {
    }
  }

  lemma AbortComputing(jobs: seq<Job>, running: Option<nat>, started: seq<nat>, next: nat, k: nat)
    requires Scheduled(jobs, running, started, next) && k < |jobs| && jobs[k].status.Computing?
    ensures Scheduled(jobs[k := jobs[k].(aborted := true)], running, started, next)
    ensures NothingQueued(jobs) ==> NothingQueued(jobs[k := jobs[k].(aborted := true)])
    ensures FinishedStay(jobs, jobs[k := jobs[k].(aborted := true)])
  {
    hide Pending;
    PendingUpdate(jobs, k, jobs[k].(aborted := true));
    assert jobs[k := jobs[k].(aborted := true)][k].id == jobs[k].id;
    SameStay(jobs, running, started, next);
  }

  lemma RunningIsThere(jobs: seq<Job>, running: Option<nat>, started: seq<nat>, next: nat)
    requires Scheduled(jobs, running, started, next) && running.Some?
    ensures exists i :: 0 <= i < |jobs| && jobs[i].id == running.value
  {
  }

  lemma SettleRunning(
    jobs: seq<Job>, running: Option<nat>, started: seq<nat>, next: nat, k: nat, solved: bool, now: int)
    requires Scheduled(jobs, running, started, next) && k < |jobs| && running == Some(jobs[k].id)
    ensures Scheduled(jobs[k := Settled(jobs[k], solved, now)], None, started, next)
    ensures FinishedStay(jobs, jobs[k := Settled(jobs[k], solved, now)])
  {
    hide Pending;
    PendingUpdate(jobs, k, Settled(jobs[k], solved, now));
    SameStay(jobs, running, started, next);
  }

  /** pump touches only queued jobs. */
  lemma PumpStays(before: seq<Job>, queue: seq<Job>, after: seq<Job>, running: Option<nat>, now: int)
    requires FinishedStay(before, queue) && Pumped(queue, after, running, now)
    ensures FinishedStay(before, after)
  {
    var k: nat :| PumpedAt(queue, after, running, now, k);
    forall i, j | 0 <= i < |before| && 0 <= j < |after| && before[i].id == after[j].id && IsTerminal(before[i].status)
      ensures after[j] == before[i]
    {
      assert queue[j].id == before[i].id;
      assert queue[j] == before[i];
    }
  }

  lemma SubmittedStay(
    before: seq<Job>, kept: seq<Job>, queue: seq<Job>, after: seq<Job>, running: Option<nat>, now: int,
    id: nat, workKey: string, expiresAt: int)
    requires FinishedStay(before, kept) && queue == kept + [NewJob(id, workKey, expiresAt)]
    requires forall i :: 0 <= i < |before| ==> before[i].id < id
    requires after == queue || Pumped(queue, after, running, now)
    ensures FinishedStay(before, after)
  {
    hide Pumped;
    assert FinishedStay(before, queue);
    if after != queue {
      PumpStays(before, queue, after, running, now);
    }
  }

  lemma PumpedNothing(jobs: seq<Job>, now: int)
    requires NothingQueued(jobs)
    ensures Pumped(jobs, jobs, None, now)
  {
    assert PumpedAt(jobs, jobs, None, now, |jobs|);
  }

  lemma PumpedHere(before: seq<Job>, now: int, k: nat)
    requires k < |before| && before[k].status.Queued? && !TooLate(before[k], now)
    requires forall i :: 0 <= i < k ==> !before[i].status.Queued?
    ensures Pumped(before, before[k := before[k].(status := Computing)], Some(before[k].id), now)
  {
    assert PumpedAt(before, before[k := before[k].(status := Computing)], Some(before[k].id), now, k);
  }

  lemma KeepNone(jobs: seq<Job>, cutoff: int)
    requires jobs == []
    ensures Kept(jobs, cutoff) == []
  {
  }

  lemma KeepOneMore(jobs: seq<Job>, i: nat, cutoff: int)
    requires i < |jobs|
    ensures Kept(jobs[..i + 1], cutoff) == Kept(jobs[..i], cutoff) + if Stale(jobs[i], cutoff) then [] else [jobs[i]]
  {
    assert jobs[..i + 1][..i] == jobs[..i];
  }

  lemma PumpedAfterExpiry(before: seq<Job>, expired: seq<Job>, after: seq<Job>, running: Option<nat>, now: int, k: nat)
    requires k < |before| && before[k].status.Queued? && TooLate(before[k], now)
    requires forall i :: 0 <= i < k ==> !before[i].status.Queued?
    requires expired == before[k := Finish(before[k], Expired, now)]
    requires Pumped(expired, after, running, now)
    ensures Pumped(before, after, running, now)
  {
    var m: nat :| PumpedAt(expired, after, running, now, m);
    assert m > k;
    forall i | 0 <= i < m
      ensures if before[i].status.Queued? then TooLate(before[i], now) && after[i] == Finish(before[i], Expired, now)
        else after[i] == before[i]
    {
      assert i != k ==> expired[i] == before[i];
    }
    assert PumpedAt(before, after, running, now, m);
  }
}
