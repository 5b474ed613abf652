/** Every step of a process leads on: a rank that each program point lowers. */
module AgentProgress {
  import opened Options
  import opened LedgerModel
  import opened LedgerRuns
  import opened Agent
  import opened AgentSolo

  /** Whose command a process is working on, and what for. */
  datatype Pursuit = Pursuit(owner: Account, goal: Goal)

  const AUXILIARY: Pursuit := Pursuit(Account("", ""), StatusOnly)

  predicate InSubmit(pc: Pc) {
    || pc.SubmitPrepare? || pc.SubmitRefused? || pc.SubmitAttach?
    || pc.SubmitCall? || pc.SubmitRecord? || pc.SubmitLost?
  }

  predicate InMining(pc: Pc) {
    || pc.Sweep? || pc.RunHead? || pc.MineChoose? || pc.MinePreflight? || pc.Mining? || pc.MineBegin? || pc.MineStore?
    || pc.Resume? || pc.SendStart? || pc.SendSimulate? || pc.SendBudget? || pc.SendCommit?
  }

  function FramePursuit(frame: Frame): Pursuit {
    match frame
    case InSweep(owner, _, goal) => Pursuit(owner, goal)
    case AfterMint(owner, goal) => Pursuit(owner, goal)
    case AfterAuxiliary(_, _) => AUXILIARY
  }

  function PursuitOf(pc: Pc): Pursuit {
    if InRecovery(pc) || InSubmit(pc) then FramePursuit(pc.frame)
    else if InMining(pc) then Pursuit(pc.account, pc.goal)
    else AUXILIARY
  }

  /** A pursuit only changes when `run` completes one more Mint. */
  predicate SameRun(before: Pursuit, after: Pursuit) {
    || after == before
    || (before.goal.Running? && after == before.(goal := before.goal.(completed := before.goal.completed + 1)))
  }

  /** Mints a `run` may still complete, then the stage, the records left to recover, and the program point. */
  datatype Rank = Rank(runs: int, stage: nat, todo: nat, point: nat)

  predicate Smaller(a: Rank, b: Rank) {
    || a.runs < b.runs
    || (a.runs == b.runs && a.stage < b.stage)
    || (a.runs == b.runs && a.stage == b.stage && a.todo < b.todo)
    || (a.runs == b.runs && a.stage == b.stage && a.todo == b.todo && a.point < b.point)
  }

  function RunsLeft(goal: Goal, maxMints: nat): int {
    if goal.Running? then maxMints - goal.base - goal.completed else 0
  }

  function StageOf(pc: Pc): nat {
    if pc.RunHead? then 3
    else if pc.Sweep? then 2
    else if (InRecovery(pc) || InSubmit(pc)) && pc.frame.InSweep? then 2
    else 1
  }

  function TodoOf(pc: Pc): nat {
    if pc.Sweep? then |pc.todo|
    else if (InRecovery(pc) || InSubmit(pc)) && pc.frame.InSweep? then |pc.frame.rest|
    else 0
  }

  function PointOf(pc: Pc): nat {
    match pc
    case RunHead(_, _) => 0
    case Sweep(_, _, _) => 0
    case MineChoose(_, _) => 24
    case MinePreflight(_, _) => 23
    case Mining(_, _) => 22
    case MineBegin(_, _, _, _, _) => 21
    case MineStore(_, _, _) => 20
    case Resume(_, _, _) => 20
    case SendStart(_, _, _) => 19
    case SendSimulate(_, _, _) => 18
    case SendBudget(_, _, _, _) => 17
    case SendCommit(_, _, _, _) => 16
    case AuxBegin(_, _, _) => 19
    case AuxPrepare(_, _) => 18
    case AuxCommit(_, _, _) => 17
    case AuxRefused(_, _) => 17
    case SubmitPrepare(_, _) => 15
    case SubmitAttach(_, _, _, _) => 14
    case SubmitCall(_, _, _) => 13
    case SubmitRecord(_, _, _) => 12
    case SubmitLost(_, _) => 11
    case SubmitRefused(_, _) => 11
    case RecoverEntry(_, _) => 10
    case RecoverRelease(_, _) => 9
    case RecoverMark(_, _) => 8
    case RecoverChain(_, _) => 7
    case RecoverQuery(_, _, _) => 6
    case RecoverSettle(_, _, _, _) => 5
    case RecoverOutcome(_, _, _) => 4
    case RecoverConsumed(_, _, _, _) => 3
    case ContentCheck(_) => 2
    case ContentFail(_, _) => 1
  }

  function RankOf(pc: Pc, maxMints: nat): Rank {
    Rank(RunsLeft(PursuitOf(pc).goal, maxMints), StageOf(pc), TodoOf(pc), PointOf(pc))
  }

  predicate Advances(pc: Pc, next: Option<Pc>, maxMints: nat) {
    next.Some? ==> Smaller(RankOf(next.value, maxMints), RankOf(pc, maxMints)) && SameRun(PursuitOf(pc), PursuitOf(next.value))
  }

  /** Returning to whoever awaits recovery, with a record or an error, leaves recovery behind. */
  lemma ReturnAdvances(pc: Pc, row: Row, maxMints: nat)
    requires InRecovery(pc)
    ensures Advances(pc, Return(pc.frame, row), maxMints)
    ensures var next := Return(pc.frame, row); next.Some? ==> !InRecovery(next.value)
  {
  }

  /** Points of one frame are ordered by their number alone. */
  lemma FrameAdvances(pc: Pc, next: Pc, maxMints: nat)
    requires (InRecovery(pc) || InSubmit(pc)) && (InRecovery(next) || InSubmit(next))
    requires pc.frame == next.frame && PointOf(next) < PointOf(pc)
    ensures Advances(pc, Some(next), maxMints)
  {
    hide PointOf;
  }

  lemma CatchAdvances(pc: Pc, reply: Reply, maxMints: nat)
    requires InRecovery(pc) || InSubmit(pc)
    ensures Advances(pc, Catch(pc.frame, reply), maxMints)
    ensures var next := Catch(pc.frame, reply); next.Some? ==> next.value.ContentFail?
  {
    if Catch(pc.frame, reply).Some? {
      AboveContent(pc);
    }
  }

  lemma AboveContent(pc: Pc)
    requires InRecovery(pc) || InSubmit(pc)
    ensures PointOf(pc) > 1 && StageOf(pc) >= 1
  {
  }

  predicate FirstHalf(pc: Pc) {
    pc.RecoverEntry? || pc.RecoverRelease? || pc.RecoverMark? || pc.RecoverChain?
  }

  lemma RecoveryStarts(w: World, pc: Pc, reply: Reply, maxMints: nat)
    requires Listed(w.db) && FirstHalf(pc)
    ensures Advances(pc, Next(w, pc, reply), maxMints)
  {
    hide Listed, IssuedId, Unresolved, UnsentMint, CertificateExpired, RowOr;
    hide Advances, Return, Catch;
    ReturnAdvances(pc, RowOr(w.db, pc.op.id, pc.op.row), maxMints);
    ReturnAdvances(pc, pc.op.row, maxMints);
    var next := Next(w, pc, reply);
    if next.Some? && InRecovery(next.value) {
      FrameAdvances(pc, next.value, maxMints);
    } else if next.None? {
      NothingAdvances(pc, maxMints);
    }
  }

  lemma NothingAdvances(pc: Pc, maxMints: nat)
    ensures Advances(pc, None, maxMints)
  {
    hide RankOf;
  }

  lemma RecoveryFinishes(w: World, pc: Pc, reply: Reply, maxMints: nat)
    requires Listed(w.db) && InRecovery(pc) && !FirstHalf(pc)
    ensures Advances(pc, Next(w, pc, reply), maxMints)
  {
    hide Listed, IssuedId, Unresolved, UnsentMint, CertificateExpired, RowOr;
    hide Advances, Return, Catch;
    ReturnAdvances(pc, RowOr(w.db, pc.op.id, pc.op.row), maxMints);
    CatchAdvances(pc, reply, maxMints);
    var next := Next(w, pc, reply);
    if next.Some? && InRecovery(next.value) {
      FrameAdvances(pc, next.value, maxMints);
    }
  }

  lemma SearchAdvances(w: World, pc: Pc, reply: Reply, maxMints: nat)
    requires Listed(w.db) && (pc.Sweep? || pc.RunHead? || pc.MineChoose? || pc.MinePreflight?)
    ensures Advances(pc, Next(w, pc, reply), maxMints)
  {
    hide Listed, Sum, BudgetRefusal, FirstResumable, Unsettled, CanStartMint;
  }

  lemma MiningAdvances(w: World, pc: Pc, reply: Reply, maxMints: nat)
    requires Listed(w.db) && (pc.Mining? || pc.MineBegin? || pc.MineStore? || pc.Resume?)
    ensures Advances(pc, Next(w, pc, reply), maxMints)
  {
    hide Listed;
  }

  lemma SendAdvances(w: World, pc: Pc, reply: Reply, maxMints: nat)
    requires Listed(w.db) && (pc.SendStart? || pc.SendSimulate? || pc.SendBudget? || pc.SendCommit?)
    ensures Advances(pc, Next(w, pc, reply), maxMints)
  {
    hide Listed, Sum, BudgetRefusal;
  }

  lemma SubmitAdvances(w: World, pc: Pc, reply: Reply, maxMints: nat)
    requires Listed(w.db) && InSubmit(pc)
    ensures Advances(pc, Next(w, pc, reply), maxMints)
  {
    hide Listed, Advances;
    var next := Next(w, pc, reply);
    if next.Some? {
      FrameAdvances(pc, next.value, maxMints);
    } else {
      NothingAdvances(pc, maxMints);
    }
  }

  lemma AuxiliaryAdvances(w: World, pc: Pc, reply: Reply, maxMints: nat)
    requires Listed(w.db) && !InRecovery(pc) && !InSubmit(pc) && !InMining(pc)
    ensures Advances(pc, Next(w, pc, reply), maxMints)
  {
    hide Listed;
  }

  lemma NextAdvances(w: World, pc: Pc, reply: Reply, maxMints: nat)
    requires Listed(w.db)
    ensures Advances(pc, Next(w, pc, reply), maxMints)
  {
    hide Listed, Next, Advances, InRecovery, InSubmit, FirstHalf;
    if InRecovery(pc) {
      if FirstHalf(pc) {
        RecoveryStarts(w, pc, reply, maxMints);
      } else {
        RecoveryFinishes(w, pc, reply, maxMints);
      }
    } else if InSubmit(pc) {
      SubmitAdvances(w, pc, reply, maxMints);
    } else if pc.Sweep? || pc.RunHead? || pc.MineChoose? || pc.MinePreflight? {
      SearchAdvances(w, pc, reply, maxMints);
    } else if pc.Mining? || pc.MineBegin? || pc.MineStore? || pc.Resume? {
      MiningAdvances(w, pc, reply, maxMints);
    } else if pc.SendStart? || pc.SendSimulate? || pc.SendBudget? || pc.SendCommit? {
      SendAdvances(w, pc, reply, maxMints);
    } else {
      AuxiliaryAdvances(w, pc, reply, maxMints);
    }
  }

  lemma ThrowAdvances(pc: Pc, reply: Reply, maxMints: nat)
    ensures Advances(pc, OnThrow(pc, reply), maxMints)
  {
    hide Advances, Catch;
    NothingAdvances(pc, maxMints);
    if InRecovery(pc) || InSubmit(pc) {
      CatchAdvances(pc, reply, maxMints);
      var next := OnThrow(pc, reply);
      if next.Some? && InSubmit(next.value) {
        FrameAdvances(pc, next.value, maxMints);
      }
    } else {
      ThrownAuxiliary(pc, reply, maxMints);
    }
  }

  lemma ThrownAuxiliary(pc: Pc, reply: Reply, maxMints: nat)
    requires !InRecovery(pc) && !InSubmit(pc)
    ensures Advances(pc, OnThrow(pc, reply), maxMints)
  {
  }

  /** Every answer, or error, moves the process to a point of smaller rank or ends its command. */
  lemma StepAdvances(w: World, reply: Reply, maxMints: nat)
    requires Sound(w.db) && 0 in w.procs && !(w.procs[0].SubmitPrepare? && reply.id in w.used)
    ensures var after := StepProcess(w, 0, reply);
      0 in after.procs ==> Advances(w.procs[0], Some(after.procs[0]), maxMints)
  {
    hide Sound, Next, OnThrow, Act, Attempt, Advances, Decisive;
    var pc := w.procs[0];
    ThrowAdvances(pc, reply, maxMints);
    SoundIsListed(StepProcess(w, 0, reply).db);
    forall v: World | Listed(v.db) ensures Advances(pc, Next(v, pc, reply), maxMints) {
      NextAdvances(v, pc, reply, maxMints);
    }
    SoundIsListed(w.db);
  }
}
