/** Every command, and in particular the loop of `run`, ends, whatever happens around the process meanwhile. */
module AgentTermination {
  import opened Options
  import opened LedgerModel
  import opened LedgerRuns
  import opened LedgerSums
  import opened Agent
  import opened AgentSolo
  import opened AgentProgress

  predicate ConfirmedMint(row: Row) {
    row.kind.Mint? && row.state.MintConfirmed?
  }

  /** A statement that does not write to a confirmed Mint lowers nobody's count of confirmed Mints. */
  lemma ConfirmedGrows(db: Db, action: Action, account: Account)
    requires Sound(db) && Attempt(db, action).Done?
    requires !LeavesTable(db, action) && action.id in db.rows ==> !ConfirmedMint(db.rows[action.id])
    ensures Listed(db) && Listed(Apply(db, action))
    ensures Sum(Apply(db, action), ConfirmedMints, account) >= Sum(db, ConfirmedMints, account)
    ensures !LeavesTable(db, action) ==>
      && action.id in Apply(db, action).rows
      && Sum(Apply(db, action), ConfirmedMints, account)
         == Sum(db, ConfirmedMints, account) + Cell(ConfirmedMints, account, Apply(db, action).rows[action.id])
  {
    hide Attempt, Sum, Sound, Put, Listed, LaterRow, Unclaimed;
    SoundIsListed(db);
    ApplyKeepsSound(db, action);
    SoundIsListed(Apply(db, action));
    var put, id, row := ActionIsPut(db, action);
    if put {
      SumAfterPut(db, id, row, ConfirmedMints, account);
      WrittenRow(db, id, row);
    } else {
      SameSum(db, Apply(db, action), account);
    }
  }

  lemma WrittenRow(db: Db, id: OperationId, row: Row)
    requires Put(db, id, row).Done?
    ensures id in Put(db, id, row).db.rows && Put(db, id, row).db.rows[id] == row
  {
    hide ActiveClash, RequestClash;
  }

  lemma SameSum(db: Db, after: Db, account: Account)
    requires Listed(db) && Listed(after) && after.rows == db.rows && after.order == db.order
    ensures Sum(after, ConfirmedMints, account) == Sum(db, ConfirmedMints, account)
  {
  }

  /** The one live process never writes to a confirmed Mint. */
  lemma ActsOnOpenRows(w: World, pc: Pc, reply: Reply)
    requires PcOk(w, pc) && Act(pc, reply).Some? && Attempt(w.db, Act(pc, reply).value).Done?
    ensures var action := Act(pc, reply).value;
      && !action.Grant? && !action.Revoke? && !action.Stop? && !action.ClearStop?
      && (action.id in w.db.rows ==> !ConfirmedMint(w.db.rows[action.id]))
  {
    hide Put, FrameOk, Awaiting, Backed, IssuedOk, ResultOk;
  }

  lemma AuthorizationsStay(db: Db, action: Action)
    requires !action.Grant? && !action.Revoke? && !action.Stop? && !action.ClearStop?
    ensures Apply(db, action).authorizations == db.authorizations
  {
    hide ActiveClash, RequestClash, CanStartMint;
  }

  /** Only a return from recovery with a confirmed record makes `run` count one more Mint. */
  lemma CountedIsConfirmed(w: World, pc: Pc, reply: Reply)
    requires Listed(w.db)
    ensures var next := Next(w, pc, reply);
      next.Some? && PursuitOf(next.value) != PursuitOf(pc) ==>
        && next.value.RunHead? && InRecovery(pc) && pc.frame.AfterMint?
        && (pc.RecoverEntry? ==> pc.op.row.state.MintConfirmed? || !Unresolved(pc.op.row.state))
        && (if pc.RecoverEntry? then pc.op.row else RowOr(w.db, pc.op.id, pc.op.row)).state.MintConfirmed?
  {
    hide Listed;
    if InRecovery(pc) {
      CountedInRecovery(w, pc, reply);
    } else {
      OthersKeepPursuit(w, pc, reply);
    }
  }

  lemma OthersKeepPursuit(w: World, pc: Pc, reply: Reply)
    requires Listed(w.db) && !InRecovery(pc)
    ensures var next := Next(w, pc, reply); next.Some? ==> PursuitOf(next.value) == PursuitOf(pc)
  {
    hide Listed, InRecovery, PursuitOf, Next;
    if InMining(pc) {
      MiningKeepsPursuit(w, pc, reply);
    } else {
      SubmittingKeepsPursuit(w, pc, reply);
    }
  }

  lemma MiningKeepsPursuit(w: World, pc: Pc, reply: Reply)
    requires Listed(w.db) && InMining(pc)
    ensures var next := Next(w, pc, reply); next.Some? ==> PursuitOf(next.value) == PursuitOf(pc)
  {
    hide Listed, Sum, BudgetRefusal, FirstResumable, Unsettled, CanStartMint, Unattended;
  }

  lemma SubmittingKeepsPursuit(w: World, pc: Pc, reply: Reply)
    requires Listed(w.db) && !InRecovery(pc) && !InMining(pc)
    ensures var next := Next(w, pc, reply); next.Some? ==> PursuitOf(next.value) == PursuitOf(pc)
  {
    hide Listed;
  }

  lemma CountedInRecovery(w: World, pc: Pc, reply: Reply)
    requires Listed(w.db) && InRecovery(pc)
    ensures var next := Next(w, pc, reply);
      next.Some? && PursuitOf(next.value) != PursuitOf(pc) ==>
        && next.value.RunHead? && pc.frame.AfterMint?
        && (if pc.RecoverEntry? then pc.op.row else RowOr(w.db, pc.op.id, pc.op.row)).state.MintConfirmed?
  {
    hide Listed, IssuedId, Unresolved, UnsentMint, CertificateExpired, RowOr;
  }

  lemma ThrowKeepsPursuit(pc: Pc, reply: Reply)
    ensures var next := OnThrow(pc, reply); next.Some? ==> PursuitOf(next.value) == PursuitOf(pc) && !next.value.RunHead?
  {
    hide Catch, PursuitOf;
    if InRecovery(pc) || InSubmit(pc) {
      CaughtKeepsPursuit(pc, reply);
      SubmitPursuit(pc);
      if OnThrow(pc, reply).Some? {
        SubmitPursuit(OnThrow(pc, reply).value);
      }
    } else {
      AuxiliaryThrowKeepsPursuit(pc, reply);
    }
  }

  lemma SubmitPursuit(pc: Pc)
    ensures InRecovery(pc) || InSubmit(pc) ==> PursuitOf(pc) == FramePursuit(pc.frame)
  {
    hide FramePursuit;
  }

  lemma CaughtKeepsPursuit(pc: Pc, reply: Reply)
    requires InRecovery(pc) || InSubmit(pc)
    ensures var next := Catch(pc.frame, reply);
      next.Some? ==> next.value.ContentFail? && PursuitOf(next.value) == FramePursuit(pc.frame)
  {
  }

  lemma AuxiliaryThrowKeepsPursuit(pc: Pc, reply: Reply)
    requires !InRecovery(pc) && !InSubmit(pc)
    ensures var next := OnThrow(pc, reply); next.Some? ==> PursuitOf(next.value) == PursuitOf(pc) && !next.value.RunHead?
  {
  }

  /** What a step does to the counts: nobody's falls, and a Mint counted by `run` has just been confirmed. */
  ghost predicate Counts(w: World, after: World) {
    && 0 in w.procs && Listed(w.db) && Listed(after.db)
    && after.db.authorizations == w.db.authorizations
    && (forall account :: Sum(after.db, ConfirmedMints, account) >= Sum(w.db, ConfirmedMints, account))
    && (0 in after.procs && PursuitOf(after.procs[0]) != PursuitOf(w.procs[0]) ==>
          var owner := PursuitOf(w.procs[0]).owner;
          && after.procs[0].RunHead?
          && Sum(after.db, ConfirmedMints, owner) >= Sum(w.db, ConfirmedMints, owner) + 1)
  }

  /** A step without a statement of its own never counts a Mint. */
  lemma QuietKeepsPursuit(w: World, pc: Pc, reply: Reply)
    requires Listed(w.db) && PcOk(w, pc) && Act(pc, reply).None?
    ensures var next := Next(w, pc, reply); next.Some? ==> PursuitOf(next.value) == PursuitOf(pc)
  {
    hide Listed, Next, PcOk, PursuitOf;
    if InRecovery(pc) {
      QuietRecoveryKeepsPursuit(w, pc, reply);
    } else {
      OthersKeepPursuit(w, pc, reply);
    }
  }

  lemma QuietRecoveryKeepsPursuit(w: World, pc: Pc, reply: Reply)
    requires Listed(w.db) && InRecovery(pc) && PcOk(w, pc) && Act(pc, reply).None?
    ensures var next := Next(w, pc, reply); next.Some? ==> PursuitOf(next.value) == PursuitOf(pc)
  {
    hide Listed, IssuedId, Unresolved, UnsentMint, CertificateExpired, RowOr, Current, FrameOk, Backed, IssuedOk, ResultOk, Undecided;
  }

  /** The statement of a recovery point writes to the record being recovered. */
  lemma RecordIsHeld(w: World, pc: Pc, reply: Reply)
    requires PcOk(w, pc) && InRecovery(pc) && Act(pc, reply).Some? && pc.frame.AfterMint?
    ensures !pc.RecoverEntry? && Act(pc, reply).value.id == pc.op.id && pc.op.id in w.db.rows
    ensures w.db.rows[pc.op.id].kind.Mint? && w.db.rows[pc.op.id].account == pc.frame.account
  {
    hide Backed, IssuedOk, ResultOk, Unresolved, GasOf;
  }

  /** A statement of the live process, and what its success makes `run` count. */
  lemma StatementCounts(w: World, after: World, pc: Pc, reply: Reply)
    requires Sound(w.db) && PcOk(w, pc) && Act(pc, reply).Some? && Attempt(w.db, Act(pc, reply).value).Done?
    requires after.db == Apply(w.db, Act(pc, reply).value)
    ensures Listed(w.db) && Listed(after.db) && after.db.authorizations == w.db.authorizations
    ensures forall account :: Sum(after.db, ConfirmedMints, account) >= Sum(w.db, ConfirmedMints, account)
    ensures var next := Next(after, pc, reply); var owner := PursuitOf(pc).owner;
      next.Some? && PursuitOf(next.value) != PursuitOf(pc) ==>
        next.value.RunHead? && Sum(after.db, ConfirmedMints, owner) >= Sum(w.db, ConfirmedMints, owner) + 1
  {
    hide Sound, Listed, PcOk, Act, Attempt, Apply, Next, PursuitOf, Sum, ConfirmedMint, InRecovery, Cell;
    var action := Act(pc, reply).value;
    SoundIsListed(w.db);
    ApplyKeepsSound(w.db, action);
    SoundIsListed(after.db);
    ActsOnOpenRows(w, pc, reply);
    AuthorizationsStay(w.db, action);
    forall account ensures Sum(after.db, ConfirmedMints, account) >= Sum(w.db, ConfirmedMints, account) {
      ConfirmedGrows(w.db, action, account);
    }
    ConfirmedGrows(w.db, action, PursuitOf(pc).owner);
    var next := Next(after, pc, reply);
    if next.Some? && PursuitOf(next.value) != PursuitOf(pc) {
      CountedIsConfirmed(after, pc, reply);
      RecordIsHeld(w, pc, reply);
      NewlyConfirmed(w.db, after.db, action, pc);
    }
  }

  lemma NewlyConfirmed(db: Db, after: Db, action: Action, pc: Pc)
    requires Sound(db) && Attempt(db, action).Done? && after == Apply(db, action)
    requires !action.Grant? && !action.Revoke? && !action.Stop? && !action.ClearStop?
    requires InRecovery(pc) && pc.frame.AfterMint? && action.id == pc.op.id && action.id in db.rows
    requires db.rows[action.id].kind.Mint? && db.rows[action.id].account == pc.frame.account && !ConfirmedMint(db.rows[action.id])
    requires RowOr(after, pc.op.id, pc.op.row).state.MintConfirmed?
    ensures !LeavesTable(db, action) && PursuitOf(pc).owner == pc.frame.account
    ensures action.id in after.rows && Cell(ConfirmedMints, PursuitOf(pc).owner, after.rows[action.id]) == 1
  {
    hide Sound, Put;
    if LeavesTable(db, action) {
      TableIsLeft(db, action);
    }
    ApplyKeepsSound(db, action);
    assert LaterRow(db.rows[action.id], after.rows[action.id]);
  }

  /** Any answer, a repeated request id included. */
  lemma StepCounts(w: World, reply: Reply)
    requires Solo(w) && 0 in w.procs
    ensures Sound(w.db) && Counts(w, StepProcess(w, 0, reply))
  {
    hide RowsOk, PcOk, Sound, Listed, Next, OnThrow, Act, Attempt, PursuitOf, Sum, IssuedId;
    var pc := w.procs[0];
    SoundIsListed(w.db);
    ThrowKeepsPursuit(pc, reply);
    var noted := w.(
      submissions := if pc.SubmitCall? then w.submissions + [Submission(pc.id, pc.request)] else w.submissions,
      used := if pc.SubmitPrepare? then w.used + {reply.id} else w.used,
      decided := if Decisive(pc, reply, w) then w.decided + {pc.op.id} else w.decided);
    VerdictsOnlyGrow(w, noted, pc);
    var action := Act(pc, reply);
    if action.None? {
      QuietKeepsPursuit(noted, pc, reply);
    } else if Attempt(w.db, action.value).Done? {
      ApplyKeepsSound(w.db, action.value);
      StatementCounts(w, noted.(db := Apply(w.db, action.value)), pc, reply);
    }
  }

  /** `run` has counted no Mint the ledger does not hold and, past the test at the top of its loop, fewer than authorized. */
  ghost predicate CountOk(db: Db, pc: Pc, account: Account, maxMints: nat) {
    var pursuit := PursuitOf(pc);
    pursuit.goal.Running? ==>
      && Listed(db) && pursuit.owner == account
      && account in db.authorizations && db.authorizations[account].maxMints == maxMints
      && var counted := pursuit.goal.base + pursuit.goal.completed;
        && counted <= Sum(db, ConfirmedMints, account)
        && (!pc.RunHead? ==> counted < maxMints)
        && (pursuit.goal.completed > 0 ==> counted <= maxMints)
  }

  ghost predicate InOrder(w: World, account: Account, maxMints: nat) {
    Solo(w) && (0 in w.procs ==> CountOk(w.db, w.procs[0], account, maxMints))
  }

  /** The test at the top of the loop lets `run` go on only below the authorized number. */
  lemma LoopTest(w: World, reply: Reply)
    requires Sound(w.db) && 0 in w.procs && w.procs[0].RunHead?
    ensures var after := StepProcess(w, 0, reply); var pc := w.procs[0];
      0 in after.procs ==>
        && Listed(w.db) && after.db == w.db && PursuitOf(after.procs[0]) == PursuitOf(pc)
        && pc.account in w.db.authorizations
        && Sum(w.db, ConfirmedMints, pc.account) < w.db.authorizations[pc.account].maxMints
  {
    hide Sound, Sum, Unsettled;
    SoundIsListed(w.db);
  }

  lemma StepKeepsOrder(w: World, reply: Reply, account: Account, maxMints: nat)
    requires InOrder(w, account, maxMints) && 0 in w.procs
    ensures Sound(w.db) && InOrder(StepProcess(w, 0, reply), account, maxMints)
  {
    hide Solo, StepProcess, PursuitOf, Sum, Listed, RankOf;
    SoloStep(w, reply);
    StepCounts(w, reply);
    if w.procs[0].RunHead? {
      LoopTest(w, reply);
      HeadPursuit(w.procs[0]);
    }
    if w.procs[0].SubmitPrepare? && reply.id in w.used {
      RepeatedId(w, reply);
    } else {
      StepAdvances(w, reply, maxMints);
    }
  }

  lemma HeadPursuit(pc: Pc)
    requires pc.RunHead?
    ensures PursuitOf(pc) == Pursuit(pc.account, pc.goal)
  {
  }

  lemma RepeatedId(w: World, reply: Reply)
    requires Sound(w.db) && 0 in w.procs && w.procs[0].SubmitPrepare? && reply.id in w.used
    ensures var after := StepProcess(w, 0, reply);
      after.db == w.db && (0 in after.procs ==> !after.procs[0].RunHead? && PursuitOf(after.procs[0]) == PursuitOf(w.procs[0]))
  {
    hide Sound;
  }

  /** What goes on around the process: time, the chain, `stop`, and `authorize` for other accounts. */
  predicate Surrounding(input: Input, account: Account) {
    match input
    case Tick(_) => true
    case Issue(_, _) => true
    case Launch(pid, who, command) => pid != 0 && (command.StopCommand? || (command.AuthorizeCommand? && who != account))
    case _ => false
  }

  lemma SurroundingLeavesProcess(w: World, input: Input, account: Account)
    requires Sound(w.db) && Surrounding(input, account)
    ensures var after := React(w, input);
      && after.procs == w.procs && after.used == w.used && after.db.rows == w.db.rows && after.db.order == w.db.order
      && (account in w.db.authorizations ==>
            account in after.db.authorizations
            && after.db.authorizations[account].maxMints == w.db.authorizations[account].maxMints)
  {
    hide Sound, Administer, StepProcess;
  }

  lemma ReactKeepsOrder(w: World, input: Input, account: Account, maxMints: nat)
    requires InOrder(w, account, maxMints) && Surrounding(input, account)
    ensures Sound(w.db) && InOrder(React(w, input), account, maxMints) && React(w, input).procs == w.procs
  {
    hide Solo, React, PursuitOf, Sum, Listed;
    SoloIsListed(w);
    SoloReact(w, input);
    SoloIsListed(React(w, input));
    SurroundingLeavesProcess(w, input, account);
    SameSum(w.db, React(w, input).db, account);
  }

  lemma SoloIsListed(w: World)
    requires Solo(w)
    ensures Sound(w.db) && Listed(w.db)
  {
  }

  lemma {:induction false} PlayKeepsOrder(w: World, inputs: seq<Input>, account: Account, maxMints: nat)
    requires InOrder(w, account, maxMints) && forall i :: 0 <= i < |inputs| ==> Surrounding(inputs[i], account)
    ensures Sound(w.db) && InOrder(Play(w, inputs), account, maxMints) && Play(w, inputs).procs == w.procs
    decreases |inputs|
  {
    hide CountOk, Solo, React, Surrounding;
    SoloIsListed(w);
    if inputs != [] {
      ReactKeepsOrder(w, inputs[0], account, maxMints);
      PlayKeepsOrder(React(w, inputs[0]), inputs[1..], account, maxMints);
    }
  }

  /** Any answers, errors and reported gas, as long as request ids are new. */
  ghost predicate FairAnswers(answers: World -> Reply) {
    forall w: World :: answers(w).id !in w.used
  }

  ghost predicate AllSurrounding(around: nat -> seq<Input>, account: Account) {
    forall k, i :: 0 <= i < |around(k)| ==> Surrounding(around(k)[i], account)
  }

  /** The k-th and later steps of process 0, each preceded by what happens around it meanwhile. */
  ghost function Steps(w: World, answers: World -> Reply, around: nat -> seq<Input>, k: nat, count: nat): (after: World)
    requires Sound(w.db)
    ensures Sound(after.db)
    decreases count
  {
    if count == 0 then w
    else
      var met := Play(w, around(k));
      Steps(if 0 in met.procs then StepProcess(met, 0, answers(met)) else met, answers, around, k + 1, count - 1)
  }

  /** The first of several steps. */
  lemma StepsOn(w: World, answers: World -> Reply, around: nat -> seq<Input>, k: nat, rest: nat)
    requires Sound(w.db) && 0 in Play(w, around(k)).procs
    ensures var met := Play(w, around(k));
      Steps(w, answers, around, k, rest + 1) == Steps(StepProcess(met, 0, answers(met)), answers, around, k + 1, rest)
  {
    hide Sound, StepProcess, Play;
  }

  lemma NoStep(w: World, answers: World -> Reply, around: nat -> seq<Input>, k: nat)
    requires Sound(w.db)
    ensures Steps(w, answers, around, k, 0) == w
  {
  }

  lemma OrderIsSound(w: World, account: Account, maxMints: nat)
    requires InOrder(w, account, maxMints)
    ensures Sound(w.db)
  {
  }

  lemma PlaysAround(w: World, around: nat -> seq<Input>, k: nat, account: Account, maxMints: nat)
    requires InOrder(w, account, maxMints) && AllSurrounding(around, account)
    ensures Sound(w.db) && InOrder(Play(w, around(k)), account, maxMints) && Play(w, around(k)).procs == w.procs
  {
    hide InOrder, Surrounding;
    PlayKeepsOrder(w, around(k), account, maxMints);
  }

  lemma FairStepAdvances(w: World, answers: World -> Reply, account: Account, maxMints: nat)
    requires InOrder(w, account, maxMints) && 0 in w.procs && FairAnswers(answers)
    ensures Sound(w.db)
    ensures var after := StepProcess(w, 0, answers(w));
      && InOrder(after, account, maxMints)
      && (0 in after.procs ==>
            && Smaller(RankOf(after.procs[0], maxMints), RankOf(w.procs[0], maxMints))
            && (RankOf(after.procs[0], maxMints).runs < RankOf(w.procs[0], maxMints).runs ==> RankOf(w.procs[0], maxMints).runs >= 0))
  {
    hide InOrder, StepProcess, RankOf, Smaller, SameRun;
    OrderIsSound(w, account, maxMints);
    StepKeepsOrder(w, answers(w), account, maxMints);
    StepAdvances(w, answers(w), maxMints);
    if 0 in StepProcess(w, 0, answers(w)).procs {
      RunsNotExceeded(w, answers(w), account, maxMints);
    }
  }

  /** From wherever a process is, some number of answers later it is done. */
  lemma {:induction false} PointEnds(
    w: World, answers: World -> Reply, around: nat -> seq<Input>, k: nat, account: Account, maxMints: nat)
    returns (count: nat)
    requires InOrder(w, account, maxMints) && FairAnswers(answers) && AllSurrounding(around, account)
    ensures Sound(w.db) && 0 !in Steps(w, answers, around, k, count).procs
    decreases if 0 in w.procs then 1 else 0,
      if 0 in w.procs then RankOf(w.procs[0], maxMints).runs else 0,
      if 0 in w.procs then RankOf(w.procs[0], maxMints).stage else 0,
      if 0 in w.procs then RankOf(w.procs[0], maxMints).todo else 0,
      if 0 in w.procs then RankOf(w.procs[0], maxMints).point else 0
  {
    hide InOrder, RankOf, StepProcess, Play, Steps, FairAnswers, AllSurrounding;
    OrderIsSound(w, account, maxMints);
    if 0 !in w.procs {
      count := 0;
      NoStep(w, answers, around, k);
    } else {
      PlaysAround(w, around, k, account, maxMints);
      var met := Play(w, around(k));
      FairStepAdvances(met, answers, account, maxMints);
      var rest := PointEnds(StepProcess(met, 0, answers(met)), answers, around, k + 1, account, maxMints);
      count := rest + 1;
      StepsOn(w, answers, around, k, rest);
    }
  }

  /** A run that counts one more Mint had one left. */
  lemma RunsNotExceeded(w: World, reply: Reply, account: Account, maxMints: nat)
    requires InOrder(w, account, maxMints) && Sound(w.db) && 0 in w.procs && 0 in StepProcess(w, 0, reply).procs
    ensures RankOf(StepProcess(w, 0, reply).procs[0], maxMints).runs < RankOf(w.procs[0], maxMints).runs ==>
      RankOf(w.procs[0], maxMints).runs >= 0
  {
    hide Solo, StepProcess, PursuitOf, Sum, Listed, StageOf, TodoOf, PointOf;
    if w.procs[0].RunHead? {
      LoopTest(w, reply);
    }
  }

  /** Where a launched command starts, it is in order. */
  lemma LaunchIsInOrder(w: World, account: Account, command: Command)
    requires Solo(w) && 0 !in w.procs
    ensures Sound(w.db)
    ensures InOrder(React(w, Launch(0, account, command)), account,
      if account in w.db.authorizations then w.db.authorizations[account].maxMints else 0)
  {
    hide Solo, Sum, Unsettled, Listed, Administer;
    SoloIsListed(w);
    SoloReact(w, Launch(0, account, command));
  }

  /**
   * Main result: every command of the live process ends after some number of answers, whatever they are and
   * whatever happens around it, as long as nobody authorizes the same account anew meanwhile.
   */
  lemma CommandEnds(w: World, account: Account, command: Command, answers: World -> Reply, around: nat -> seq<Input>)
    returns (count: nat)
    requires Solo(w) && 0 !in w.procs && FairAnswers(answers) && AllSurrounding(around, account)
    ensures Sound(w.db) && 0 !in Steps(React(w, Launch(0, account, command)), answers, around, 0, count).procs
  {
    hide InOrder, Solo, React, FairAnswers, AllSurrounding, Steps;
    LaunchIsInOrder(w, account, command);
    count := PointEnds(React(w, Launch(0, account, command)), answers, around, 0, account,
      if account in w.db.authorizations then w.db.authorizations[account].maxMints else 0);
  }

  /** Anything the one live process may meet while its `run` command is at work. */
  predicate RunInput(input: Input, account: Account) {
    && SoloInput(input)
    && (input.Launch? ==> Surrounding(input, account))
  }

  ghost predicate InRun(w: World, account: Account, maxMints: nat, base: nat) {
    && InOrder(w, account, maxMints)
    && (0 in w.procs ==> PursuitOf(w.procs[0]).goal.Running? && PursuitOf(w.procs[0]).goal.base == base)
  }

  lemma StepKeepsRun(w: World, reply: Reply, account: Account, maxMints: nat, base: nat)
    requires InRun(w, account, maxMints, base) && 0 in w.procs
    ensures Sound(w.db) && InRun(StepProcess(w, 0, reply), account, maxMints, base)
  {
    hide Solo, StepProcess, PursuitOf, CountOk, RankOf;
    SoloIsListed(w);
    StepKeepsOrder(w, reply, account, maxMints);
    if w.procs[0].SubmitPrepare? && reply.id in w.used {
      RepeatedId(w, reply);
    } else {
      StepAdvances(w, reply, maxMints);
    }
  }

  lemma ReactKeepsRun(w: World, input: Input, account: Account, maxMints: nat, base: nat)
    requires InRun(w, account, maxMints, base) && RunInput(input, account)
    ensures Sound(w.db) && InRun(React(w, input), account, maxMints, base)
  {
    hide Solo, StepProcess, PursuitOf, CountOk;
    SoloIsListed(w);
    if input.Step? {
      if 0 in w.procs {
        StepKeepsRun(w, input.reply, account, maxMints, base);
      }
    } else if input.Crash? {
      SoloReact(w, input);
    } else {
      ReactKeepsOrder(w, input, account, maxMints);
    }
  }

  lemma {:induction false} PlayKeepsRun(w: World, inputs: seq<Input>, account: Account, maxMints: nat, base: nat)
    requires InRun(w, account, maxMints, base) && forall i :: 0 <= i < |inputs| ==> RunInput(inputs[i], account)
    ensures Sound(w.db) && InRun(Play(w, inputs), account, maxMints, base)
    decreases |inputs|
  {
    hide InRun, RunInput, React;
    RunIsSound(w, account, maxMints, base);
    if inputs != [] {
      ReactKeepsRun(w, inputs[0], account, maxMints, base);
      PlayKeepsRun(React(w, inputs[0]), inputs[1..], account, maxMints, base);
    }
  }

  lemma RunIsSound(w: World, account: Account, maxMints: nat, base: nat)
    requires InRun(w, account, maxMints, base)
    ensures Sound(w.db)
  {
  }

  lemma RunBegins(w: World, account: Account)
    requires Solo(w) && 0 !in w.procs && account in w.db.authorizations
    ensures Sound(w.db) && Listed(w.db)
    ensures InRun(React(w, Launch(0, account, Run)), account, w.db.authorizations[account].maxMints, Sum(w.db, ConfirmedMints, account))
  {
    hide Solo, Sum, Listed, InOrder;
    SoloIsListed(w);
    LaunchIsInOrder(w, account, Run);
  }

  /**
   * Main result: whatever it meets, a `run` counts at most the Mints the ledger has confirmed since its launch,
   * and never more than the authorization had left.
   */
  lemma RunCompletesWithinAuthorization(w: World, inputs: seq<Input>, account: Account)
    requires Solo(w) && 0 !in w.procs && account in w.db.authorizations
    requires forall i :: 0 <= i < |inputs| ==> RunInput(inputs[i], account)
    ensures Sound(w.db) && Listed(w.db)
    ensures var start, maxMints := Sum(w.db, ConfirmedMints, account), w.db.authorizations[account].maxMints;
      var after := Play(React(w, Launch(0, account, Run)), inputs);
      0 in after.procs ==>
        && Listed(after.db) && PursuitOf(after.procs[0]).goal.Running?
        && var completed := PursuitOf(after.procs[0]).goal.completed;
          && PursuitOf(after.procs[0]).goal.base == start
          && start + completed <= Sum(after.db, ConfirmedMints, account)
          && (completed > 0 ==> start + completed <= maxMints)
  {
    hide Solo, Sum, Listed, RunInput, React, Play, PursuitOf;
    RunBegins(w, account);
    PlayKeepsRun(React(w, Launch(0, account, Run)), inputs, account,
      w.db.authorizations[account].maxMints, Sum(w.db, ConfirmedMints, account));
  }
}
