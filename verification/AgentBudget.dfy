/** Unattended Mints of one account under a fixed authorization: the budget is never exceeded. */
module AgentBudget {
  import opened Options
  import opened LedgerModel
  import opened LedgerRuns
  import opened LedgerSums
  import opened Agent
  import opened AgentSolo

  datatype Limits = Limits(maxMints: nat, maxFee: nat, maxGas: nat)

  function LimitsOf(a: Authorization): Limits {
    Limits(a.maxMints, a.maxFee, a.maxGas)
  }

  /** Everything spent or reserved by the account's Mints fits the authorization. */
  ghost predicate Within(db: Db, account: Account, limits: Limits) {
    && Listed(db)
    && account in db.authorizations
    && LimitsOf(db.authorizations[account]) == limits
    && Occupied(db, account) <= limits.maxMints
    && FeeUse(db, account) <= limits.maxFee
    && GasUse(db, account) <= limits.maxGas
  }

  /** No manual Mint of the account, no new authorization for it, and no wallet reporting more gas than was committed. */
  predicate BudgetInput(w: World, input: Input, account: Account) {
    && SoloInput(input)
    && (input.Launch? && input.account == account ==> input.command != MineOnce(true) && !input.command.AuthorizeCommand?)
    && (input.Step? && input.pid in w.procs && w.procs[input.pid].RecoverQuery? ==>
        GasOf(input.reply.result, 0) <= w.procs[input.pid].op.row.gasCommitted)
  }

  predicate GasOk(result: QueryResult, row: Row) {
    GasOf(result, 0) <= row.gasCommitted
  }

  /** A goal pursued for the account is never a confirmed manual Mint, and a run counts no Mint the ledger does not. */
  ghost predicate GoalOk(db: Db, owner: Account, goal: Goal, account: Account)
    requires Listed(db)
  {
    owner == account ==>
      && goal != Once(true)
      && (goal.Running? ==> goal.base + goal.completed <= Sum(db, ConfirmedMints, account))
  }

  ghost predicate RunOk(db: Db, owner: Account, goal: Goal, account: Account)
    requires Listed(db)
  {
    GoalOk(db, owner, goal, account) && (owner == account ==> goal.Running?)
  }

  ghost predicate FrameGoalOk(db: Db, frame: Frame, account: Account)
    requires Listed(db)
  {
    match frame
    case InSweep(owner, _, goal) => GoalOk(db, owner, goal, account)
    case AfterMint(owner, goal) => RunOk(db, owner, goal, account)
    case AfterAuxiliary(_, _) => true
  }

  /** Replacing the commitment of operation id by the Mint fee and this gas stays within the limits. */
  ghost predicate Affordable(db: Db, id: OperationId, gas: nat, account: Account, limits: Limits)
    requires Listed(db)
  {
    && id in db.rows
    && FeeUse(db, account) - db.rows[id].feeCommitted + MINT_FEE <= limits.maxFee
    && GasUse(db, account) - db.rows[id].gasCommitted + gas <= limits.maxGas
  }

  /** What a program point must know for the next ledger statement to stay within the limits. */
  ghost predicate PcWithin(db: Db, pc: Pc, account: Account, limits: Limits)
    requires Listed(db)
  {
    match pc
    case Sweep(owner, _, goal) => GoalOk(db, owner, goal, account)
    case RecoverEntry(frame, op) => FrameGoalOk(db, frame, account)
    case RecoverRelease(frame, _) => FrameGoalOk(db, frame, account)
    case RecoverMark(frame, _) => FrameGoalOk(db, frame, account)
    case RecoverChain(frame, _) => FrameGoalOk(db, frame, account)
    case RecoverQuery(frame, _, _) => FrameGoalOk(db, frame, account)
    case RecoverSettle(frame, op, _, result) => FrameGoalOk(db, frame, account) && GasOk(result, op.row)
    case RecoverOutcome(frame, op, result) => FrameGoalOk(db, frame, account) && GasOk(result, op.row)
    case RecoverConsumed(frame, op, result, _) => FrameGoalOk(db, frame, account) && GasOk(result, op.row)
    case RunHead(owner, goal) => RunOk(db, owner, goal, account)
    case MineChoose(owner, goal) => GoalOk(db, owner, goal, account) && !goal.StatusOnly?
    case MinePreflight(owner, goal) => RunOk(db, owner, goal, account)
    case Mining(owner, goal) => RunOk(db, owner, goal, account) && (owner == account ==> Occupied(db, account) + 1 <= limits.maxMints)
    case MineBegin(owner, goal, _, _, _) => RunOk(db, owner, goal, account) && (owner == account ==> Occupied(db, account) + 1 <= limits.maxMints)
    case MineStore(owner, goal, _) => RunOk(db, owner, goal, account)
    case Resume(owner, goal, _) => RunOk(db, owner, goal, account)
    case SendStart(owner, goal, _) => RunOk(db, owner, goal, account)
    case SendSimulate(owner, goal, _) => RunOk(db, owner, goal, account)
    case SendBudget(owner, goal, _, _) => RunOk(db, owner, goal, account)
    case SendCommit(owner, goal, id, gas) =>
      RunOk(db, owner, goal, account) && (owner == account ==> Affordable(db, id, gas, account, limits))
    case SubmitPrepare(frame, _) => FrameGoalOk(db, frame, account)
    case SubmitRefused(frame, _) => FrameGoalOk(db, frame, account)
    case SubmitAttach(frame, _, _, _) => FrameGoalOk(db, frame, account)
    case SubmitCall(frame, _, _) => FrameGoalOk(db, frame, account)
    case SubmitRecord(frame, _, _) => FrameGoalOk(db, frame, account)
    case SubmitLost(frame, _) => FrameGoalOk(db, frame, account)
    case _ => true
  }

  ghost predicate MaybeWithin(db: Db, pc: Option<Pc>, account: Account, limits: Limits)
    requires Listed(db)
  {
    pc.Some? ==> PcWithin(db, pc.value, account, limits)
  }

  ghost predicate Budgeted(w: World, account: Account, limits: Limits) {
    && Solo(w)
    && Within(w.db, account, limits)
    && (0 in w.procs ==> PcWithin(w.db, w.procs[0], account, limits))
  }

  /** The two budget gates: a process of the account passes only when the next Mint, or this one's gas, still fits. */
  lemma GateWithin(w: World, pc: Pc, reply: Reply, account: Account, limits: Limits)
    requires Listed(w.db) && PcOk(w, pc) && Within(w.db, account, limits) && PcWithin(w.db, pc, account, limits)
    requires pc.MinePreflight? || pc.SendBudget?
    ensures MaybeWithin(w.db, Next(w, pc, reply), account, limits)
  {
    hide Listed, Sum, FirstResumable, Unsettled, CanStartMint, IssuedId, Undecided, Awaiting, FrameOk, Submitting;
  }

  lemma ReadingWithin(w: World, pc: Pc, reply: Reply, account: Account, limits: Limits)
    requires Listed(w.db) && PcOk(w, pc) && PcWithin(w.db, pc, account, limits)
    requires Act(pc, reply).None? && !pc.RecoverQuery? && !pc.MinePreflight? && !pc.SendBudget?
    requires !pc.RecoverEntry? && !pc.RecoverChain? && !pc.RecoverSettle? && !pc.RecoverOutcome?
    ensures MaybeWithin(w.db, Next(w, pc, reply), account, limits)
  {
    hide Listed, Sum, FirstResumable, Unsettled, CanStartMint, IssuedId, Undecided, Awaiting, FrameOk, Submitting;
    hide BudgetRefusal, Occupied, FeeUse, GasUse, Affordable, PcOk;
  }

  lemma ReadingRecoveryWithin(w: World, pc: Pc, reply: Reply, account: Account, limits: Limits)
    requires Listed(w.db) && PcOk(w, pc) && PcWithin(w.db, pc, account, limits)
    requires Act(pc, reply).None?
    requires pc.RecoverEntry? || pc.RecoverChain? || pc.RecoverSettle? || pc.RecoverOutcome?
    ensures MaybeWithin(w.db, Next(w, pc, reply), account, limits)
  {
    hide Listed, Sum, FirstResumable, Unsettled, CanStartMint, IssuedId, Awaiting, FrameOk, Submitting;
    hide BudgetRefusal, Occupied, FeeUse, GasUse, Affordable;
  }

  lemma QueryWithin(w: World, pc: Pc, reply: Reply, account: Account, limits: Limits)
    requires Listed(w.db) && PcWithin(w.db, pc, account, limits)
    requires pc.RecoverQuery? && GasOk(reply.result, pc.op.row)
    ensures MaybeWithin(w.db, Next(w, pc, reply), account, limits)
  {
    hide Listed, Sum;
  }

  /** An error is caught where the goal of its frame still holds. */
  lemma ThrowWithin(db: Db, pc: Pc, reply: Reply, account: Account, limits: Limits)
    requires Listed(db) && PcWithin(db, pc, account, limits)
    ensures MaybeWithin(db, OnThrow(pc, reply), account, limits)
  {
    hide Listed, PcWithin, MaybeWithin, OnThrow;
    if pc.SubmitPrepare? || pc.SubmitCall? || pc.SubmitRecord? {
      ThrownSubmissionWithin(db, pc, reply, account, limits);
    } else {
      ThrownOutWithin(db, pc, reply, account, limits);
    }
  }

  lemma ThrownSubmissionWithin(db: Db, pc: Pc, reply: Reply, account: Account, limits: Limits)
    requires Listed(db) && PcWithin(db, pc, account, limits) && (pc.SubmitPrepare? || pc.SubmitCall? || pc.SubmitRecord?)
    ensures MaybeWithin(db, OnThrow(pc, reply), account, limits)
  {
    hide Listed, FrameGoalOk;
  }

  lemma ThrownOutWithin(db: Db, pc: Pc, reply: Reply, account: Account, limits: Limits)
    requires Listed(db) && !(pc.SubmitPrepare? || pc.SubmitCall? || pc.SubmitRecord?)
    ensures MaybeWithin(db, OnThrow(pc, reply), account, limits)
  {
    hide Listed, FrameGoalOk, GoalOk, RunOk, Affordable;
  }

  /** The later row claims no more of any limit, and stays confirmed if it was. */
  predicate ClaimsNoMore(account: Account, row: Row, later: Row) {
    && OccupiedBy(account, later) <= OccupiedBy(account, row)
    && FeeBy(account, later) <= FeeBy(account, row)
    && GasBy(account, later) <= GasBy(account, row)
    && Cell(ConfirmedMints, account, row) <= Cell(ConfirmedMints, account, later)
  }

  /** At most the row of id was written, under the indexes. */
  predicate Wrote(db: Db, after: Db, id: OperationId) {
    after == db || (id in after.rows && Put(db, id, after.rows[id]) == Done(after))
  }

  lemma WrittenWithin(db: Db, after: Db, id: OperationId, account: Account, limits: Limits)
    requires Within(db, account, limits) && id in db.rows && id in after.rows
    requires Wrote(db, after, id)
    requires ClaimsNoMore(account, db.rows[id], after.rows[id])
    ensures Within(after, account, limits)
    ensures Sum(after, ConfirmedMints, account) + Cell(ConfirmedMints, account, db.rows[id])
      == Sum(db, ConfirmedMints, account) + Cell(ConfirmedMints, account, after.rows[id])
  {
    hide Sum, Listed, OccupiedBy, FeeBy, GasBy, Cell, Occupied, FeeUse, GasUse, ActiveClash, RequestClash;
    if after != db {
      UseAfterPut(db, id, after.rows[id], account);
    }
  }

  lemma ReturnWithin(before: Db, db: Db, frame: Frame, row: Row, account: Account, limits: Limits)
    requires Listed(before) && Listed(db) && FrameGoalOk(before, frame, account)
    requires Sum(before, ConfirmedMints, account) <= Sum(db, ConfirmedMints, account)
    requires frame.AfterMint? && row.state.MintConfirmed? && frame.account == account ==>
      Sum(before, ConfirmedMints, account) < Sum(db, ConfirmedMints, account)
    ensures MaybeWithin(db, Return(frame, row), account, limits)
    ensures FrameGoalOk(db, frame, account)
  {
    hide Sum, Listed;
  }

  /** The statement of a recovery point claims no more than before, and a Mint confirmed here is newly counted. */
  ghost predicate Claims(w: World, after: World, frame: Frame, id: OperationId, account: Account) {
    && id in w.db.rows && id in after.db.rows && Wrote(w.db, after.db, id)
    && ClaimsNoMore(account, w.db.rows[id], after.db.rows[id])
    && (frame.AfterMint? && after.db.rows[id].state.MintConfirmed? && frame.account == account ==>
          Cell(ConfirmedMints, account, w.db.rows[id]) < Cell(ConfirmedMints, account, after.db.rows[id]))
  }

  /** An unresolved Mint has spent nothing yet. */
  predicate Open(row: Row) {
    Unresolved(row.state) && (row.kind.Mint? ==> row.feeSpent == 0 && row.gasSpent == 0)
  }

  /** Settling an open row never claims more than its commitment did. */
  lemma SettlingClaims(db: Db, after: Db, action: Action, account: Account)
    requires action.Confirm? || action.Fail?
    requires action.id in db.rows && Open(db.rows[action.id]) && action.gas <= db.rows[action.id].gasCommitted
    requires Attempt(db, action) == Done(after)
    ensures action.id in after.rows && Wrote(db, after, action.id)
    ensures ClaimsNoMore(account, db.rows[action.id], after.rows[action.id])
    ensures action.Confirm? && db.rows[action.id].kind.Mint? && db.rows[action.id].account == account ==>
      Cell(ConfirmedMints, account, db.rows[action.id]) < Cell(ConfirmedMints, account, after.rows[action.id])
    ensures after.rows[action.id].state.MintConfirmed? ==> action.Confirm?
  {
    hide ActiveClash, RequestClash;
  }

  lemma TrackingClaims(db: Db, after: Db, action: Action, account: Account)
    requires action.Pend? || action.LoseTrack?
    requires action.id in db.rows && Open(db.rows[action.id])
    requires Attempt(db, action) == Done(after)
    ensures action.id in after.rows && Wrote(db, after, action.id)
    ensures ClaimsNoMore(account, db.rows[action.id], after.rows[action.id])
    ensures !after.rows[action.id].state.MintConfirmed?
  {
    hide ActiveClash, RequestClash;
  }

  lemma EarlyClaims(db: Db, after: Db, action: Action, account: Account)
    requires action.Release? || action.Recover? || action.Record?
    requires action.id in db.rows && Open(db.rows[action.id])
    requires Attempt(db, action) == Done(after)
    ensures action.id in after.rows && Wrote(db, after, action.id)
    ensures ClaimsNoMore(account, db.rows[action.id], after.rows[action.id])
    ensures !after.rows[action.id].state.MintConfirmed?
  {
    hide ActiveClash, RequestClash;
  }

  lemma RecoveringIsUnresolved()
    ensures Unresolved(Recovering)
  {
  }

  lemma RecoveryClaims(w: World, after: World, pc: Pc, reply: Reply, account: Account)
    requires RowsOk(w) && PcOk(w, pc)
    requires pc.RecoverRelease? || pc.RecoverMark? || pc.RecoverSettle?
    requires pc.RecoverSettle? ==> GasOk(pc.result, pc.op.row)
    requires Act(pc, reply).Some? && Executed(w, after, Act(pc, reply).value)
    ensures Claims(w, after, pc.frame, pc.op.id, account)
  {
    hide Attempt, Awaiting, RowsOk, Wrote, ClaimsNoMore, Cell, Unresolved;
    RowOkAt(w, pc.op.id);
    var action := Act(pc, reply).value;
    RecoveringIsUnresolved();
    if action.Confirm? {
      SettlingClaims(w.db, after.db, action, account);
    } else {
      EarlyClaims(w.db, after.db, action, account);
    }
  }

  lemma VerdictClaims(w: World, after: World, pc: Pc, reply: Reply, account: Account)
    requires RowsOk(w) && PcOk(w, pc)
    requires pc.RecoverOutcome? || pc.RecoverConsumed?
    requires GasOk(pc.result, pc.op.row)
    requires Act(pc, reply).Some? && Executed(w, after, Act(pc, reply).value)
    ensures Claims(w, after, pc.frame, pc.op.id, account)
  {
    hide Attempt, Awaiting, RowsOk, Wrote, ClaimsNoMore, Cell, Unresolved;
    RowOkAt(w, pc.op.id);
    var action := Act(pc, reply).value;
    if action.Confirm? || action.Fail? {
      SettlingClaims(w.db, after.db, action, account);
    } else {
      TrackingClaims(w.db, after.db, action, account);
    }
  }

  lemma RecoveryWithin(w: World, after: World, pc: Pc, reply: Reply, account: Account, limits: Limits)
    requires Sound(w.db) && Sound(after.db) && RowsOk(w) && PcOk(w, pc)
    requires Within(w.db, account, limits) && PcWithin(w.db, pc, account, limits)
    requires pc.RecoverRelease? || pc.RecoverMark? || pc.RecoverSettle? || pc.RecoverOutcome? || pc.RecoverConsumed?
    requires Act(pc, reply).Some? && Executed(w, after, Act(pc, reply).value)
    ensures Within(after.db, account, limits) && MaybeWithin(after.db, Next(after, pc, reply), account, limits)
  {
    hide Sound, Listed, Sum, Within, PcOk, RowsOk, Executed, Put, Wrote, ClaimsNoMore, Cell, ActiveMint;
    SoundIsListed(w.db);
    SoundIsListed(after.db);
    var id := pc.op.id;
    if pc.RecoverOutcome? || pc.RecoverConsumed? {
      VerdictClaims(w, after, pc, reply, account);
    } else {
      RecoveryClaims(w, after, pc, reply, account);
    }
    ClaimsCount(account, w.db.rows[id], after.db.rows[id]);
    WrittenWithin(w.db, after.db, id, account, limits);
    ReturnWithin(w.db, after.db, pc.frame, after.db.rows[id], account, limits);
  }

  lemma ClaimsCount(account: Account, row: Row, later: Row)
    requires ClaimsNoMore(account, row, later)
    ensures Cell(ConfirmedMints, account, row) <= Cell(ConfirmedMints, account, later)
  {
  }

  lemma SubmitClaims(w: World, after: World, pc: Pc, reply: Reply, account: Account)
    requires RowsOk(w) && PcOk(w, pc)
    requires pc.SubmitRefused? || pc.SubmitAttach? || pc.SubmitRecord? || pc.SubmitLost?
    requires Act(pc, reply).Some? && Executed(w, after, Act(pc, reply).value)
    ensures var id := pc.id;
      && id in w.db.rows && id in after.db.rows && Wrote(w.db, after.db, id)
      && ClaimsNoMore(account, w.db.rows[id], after.db.rows[id])
      && (pc.frame.AfterMint? ==> !after.db.rows[id].state.MintConfirmed?)
  {
    hide ActiveClash, RequestClash, Awaiting, RowsOk;
    RowOkAt(w, pc.id);
  }

  lemma SubmitWithin(w: World, after: World, pc: Pc, reply: Reply, account: Account, limits: Limits)
    requires Sound(w.db) && Sound(after.db) && RowsOk(w) && PcOk(w, pc)
    requires Within(w.db, account, limits) && PcWithin(w.db, pc, account, limits)
    requires pc.SubmitRefused? || pc.SubmitAttach? || pc.SubmitRecord? || pc.SubmitLost?
    requires Act(pc, reply).Some? && Executed(w, after, Act(pc, reply).value)
    ensures Within(after.db, account, limits) && MaybeWithin(after.db, Next(after, pc, reply), account, limits)
  {
    hide Sound, Listed, Sum, Within, PcOk, RowsOk, Executed, Put, Wrote, ClaimsNoMore, Cell, ActiveMint;
    SoundIsListed(w.db);
    SoundIsListed(after.db);
    SubmitClaims(w, after, pc, reply, account);
    ClaimsCount(account, w.db.rows[pc.id], after.db.rows[pc.id]);
    WrittenWithin(w.db, after.db, pc.id, account, limits);
  }

  /** What the three statements write. */
  lemma MintClaims(w: World, after: World, pc: Pc, reply: Reply)
    requires RowsOk(w) && PcOk(w, pc)
    requires pc.MineBegin? || pc.MineStore? || pc.SendCommit?
    requires Act(pc, reply).Some? && Executed(w, after, Act(pc, reply).value)
    ensures var id := pc.id;
      && id in after.db.rows
      && Put(w.db, id, after.db.rows[id]) == Done(after.db)
      && (pc.MineBegin? ==> id !in w.db.rows)
      && (!pc.MineBegin? ==> id in w.db.rows)
      && after.db.authorizations == w.db.authorizations
  {
    hide ActiveClash, RequestClash, Awaiting, RowsOk, CanStartMint;
  }

  /** How they move the claims of one account. */
  lemma MintMoves(w: World, after: World, pc: Pc, reply: Reply, account: Account)
    requires RowsOk(w) && PcOk(w, pc)
    requires pc.MineBegin? || pc.MineStore? || pc.SendCommit?
    requires Act(pc, reply).Some? && Executed(w, after, Act(pc, reply).value)
    ensures var id := pc.id;
      && id in after.db.rows
      && (var later := after.db.rows[id];
          && (pc.account != account || pc.MineStore? ==>
                if id in w.db.rows then ClaimsNoMore(account, w.db.rows[id], later)
                else OccupiedBy(account, later) == FeeBy(account, later) == GasBy(account, later) == 0)
          && (pc.account == account && pc.MineBegin? ==>
                OccupiedBy(account, later) == 1 && FeeBy(account, later) == GasBy(account, later) == 0)
          && (pc.account == account && pc.SendCommit? ==>
                && OccupiedBy(account, later) == OccupiedBy(account, w.db.rows[id])
                && FeeBy(account, w.db.rows[id]) == w.db.rows[id].feeCommitted && FeeBy(account, later) == MINT_FEE
                && GasBy(account, w.db.rows[id]) == w.db.rows[id].gasCommitted && GasBy(account, later) == pc.gas
                && Cell(ConfirmedMints, account, w.db.rows[id]) == Cell(ConfirmedMints, account, later)))
  {
    hide ActiveClash, RequestClash, Awaiting, RowsOk, CanStartMint;
    if pc.id in w.db.rows {
      RowOkAt(w, pc.id);
    }
  }

  /** The three statements that write a Mint before it is sent: only these may claim more, and only what a gate has let through. */
  lemma MintUses(w: World, after: World, pc: Pc, reply: Reply, account: Account, limits: Limits)
    requires Sound(w.db) && Sound(after.db) && RowsOk(w) && PcOk(w, pc)
    requires Within(w.db, account, limits) && PcWithin(w.db, pc, account, limits)
    requires pc.MineBegin? || pc.MineStore? || pc.SendCommit?
    requires Act(pc, reply).Some? && Executed(w, after, Act(pc, reply).value)
    ensures Within(after.db, account, limits) && Sum(w.db, ConfirmedMints, account) <= Sum(after.db, ConfirmedMints, account)
  {
    hide Sound, Listed, Sum, PcOk, RowsOk, Executed, Put, Act, GoalOk;
    hide Cell, Occupied, FeeUse, GasUse, OccupiedBy, FeeBy, GasBy, ActiveMint;
    SoundIsListed(w.db);
    SoundIsListed(after.db);
    MintClaims(w, after, pc, reply);
    MintMoves(w, after, pc, reply, account);
    UseAfterPut(w.db, pc.id, after.db.rows[pc.id], account);
  }

  lemma MintGoesOnWithin(w: World, before: Db, pc: Pc, reply: Reply, account: Account, limits: Limits)
    requires Listed(w.db) && Listed(before) && PcWithin(before, pc, account, limits)
    requires pc.MineBegin? || pc.MineStore? || pc.SendCommit?
    requires Sum(before, ConfirmedMints, account) <= Sum(w.db, ConfirmedMints, account)
    ensures MaybeWithin(w.db, Next(w, pc, reply), account, limits)
  {
    hide Listed, Sum, Occupied, Affordable;
  }

  lemma MintWithin(w: World, after: World, pc: Pc, reply: Reply, account: Account, limits: Limits)
    requires Sound(w.db) && Sound(after.db) && RowsOk(w) && PcOk(w, pc)
    requires Within(w.db, account, limits) && PcWithin(w.db, pc, account, limits)
    requires pc.MineBegin? || pc.MineStore? || pc.SendCommit?
    requires Act(pc, reply).Some? && Executed(w, after, Act(pc, reply).value)
    ensures Within(after.db, account, limits) && MaybeWithin(after.db, Next(after, pc, reply), account, limits)
  {
    hide Sound, Within, PcOk, PcWithin, MaybeWithin, RowsOk, Executed, Act, Next, Sum;
    SoundIsListed(w.db);
    SoundIsListed(after.db);
    MintUses(w, after, pc, reply, account, limits);
    MintGoesOnWithin(after, w.db, pc, reply, account, limits);
  }

  /** Auxiliary operations are not Mints: their rows carry no claim. */
  lemma AuxiliaryClaims(w: World, after: World, pc: Pc, reply: Reply, account: Account)
    requires PcOk(w, pc)
    requires pc.AuxBegin? || pc.AuxRefused? || pc.AuxCommit? || pc.ContentFail?
    requires Act(pc, reply).Some? && Executed(w, after, Act(pc, reply).value)
    ensures pc.id in after.db.rows && Put(w.db, pc.id, after.db.rows[pc.id]) == Done(after.db)
    ensures !after.db.rows[pc.id].kind.Mint? && (pc.id in w.db.rows ==> !w.db.rows[pc.id].kind.Mint?)
    ensures after.db.authorizations == w.db.authorizations
  {
    hide ActiveClash, RequestClash, CanStartMint;
  }

  lemma NotAMint(account: Account, row: Row)
    requires !row.kind.Mint?
    ensures OccupiedBy(account, row) == FeeBy(account, row) == GasBy(account, row) == Cell(ConfirmedMints, account, row) == 0
  {
  }

  lemma UnclaimedWithin(db: Db, after: Db, id: OperationId, account: Account, limits: Limits)
    requires Within(db, account, limits) && id in after.rows && Put(db, id, after.rows[id]) == Done(after)
    requires !after.rows[id].kind.Mint? && (id in db.rows ==> !db.rows[id].kind.Mint?)
    requires after.authorizations == db.authorizations
    ensures Within(after, account, limits)
  {
    hide Put, Listed, Sum, Cell, Occupied, FeeUse, GasUse, OccupiedBy, FeeBy, GasBy;
    NotAMint(account, after.rows[id]);
    if id in db.rows {
      NotAMint(account, db.rows[id]);
    }
    UseAfterPut(db, id, after.rows[id], account);
  }

  lemma AuxiliaryGoesOnWithin(w: World, pc: Pc, reply: Reply, account: Account, limits: Limits)
    requires Listed(w.db) && (pc.AuxBegin? || pc.AuxRefused? || pc.AuxCommit? || pc.ContentFail?)
    ensures MaybeWithin(w.db, Next(w, pc, reply), account, limits)
  {
    hide Listed, GoalOk, Affordable, Occupied;
  }

  lemma AuxiliaryWithin(w: World, after: World, pc: Pc, reply: Reply, account: Account, limits: Limits)
    requires Sound(w.db) && Sound(after.db) && RowsOk(w) && PcOk(w, pc)
    requires Within(w.db, account, limits) && PcWithin(w.db, pc, account, limits)
    requires pc.AuxBegin? || pc.AuxRefused? || pc.AuxCommit? || pc.ContentFail?
    requires Act(pc, reply).Some? && Executed(w, after, Act(pc, reply).value)
    ensures Within(after.db, account, limits) && MaybeWithin(after.db, Next(after, pc, reply), account, limits)
  {
    hide Sound, Within, PcOk, PcWithin, MaybeWithin, RowsOk, Executed, Put, Act, Next;
    SoundIsListed(w.db);
    SoundIsListed(after.db);
    AuxiliaryClaims(w, after, pc, reply, account);
    UnclaimedWithin(w.db, after.db, pc.id, account, limits);
    AuxiliaryGoesOnWithin(after, pc, reply, account, limits);
  }

  lemma ReadingStep(w: World, pc: Pc, reply: Reply, account: Account, limits: Limits)
    requires Listed(w.db) && PcOk(w, pc) && Within(w.db, account, limits) && PcWithin(w.db, pc, account, limits)
    requires Act(pc, reply).None? && (pc.RecoverQuery? ==> GasOk(reply.result, pc.op.row))
    ensures MaybeWithin(w.db, Next(w, pc, reply), account, limits)
  {
    hide Listed, PcOk, Within, PcWithin, MaybeWithin, Next, Act, GasOk;
    if pc.RecoverQuery? {
      QueryWithin(w, pc, reply, account, limits);
    } else if pc.MinePreflight? || pc.SendBudget? {
      GateWithin(w, pc, reply, account, limits);
    } else if pc.RecoverEntry? || pc.RecoverChain? || pc.RecoverSettle? || pc.RecoverOutcome? {
      ReadingRecoveryWithin(w, pc, reply, account, limits);
    } else {
      ReadingWithin(w, pc, reply, account, limits);
    }
  }

  lemma WritingStep(w: World, after: World, pc: Pc, reply: Reply, account: Account, limits: Limits)
    requires Sound(w.db) && Sound(after.db) && RowsOk(w) && PcOk(w, pc)
    requires Within(w.db, account, limits) && PcWithin(w.db, pc, account, limits)
    requires Act(pc, reply).Some? && Executed(w, after, Act(pc, reply).value)
    ensures Within(after.db, account, limits) && MaybeWithin(after.db, Next(after, pc, reply), account, limits)
  {
    hide Sound, PcOk, RowsOk, Executed, Within, PcWithin, MaybeWithin, Next;
    if pc.RecoverRelease? || pc.RecoverMark? || pc.RecoverSettle? || pc.RecoverOutcome? || pc.RecoverConsumed? {
      RecoveryWithin(w, after, pc, reply, account, limits);
    } else if pc.SubmitRefused? || pc.SubmitAttach? || pc.SubmitRecord? || pc.SubmitLost? {
      SubmitWithin(w, after, pc, reply, account, limits);
    } else if pc.AuxBegin? || pc.AuxRefused? || pc.AuxCommit? || pc.ContentFail? {
      AuxiliaryWithin(w, after, pc, reply, account, limits);
    } else {
      MintWithin(w, after, pc, reply, account, limits);
    }
  }

  lemma StepWithin(w: World, reply: Reply, account: Account, limits: Limits)
    requires Budgeted(w, account, limits) && 0 in w.procs
    requires w.procs[0].RecoverQuery? ==> GasOk(reply.result, w.procs[0].op.row)
    ensures var after := StepProcess(w, 0, reply);
      Within(after.db, account, limits) && (0 in after.procs ==> PcWithin(after.db, after.procs[0], account, limits))
  {
    hide RowsOk, PcOk, Sound, Next, OnThrow, Act, Attempt, Within, PcWithin, IssuedId;
    var pc := w.procs[0];
    SoundIsListed(w.db);
    var called := if pc.SubmitCall? then w.(submissions := w.submissions + [Submission(pc.id, pc.request)]) else w;
    var noted := called.(
      used := if pc.SubmitPrepare? then w.used + {reply.id} else w.used,
      decided := if Decisive(pc, reply, w) then w.decided + {pc.op.id} else w.decided);
    VerdictsOnlyGrow(w, noted, pc);
    ThrowWithin(w.db, pc, reply, account, limits);
    var action := Act(pc, reply);
    if action.None? {
      ReadingStep(noted, pc, reply, account, limits);
    } else if Attempt(w.db, action.value).Done? {
      ApplyKeepsSound(w.db, action.value);
      var after := noted.(db := Apply(w.db, action.value));
      SoundIsListed(after.db);
      WritingStep(w, after, pc, reply, account, limits);
    }
  }

  /** Figures depend on the operations table alone. */
  lemma SameTable(db: Db, after: Db, pc: Option<Pc>, account: Account, limits: Limits)
    requires Within(db, account, limits) && MaybeWithin(db, pc, account, limits)
    requires after.rows == db.rows && after.order == db.order
    requires account in after.authorizations && LimitsOf(after.authorizations[account]) == limits
    ensures Within(after, account, limits) && MaybeWithin(after, pc, account, limits)
  {
    assert forall column :: Sum(after, column, account) == Sum(db, column, account);
    hide Sum, Listed;
  }

  lemma StartWithin(w: World, pid: ProcessId, who: Account, command: Command, account: Account, limits: Limits)
    requires Budgeted(w, account, limits) && pid !in w.procs
    requires pid == 0 || command.StopCommand? || command.AuthorizeCommand?
    requires who == account ==> command != MineOnce(true) && !command.AuthorizeCommand?
    ensures Budgeted(Start(w, pid, who, command), account, limits)
  {
    hide Solo, Sum, Within, PcWithin, Listed, Sound, Unsettled, Administer;
    SoloIsSound(w);
    SoloStart(w, pid, who, command);
    if command.StopCommand? || command.AuthorizeCommand? {
      AdministrationWithin(w, pid, who, command, account, limits);
    } else if pid in Start(w, pid, who, command).procs {
      FirstPointWithin(w, pid, who, command, account, limits);
    }
  }

  /** stop and authorize touch no operation, and not this account's limits. */
  lemma AdministrationWithin(w: World, pid: ProcessId, who: Account, command: Command, account: Account, limits: Limits)
    requires Sound(w.db) && Within(w.db, account, limits)
    requires command.StopCommand? || (command.AuthorizeCommand? && who != account)
    ensures var after := Start(w, pid, who, command);
      && Within(after.db, account, limits) && after.procs == w.procs
      && (0 in w.procs && PcWithin(w.db, w.procs[0], account, limits) ==> PcWithin(after.db, w.procs[0], account, limits))
  {
    hide Sum, Sound, Unsettled, Occupied, FeeUse, GasUse, PcWithin, MaybeWithin, Administer, Listed;
    SoundIsListed(w.db);
    var after := Start(w, pid, who, command);
    if 0 in w.procs && PcWithin(w.db, w.procs[0], account, limits) {
      MaybeIs(w.db, w.procs[0], account, limits);
      SameTable(w.db, after.db, Some(w.procs[0]), account, limits);
      MaybeIs(after.db, w.procs[0], account, limits);
    } else {
      MaybeNot(w.db, account, limits);
      SameTable(w.db, after.db, None, account, limits);
    }
  }

  lemma MaybeIs(db: Db, pc: Pc, account: Account, limits: Limits)
    requires Listed(db)
    ensures MaybeWithin(db, Some(pc), account, limits) <==> PcWithin(db, pc, account, limits)
  {
    hide PcWithin, Listed;
  }

  lemma MaybeNot(db: Db, account: Account, limits: Limits)
    requires Listed(db)
    ensures MaybeWithin(db, None, account, limits)
  {
  }

  lemma FirstPointWithin(w: World, pid: ProcessId, who: Account, command: Command, account: Account, limits: Limits)
    requires Sound(w.db) && Listed(w.db) && Within(w.db, account, limits) && pid !in w.procs
    requires !command.StopCommand? && !command.AuthorizeCommand?
    requires who == account ==> command != MineOnce(true)
    requires pid in Start(w, pid, who, command).procs
    ensures Start(w, pid, who, command).db == w.db
    ensures PcWithin(w.db, Start(w, pid, who, command).procs[pid], account, limits)
  {
    hide Sum, Within, Listed, Sound, Unsettled, Administer;
  }

  lemma SoloIsSound(w: World)
    requires Solo(w)
    ensures Sound(w.db) && Listed(w.db) && (forall pid :: pid in w.procs ==> pid == 0)
  {
  }

  lemma ReactWithin(w: World, input: Input, account: Account, limits: Limits)
    requires Budgeted(w, account, limits) && BudgetInput(w, input, account)
    ensures Budgeted(React(w, input), account, limits)
  {
    hide Solo, StepProcess, Start, Within, PcWithin;
    SoloIsSound(w);
    SoloReact(w, input);
    match input
    case Launch(pid, who, command) =>
      if pid !in w.procs {
        StartWithin(w, pid, who, command, account, limits);
      }
    case Step(pid, reply) =>
      if pid in w.procs {
        StepWithin(w, reply, account, limits);
      }
    case _ =>
  }

  /** `authorize` on an idle account whose totals fit the new limits is where the guarantee starts. */
  lemma AuthorizationStarts(w: World, pid: ProcessId, account: Account, a: Authorization)
    requires Solo(w) && 0 !in w.procs && pid !in w.procs
    requires 0 < a.maxMints && w.now < a.expiresAt && a.maxMints * MINT_FEE <= a.maxFee && 0 < a.maxGas
    requires Listed(w.db) && Occupied(w.db, account) <= a.maxMints
    requires FeeUse(w.db, account) <= a.maxFee && GasUse(w.db, account) <= a.maxGas
    ensures Sound(w.db) && Budgeted(Start(w, pid, account, AuthorizeCommand(a)), account, LimitsOf(a))
  {
    SoloIsSound(w);
    var after := Start(w, pid, account, AuthorizeCommand(a));
    SoloStart(w, pid, account, AuthorizeCommand(a));
    assert forall column :: Sum(after.db, column, account) == Sum(w.db, column, account);
  }

  ghost predicate BudgetInputs(w: World, inputs: seq<Input>, account: Account)
    requires Sound(w.db)
    decreases |inputs|
  {
    inputs == [] || (BudgetInput(w, inputs[0], account) && BudgetInputs(React(w, inputs[0]), inputs[1..], account))
  }

  /**
   * Main result: from an authorization whose totals fit, no run of unattended Mints, crashes, restarts
   * and recoveries takes confirmed and reserved Mints, fee or gas beyond the authorized maxima.
   */
  lemma {:induction false} BudgetNeverExceeded(w: World, inputs: seq<Input>, account: Account, limits: Limits)
    requires Budgeted(w, account, limits) && BudgetInputs(w, inputs, account)
    ensures Budgeted(Play(w, inputs), account, limits)
    ensures var db := Play(w, inputs).db;
      Occupied(db, account) <= limits.maxMints && FeeUse(db, account) <= limits.maxFee && GasUse(db, account) <= limits.maxGas
    decreases |inputs|
  {
    if inputs != [] {
      ReactWithin(w, inputs[0], account, limits);
      BudgetNeverExceeded(React(w, inputs[0]), inputs[1..], account, limits);
    }
  }
}
