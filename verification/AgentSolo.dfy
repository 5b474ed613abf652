/** One live process, crashing and restarting at any point: what every Mint row keeps. */
module AgentSolo {
  import opened Options
  import opened LedgerModel
  import opened LedgerRuns
  import opened Agent

  /** Only process 0 runs commands; `stop` and `authorize` touch no operation and may come from anywhere. */
  predicate SoloInput(input: Input) {
    match input
    case Crash(pid) => pid == 0
    case Step(pid, _) => pid == 0
    case Launch(pid, _, command) => pid == 0 || command.StopCommand? || command.AuthorizeCommand?
    case LateUpdate(_) => false
    case _ => true
  }

  /** The money and hand-over rules of one Mint row. */
  predicate MintOk(row: Row) {
    && row.feeCommitted in {0, MINT_FEE}
    && (row.request.Some? ==> row.feeCommitted == MINT_FEE)
    && (row.request.None? ==> row.handle.None?)
    && (Unresolved(row.state) || row.state.MintConfirmed? || FailureState(row.state))
    && (Unresolved(row.state) ==> row.feeSpent == 0 && row.gasSpent == 0 && (row.request.None? ==> Releasable(row)))
    && (row.state.MintConfirmed? ==> row.feeSpent == row.feeCommitted)
    && (FailureState(row.state) ==> row.feeSpent == 0)
  }

  /** A submitted Mint is only resolved once the chain or the wallet has decided it. */
  predicate RowOk(w: World, id: OperationId, row: Row) {
    row.kind.Mint? ==> MintOk(row) && (row.request.Some? && !Unresolved(row.state) ==> id in w.decided)
  }

  ghost predicate RowsOk(w: World) {
    forall id :: id in w.db.rows ==> RowOk(w, id, w.db.rows[id])
  }

  predicate Current(w: World, op: Snapshot) {
    op.id in w.db.rows && w.db.rows[op.id] == op.row
  }

  /** The snapshot list of recoverOutstanding is still what the ledger holds. */
  ghost predicate Awaiting(w: World, todo: seq<Snapshot>) {
    && (forall i :: 0 <= i < |todo| ==> Current(w, todo[i]))
    && (forall i, j :: 0 <= i < j < |todo| ==> todo[i].id != todo[j].id)
  }

  ghost predicate FrameOk(w: World, frame: Frame, id: OperationId) {
    && id in w.db.rows
    && match frame
       case InSweep(_, rest, _) => Awaiting(w, rest) && forall i :: 0 <= i < |rest| ==> rest[i].id != id
       case AfterMint(account, _) => w.db.rows[id].kind.Mint? && w.db.rows[id].account == account
       case AfterAuxiliary(own, _) => own == id && !w.db.rows[id].kind.Mint?
  }

  predicate IsAuxiliary(w: World, id: OperationId) {
    id in w.db.rows && !w.db.rows[id].kind.Mint?
  }

  /** A Mint never handed over is only recovered further when the chain already shows it. */
  predicate Backed(w: World, row: Row) {
    UnsentMint(row) ==> IssuedId(w, row.receipt) > 0
  }

  predicate ResultOk(w: World, op: Snapshot, result: QueryResult) {
    && (op.row.handle.None? && op.row.request.None? ==> result == QueryResult(Undetermined, None, None, None))
    && (result.status in {Confirmed, WasReverted, WasReplaced} ==> op.id in w.decided)
  }

  predicate IssuedOk(w: World, op: Snapshot, issued: nat) {
    && (UnsentMint(op.row) ==> issued > 0)
    && (issued > 0 ==> op.row.kind.Mint? && op.id in w.decided)
  }

  predicate SameTerms(row: Row, seen: Row) {
    && row.kind == seen.kind && row.account == seen.account && row.receipt == seen.receipt && row.request == seen.request
    && row.feeCommitted == seen.feeCommitted && row.gasCommitted == seen.gasCommitted
  }

  /** Between markRecovering and the final verdict. */
  predicate Undecided(w: World, op: Snapshot) {
    && op.id in w.db.rows
    && var row := w.db.rows[op.id];
      SameTerms(row, op.row) && Unresolved(row.state) && (row.kind.Mint? ==> row.request.Some?)
  }

  predicate Sendable(w: World, account: Account, id: OperationId) {
    && id in w.db.rows
    && var row := w.db.rows[id];
      ActiveMint(row) && row.account == account && row.request.None?
  }

  ghost predicate Submitting(w: World, frame: Frame, id: OperationId, sent: bool) {
    && !frame.InSweep? && FrameOk(w, frame, id)
    && var row := w.db.rows[id];
      row.kind.Mint? ==> Unresolved(row.state) && row.request.Some? == sent && row.feeCommitted == MINT_FEE
  }

  ghost predicate PcOk(w: World, pc: Pc) {
    match pc
    case Sweep(_, todo, _) => Awaiting(w, todo)
    case RecoverEntry(frame, op) =>
      Current(w, op) && FrameOk(w, frame, op.id) && (frame.AfterMint? ==> !op.row.state.MintConfirmed?)
    case RecoverRelease(frame, op) => Current(w, op) && FrameOk(w, frame, op.id) && UnsentMint(op.row) && Unresolved(op.row.state)
    case RecoverMark(frame, op) => Current(w, op) && FrameOk(w, frame, op.id) && Unresolved(op.row.state) && Backed(w, op.row)
    case RecoverChain(frame, op) => Current(w, op) && FrameOk(w, frame, op.id) && op.row.state.Recovering? && Backed(w, op.row)
    case RecoverQuery(frame, op, issued) =>
      Current(w, op) && FrameOk(w, frame, op.id) && op.row.state.Recovering? && IssuedOk(w, op, issued)
    case RecoverSettle(frame, op, issued, result) =>
      Current(w, op) && FrameOk(w, frame, op.id) && op.row.state.Recovering? && IssuedOk(w, op, issued) && ResultOk(w, op, result)
    case RecoverOutcome(frame, op, result) =>
      FrameOk(w, frame, op.id) && Undecided(w, op) && (result.status in {Confirmed, WasReverted, WasReplaced} ==> op.id in w.decided)
    case RecoverConsumed(frame, op, _, _) => FrameOk(w, frame, op.id) && Undecided(w, op) && op.row.kind.Mint? && op.id in w.decided
    case MineStore(account, _, id) => Sendable(w, account, id)
    case Resume(account, _, id) => Sendable(w, account, id)
    case SendStart(account, _, id) => Sendable(w, account, id)
    case SendSimulate(account, _, id) => Sendable(w, account, id)
    case SendBudget(account, _, id, _) => Sendable(w, account, id)
    case SendCommit(account, _, id, _) => Sendable(w, account, id)
    case SubmitPrepare(frame, id) => Submitting(w, frame, id, false)
    case SubmitRefused(frame, id) => Submitting(w, frame, id, false)
    case SubmitAttach(frame, id, _, _) => Submitting(w, frame, id, false)
    case SubmitCall(frame, id, _) => Submitting(w, frame, id, true)
    case SubmitRecord(frame, id, _) => Submitting(w, frame, id, true)
    case SubmitLost(frame, id) => Submitting(w, frame, id, true)
    case AuxBegin(_, _, kind) => !kind.Mint?
    case AuxPrepare(id, _) => IsAuxiliary(w, id)
    case AuxRefused(id, _) => IsAuxiliary(w, id)
    case AuxCommit(id, _, _) => IsAuxiliary(w, id)
    case ContentCheck(id) => IsAuxiliary(w, id)
    case ContentFail(id, _) => IsAuxiliary(w, id)
    case _ => true
  }

  ghost predicate MaybePcOk(w: World, pc: Option<Pc>) {
    pc.Some? ==> PcOk(w, pc.value)
  }

  ghost predicate Solo(w: World) {
    && Sound(w.db)
    && RowsOk(w)
    && (forall pid :: pid in w.procs ==> pid == 0)
    && (0 in w.procs ==> PcOk(w, w.procs[0]))
  }

  /** The same ledger and chain, seen with at least the same verdicts. */
  predicate SameLedger(w: World, after: World) {
    after.db == w.db && after.chain == w.chain && after.now == w.now && w.decided <= after.decided
  }

  lemma VerdictsOnlyGrow(w: World, after: World, pc: Pc)
    requires SameLedger(w, after) && RowsOk(w) && PcOk(w, pc)
    ensures RowsOk(after) && PcOk(after, pc)
  {
    hide PcOk, MintOk, Unresolved;
    PointGrows(w, after, pc);
    forall id | id in after.db.rows ensures RowOk(after, id, after.db.rows[id]) {
      assert RowOk(w, id, w.db.rows[id]);
    }
  }

  lemma AwaitingIsAboutRows(w: World, after: World)
    requires after.db.rows == w.db.rows
    ensures forall todo :: Awaiting(w, todo) ==> Awaiting(after, todo)
  {
    forall todo | Awaiting(w, todo) ensures Awaiting(after, todo) {
      forall i | 0 <= i < |todo| ensures Current(after, todo[i]) {
        assert Current(w, todo[i]);
      }
    }
  }

  lemma FramesAreAboutRows(w: World, after: World)
    requires after.db.rows == w.db.rows
    ensures forall todo :: Awaiting(w, todo) ==> Awaiting(after, todo)
    ensures forall frame, id :: FrameOk(w, frame, id) ==> FrameOk(after, frame, id)
  {
    hide Awaiting;
    AwaitingIsAboutRows(w, after);
  }

  lemma PointGrows(w: World, after: World, pc: Pc)
    requires SameLedger(w, after) && PcOk(w, pc)
    ensures PcOk(after, pc)
  {
    hide MintOk, Unresolved, ActiveMint, UnsentMint, SameTerms, Awaiting, FrameOk;
    FramesAreAboutRows(w, after);
  }

  lemma ReturnOk(w: World, frame: Frame, id: OperationId, row: Row)
    requires FrameOk(w, frame, id)
    ensures MaybePcOk(w, Return(frame, row))
  {
  }

  lemma CatchOk(w: World, frame: Frame, id: OperationId, reply: Reply)
    requires FrameOk(w, frame, id)
    ensures MaybePcOk(w, Catch(frame, reply))
  {
  }

  /** A thrown error leaves the ledger alone; wherever it is caught, the facts for that point hold. */
  lemma ThrowOk(w: World, pc: Pc, reply: Reply)
    requires PcOk(w, pc)
    ensures MaybePcOk(w, OnThrow(pc, reply))
  {
    hide PcOk, MaybePcOk, OnThrow;
    if pc.SubmitPrepare? || pc.SubmitCall? || pc.SubmitRecord? {
      ThrownSubmission(w, pc, reply);
    } else if pc.AuxPrepare? || pc.AuxRefused? || pc.AuxCommit? || pc.ContentCheck? || pc.ContentFail? {
      ThrownAuxiliary(w, pc, reply);
    } else if InRecovery(pc) || pc.SubmitRefused? || pc.SubmitAttach? || pc.SubmitLost? {
      ThrownToFrame(w, pc, reply);
    } else {
      ThrownToUser(w, pc, reply);
    }
  }

  predicate InRecovery(pc: Pc) {
    || pc.RecoverEntry? || pc.RecoverRelease? || pc.RecoverMark? || pc.RecoverChain?
    || pc.RecoverQuery? || pc.RecoverSettle? || pc.RecoverOutcome? || pc.RecoverConsumed?
  }

  lemma ThrownSubmission(w: World, pc: Pc, reply: Reply)
    requires PcOk(w, pc) && (pc.SubmitPrepare? || pc.SubmitCall? || pc.SubmitRecord?)
    ensures MaybePcOk(w, OnThrow(pc, reply))
  {
    hide Submitting, Catch;
  }

  lemma ThrownAuxiliary(w: World, pc: Pc, reply: Reply)
    requires PcOk(w, pc) && (pc.AuxPrepare? || pc.AuxRefused? || pc.AuxCommit? || pc.ContentCheck? || pc.ContentFail?)
    ensures MaybePcOk(w, OnThrow(pc, reply))
  {
    hide IsAuxiliary;
  }

  lemma ThrownToFrame(w: World, pc: Pc, reply: Reply)
    requires PcOk(w, pc) && (InRecovery(pc) || pc.SubmitRefused? || pc.SubmitAttach? || pc.SubmitLost?)
    ensures MaybePcOk(w, OnThrow(pc, reply))
  {
    hide Catch, FrameOk, MaybePcOk, Current, Backed, Undecided, IssuedOk, ResultOk;
    CatchOk(w, pc.frame, if InRecovery(pc) then pc.op.id else pc.id, reply);
  }

  lemma ThrownToUser(w: World, pc: Pc, reply: Reply)
    requires !(pc.SubmitPrepare? || pc.SubmitCall? || pc.SubmitRecord? || pc.SubmitRefused? || pc.SubmitAttach? || pc.SubmitLost?)
    requires !(pc.AuxPrepare? || pc.AuxRefused? || pc.AuxCommit? || pc.ContentCheck? || pc.ContentFail?) && !InRecovery(pc)
    ensures MaybePcOk(w, OnThrow(pc, reply))
  {
    hide PcOk, Catch;
  }

  lemma {:induction false} UnsettledIsCurrent(w: World, account: Account, ids: seq<OperationId>)
    requires forall i, j :: 0 <= i < j < |ids| ==> ids[i] != ids[j]
    ensures var todo := Unsettled(w.db, account, ids);
      && Awaiting(w, todo)
      && forall i :: 0 <= i < |todo| ==> todo[i].id in ids
  {
    if ids != [] {
      UnsettledIsCurrent(w, account, ids[1..]);
    }
  }

  lemma {:induction false} FirstResumableIs(db: Db, now: int, account: Account, ids: seq<OperationId>)
    ensures var found := FirstResumable(db, now, account, ids); found.Some? ==> Resumable(db, now, account, found.value)
  {
    if ids != [] {
      FirstResumableIs(db, now, account, ids[1..]);
    }
  }

  /** Program points that only read: beginning a recovery, asking chain and wallet, and a verdict that writes nothing. */
  lemma QuietEntry(w: World, pc: Pc, reply: Reply)
    requires Listed(w.db) && PcOk(w, pc) && (pc.Sweep? || pc.RecoverEntry?)
    ensures MaybePcOk(w, Next(w, pc, reply))
  {
    hide Listed, Return, MaybePcOk;
    if pc.RecoverEntry? {
      ReturnOk(w, pc.frame, pc.op.id, pc.op.row);
      EntryOk(w, pc, reply);
    } else {
      TakenFirst(w, pc, reply);
    }
  }

  lemma TakenFirst(w: World, pc: Pc, reply: Reply)
    requires Listed(w.db) && PcOk(w, pc) && pc.Sweep?
    ensures MaybePcOk(w, Next(w, pc, reply))
  {
    hide Listed, Current;
    if pc.todo != [] {
      assert Current(w, pc.todo[0]);
      AwaitedIsHeld(w, pc.todo[0]);
    }
  }

  lemma AwaitedIsHeld(w: World, op: Snapshot)
    requires Current(w, op)
    ensures op.id in w.db.rows
  {
  }

  lemma EntryOk(w: World, pc: Pc, reply: Reply)
    requires Listed(w.db) && PcOk(w, pc) && pc.RecoverEntry? && MaybePcOk(w, Return(pc.frame, pc.op.row))
    ensures MaybePcOk(w, Next(w, pc, reply))
  {
    hide Listed, Return, FrameOk, Current, Unresolved, CertificateExpired, IssuedId;
  }

  lemma QuietQuestion(w: World, before: World, pc: Pc, reply: Reply)
    requires Listed(w.db) && PcOk(w, pc) && SameLedger(before, w)
    requires Decisive(pc, reply, before) ==> pc.op.id in w.decided
    requires pc.RecoverChain? || pc.RecoverQuery?
    ensures MaybePcOk(w, Next(w, pc, reply))
  {
    hide Listed, FrameOk, Current;
  }

  lemma QuietVerdict(w: World, pc: Pc, reply: Reply)
    requires Listed(w.db) && RowsOk(w) && PcOk(w, pc) && Act(pc, reply).None? && (pc.RecoverSettle? || pc.RecoverOutcome?)
    ensures MaybePcOk(w, Next(w, pc, reply))
  {
    hide Listed, RowsOk, Return, Catch, FrameOk, GasOf;
    CatchOk(w, pc.frame, pc.op.id, reply);
    RowOkAt(w, pc.op.id);
  }

  lemma QuietSearch(w: World, pc: Pc, reply: Reply)
    requires Sound(w.db) && (pc.RunHead? || pc.MineChoose?)
    ensures MaybePcOk(w, Next(w, pc, reply))
  {
    hide Sum, BudgetRefusal, FirstResumable, Unsettled, CanStartMint, Apart, Unclaimed;
    match pc
    case RunHead(account, goal) =>
      UnsettledIsCurrent(w, account, w.db.order);
      assert PcOk(w, Sweep(account, Unsettled(w.db, account, w.db.order), goal));
    case MineChoose(account, goal) =>
      FirstResumableIs(w.db, w.now, account, w.db.order);
    case _ =>
  }

  lemma QuietMining(w: World, pc: Pc, reply: Reply)
    requires Listed(w.db) && PcOk(w, pc) && Act(pc, reply).None?
    requires pc.MinePreflight? || pc.Mining? || pc.Resume? || pc.SendStart? || pc.SendSimulate? || pc.SendBudget?
    ensures MaybePcOk(w, Next(w, pc, reply))
  {
    hide Listed, Sum, BudgetRefusal, Sendable;
  }

  lemma QuietSubmit(w: World, pc: Pc, reply: Reply)
    requires Sound(w.db) && RowsOk(w) && PcOk(w, pc) && Act(pc, reply).None?
    requires pc.SubmitPrepare? || pc.SubmitCall?
    ensures MaybePcOk(w, Next(w, pc, reply))
  {
    hide RowsOk, Sum, BudgetRefusal, FirstResumable, Unsettled, Attempt;
    hide CanStartMint, Unresolved, FrameOk, Apart, Unclaimed;
  }

  lemma QuietAuxiliary(w: World, pc: Pc, reply: Reply)
    requires Sound(w.db) && RowsOk(w) && PcOk(w, pc) && Act(pc, reply).None?
    requires pc.AuxPrepare? || pc.ContentCheck?
    ensures MaybePcOk(w, Next(w, pc, reply))
  {
    hide RowsOk, Sum, BudgetRefusal, FirstResumable, Unsettled, Attempt, CanStartMint, Unresolved, Apart, Unclaimed;
  }

  /** The written row keeps the rules, so the whole table does. */
  lemma RowsAfter(w: World, after: World, id: OperationId, row: Row)
    requires RowsOk(w) && after.db.rows == w.db.rows[id := row] && w.decided <= after.decided && RowOk(after, id, row)
    ensures RowsOk(after)
  {
    hide MintOk, Unresolved;
    forall other | other in after.db.rows ensures RowOk(after, other, after.db.rows[other]) {
      if other != id {
        assert RowOk(w, other, w.db.rows[other]);
      }
    }
  }

  /** Whoever is waiting for operation id keeps waiting for it when only its row changed. */
  lemma FrameAfter(w: World, after: World, frame: Frame, id: OperationId, row: Row)
    requires FrameOk(w, frame, id) && after.db.rows == w.db.rows[id := row]
    requires row.kind == w.db.rows[id].kind && row.account == w.db.rows[id].account
    ensures FrameOk(after, frame, id)
  {
    if frame.InSweep? {
      forall i | 0 <= i < |frame.rest| ensures Current(after, frame.rest[i]) {
        assert Current(w, frame.rest[i]);
      }
    }
  }

  /** after is w with the statement of pc executed and possibly more verdicts known. */
  ghost predicate Executed(w: World, after: World, action: Action) {
    && Attempt(w.db, action).Done? && after.db == Attempt(w.db, action).db
    && after.chain == w.chain && after.now == w.now && w.decided <= after.decided
  }

  /** What releasing, marking and an early verdict write to the record being recovered. */
  lemma RecoveredRow(w: World, after: World, pc: Pc, reply: Reply)
    requires RowsOk(w) && PcOk(w, pc)
    requires pc.RecoverRelease? || pc.RecoverMark? || pc.RecoverSettle?
    requires Act(pc, reply).Some? && Executed(w, after, Act(pc, reply).value)
    ensures var id := pc.op.id;
      && FrameOk(w, pc.frame, id) && id in after.db.rows
      && after.db.rows == w.db.rows[id := after.db.rows[id]] && w.decided <= after.decided
      && after.db.rows[id].kind == w.db.rows[id].kind && after.db.rows[id].account == w.db.rows[id].account
      && RowOk(after, id, after.db.rows[id])
  {
    hide ActiveClash, RequestClash, RowsOk, FrameOk, GasOf;
    RowOkAt(w, pc.op.id);
  }

  lemma RecoveredGoesOn(w: World, after: World, pc: Pc, reply: Reply)
    requires Listed(after.db) && RowsOk(w) && PcOk(w, pc)
    requires pc.RecoverRelease? || pc.RecoverMark? || pc.RecoverSettle?
    requires FrameOk(after, pc.frame, pc.op.id)
    requires Act(pc, reply).Some? && Executed(w, after, Act(pc, reply).value)
    ensures MaybePcOk(after, Next(after, pc, reply))
  {
    hide Listed, ActiveClash, RequestClash, RowsOk, FrameOk, GasOf, Return;
    RowOkAt(w, pc.op.id);
    ReturnOk(after, pc.frame, pc.op.id, RowOr(after.db, pc.op.id, pc.op.row));
  }

  lemma ActRecovery(w: World, after: World, pc: Pc, reply: Reply)
    requires Sound(w.db) && Sound(after.db) && RowsOk(w) && PcOk(w, pc)
    requires pc.RecoverRelease? || pc.RecoverMark? || pc.RecoverSettle?
    requires Act(pc, reply).Some? && Executed(w, after, Act(pc, reply).value)
    ensures RowsOk(after) && MaybePcOk(after, Next(after, pc, reply))
  {
    hide Sound, Listed, RowsOk, PcOk, Executed, Act, RowOk, FrameOk, Next, MaybePcOk;
    RecoveredRow(w, after, pc, reply);
    RowsAfter(w, after, pc.op.id, after.db.rows[pc.op.id]);
    FrameAfter(w, after, pc.frame, pc.op.id, after.db.rows[pc.op.id]);
    SoundIsListed(after.db);
    RecoveredGoesOn(w, after, pc, reply);
  }

  lemma ActVerdict(w: World, after: World, pc: Pc, reply: Reply)
    requires Sound(w.db) && Sound(after.db) && RowsOk(w) && PcOk(w, pc)
    requires pc.RecoverOutcome? || pc.RecoverConsumed?
    requires Act(pc, reply).Some? && Executed(w, after, Act(pc, reply).value)
    ensures RowsOk(after) && MaybePcOk(after, Next(after, pc, reply))
  {
    hide Sound, RowsOk, PcOk, Executed, Attempt, RowOk, FrameOk, Return, MaybePcOk;
    var op := pc.op;
    VerdictRow(w, after, pc, reply);
    var row := after.db.rows[op.id];
    RowsAfter(w, after, op.id, row);
    FrameAfter(w, after, pc.frame, op.id, row);
    ReturnOk(after, pc.frame, op.id, row);
  }

  /** A row still unresolved whose submission is recorded, so any verdict on it may be written. */
  predicate Judgeable(w: World, id: OperationId) {
    && id in w.db.rows && Unresolved(w.db.rows[id].state)
    && (w.db.rows[id].kind.Mint? ==> MintOk(w.db.rows[id]) && w.db.rows[id].request.Some?)
  }

  /** What pending, lost, confirmed and failed verdicts write obeys the rules; the last two need the operation decided. */
  lemma JudgedRow(w: World, after: World, action: Action)
    requires action.Pend? || action.LoseTrack? || action.Confirm? || action.Fail?
    requires Judgeable(w, action.id) && Executed(w, after, action)
    requires (action.Confirm? || action.Fail?) && w.db.rows[action.id].kind.Mint? ==> action.id in w.decided
    ensures var id := action.id;
      && id in after.db.rows && after.db.rows == w.db.rows[id := after.db.rows[id]]
      && after.db.rows[id].kind == w.db.rows[id].kind && after.db.rows[id].account == w.db.rows[id].account
      && RowOk(after, id, after.db.rows[id])
  {
    hide ActiveClash, RequestClash;
  }

  lemma VerdictRow(w: World, after: World, pc: Pc, reply: Reply)
    requires RowsOk(w) && PcOk(w, pc)
    requires pc.RecoverOutcome? || pc.RecoverConsumed?
    requires Act(pc, reply).Some? && Executed(w, after, Act(pc, reply).value)
    ensures var id := pc.op.id;
      && FrameOk(w, pc.frame, id) && id in after.db.rows
      && after.db.rows == w.db.rows[id := after.db.rows[id]] && w.decided <= after.decided
      && after.db.rows[id].kind == w.db.rows[id].kind && after.db.rows[id].account == w.db.rows[id].account
      && RowOk(after, id, after.db.rows[id])
  {
    hide Attempt, FrameOk, RowsOk, GasOf, MintOk, Unresolved;
    RowOkAt(w, pc.op.id);
    JudgedRow(w, after, Act(pc, reply).value);
  }

  lemma RowOkAt(w: World, id: OperationId)
    requires RowsOk(w) && id in w.db.rows
    ensures RowOk(w, id, w.db.rows[id])
  {
    hide RowOk;
  }

  /** What a submission writes to its own row. */
  lemma SubmittedRow(w: World, after: World, pc: Pc, reply: Reply)
    requires RowsOk(w) && PcOk(w, pc)
    requires pc.SubmitRefused? || pc.SubmitAttach? || pc.SubmitRecord? || pc.SubmitLost?
    requires Act(pc, reply).Some? && Executed(w, after, Act(pc, reply).value)
    ensures var id := pc.id;
      && FrameOk(w, pc.frame, id) && !pc.frame.InSweep? && id in after.db.rows
      && after.db.rows == w.db.rows[id := after.db.rows[id]] && w.decided <= after.decided
      && after.db.rows[id].kind == w.db.rows[id].kind && after.db.rows[id].account == w.db.rows[id].account
      && RowOk(after, id, after.db.rows[id])
      && (after.db.rows[id].kind.Mint? ==> !after.db.rows[id].state.MintConfirmed?)
      && (pc.SubmitAttach? && after.db.rows[id].kind.Mint? ==>
            var row := after.db.rows[id]; Unresolved(row.state) && row.request.Some? && row.feeCommitted == MINT_FEE)
  {
    hide ActiveClash, RequestClash, RowsOk, FrameOk;
    RowOkAt(w, pc.id);
  }

  lemma ActSubmit(w: World, after: World, pc: Pc, reply: Reply)
    requires Sound(w.db) && Sound(after.db) && RowsOk(w) && PcOk(w, pc)
    requires pc.SubmitRefused? || pc.SubmitAttach? || pc.SubmitRecord? || pc.SubmitLost?
    requires Act(pc, reply).Some? && Executed(w, after, Act(pc, reply).value)
    ensures RowsOk(after) && MaybePcOk(after, Next(after, pc, reply))
  {
    hide Sound, Listed, RowsOk, Executed, Act, RowOk, Unresolved;
    SubmittedRow(w, after, pc, reply);
    RowsAfter(w, after, pc.id, after.db.rows[pc.id]);
    FrameAfter(w, after, pc.frame, pc.id, after.db.rows[pc.id]);
    SoundIsListed(after.db);
    SubmittedGoesOn(after, pc, reply);
  }

  lemma SubmittedGoesOn(w: World, pc: Pc, reply: Reply)
    requires Listed(w.db) && (pc.SubmitRefused? || pc.SubmitAttach? || pc.SubmitRecord? || pc.SubmitLost?)
    requires FrameOk(w, pc.frame, pc.id) && !pc.frame.InSweep?
    requires var row := w.db.rows[pc.id];
      && (row.kind.Mint? ==> !row.state.MintConfirmed?)
      && (pc.SubmitAttach? && row.kind.Mint? ==> Unresolved(row.state) && row.request.Some? && row.feeCommitted == MINT_FEE)
    ensures MaybePcOk(w, Next(w, pc, reply))
  {
    hide Listed, Unresolved;
  }

  /** What preparing a Mint writes to its own row. */
  lemma PreparedRow(w: World, after: World, pc: Pc, reply: Reply)
    requires RowsOk(w) && PcOk(w, pc)
    requires pc.MineBegin? || pc.MineStore? || pc.SendCommit?
    requires Act(pc, reply).Some? && Executed(w, after, Act(pc, reply).value)
    ensures var id := pc.id;
      && id in after.db.rows && after.db.rows == w.db.rows[id := after.db.rows[id]] && w.decided <= after.decided
      && RowOk(after, id, after.db.rows[id]) && Sendable(after, pc.account, id)
      && (pc.SendCommit? ==> after.db.rows[id].feeCommitted == MINT_FEE)
  {
    hide ActiveClash, RequestClash, RowsOk, CanStartMint;
    if pc.id in w.db.rows {
      RowOkAt(w, pc.id);
    }
  }

  lemma ActMint(w: World, after: World, pc: Pc, reply: Reply)
    requires Sound(w.db) && Sound(after.db) && RowsOk(w) && PcOk(w, pc)
    requires pc.MineBegin? || pc.MineStore? || pc.SendCommit?
    requires Act(pc, reply).Some? && Executed(w, after, Act(pc, reply).value)
    ensures RowsOk(after) && MaybePcOk(after, Next(after, pc, reply))
  {
    hide Sound, Listed, RowsOk, PcOk, Executed, Act, RowOk, Sendable, Next, MaybePcOk;
    PreparedRow(w, after, pc, reply);
    RowsAfter(w, after, pc.id, after.db.rows[pc.id]);
    SoundIsListed(after.db);
    PreparedGoesOn(after, pc, reply);
  }

  lemma PreparedGoesOn(w: World, pc: Pc, reply: Reply)
    requires Listed(w.db) && (pc.MineBegin? || pc.MineStore? || pc.SendCommit?)
    requires Sendable(w, pc.account, pc.id) && (pc.SendCommit? ==> w.db.rows[pc.id].feeCommitted == MINT_FEE)
    ensures MaybePcOk(w, Next(w, pc, reply))
  {
    hide Listed;
  }

  lemma ActAuxiliary(w: World, after: World, pc: Pc, reply: Reply)
    requires Sound(w.db) && Sound(after.db) && RowsOk(w) && PcOk(w, pc)
    requires pc.AuxBegin? || pc.AuxRefused? || pc.AuxCommit? || pc.ContentFail?
    requires Act(pc, reply).Some? && Executed(w, after, Act(pc, reply).value)
    ensures RowsOk(after) && MaybePcOk(after, Next(after, pc, reply))
  {
    hide Sound, PcOk, RowsOk, Executed, Next, MaybePcOk;
    AuxiliaryRow(w, after, pc, reply);
    RowsAfter(w, after, pc.id, after.db.rows[pc.id]);
    SoundIsListed(after.db);
    AuxiliaryGoesOn(after, pc, reply);
  }

  /** An auxiliary command writes the row of its own operation, which is no Mint. */
  lemma AuxiliaryRow(w: World, after: World, pc: Pc, reply: Reply)
    requires PcOk(w, pc)
    requires pc.AuxBegin? || pc.AuxRefused? || pc.AuxCommit? || pc.ContentFail?
    requires Act(pc, reply).Some? && Executed(w, after, Act(pc, reply).value)
    ensures pc.id in after.db.rows && after.db.rows == w.db.rows[pc.id := after.db.rows[pc.id]]
    ensures !after.db.rows[pc.id].kind.Mint? && w.decided <= after.decided
  {
    hide ActiveClash, RequestClash, CanStartMint;
  }

  lemma AuxiliaryGoesOn(w: World, pc: Pc, reply: Reply)
    requires pc.AuxBegin? || pc.AuxRefused? || pc.AuxCommit? || pc.ContentFail?
    requires Listed(w.db) && IsAuxiliary(w, pc.id)
    ensures MaybePcOk(w, Next(w, pc, reply))
  {
    hide Listed;
  }

  lemma QuietOk(w: World, before: World, pc: Pc, reply: Reply)
    requires Sound(w.db) && RowsOk(w) && PcOk(w, pc) && Act(pc, reply).None? && SameLedger(before, w)
    requires Decisive(pc, reply, before) ==> pc.op.id in w.decided
    ensures MaybePcOk(w, Next(w, pc, reply))
  {
    hide PcOk, RowsOk, Sound, Next, MaybePcOk, Decisive;
    SoundIsListed(w.db);
    if pc.Sweep? || pc.RecoverEntry? {
      QuietEntry(w, pc, reply);
    } else if pc.RecoverChain? || pc.RecoverQuery? {
      QuietQuestion(w, before, pc, reply);
    } else if pc.RecoverSettle? || pc.RecoverOutcome? {
      QuietVerdict(w, pc, reply);
    } else if pc.RunHead? || pc.MineChoose? {
      QuietSearch(w, pc, reply);
    } else if pc.SubmitPrepare? || pc.SubmitCall? {
      QuietSubmit(w, pc, reply);
    } else if pc.AuxPrepare? || pc.ContentCheck? {
      QuietAuxiliary(w, pc, reply);
    } else {
      QuietMining(w, pc, reply);
    }
  }

  lemma ActOk(w: World, after: World, pc: Pc, reply: Reply)
    requires Sound(w.db) && Sound(after.db) && RowsOk(w) && PcOk(w, pc)
    requires Act(pc, reply).Some? && Executed(w, after, Act(pc, reply).value)
    ensures RowsOk(after) && MaybePcOk(after, Next(after, pc, reply))
  {
    hide PcOk, RowsOk, Sound, Next, MaybePcOk, Executed;
    if pc.RecoverRelease? || pc.RecoverMark? || pc.RecoverSettle? {
      ActRecovery(w, after, pc, reply);
    } else if pc.RecoverOutcome? || pc.RecoverConsumed? {
      ActVerdict(w, after, pc, reply);
    } else if pc.MineBegin? || pc.MineStore? || pc.SendCommit? {
      ActMint(w, after, pc, reply);
    } else if pc.AuxBegin? || pc.AuxRefused? || pc.AuxCommit? || pc.ContentFail? {
      ActAuxiliary(w, after, pc, reply);
    } else {
      ActSubmit(w, after, pc, reply);
    }
  }

  /** The procs field plays no part in the facts about rows and program points. */
  lemma ProcsDoNotMatter(w: World, after: World, pc: Option<Pc>)
    requires RowsOk(w) && MaybePcOk(w, pc) && SameLedger(w, after)
    ensures RowsOk(after) && MaybePcOk(after, pc)
  {
    hide RowsOk, PcOk;
    if pc.Some? {
      VerdictsOnlyGrow(w, after, pc.value);
    } else {
      VerdictsOnlyGrow(w, after, Mining(Account("", ""), StatusOnly)) by {
        TrivialPoint(w);
      }
    }
  }

  lemma TrivialPoint(w: World)
    ensures PcOk(w, Mining(Account("", ""), StatusOnly))
  {
  }

  lemma SoloAt(w: World, pc: Option<Pc>)
    requires Sound(w.db) && RowsOk(w) && MaybePcOk(w, pc) && forall pid :: pid in w.procs ==> pid == 0
    ensures Solo(At(w, 0, pc))
  {
    hide RowsOk, PcOk, Sound;
    ProcsDoNotMatter(w, At(w, 0, pc), pc);
  }

  lemma SoloStep(w: World, reply: Reply)
    requires Solo(w) && 0 in w.procs
    ensures Solo(StepProcess(w, 0, reply))
  {
    hide RowsOk, PcOk, Sound, Next, OnThrow, Act, Attempt, MaybePcOk, IssuedId;
    var pc := w.procs[0];
    SoundIsListed(w.db);
    var called := if pc.SubmitCall? then w.(submissions := w.submissions + [Submission(pc.id, pc.request)]) else w;
    var noted := called.(
      used := if pc.SubmitPrepare? then w.used + {reply.id} else w.used,
      decided := if Decisive(pc, reply, w) then w.decided + {pc.op.id} else w.decided);
    VerdictsOnlyGrow(w, called, pc);
    VerdictsOnlyGrow(w, noted, pc);
    ThrowOk(called, pc, reply);
    ThrowOk(noted, pc, reply);
    SoloAt(called, OnThrow(pc, reply));
    SoloAt(noted, OnThrow(pc, reply));
    var action := Act(pc, reply);
    if action.None? {
      QuietOk(noted, w, pc, reply);
      SoloAt(noted, Next(noted, pc, reply));
    } else if Attempt(w.db, action.value).Done? {
      ApplyKeepsSound(w.db, action.value);
      var after := noted.(db := Apply(w.db, action.value));
      SoundIsListed(after.db);
      ActOk(w, after, pc, reply);
      SoloAt(after, Next(after, pc, reply));
    }
  }

  lemma SoloStart(w: World, pid: ProcessId, account: Account, command: Command)
    requires Solo(w) && pid !in w.procs && (pid == 0 || command.StopCommand? || command.AuthorizeCommand?)
    ensures Solo(Start(w, pid, account, command))
  {
    hide RowsOk, Sum, Unsettled, Sound, PcOk, Listed, Administer;
    var after := Start(w, pid, account, command);
    SoundIsListed(w.db);
    if command.StopCommand? || command.AuthorizeCommand? {
      assert after.db.rows == w.db.rows;
      SameRows(w, after);
    } else {
      FirstPointOk(w, account, command);
      assert after == At(w, pid, if pid in after.procs then Some(after.procs[pid]) else None);
      SoloAt(w, if pid in after.procs then Some(after.procs[pid]) else None);
    }
  }

  /** Whatever point a command starts at, its facts hold. */
  lemma FirstPointOk(w: World, account: Account, command: Command)
    requires Sound(w.db) && 0 !in w.procs
    ensures var after := Start(w, 0, account, command); 0 in after.procs ==> PcOk(w, after.procs[0])
  {
    hide Sum, Unsettled, Apart, Unclaimed, Administer, Current;
    UnsettledIsCurrent(w, account, w.db.order);
  }

  /** The facts about a program point depend on the operations, the chain and the verdicts alone. */
  lemma PointOverSameRows(w: World, after: World, pc: Pc)
    requires PcOk(w, pc) && after.db.rows == w.db.rows && after.chain == w.chain && after.decided == w.decided
    ensures PcOk(after, pc)
  {
    hide MintOk, Unresolved, ActiveMint, UnsentMint, SameTerms, Awaiting, FrameOk;
    FramesAreAboutRows(w, after);
  }

  lemma SameRows(w: World, after: World)
    requires after.db.rows == w.db.rows && after.procs == w.procs && after.chain == w.chain && after.decided == w.decided
    requires Solo(w) && Sound(after.db)
    ensures Solo(after)
  {
    hide MintOk, Sound, PcOk;
    if 0 in w.procs {
      PointOverSameRows(w, after, w.procs[0]);
    }
    forall id | id in after.db.rows ensures RowOk(after, id, after.db.rows[id]) {
      assert RowOk(w, id, w.db.rows[id]);
    }
  }

  /** The chain only adds issued ids, which can only back what was backed before. */
  lemma ChainGrows(w: World, receipt: Receipt, issued: nat)
    requires Solo(w) && receipt !in w.chain
    ensures Solo(w.(chain := w.chain[receipt := issued]))
  {
    hide MintOk, Sound, PcOk;
    var after := w.(chain := w.chain[receipt := issued]);
    forall id | id in after.db.rows ensures RowOk(after, id, after.db.rows[id]) {
      assert RowOk(w, id, w.db.rows[id]);
    }
    if 0 in w.procs {
      ChainGrowsUnder(w, after, w.procs[0]);
    }
  }

  lemma ChainGrowsUnder(w: World, after: World, pc: Pc)
    requires PcOk(w, pc) && after.db == w.db && after.decided == w.decided
    requires forall receipt: Option<Receipt> :: IssuedId(w, receipt) > 0 ==> IssuedId(after, receipt) > 0
    ensures PcOk(after, pc)
  {
    hide IssuedId, MintOk, Unresolved, ActiveMint, SameTerms, Awaiting, FrameOk;
    FramesAreAboutRows(w, after);
  }

  lemma SoloReact(w: World, input: Input)
    requires Solo(w) && SoloInput(input)
    ensures Solo(React(w, input))
  {
    hide Solo, StepProcess, Start;
    match input
    case Crash(pid) => SoloShrinks(w, pid);
    case Launch(pid, account, command) =>
      if pid !in w.procs {
        SoloStart(w, pid, account, command);
      }
    case Step(pid, reply) =>
      if pid in w.procs {
        SoloStep(w, reply);
      }
    case Tick(ms) => SoloTick(w, ms);
    case Issue(receipt, issued) =>
      if receipt !in w.chain && issued > 0 {
        ChainGrows(w, receipt, issued);
      }
  }

  lemma SoloShrinks(w: World, pid: ProcessId)
    requires Solo(w)
    ensures Solo(w.(procs := w.procs - {pid}))
  {
    hide RowsOk, PcOk, Sound;
    var after := w.(procs := w.procs - {pid});
    ProcsDoNotMatter(w, after, None);
    if 0 in after.procs {
      ProcsDoNotMatter(w, after, Some(w.procs[0]));
    }
  }

  lemma SoloTick(w: World, ms: nat)
    requires Solo(w)
    ensures Solo(w.(now := w.now + ms))
  {
    hide MintOk, Sound, PcOk;
    var after := w.(now := w.now + ms);
    if 0 in w.procs {
      PointOverSameRows(w, after, w.procs[0]);
    }
    forall id | id in after.db.rows ensures RowOk(after, id, after.db.rows[id]) {
      assert RowOk(w, id, w.db.rows[id]);
    }
  }

  lemma {:induction false} SoloRun(w: World, inputs: seq<Input>)
    requires Solo(w) && forall i :: 0 <= i < |inputs| ==> SoloInput(inputs[i])
    ensures Solo(Play(w, inputs))
    decreases |inputs|
  {
    if inputs != [] {
      SoloReact(w, inputs[0]);
      SoloRun(React(w, inputs[0]), inputs[1..]);
    }
  }
}
