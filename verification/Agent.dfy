/**
 * The agent runtime as a transition system. A process is at one program point between two awaits
 * or ledger calls; any process may crash at any point; wallet, chain, API and clock answer freely.
 */
module Agent {
  import opened Options
  import opened LedgerModel
  import opened LedgerRuns

  const MINT_FEE: nat := 100_000_000_000_000_000
  const MIN_CERTIFICATE_SEND_WINDOW_MS := 90_000

  type ProcessId = nat

  datatype Status = NotFound | Pending | Confirmed | WasReverted | WasReplaced | Undetermined

  /** What querySubmission and queryRequest report. */
  datatype QueryResult = QueryResult(status: Status, handle: Option<Handle>, txHash: Option<TxHash>, gas: Option<nat>)

  /** A ledger record as read at some moment. */
  datatype Snapshot = Snapshot(id: OperationId, row: Row)

  /** Why mineOnce or recoverOutstanding is running; completed and base follow one `run` command. */
  datatype Goal = StatusOnly | Once(confirmed: bool) | Running(completed: nat, base: nat)

  /** Who awaits recoverOperation or submit. */
  datatype Frame =
    | InSweep(account: Account, rest: seq<Snapshot>, goal: Goal)
    | AfterMint(account: Account, goal: Goal)
    | AfterAuxiliary(id: OperationId, content: bool)

  datatype Pc =
    // recoverOutstanding
    | Sweep(account: Account, todo: seq<Snapshot>, goal: Goal)
    // recoverOperation
    | RecoverEntry(frame: Frame, op: Snapshot)
    | RecoverRelease(frame: Frame, op: Snapshot)
    | RecoverMark(frame: Frame, op: Snapshot)
    | RecoverChain(frame: Frame, op: Snapshot)
    | RecoverQuery(frame: Frame, op: Snapshot, issued: nat)
    | RecoverSettle(frame: Frame, op: Snapshot, issued: nat, result: QueryResult)
    | RecoverOutcome(frame: Frame, op: Snapshot, result: QueryResult)
    | RecoverConsumed(frame: Frame, op: Snapshot, result: QueryResult, issued: nat)
    // run and mineOnce
    | RunHead(account: Account, goal: Goal)
    | MineChoose(account: Account, goal: Goal)
    | MinePreflight(account: Account, goal: Goal)
    | Mining(account: Account, goal: Goal)
    | MineBegin(account: Account, goal: Goal, id: OperationId, receipt: Receipt, expiresAt: int)
    | MineStore(account: Account, goal: Goal, id: OperationId)
    | Resume(account: Account, goal: Goal, id: OperationId)
    // sendCertifiedMint
    | SendStart(account: Account, goal: Goal, id: OperationId)
    | SendSimulate(account: Account, goal: Goal, id: OperationId)
    | SendBudget(account: Account, goal: Goal, id: OperationId, gas: nat)
    | SendCommit(account: Account, goal: Goal, id: OperationId, gas: nat)
    // submit
    | SubmitPrepare(frame: Frame, id: OperationId)
    | SubmitRefused(frame: Frame, id: OperationId)
    | SubmitAttach(frame: Frame, id: OperationId, request: RequestId, handle: Option<Handle>)
    | SubmitCall(frame: Frame, id: OperationId, request: RequestId)
    | SubmitRecord(frame: Frame, id: OperationId, given: Handle)
    | SubmitLost(frame: Frame, id: OperationId)
    // registerContentOperation, executeAuxiliary, submitExistingAuxiliary
    | AuxBegin(account: Account, id: OperationId, kind: Kind)
    | AuxPrepare(id: OperationId, content: bool)
    | AuxRefused(id: OperationId, content: bool)
    | AuxCommit(id: OperationId, content: bool, gas: nat)
    | ContentCheck(id: OperationId)
    | ContentFail(id: OperationId, failure: FailureKind)

  /** Everything one answer of the environment can carry; a program point uses the fields it awaits. */
  datatype Reply = Reply(
    throws: bool, refused: bool, handle: Option<Handle>, result: QueryResult, gas: nat,
    id: string, receipt: Receipt, expiresAt: int)

  datatype Submission = Submission(id: OperationId, request: RequestId)

  datatype World = World(
    db: Db,
    submissions: seq<Submission>,       // every submitCall so far, in order
    chain: map<Receipt, nat>,           // issued ids, only ever added
    now: int,
    used: set<RequestId>,               // randomUUID results so far
    procs: map<ProcessId, Pc>,
    decided: set<OperationId>)          // operations whose outcome the chain or a wallet has reported

  function IssuedId(w: World, receipt: Option<Receipt>): nat {
    if receipt.Some? && receipt.value in w.chain then w.chain[receipt.value] else 0
  }

  predicate IsConfirmed(state: State) {
    state in {MintConfirmed, ContentRegistered, ApprovalConfirmed, ConversionConfirmed}
  }

  predicate Unattended(goal: Goal) {
    goal.Running?
  }

  /** isConfirmed / state === "MINT_CONFIRMED" at the callers of recoverOperation. */
  function Return(frame: Frame, row: Row): Option<Pc> {
    match frame
    case InSweep(account, rest, goal) => Some(Sweep(account, rest, goal))
    case AfterMint(account, goal) =>
      if goal.Running? && row.state == MintConfirmed
      then Some(RunHead(account, goal.(completed := goal.completed + 1))) else None
    case AfterAuxiliary(id, content) =>
      if content && IsConfirmed(row.state) then Some(ContentCheck(id)) else None
  }

  /** An error leaves the command, except that registerContentOperation catches it. */
  function Catch(frame: Frame, reply: Reply): Option<Pc> {
    match frame
    case AfterAuxiliary(id, true) => Some(ContentFail(id, if reply.refused then Failed else FailedRetryable))
    case _ => None
  }

  /** The ledger statement a program point executes, if it executes one. */
  function Act(pc: Pc, reply: Reply): Option<Action> {
    match pc
    case RecoverRelease(_, op) => Some(Release(op.id))
    case RecoverMark(_, op) => Some(Recover(op.id))
    case RecoverSettle(_, op, issued, result) =>
      if issued > 0 then
        Some(Confirm(op.id, Coalesce(result.txHash, op.row.txHash), Some(issued), GasOf(result, op.row.gasCommitted)))
      else if result.handle.Some? && op.row.handle.None? then Some(Record(op.id, result.handle.value))
      else None
    case RecoverOutcome(_, op, result) =>
      (match result.status
       case Pending => Some(Pend(op.id, result.handle, result.txHash))
       case Confirmed => if op.row.kind.Mint? then None else Some(Confirm(op.id, result.txHash, None, GasOf(result, op.row.gasCommitted)))
       case WasReverted => Some(Fail(op.id, Reverted, result.txHash, GasOf(result, op.row.gasCommitted)))
       case WasReplaced => Some(Fail(op.id, Replaced, result.txHash, GasOf(result, op.row.gasCommitted)))
       case _ => Some(LoseTrack(op.id)))
    case RecoverConsumed(_, op, result, issued) =>
      if issued == 0 then Some(Fail(op.id, Failed, result.txHash, GasOf(result, 0)))
      else Some(Confirm(op.id, result.txHash, Some(issued), GasOf(result, op.row.gasCommitted)))
    case MineBegin(account, _, id, receipt, expiresAt) =>
      Some(Begin(id, Mint, account, CertificateReady, Some(receipt), Some(expiresAt)))
    case MineStore(_, _, id) => Some(StoreCall(id))
    case SendCommit(_, _, id, gas) => Some(Commit(id, MINT_FEE, gas))
    case SubmitRefused(_, id) => Some(Fail(id, FailedRetryable, None, 0))
    case SubmitAttach(_, id, request, handle) => Some(Attach(id, request, handle))
    case SubmitRecord(_, id, given) => Some(Record(id, given))
    case SubmitLost(_, id) => Some(LoseTrack(id))
    case AuxBegin(account, id, kind) => Some(Begin(id, kind, account, Created, None, None))
    case AuxRefused(id, _) => Some(Fail(id, FailedRetryable, None, 0))
    case AuxCommit(id, _, gas) => Some(Commit(id, 0, gas))
    case ContentFail(id, failure) => Some(Fail(id, failure, None, 0))
    case _ => None
  }

  function GasOf(result: QueryResult, otherwise: nat): nat {
    if result.gas.Some? then result.gas.value else otherwise
  }

  /** Where a thrown error, from an await or from the ledger, takes the process. */
  function OnThrow(pc: Pc, reply: Reply): Option<Pc> {
    match pc
    // prepareSubmission rejected: submit records a retryable failure.
    case SubmitPrepare(frame, id) => Some(SubmitRefused(frame, id))
    // submitCall or recordWalletHandle rejected: the outcome is unknown.
    case SubmitCall(frame, id, _) => Some(SubmitLost(frame, id))
    case SubmitRecord(frame, id, _) => Some(SubmitLost(frame, id))
    // An unreadable chain keeps the wallet-confirmed content result; a failed write ends the command.
    case ContentCheck(_) => None
    case ContentFail(_, _) => None
    case AuxPrepare(id, content) => Catch(AfterAuxiliary(id, content), reply)
    case AuxRefused(id, content) => Catch(AfterAuxiliary(id, content), reply)
    case AuxCommit(id, content, _) => Catch(AfterAuxiliary(id, content), reply)
    case RecoverEntry(frame, _) => Catch(frame, reply)
    case RecoverRelease(frame, _) => Catch(frame, reply)
    case RecoverMark(frame, _) => Catch(frame, reply)
    case RecoverChain(frame, _) => Catch(frame, reply)
    case RecoverQuery(frame, _, _) => Catch(frame, reply)
    case RecoverSettle(frame, _, _, _) => Catch(frame, reply)
    case RecoverOutcome(frame, _, _) => Catch(frame, reply)
    case RecoverConsumed(frame, _, _, _) => Catch(frame, reply)
    case SubmitRefused(frame, _) => Catch(frame, reply)
    case SubmitAttach(frame, _, _, _) => Catch(frame, reply)
    case SubmitLost(frame, _) => Catch(frame, reply)
    case _ => None
  }

  function Unsettled(db: Db, account: Account, ids: seq<OperationId>): seq<Snapshot> {
    if ids == [] then []
    else if ids[0] in db.rows && db.rows[ids[0]].account == account && Unresolved(db.rows[ids[0]].state)
    then [Snapshot(ids[0], db.rows[ids[0]])] + Unsettled(db, account, ids[1..])
    else Unsettled(db, account, ids[1..])
  }

  /** resumableCertifiedMint: holds a valid certificate and its call, and was never handed to a wallet. */
  predicate Resumable(db: Db, now: int, account: Account, id: OperationId) {
    && id in db.rows
    && var row := db.rows[id];
      && row.account == account && ActiveMint(row)
      && row.request.None? && row.handle.None?
      && row.expiresAt.Some? && row.expiresAt.value > now
      && row.callStored
  }

  function FirstResumable(db: Db, now: int, account: Account, ids: seq<OperationId>): Option<OperationId> {
    if ids == [] then None
    else if Resumable(db, now, account, ids[0]) then Some(ids[0])
    else FirstResumable(db, now, account, ids[1..])
  }

  /** Never handed to any wallet, as far as this record knows. */
  predicate UnsentMint(row: Row) {
    row.kind.Mint? && row.request.None? && row.handle.None?
  }

  predicate CertificateExpired(row: Row, now: int) {
    row.expiresAt.None? || row.expiresAt.value <= now
  }

  function RowOr(db: Db, id: OperationId, otherwise: Row): Row {
    if id in db.rows then db.rows[id] else otherwise
  }

  /** Where the process goes once its await or ledger statement has succeeded; w is the world after it. */
  function Next(w: World, pc: Pc, reply: Reply): Option<Pc>
    requires Listed(w.db)
  {
    match pc
    case Sweep(account, todo, goal) =>
      if todo != [] then Some(RecoverEntry(InSweep(account, todo[1..], goal), todo[0]))
      else if goal.StatusOnly? then None
      else Some(MineChoose(account, goal))

    case RecoverEntry(frame, op) =>
      if !Unresolved(op.row.state) then Return(frame, op.row)
      else if UnsentMint(op.row) && IssuedId(w, op.row.receipt) == 0 then
        if CertificateExpired(op.row, w.now) then Some(RecoverRelease(frame, op)) else Return(frame, op.row)
      else Some(RecoverMark(frame, op))
    case RecoverRelease(frame, op) =>
      var current := RowOr(w.db, op.id, op.row);
      if op.id !in w.db.rows || !Unresolved(current.state) then Return(frame, current)
      else Some(RecoverMark(frame, Snapshot(op.id, current)))
    case RecoverMark(frame, op) => Some(RecoverChain(frame, op.(row := RowOr(w.db, op.id, op.row))))
    case RecoverChain(frame, op) =>
      Some(RecoverQuery(frame, op, if op.row.kind.Mint? then IssuedId(w, op.row.receipt) else 0))
    case RecoverQuery(frame, op, issued) =>
      Some(RecoverSettle(frame, op, issued,
        if op.row.handle.Some? || op.row.request.Some? then reply.result else QueryResult(Undetermined, None, None, None)))
    case RecoverSettle(frame, op, issued, result) =>
      if issued > 0 then Return(frame, RowOr(w.db, op.id, op.row)) else Some(RecoverOutcome(frame, op, result))
    case RecoverOutcome(frame, op, result) =>
      if result.status.Confirmed? && op.row.kind.Mint? then
        if op.row.receipt.None? then Catch(frame, reply)
        else Some(RecoverConsumed(frame, op, result, IssuedId(w, op.row.receipt)))
      else Return(frame, RowOr(w.db, op.id, op.row))
    case RecoverConsumed(frame, op, _, _) => Return(frame, RowOr(w.db, op.id, op.row))

    case RunHead(account, goal) =>
      if account in w.db.stops || account !in w.db.authorizations
        || Sum(w.db, ConfirmedMints, account) + Sum(w.db, ReservedMints, account) >= w.db.authorizations[account].maxMints
      then None
      else Some(Sweep(account, Unsettled(w.db, account, w.db.order), goal))
    case MineChoose(account, goal) =>
      var resumable := FirstResumable(w.db, w.now, account, w.db.order);
      if resumable.Some? then
        if goal == Once(false) then None else Some(Resume(account, goal, resumable.value))
      else if !CanStartMint(w.db, account) || goal == Once(false) then None
      else Some(MinePreflight(account, goal))
    case MinePreflight(account, goal) =>
      if Unattended(goal) && BudgetRefusal(w.db, account, MINT_FEE, 0, w.now, None).Some? then None
      else Some(Mining(account, goal))
    case Mining(account, goal) => Some(MineBegin(account, goal, reply.id, reply.receipt, reply.expiresAt))
    case MineBegin(account, goal, id, _, _) => Some(MineStore(account, goal, id))
    case MineStore(account, goal, id) => Some(SendStart(account, goal, id))
    case Resume(account, goal, id) => Some(SendStart(account, goal, id))

    case SendStart(account, goal, id) =>
      if id !in w.db.rows || !w.db.rows[id].kind.Mint? || w.db.rows[id].receipt.None? then None
      else
        var expiry := w.db.rows[id].expiresAt;
        if (if expiry.Some? then expiry.value else 0) - w.now < MIN_CERTIFICATE_SEND_WINDOW_MS then None
        else Some(SendSimulate(account, goal, id))
    case SendSimulate(account, goal, id) =>
      if reply.refused then None else Some(SendBudget(account, goal, id, reply.gas))
    case SendBudget(account, goal, id, gas) =>
      if Unattended(goal) && BudgetRefusal(w.db, account, MINT_FEE, gas, w.now, Some(id)).Some? then None
      else Some(SendCommit(account, goal, id, gas))
    case SendCommit(account, goal, id, _) => Some(SubmitPrepare(AfterMint(account, goal), id))

    case SubmitPrepare(frame, id) => Some(SubmitAttach(frame, id, reply.id, reply.handle))
    case SubmitRefused(frame, id) => AfterSubmit(w.db, frame, id)
    case SubmitAttach(frame, id, request, _) => Some(SubmitCall(frame, id, request))
    case SubmitCall(frame, id, _) => if reply.handle.Some? then Some(SubmitRecord(frame, id, reply.handle.value)) else Some(SubmitLost(frame, id))
    case SubmitRecord(frame, id, _) => AfterSubmit(w.db, frame, id)
    case SubmitLost(frame, id) => AfterSubmit(w.db, frame, id)

    case AuxBegin(_, id, kind) => Some(AuxPrepare(id, kind.ContentRegister?))
    case AuxPrepare(id, content) => if reply.refused then Some(AuxRefused(id, content)) else Some(AuxCommit(id, content, reply.gas))
    case AuxRefused(_, _) => None
    case AuxCommit(id, content, _) => Some(SubmitPrepare(AfterAuxiliary(id, content), id))
    case ContentCheck(id) => if reply.refused then Some(ContentFail(id, Failed)) else None
    case ContentFail(_, _) => None
  }

  /** submit returned its record; both callers pass it to recoverOperation. */
  function AfterSubmit(db: Db, frame: Frame, id: OperationId): Option<Pc> {
    if id in db.rows then Some(RecoverEntry(frame, Snapshot(id, db.rows[id]))) else None
  }

  function At(w: World, pid: ProcessId, pc: Option<Pc>): World {
    w.(procs := if pc.Some? then w.procs[pid := pc.value] else w.procs - {pid})
  }

  /** The chain and the wallet have told this process what became of the operation. */
  predicate Decisive(pc: Pc, reply: Reply, w: World) {
    match pc
    case RecoverChain(_, op) => op.row.kind.Mint? && IssuedId(w, op.row.receipt) > 0
    case RecoverQuery(_, op, _) =>
      (op.row.handle.Some? || op.row.request.Some?) && reply.result.status in {Confirmed, WasReverted, WasReplaced}
    case _ => false
  }

  /** One step of a process: its awaited call answers, and its ledger statement, if any, runs atomically. */
  function StepProcess(w: World, pid: ProcessId, reply: Reply): (after: World)
    requires pid in w.procs && Sound(w.db)
    ensures Sound(after.db) && Later(w.db, after.db)
  {
    var pc := w.procs[pid];
    var called := if pc.SubmitCall? then w.(submissions := w.submissions + [Submission(pc.id, pc.request)]) else w;
    if reply.throws then At(called, pid, OnThrow(pc, reply))
    else if pc.SubmitPrepare? && reply.id in w.used then w // randomUUID does not repeat
    else
      var noted := called.(
        used := if pc.SubmitPrepare? then w.used + {reply.id} else w.used,
        decided := if Decisive(pc, reply, w) then w.decided + {pc.op.id} else w.decided);
      var action := Act(pc, reply);
      if action.None? then At(noted, pid, Next(noted, pc, reply))
      else
        ApplyKeepsSound(w.db, action.value);
        if Attempt(w.db, action.value).Threw? then At(noted, pid, OnThrow(pc, reply))
        else
          var after := noted.(db := Apply(w.db, action.value));
          At(after, pid, Next(after, pc, reply))
  }

  datatype Command =
    | MineOnce(confirmed: bool)
    | Run
    | ShowStatus
    | Auxiliary(kind: Kind, id: OperationId)
    | AuthorizeCommand(authorization: Authorization)
    | StopCommand

  /** What `authorize` and `stop` write: no operation, and nothing about other accounts. */
  function Administer(db: Db, now: int, account: Account, command: Command): (after: Db)
    ensures after.rows == db.rows && after.order == db.order
    ensures forall other :: other != account && other in db.authorizations ==>
      other in after.authorizations && after.authorizations[other] == db.authorizations[other]
    ensures command.StopCommand? && account in db.authorizations ==>
      && account in after.authorizations
      && after.authorizations[account] == db.authorizations[account].(revoked := true)
  {
    match command
    case AuthorizeCommand(a) =>
      if a.maxMints == 0 || a.expiresAt <= now || a.maxFee < a.maxMints * MINT_FEE || a.maxGas == 0 then db
      else
        GrantApplies(db, account, a);
        StopsApply(Apply(db, Grant(account, a)), account);
        Apply(Apply(db, Grant(account, a)), ClearStop(account))
    case StopCommand =>
      StopsApply(db, account);
      StopsApply(Apply(db, Stop(account)), account);
      Apply(Apply(db, Stop(account)), Revoke(account))
    case _ => db
  }

  /** The first synchronous stretch of a command. */
  function Start(w: World, pid: ProcessId, account: Account, command: Command): (after: World)
    requires Sound(w.db)
    ensures Sound(after.db) && Later(w.db, after.db)
  {
    SameRowsAreSound(w.db, w.db);
    SameRowsAreSound(w.db, Administer(w.db, w.now, account, command));
    match command
    case MineOnce(confirmed) =>
      if account in w.db.stops then w
      else At(w, pid, Some(Sweep(account, Unsettled(w.db, account, w.db.order), Once(confirmed))))
    case Run =>
      if account !in w.db.authorizations || w.db.authorizations[account].revoked || w.db.authorizations[account].expiresAt <= w.now then w
      else At(w, pid, Some(RunHead(account, Running(0, Sum(w.db, ConfirmedMints, account)))))
    case ShowStatus => At(w, pid, Some(Sweep(account, Unsettled(w.db, account, w.db.order), StatusOnly)))
    case Auxiliary(kind, id) => if kind.Mint? then w else At(w, pid, Some(AuxBegin(account, id, kind)))
    case AuthorizeCommand(_) => w.(db := Administer(w.db, w.now, account, command))
    case StopCommand => w.(db := Administer(w.db, w.now, account, command))
  }

  datatype Input =
    | Crash(pid: ProcessId)
    | Launch(pid: ProcessId, account: Account, command: Command)
    | Step(pid: ProcessId, reply: Reply)
    | Tick(ms: nat)
    | Issue(receipt: Receipt, issued: nat)
    | LateUpdate(id: OperationId)

  /**
   * One event: a crash, a new command, an answer, time passing, the chain consuming a receipt, or the
   * UPDATE of a markRecovering whose check some other process has overtaken.
   */
  function React(w: World, input: Input): (after: World)
    requires Sound(w.db)
    ensures Sound(after.db) && Later(w.db, after.db)
  {
    ReenterKeepsSound(w.db, input);
    match input
    case Crash(pid) => w.(procs := w.procs - {pid})
    case Launch(pid, account, command) => if pid in w.procs then w else Start(w, pid, account, command)
    case Step(pid, reply) => if pid in w.procs then StepProcess(w, pid, reply) else w
    case Tick(ms) => w.(now := w.now + ms)
    case Issue(receipt, issued) => if receipt in w.chain || issued == 0 then w else w.(chain := w.chain[receipt := issued])
    case LateUpdate(id) => w.(db := Apply(w.db, Reenter(id)))
  }

  lemma ReenterKeepsSound(db: Db, input: Input)
    requires Sound(db)
    ensures input.LateUpdate? ==> Sound(Apply(db, Reenter(input.id))) && Later(db, Apply(db, Reenter(input.id)))
  {
    if input.LateUpdate? {
      ApplyKeepsSound(db, Reenter(input.id));
    }
  }

  function Play(w: World, inputs: seq<Input>): (after: World)
    requires Sound(w.db)
    ensures Sound(after.db)
    decreases |inputs|
  {
    if inputs == [] then w else Play(React(w, inputs[0]), inputs[1..])
  }
}
