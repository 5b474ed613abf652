/** The operations table of the durable ledger as values: one function per statement or transaction. */
module LedgerModel {
  import opened Options

  datatype Kind = Mint | ContentRegister | NftApproval | ArclApproval | Liquify | Reform

  datatype State =
    | Created | CertificateReady | WalletSubmitting | TxPending | SubmissionUnknown | Recovering | Unknown
    | MintConfirmed | ContentRegistered | ApprovalConfirmed | ConversionConfirmed
    | Reverted | Replaced | Failed | FailedRetryable

  type OperationId = string
  type RequestId = string
  type Receipt = string
  type TxHash = string

  /** A wallet handle; only the transaction kind carries a hash of its own. */
  datatype Handle = Transaction(hash: TxHash) | Provider(reference: string)

  /** Environment and lower-cased wallet address. */
  datatype Account = Account(environment: string, wallet: string)

  datatype Row = Row(
    kind: Kind, account: Account, state: State,
    request: Option<RequestId>, handle: Option<Handle>, txHash: Option<TxHash>,
    receipt: Option<Receipt>, expiresAt: Option<int>, issuedId: Option<nat>,
    callStored: bool,
    feeCommitted: nat, gasCommitted: nat, feeSpent: nat, gasSpent: nat)

  datatype Authorization = Authorization(maxMints: nat, maxFee: nat, maxGas: nat, expiresAt: int, revoked: bool)

  /** rows by primary key; order lists the keys as they were inserted (ORDER BY created_at). */
  datatype Db = Db(
    rows: map<OperationId, Row>, order: seq<OperationId>,
    authorizations: map<Account, Authorization>, stops: set<Account>)

  datatype Refusal =
    | UnresolvedMint | DuplicateOperation | ActiveMintIndex | RequestIndex
    | WrongState | NotRecorded | NotAuthorized | AuthorizationOver | CountBudget | FeeBudget | GasBudget

  /** What a ledger call leaves behind: a thrown error means the statement or transaction did not happen. */
  datatype Outcome = Done(db: Db) | Threw(why: Refusal)

  predicate Unresolved(state: State) {
    state in {CertificateReady, WalletSubmitting, TxPending, SubmissionUnknown, Recovering, Unknown}
  }

  predicate ActiveMint(row: Row) {
    row.kind.Mint? && Unresolved(row.state)
  }

  /** Rows that SQLite's unique index on active Mints and UNIQUE request ids forbid beside row at id. */
  predicate ActiveClash(rows: map<OperationId, Row>, id: OperationId, row: Row) {
    ActiveMint(row) && exists other :: other in rows && other != id && ActiveMint(rows[other]) && rows[other].account == row.account
  }

  predicate RequestClash(rows: map<OperationId, Row>, id: OperationId, row: Row) {
    row.request.Some? && exists other :: other in rows && other != id && rows[other].request == row.request
  }

  /** INSERT or UPDATE of one row under the two unique indexes. */
  function Put(db: Db, id: OperationId, row: Row): Outcome {
    if ActiveClash(db.rows, id, row) then Threw(ActiveMintIndex)
    else if RequestClash(db.rows, id, row) then Threw(RequestIndex)
    else Done(db.(rows := db.rows[id := row], order := if id in db.rows then db.order else db.order + [id]))
  }

  predicate CanStartMint(db: Db, account: Account) {
    forall id :: id in db.rows && db.rows[id].account == account ==> !ActiveMint(db.rows[id])
  }

  function NewRow(kind: Kind, account: Account, state: State, receipt: Option<Receipt>, expiresAt: Option<int>): Row {
    Row(kind, account, state, None, None, None, receipt, expiresAt, None, false, 0, 0, 0, 0)
  }

  function BeginOperation(db: Db, id: OperationId, row: Row): Outcome {
    if row.kind.Mint? && !CanStartMint(db, row.account) then Threw(UnresolvedMint)
    else if id in db.rows then Threw(DuplicateOperation)
    else Put(db, id, row)
  }

  function SetPendingCall(db: Db, id: OperationId): Outcome {
    if id in db.rows then Put(db, id, db.rows[id].(callStored := true)) else Done(db)
  }

  function HandleHash(handle: Option<Handle>): Option<TxHash> {
    if handle.Some? && handle.value.Transaction? then Some(handle.value.hash) else None
  }

  function AttachSubmission(db: Db, id: OperationId, request: RequestId, handle: Option<Handle>): Outcome {
    if id !in db.rows then Threw(NotRecorded)
    else if db.rows[id].state !in {CertificateReady, Created} then Threw(WrongState)
    else Put(db, id, db.rows[id].(
      request := Some(request), handle := handle, txHash := HandleHash(handle), state := WalletSubmitting))
  }

  function RecordWalletHandle(db: Db, id: OperationId, handle: Handle): Outcome {
    if id !in db.rows then Threw(NotRecorded)
    else if db.rows[id].state !in {WalletSubmitting, SubmissionUnknown, Recovering} then Done(db)
    else Put(db, id, db.rows[id].(handle := Some(handle), txHash := HandleHash(Some(handle)), state := TxPending))
  }

  function Transition(db: Db, id: OperationId, state: State): Outcome {
    if id !in db.rows then Threw(NotRecorded) else Put(db, id, db.rows[id].(state := state))
  }

  function MarkSubmissionUnknown(db: Db, id: OperationId): Outcome {
    Transition(db, id, SubmissionUnknown)
  }

  function MarkRecovering(db: Db, id: OperationId): Outcome {
    if id !in db.rows then Threw(NotRecorded)
    else if !Unresolved(db.rows[id].state) then Threw(WrongState)
    else Transition(db, id, Recovering)
  }

  /** SQL COALESCE(new, old). */
  function Coalesce<T>(update: Option<T>, current: Option<T>): Option<T> {
    if update.Some? then update else current
  }

  function MarkPending(db: Db, id: OperationId, handle: Option<Handle>, txHash: Option<TxHash>): Outcome {
    if id !in db.rows then Threw(NotRecorded)
    else
      var row := db.rows[id];
      Put(db, id, row.(state := TxPending, handle := Coalesce(handle, row.handle), txHash := Coalesce(txHash, row.txHash)))
  }

  function ConfirmedState(kind: Kind): State {
    match kind
    case Mint => MintConfirmed
    case ContentRegister => ContentRegistered
    case NftApproval => ApprovalConfirmed
    case ArclApproval => ApprovalConfirmed
    case _ => ConversionConfirmed
  }

  function ResolveConfirmed(db: Db, id: OperationId, txHash: Option<TxHash>, issuedId: Option<nat>, gas: nat): Outcome {
    if id !in db.rows then Threw(NotRecorded)
    else
      var row := db.rows[id];
      Put(db, id, row.(
        state := ConfirmedState(row.kind), txHash := Coalesce(txHash, row.txHash),
        issuedId := Coalesce(issuedId, row.issuedId), feeSpent := row.feeCommitted, gasSpent := gas))
  }

  /** The guard of resolveUnsentFailure's UPDATE: provably never handed to a wallet. */
  predicate Releasable(row: Row) {
    && row.request.None? && row.handle.None?
    && row.state in {Created, CertificateReady, Recovering, Unknown, SubmissionUnknown}
  }

  predicate UnsentFailureApplies(db: Db, id: OperationId) {
    id in db.rows && Releasable(db.rows[id])
  }

  function ResolveUnsentFailure(db: Db, id: OperationId): Outcome {
    if UnsentFailureApplies(db, id)
    then Put(db, id, db.rows[id].(state := FailedRetryable, feeSpent := 0, gasSpent := 0))
    else Done(db)
  }

  predicate FailureState(state: State) {
    state in {Reverted, Replaced, Failed, FailedRetryable}
  }

  function ResolveFailure(db: Db, id: OperationId, state: State, txHash: Option<TxHash>, gas: nat): Outcome {
    if id !in db.rows then Threw(NotRecorded)
    else
      var row := db.rows[id];
      Put(db, id, row.(state := state, txHash := Coalesce(txHash, row.txHash), feeSpent := 0, gasSpent := gas))
  }

  function SetOperationCommitment(db: Db, id: OperationId, fee: nat, gas: nat): Outcome {
    if id !in db.rows then Threw(NotRecorded)
    else Put(db, id, db.rows[id].(feeCommitted := fee, gasCommitted := gas))
  }

  function Authorize(db: Db, account: Account, authorization: Authorization): Db {
    db.(authorizations := db.authorizations[account := authorization.(revoked := false)])
  }

  function RevokeAuthorization(db: Db, account: Account): Db {
    if account in db.authorizations
    then db.(authorizations := db.authorizations[account := db.authorizations[account].(revoked := true)])
    else db
  }

  /** The six figures of a budget snapshot, each a sum over the account's Mints. */
  datatype Column = ConfirmedMints | ReservedMints | SpentFee | ReservedFee | SpentGas | ReservedGas

  function Cell(column: Column, account: Account, row: Row): nat {
    if !row.kind.Mint? || row.account != account then 0
    else match column
      case ConfirmedMints => if row.state.MintConfirmed? then 1 else 0
      case ReservedMints => if Unresolved(row.state) then 1 else 0
      case SpentFee => row.feeSpent
      case ReservedFee => if Unresolved(row.state) then row.feeCommitted else 0
      case SpentGas => row.gasSpent
      case ReservedGas => if Unresolved(row.state) then row.gasCommitted else 0
  }

  function Total(column: Column, account: Account, rows: map<OperationId, Row>, ids: seq<OperationId>): nat
    requires forall id :: id in ids ==> id in rows
  {
    if ids == [] then 0 else Cell(column, account, rows[ids[0]]) + Total(column, account, rows, ids[1..])
  }

  /** order lists exactly the keys of rows, each once. */
  ghost predicate Listed(db: Db) {
    && (forall id :: id in db.order <==> id in db.rows)
    && (forall i, j :: 0 <= i < j < |db.order| ==> db.order[i] != db.order[j])
  }

  function Sum(db: Db, column: Column, account: Account): nat
    requires Listed(db)
  {
    Total(column, account, db.rows, db.order)
  }

  /** The budget gate: everything spent or reserved besides `excluded`, plus the new amounts, fits the authorization. */
  function BudgetRefusal(
    db: Db, account: Account, fee: nat, gas: nat, now: int, excluded: Option<OperationId>): Option<Refusal>
    requires Listed(db)
  {
    if account !in db.authorizations then Some(NotAuthorized)
    else
      var a := db.authorizations[account];
      var own: Option<Row> :=
        if excluded.Some? && excluded.value in db.rows && ActiveMint(db.rows[excluded.value])
        then Some(db.rows[excluded.value]) else None;
      if a.revoked || a.expiresAt <= now then Some(AuthorizationOver)
      else if Sum(db, ConfirmedMints, account) + Sum(db, ReservedMints, account) - (if own.Some? then 1 else 0) + 1 > a.maxMints
      then Some(CountBudget)
      else if Sum(db, SpentFee, account) + Sum(db, ReservedFee, account) - (if own.Some? then own.value.feeCommitted else 0) + fee > a.maxFee
      then Some(FeeBudget)
      else if Sum(db, SpentGas, account) + Sum(db, ReservedGas, account) - (if own.Some? then own.value.gasCommitted else 0) + gas > a.maxGas
      then Some(GasBudget)
      else None
  }
}
