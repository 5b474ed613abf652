/** What any number of processes can do to one ledger by interleaving its atomic actions. */
module LedgerRuns {
  import opened Options
  import opened LedgerModel

  type FailureKind = s: State | FailureState(s) witness Failed

  datatype Action =
    | Begin(id: OperationId, kind: Kind, account: Account, state: State, receipt: Option<Receipt>, expiresAt: Option<int>)
    | StoreCall(id: OperationId)
    | Attach(id: OperationId, request: RequestId, handle: Option<Handle>)
    | Record(id: OperationId, given: Handle)
    | LoseTrack(id: OperationId)
    | Recover(id: OperationId)
    | Reenter(id: OperationId)  // the UPDATE of markRecovering after a check that is out of date
    | Pend(id: OperationId, handle: Option<Handle>, txHash: Option<TxHash>)
    | Confirm(id: OperationId, txHash: Option<TxHash>, issuedId: Option<nat>, gas: nat)
    | Release(id: OperationId)
    | Fail(id: OperationId, failure: FailureKind, txHash: Option<TxHash>, gas: nat)
    | Commit(id: OperationId, fee: nat, gas: nat)
    | Grant(account: Account, authorization: Authorization)
    | Revoke(account: Account)
    | Stop(account: Account)
    | ClearStop(account: Account)

  function Attempt(db: Db, action: Action): Outcome {
    match action
    case Begin(id, kind, account, state, receipt, expiresAt) => BeginOperation(db, id, NewRow(kind, account, state, receipt, expiresAt))
    case StoreCall(id) => SetPendingCall(db, id)
    case Attach(id, request, handle) => AttachSubmission(db, id, request, handle)
    case Record(id, given) => RecordWalletHandle(db, id, given)
    case LoseTrack(id) => MarkSubmissionUnknown(db, id)
    case Recover(id) => MarkRecovering(db, id)
    case Reenter(id) => Transition(db, id, Recovering)
    case Pend(id, handle, txHash) => MarkPending(db, id, handle, txHash)
    case Confirm(id, txHash, issuedId, gas) => ResolveConfirmed(db, id, txHash, issuedId, gas)
    case Release(id) => ResolveUnsentFailure(db, id)
    case Fail(id, failure, txHash, gas) => ResolveFailure(db, id, failure, txHash, gas)
    case Commit(id, fee, gas) => SetOperationCommitment(db, id, fee, gas)
    case Grant(account, authorization) => Done(Authorize(db, account, authorization))
    case Revoke(account) => Done(RevokeAuthorization(db, account))
    case Stop(account) => Done(db.(stops := db.stops + {account}))
    case ClearStop(account) => Done(db.(stops := db.stops - {account}))
  }

  /** An action that throws leaves the ledger as it was. */
  function Apply(db: Db, action: Action): Db {
    match Attempt(db, action)
    case Done(after) => after
    case Threw(_) => db
  }

  function After(db: Db, actions: seq<Action>): Db
    decreases |actions|
  {
    if actions == [] then db else After(Apply(db, actions[0]), actions[1..])
  }

  /** attachSubmission returned, so its caller goes on to the wallet. */
  predicate Sent(db: Db, action: Action, id: OperationId) {
    action.Attach? && action.id == id && Attempt(db, action).Done?
  }

  /** resolveUnsentFailure changed its row. */
  predicate Released(db: Db, action: Action, id: OperationId) {
    action.Release? && action.id == id && Attempt(db, action).Done? && UnsentFailureApplies(db, id)
  }

  predicate NotYetSent(state: State) {
    state in {Created, CertificateReady}
  }

  /** Two rows are not both unresolved Mints of one account and do not share a request id. */
  predicate Apart(row: Row, other: Row) {
    && !(ActiveMint(row) && ActiveMint(other) && row.account == other.account)
    && (row.request.Some? ==> row.request != other.request)
  }

  predicate Unclaimed(row: Row) {
    NotYetSent(row.state) ==> row.request.None? && row.handle.None?
  }

  /** At most one unresolved Mint per account, request ids unique, and nothing waiting to be sent carries one. */
  ghost predicate Sound(db: Db) {
    && Listed(db)
    && (forall i, j :: i in db.rows && j in db.rows && i != j ==> Apart(db.rows[i], db.rows[j]))
    && (forall i :: i in db.rows ==> Unclaimed(db.rows[i]))
  }

  lemma SoundIsListed(db: Db)
    requires Sound(db)
    ensures Listed(db)
  {
  }

  /** How a row may differ later: what identifies and recovers it stays, and CREATED or CERTIFICATE_READY, once left, never comes back. */
  predicate LaterRow(row: Row, later: Row) {
    && later.kind == row.kind && later.account == row.account
    && later.receipt == row.receipt && later.expiresAt == row.expiresAt
    && (row.request.Some? ==> later.request == row.request)
    && (row.handle.Some? ==> later.handle.Some?)
    && (row.issuedId.Some? ==> later.issuedId.Some?)
    && (row.callStored ==> later.callStored)
    && (!NotYetSent(row.state) ==> !NotYetSent(later.state))
  }

  ghost predicate Later(db: Db, after: Db) {
    forall id :: id in db.rows ==> id in after.rows && LaterRow(db.rows[id], after.rows[id])
  }

  /** The index checks in Put keep the table sound. */
  lemma PutKeepsSound(db: Db, id: OperationId, row: Row)
    requires Sound(db) && Unclaimed(row) && Put(db, id, row).Done?
    ensures Sound(Put(db, id, row).db)
  {
    var after := Put(db, id, row).db;
    forall i, j | i in after.rows && j in after.rows && i != j
      ensures Apart(after.rows[i], after.rows[j])
    {
      assert i == id || after.rows[i] == db.rows[i];
      assert j == id || after.rows[j] == db.rows[j];
    }
  }

  /** The action's outcome is that of writing this later version of one row. */
  ghost predicate IsPut(db: Db, action: Action, id: OperationId, row: Row) {
    && Attempt(db, action) == Put(db, id, row) && Unclaimed(row)
    && (id in db.rows ==> LaterRow(db.rows[id], row))
  }

  lemma SubmittingIsPut(db: Db, action: Action) returns (row: Row)
    requires Sound(db) && Attempt(db, action).Done?
    requires action.Begin? || (action.StoreCall? && action.id in db.rows) || action.Attach?
    ensures IsPut(db, action, action.id, row)
  {
    hide Put;
    match action
    case Begin(i, kind, account, state, receipt, expiresAt) => row := NewRow(kind, account, state, receipt, expiresAt);
    case StoreCall(i) => row := db.rows[i].(callStored := true);
    case Attach(i, request, handle) =>
      row := db.rows[i].(
        request := Some(request), handle := handle, txHash := HandleHash(handle), state := WalletSubmitting);
  }

  lemma TrackingIsPut(db: Db, action: Action) returns (row: Row)
    requires Sound(db) && Attempt(db, action).Done?
    requires action.LoseTrack? || action.Recover? || action.Reenter? || action.Pend?
      || (action.Record? && action.id in db.rows && db.rows[action.id].state in {WalletSubmitting, SubmissionUnknown, Recovering})
    ensures IsPut(db, action, action.id, row)
  {
    hide Put, Sound;
    row := db.rows[action.id];
    match action
    case Record(_, given) => row := row.(handle := Some(given), txHash := HandleHash(Some(given)), state := TxPending);
    case LoseTrack(_) => row := row.(state := SubmissionUnknown);
    case Pend(_, handle, txHash) =>
      row := row.(state := TxPending, handle := Coalesce(handle, row.handle), txHash := Coalesce(txHash, row.txHash));
    case _ => row := row.(state := Recovering);
  }

  lemma SettlingIsPut(db: Db, action: Action) returns (row: Row)
    requires Sound(db) && Attempt(db, action).Done?
    requires action.Confirm? || action.Fail? || action.Commit? || (action.Release? && UnsentFailureApplies(db, action.id))
    ensures IsPut(db, action, action.id, row)
  {
    hide Put, Apart;
    row := db.rows[action.id];
    match action
    case Confirm(_, txHash, issuedId, gas) =>
      row := row.(
        state := ConfirmedState(row.kind), txHash := Coalesce(txHash, row.txHash),
        issuedId := Coalesce(issuedId, row.issuedId), feeSpent := row.feeCommitted, gasSpent := gas);
    case Release(_) => row := row.(state := FailedRetryable, feeSpent := 0, gasSpent := 0);
    case Fail(_, failure, txHash, gas) =>
      row := row.(state := failure, txHash := Coalesce(txHash, row.txHash), feeSpent := 0, gasSpent := gas);
    case Commit(_, fee, gas) => row := row.(feeCommitted := fee, gasCommitted := gas);
  }

  /** An action whose guard matches no row, or that is not about operations, leaves the table alone. */
  predicate LeavesTable(db: Db, action: Action) {
    match action
    case StoreCall(id) => id !in db.rows
    case Record(id, _) => id in db.rows && db.rows[id].state !in {WalletSubmitting, SubmissionUnknown, Recovering}
    case Release(id) => !UnsentFailureApplies(db, id)
    case Grant(_, _) => true
    case Revoke(_) => true
    case Stop(_) => true
    case ClearStop(_) => true
    case _ => false
  }

  lemma TableIsLeft(db: Db, action: Action)
    requires LeavesTable(db, action)
    ensures Attempt(db, action).Done?
    ensures Attempt(db, action).db.rows == db.rows && Attempt(db, action).db.order == db.order
  {
  }

  lemma NotRecordedThrows(db: Db, action: Action)
    requires action.Record? && Attempt(db, action).Done?
    ensures action.id in db.rows
  {
  }

  /** Every action that touches the table is one Put of a later version of one row. */
  lemma ActionIsPut(db: Db, action: Action) returns (put: bool, id: OperationId, row: Row)
    requires Sound(db) && Attempt(db, action).Done?
    ensures put == !LeavesTable(db, action)
    ensures put ==> IsPut(db, action, id, row) && id == action.id
    ensures !put ==> Attempt(db, action).db.rows == db.rows && Attempt(db, action).db.order == db.order
  {
    hide Attempt, Sound, IsPut, UnsentFailureApplies;
    put, id, row := !LeavesTable(db, action), "", NewRow(Mint, Account("", ""), Failed, None, None);
    if !put {
      TableIsLeft(db, action);
    } else {
      id := action.id;
      if action.Record? {
        NotRecordedThrows(db, action);
      }
      if action.Begin? || action.StoreCall? || action.Attach? {
        row := SubmittingIsPut(db, action);
      } else if action.Confirm? || action.Fail? || action.Commit? || action.Release? {
        row := SettlingIsPut(db, action);
      } else {
        row := TrackingIsPut(db, action);
      }
    }
  }

  lemma PutIsLater(db: Db, id: OperationId, row: Row)
    requires Put(db, id, row).Done? && (id in db.rows ==> LaterRow(db.rows[id], row))
    ensures Later(db, Put(db, id, row).db)
  {
    hide ActiveClash, RequestClash;
  }

  /** One action of any process, in any state of the ledger. */
  lemma ApplyKeepsSound(db: Db, action: Action)
    requires Sound(db)
    ensures Sound(Apply(db, action)) && Later(db, Apply(db, action))
  {
    hide Attempt, Sound, Later, Put, Unclaimed, LaterRow, LeavesTable;
    SameRowsAreSound(db, db);
    if Attempt(db, action).Done? {
      var put, id, row := ActionIsPut(db, action);
      if put {
        PutKeepsSound(db, id, row);
        PutIsLater(db, id, row);
      } else {
        SameRowsAreSound(db, Attempt(db, action).db);
      }
    }
  }

  /** Statements about accounts succeed and leave the operations alone. */
  lemma GrantApplies(db: Db, account: Account, authorization: Authorization)
    ensures Apply(db, Grant(account, authorization)) == Authorize(db, account, authorization)
  {
  }

  lemma StopsApply(db: Db, account: Account)
    ensures Apply(db, Revoke(account)) == RevokeAuthorization(db, account)
    ensures Apply(db, Stop(account)) == db.(stops := db.stops + {account})
    ensures Apply(db, ClearStop(account)) == db.(stops := db.stops - {account})
  {
  }

  lemma SameRowsAreSound(db: Db, after: Db)
    requires Sound(db) && after.rows == db.rows && after.order == db.order
    ensures Sound(after) && Later(db, after)
  {
  }

  lemma {:induction false} RunKeepsSound(db: Db, actions: seq<Action>)
    requires Sound(db)
    ensures Sound(After(db, actions)) && Later(db, After(db, actions))
    decreases |actions|
  {
    if actions != [] {
      ApplyKeepsSound(db, actions[0]);
      RunKeepsSound(Apply(db, actions[0]), actions[1..]);
      LaterTransitive(db, Apply(db, actions[0]), After(db, actions));
    }
  }

  lemma LaterTransitive(a: Db, b: Db, c: Db)
    requires Later(a, b) && Later(b, c)
    ensures Later(a, c)
  {
    forall id | id in a.rows
      ensures id in c.rows && LaterRow(a.rows[id], c.rows[id])
    {
      assert LaterRow(a.rows[id], b.rows[id]);
    }
  }

  lemma {:induction false} AfterAppend(db: Db, prefix: seq<Action>, suffix: seq<Action>)
    ensures After(db, prefix + suffix) == After(After(db, prefix), suffix)
    decreases |prefix|
  {
    if prefix == [] {
      assert prefix + suffix == suffix;
    } else {
      assert (prefix + suffix)[0] == prefix[0] && (prefix + suffix)[1..] == prefix[1..] + suffix;
      AfterAppend(Apply(db, prefix[0]), prefix[1..], suffix);
    }
  }

  /** What happened between two points of a run only moved rows forward. */
  lemma PrefixLater(db: Db, actions: seq<Action>, i: nat, j: nat)
    requires Sound(db) && i <= j <= |actions|
    ensures Sound(After(db, actions[..i])) && Sound(After(db, actions[..j]))
    ensures Later(After(db, actions[..i]), After(db, actions[..j]))
  {
    assert actions[..j] == actions[..i] + actions[i..j];
    AfterAppend(db, actions[..i], actions[i..j]);
    RunKeepsSound(db, actions[..i]);
    RunKeepsSound(After(db, actions[..i]), actions[i..j]);
  }

  /** A successful send leaves its request id in the row; a successful release leaves the row failed. Both leave the waiting states for good. */
  lemma SettledAfter(db: Db, actions: seq<Action>, i: nat, j: nat, id: OperationId)
    requires Sound(db) && i < j <= |actions|
    requires var before := After(db, actions[..i]); Sent(before, actions[i], id) || Released(before, actions[i], id)
    ensures var after := After(db, actions[..j]);
      && id in after.rows && !NotYetSent(after.rows[id].state)
      && (Sent(After(db, actions[..i]), actions[i], id) ==> after.rows[id].request.Some?)
  {
    var before := After(db, actions[..i]);
    assert actions[..i + 1] == actions[..i] + [actions[i]];
    AfterAppend(db, actions[..i], [actions[i]]);
    assert After(before, [actions[i]]) == Apply(before, actions[i]);
    PrefixLater(db, actions, i + 1, j);
    var next := After(db, actions[..i + 1]);
    assert LaterRow(next.rows[id], After(db, actions[..j]).rows[id]);
  }

  /** Across any interleaving an operation is handed to a wallet at most once. */
  lemma AttachedAtMostOnce(db: Db, actions: seq<Action>, i: nat, j: nat, id: OperationId)
    requires Sound(db) && i < j < |actions|
    requires Sent(After(db, actions[..i]), actions[i], id)
    ensures !Sent(After(db, actions[..j]), actions[j], id)
  {
    SettledAfter(db, actions, i, j, id);
  }

  /** An operation is never both handed to a wallet and written off as unsent, in either order. */
  lemma NeverSentAndReleased(db: Db, actions: seq<Action>, i: nat, j: nat, id: OperationId)
    requires Sound(db) && i < |actions| && j < |actions|
    requires Sent(After(db, actions[..i]), actions[i], id)
    ensures !Released(After(db, actions[..j]), actions[j], id)
  {
    if i < j {
      SettledAfter(db, actions, i, j, id);
    } else if j < i && Released(After(db, actions[..j]), actions[j], id) {
      SettledAfter(db, actions, j, i, id);
    }
  }

  /** No row comes back to CREATED or CERTIFICATE_READY. */
  lemma NeverWaitingAgain(db: Db, actions: seq<Action>, i: nat, j: nat, id: OperationId)
    requires Sound(db) && i <= j <= |actions|
    requires id in After(db, actions[..i]).rows && !NotYetSent(After(db, actions[..i]).rows[id].state)
    ensures id in After(db, actions[..j]).rows && !NotYetSent(After(db, actions[..j]).rows[id].state)
  {
    PrefixLater(db, actions, i, j);
  }

  /** What recovery relies on is never lost: request id, the presence of a handle and of an issued id, and the stored call. */
  lemma RecordedIsKept(db: Db, actions: seq<Action>, i: nat, j: nat, id: OperationId)
    requires Sound(db) && i <= j <= |actions| && id in After(db, actions[..i]).rows
    ensures id in After(db, actions[..j]).rows
    ensures var row, later := After(db, actions[..i]).rows[id], After(db, actions[..j]).rows[id];
      && (row.request.Some? ==> later.request == row.request)
      && (row.handle.Some? ==> later.handle.Some?)
      && (row.issuedId.Some? ==> later.issuedId.Some?)
      && (row.callStored ==> later.callStored)
  {
    PrefixLater(db, actions, i, j);
    assert LaterRow(After(db, actions[..i]).rows[id], After(db, actions[..j]).rows[id]);
  }

  /** At every point of every interleaving an account has at most one unresolved Mint. */
  lemma OneUnresolvedMint(db: Db, actions: seq<Action>, i: nat, a: OperationId, b: OperationId)
    requires Sound(db) && i <= |actions|
    requires var rows := After(db, actions[..i]).rows;
      && a in rows && b in rows && ActiveMint(rows[a]) && ActiveMint(rows[b]) && rows[a].account == rows[b].account
    ensures a == b
  {
    RunKeepsSound(db, actions[..i]);
    assert a != b ==> Apart(After(db, actions[..i]).rows[a], After(db, actions[..i]).rows[b]);
  }

  /** The freshly created database is sound, so all of the above holds from there. */
  lemma EmptyIsSound()
    ensures Sound(Db(map[], [], map[], {}))
  {
  }

  /**
   * Without the request-id guard a terminal row is not final: two processes that both read an
   * unresolved row can confirm it and then mark it pending again.
   */
  lemma ConfirmedCanReopen() returns (db: Db, actions: seq<Action>)
    ensures Sound(db) && "m" in db.rows && |actions| == 2
    ensures var confirmed := After(db, actions[..1]); "m" in confirmed.rows && confirmed.rows["m"].state == MintConfirmed
    ensures var reopened := After(db, actions); "m" in reopened.rows && reopened.rows["m"].state == TxPending
  {
    var row := NewRow(Mint, Account("e", "w"), TxPending, None, None).(request := Some("r"));
    db := Db(map["m" := row], ["m"], map[], {});
    actions := [Confirm("m", None, Some(1), 0), Pend("m", None, None)];
    var one := Apply(db, actions[0]);
    assert actions[..1] == [actions[0]] && actions[1..] == [actions[1]];
    assert After(one, [actions[1]]) == Apply(one, actions[1]);
  }
}
