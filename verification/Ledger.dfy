/** The ledger as the object the CLI holds: statements change its tables in place. */
module Ledger {
  import opened Options
  import opened LedgerModel
  import opened LedgerRuns
  import opened LedgerEffects
  import opened LedgerSums

  /** The object went from before to after as the outcome says: a thrown error means nothing happened. */
  predicate Became(outcome: Outcome, before: Db, after: Db, thrown: Option<Refusal>) {
    match outcome
    case Done(db) => thrown.None? && after == db
    case Threw(why) => thrown == Some(why) && after == before
  }

  /** Only this operation's row changed, no budget figure moved, and no wallet was blocked or freed. */
  ghost predicate Neutral(before: Db, after: Db, id: OperationId) {
    OnlyRow(before, after, id) && SameFigures(before, after) && SameWallets(before, after)
  }

  predicate Awaits(row: Row) {
    row.state in {WalletSubmitting, SubmissionUnknown, Recovering}
  }

  class SqliteOperationLedger {
    var operations: map<OperationId, Row>
    var inserted: seq<OperationId>
    var authorizations: map<Account, Authorization>
    var stopped: set<Account>

    ghost function Contents(): Db
      reads this
    {
      Db(operations, inserted, authorizations, stopped)
    }

    /** One unresolved Mint per account, request ids unique, nothing waiting to be sent carries one. */
    ghost predicate Valid()
      reads this
    {
      Sound(Contents())
    }

    constructor ()
      ensures Valid() && Contents() == Db(map[], [], map[], {})
    {
      operations, inserted, authorizations, stopped := map[], [], map[], {};
    }

    /** listOperations(...).some(...): a scan in insertion order. */
    method CanStartMint(account: Account) returns (can: bool)
      requires Valid()
      ensures can == LedgerModel.CanStartMint(Contents(), account)
    {
      for i := 0 to |inserted|
        invariant forall k :: 0 <= k < i && operations[inserted[k]].account == account ==> !ActiveMint(operations[inserted[k]])
      {
        var row := operations[inserted[i]];
        if row.account == account && ActiveMint(row) {
          return false;
        }
      }
      return true;
    }

    predicate HoldsMint(other: OperationId, id: OperationId, row: Row)
      reads this
      requires other in operations
    {
      other != id && ActiveMint(row) && ActiveMint(operations[other]) && operations[other].account == row.account
    }

    predicate HoldsRequest(other: OperationId, id: OperationId, row: Row)
      reads this
      requires other in operations
    {
      other != id && row.request.Some? && operations[other].request == row.request
    }

    /** The unique indexes, checked against every other row. */
    method Clashes(id: OperationId, row: Row) returns (why: Option<Refusal>)
      requires Valid()
      ensures why == if ActiveClash(operations, id, row) then Some(ActiveMintIndex)
                     else if RequestClash(operations, id, row) then Some(RequestIndex) else None
    {
      var active, request := false, false;
      for i := 0 to |inserted|
        invariant active <==> (exists k :: 0 <= k < i && HoldsMint(inserted[k], id, row))
        invariant request <==> (exists k :: 0 <= k < i && HoldsRequest(inserted[k], id, row))
      {
        var other := operations[inserted[i]];
        if inserted[i] != id {
          active := active || (ActiveMint(row) && ActiveMint(other) && other.account == row.account);
          request := request || (row.request.Some? && other.request == row.request);
        }
        assert HoldsMint(inserted[i], id, row) ==> active;
        assert HoldsRequest(inserted[i], id, row) ==> request;
      }
      assert forall other :: other in operations ==> exists k :: 0 <= k < |inserted| && inserted[k] == other;
      return if active then Some(ActiveMintIndex) else if request then Some(RequestIndex) else None;
    }

    /** INSERT or UPDATE of one row; a violated index throws and changes nothing. */
    method Write(id: OperationId, row: Row) returns (thrown: Option<Refusal>)
      requires Valid() && Unclaimed(row)
      modifies this`operations, this`inserted
      ensures Valid() && Became(Put(old(Contents()), id, row), old(Contents()), Contents(), thrown)
    {
      hide Sound, Listed, ActiveClash, RequestClash, Apart;
      SoundIsListed(Contents());
      if Put(Contents(), id, row).Done? {
        PutKeepsSound(Contents(), id, row);
      }
      thrown := Clashes(id, row);
      if thrown.None? {
        if id !in operations {
          inserted := inserted + [id];
        }
        operations := operations[id := row];
      }
    }

    /** Refused exactly when the id is taken or a new Mint would stand beside an unresolved one of its account. */
    method BeginOperation(
      id: OperationId, kind: Kind, account: Account, state: State, receipt: Option<Receipt>, expiresAt: Option<int>)
      returns (thrown: Option<Refusal>)
      requires Valid()
      modifies this`operations, this`inserted
      ensures Valid() && Became(
        LedgerModel.BeginOperation(old(Contents()), id, NewRow(kind, account, state, receipt, expiresAt)),
        old(Contents()), Contents(), thrown)
      ensures thrown.Some? <==>
        id in old(operations) || (kind.Mint? && !LedgerModel.CanStartMint(old(Contents()), account))
    {
      hide Sound, Put, LedgerModel.CanStartMint;
      BeginIsRefusedIff(Contents(), id, NewRow(kind, account, state, receipt, expiresAt));
      if kind.Mint? {
        var can := CanStartMint(account);
        if !can {
          return Some(UnresolvedMint);
        }
      }
      if id in operations {
        return Some(DuplicateOperation);
      }
      thrown := Write(id, NewRow(kind, account, state, receipt, expiresAt));
    }

    /** Marks the operation's call as stored, which is what makes a certified Mint resumable; neutral otherwise. */
    method SetPendingCall(id: OperationId)
      requires Valid()
      modifies this`operations, this`inserted
      ensures Valid() && Became(LedgerModel.SetPendingCall(old(Contents()), id), old(Contents()), Contents(), None)
      ensures id in old(operations) ==> Neutral(old(Contents()), Contents(), id) && id in operations && operations[id].callStored
    {
      hide Sound, Put, OnlyRow, SameFigures, SameWallets;
      if id in operations {
        FollowingIsNeutral(Contents(), StoreCall(id));
        PutRow(Contents(), id, operations[id].(callStored := true));
        UnclaimedRow(Contents(), id);
        var thrown := Write(id, operations[id].(callStored := true));
      }
    }

    /** Succeeds only from the two states in which nothing was sent, and only for a request id of its own. */
    method AttachSubmission(id: OperationId, request: RequestId, handle: Option<Handle>) returns (thrown: Option<Refusal>)
      requires Valid()
      modifies this`operations, this`inserted
      ensures Valid()
      ensures Became(
        LedgerModel.AttachSubmission(old(Contents()), id, request, handle), old(Contents()), Contents(), thrown)
      ensures thrown.None? ==>
        && id in old(operations) && old(operations)[id].request.None?
        && id in operations && operations[id].request == Some(request)
        && forall other :: other in operations && other != id ==> operations[other].request != Some(request)
    {
      hide Sound, ActiveClash, Apart;
      if id !in operations {
        return Some(NotRecorded);
      }
      var current := operations[id];
      if current.state != CertificateReady && current.state != Created {
        return Some(WrongState);
      }
      UnclaimedRow(Contents(), id);
      thrown := Write(id, current.(
        request := Some(request), handle := handle, txHash := HandleHash(handle), state := WalletSubmitting));
    }

    /** Neutral; a handle is taken exactly in the three states that await one. */
    method RecordWalletHandle(id: OperationId, handle: Handle) returns (thrown: Option<Refusal>)
      requires Valid()
      modifies this`operations, this`inserted
      ensures Valid() && Became(LedgerModel.RecordWalletHandle(old(Contents()), id, handle), old(Contents()), Contents(), thrown)
      ensures thrown == if id in old(operations) then None else Some(NotRecorded)
      ensures thrown.None? ==> Neutral(old(Contents()), Contents(), id) && id in operations
      ensures thrown.None? && Awaits(old(operations)[id]) ==>
        operations[id].handle == Some(handle) && operations[id].state.TxPending?
      ensures thrown.None? && !Awaits(old(operations)[id]) ==> Contents() == old(Contents())
    {
      hide Sound, Put, OnlyRow, SameFigures, SameWallets;
      if id !in operations {
        return Some(NotRecorded);
      }
      FollowingIsNeutral(Contents(), Record(id, handle));
      var row := operations[id];
      var later := row.(handle := Some(handle), txHash := HandleHash(Some(handle)), state := TxPending);
      if row.state == WalletSubmitting || row.state == SubmissionUnknown || row.state == Recovering {
        PutRow(Contents(), id, later);
        thrown := Write(id, later);
      } else {
        thrown := None;
      }
    }

    method Transition(id: OperationId, state: State) returns (thrown: Option<Refusal>)
      requires Valid() && !NotYetSent(state)
      modifies this`operations, this`inserted
      ensures Valid() && Became(LedgerModel.Transition(old(Contents()), id, state), old(Contents()), Contents(), thrown)
    {
      hide Sound, Put;
      if id !in operations {
        return Some(NotRecorded);
      }
      thrown := Write(id, operations[id].(state := state));
    }

    /** Neutral on an unresolved operation; on a resolved Mint it reopens it unless another Mint is unresolved. */
    method MarkSubmissionUnknown(id: OperationId) returns (thrown: Option<Refusal>)
      requires Valid()
      modifies this`operations, this`inserted
      ensures Valid() && Became(LedgerModel.MarkSubmissionUnknown(old(Contents()), id), old(Contents()), Contents(), thrown)
      ensures thrown.None? && Unresolved(old(operations)[id].state) ==> Neutral(old(Contents()), Contents(), id)
      ensures thrown == MarkRefusal(old(Contents()), id)
    {
      hide Sound, Put, OnlyRow, SameFigures, SameWallets;
      if id in operations {
        MarkIsRefusedIff(Contents(), LoseTrack(id));
        if Unresolved(operations[id].state) {
          FollowingIsNeutral(Contents(), LoseTrack(id));
        }
      }
      thrown := Transition(id, SubmissionUnknown);
    }

    /** Entered exactly from an unresolved state; neutral. */
    method MarkRecovering(id: OperationId) returns (thrown: Option<Refusal>)
      requires Valid()
      modifies this`operations, this`inserted
      ensures Valid() && Became(LedgerModel.MarkRecovering(old(Contents()), id), old(Contents()), Contents(), thrown)
      ensures thrown.None? <==> id in old(operations) && Unresolved(old(operations)[id].state)
      ensures thrown.None? ==>
        Neutral(old(Contents()), Contents(), id) && id in operations && operations[id].state.Recovering?
    {
      hide Sound, Put, OnlyRow, SameFigures, SameWallets;
      if id !in operations {
        return Some(NotRecorded);
      }
      if !Unresolved(operations[id].state) {
        return Some(WrongState);
      }
      FollowingIsNeutral(Contents(), Recover(id));
      PutRow(Contents(), id, operations[id].(state := Recovering));
      thrown := Transition(id, Recovering);
    }

    /** As MarkSubmissionUnknown, and an earlier handle or hash is never dropped. */
    method MarkPending(id: OperationId, handle: Option<Handle>, txHash: Option<TxHash>) returns (thrown: Option<Refusal>)
      requires Valid()
      modifies this`operations, this`inserted
      ensures Valid() && Became(LedgerModel.MarkPending(old(Contents()), id, handle, txHash), old(Contents()), Contents(), thrown)
      ensures thrown.None? && Unresolved(old(operations)[id].state) ==> Neutral(old(Contents()), Contents(), id)
      ensures thrown == MarkRefusal(old(Contents()), id)
      ensures thrown.None? ==>
        && id in operations
        && operations[id].handle == (if handle.Some? then handle else old(operations)[id].handle)
        && operations[id].txHash == (if txHash.Some? then txHash else old(operations)[id].txHash)
    {
      hide Sound, Put, OnlyRow, SameFigures, SameWallets;
      if id !in operations {
        return Some(NotRecorded);
      }
      var row := operations[id];
      var later := row.(
        state := TxPending, handle := Coalesce(handle, row.handle), txHash := Coalesce(txHash, row.txHash));
      MarkIsRefusedIff(Contents(), Pend(id, handle, txHash));
      if Unresolved(row.state) {
        FollowingIsNeutral(Contents(), Pend(id, handle, txHash));
      }
      if Put(Contents(), id, later).Done? {
        PutRow(Contents(), id, later);
      }
      thrown := Write(id, later);
    }

    /**
     * Throws only for an unknown id. A reserved Mint's fee turns from reserved into spent, its reserved gas
     * into the reported gas, and its wallet is free; an issued id once known is never dropped.
     */
    method ResolveConfirmed(id: OperationId, txHash: Option<TxHash>, issuedId: Option<nat>, gas: nat)
      returns (thrown: Option<Refusal>)
      requires Valid()
      modifies this`operations, this`inserted
      ensures Valid()
      ensures Became(
        LedgerModel.ResolveConfirmed(old(Contents()), id, txHash, issuedId, gas), old(Contents()), Contents(), thrown)
      ensures thrown == if id in old(operations) then None else Some(NotRecorded)
      ensures thrown.None? ==>
        && OnlyRow(old(Contents()), Contents(), id) && id in operations && !Unresolved(operations[id].state)
        && operations[id].issuedId == (if issuedId.Some? then issuedId else old(operations)[id].issuedId)
      ensures Reserved(old(Contents()), id) ==>
        Settled(old(Contents()), Contents(), id, gas) && KeptFee(old(Contents()), Contents(), old(operations)[id].account)
    {
      hide Sound, Put, OnlyRow, Sum, Listed, Occupied, FeeUse, GasUse, LedgerModel.CanStartMint;
      if id !in operations {
        return Some(NotRecorded);
      }
      var row := operations[id];
      var later := row.(
        state := ConfirmedState(row.kind), txHash := Coalesce(txHash, row.txHash),
        issuedId := Coalesce(issuedId, row.issuedId), feeSpent := row.feeCommitted, gasSpent := gas);
      NoClash(Contents(), id, later);
      PutRow(Contents(), id, later);
      if Reserved(Contents(), id) {
        SettlingFrees(Contents(), Confirm(id, txHash, issuedId, gas));
      }
      thrown := Write(id, later);
    }

    /** Returns whether the UPDATE changed a row, as result.changes does. */
    method ResolveUnsentFailure(id: OperationId) returns (changed: bool)
      requires Valid()
      modifies this`operations, this`inserted
      ensures Valid()
      ensures Became(LedgerModel.ResolveUnsentFailure(old(Contents()), id), old(Contents()), Contents(), None)
      ensures changed <==> UnsentFailureApplies(old(Contents()), id)
      ensures changed && ActiveMint(old(operations)[id]) ==>
        LedgerModel.CanStartMint(Contents(), old(operations)[id].account)
    {
      hide Sound, Put, LedgerModel.CanStartMint;
      changed := false;
      if id in operations && Releasable(operations[id]) {
        changed := true;
        var later := operations[id].(state := FailedRetryable, feeSpent := 0, gasSpent := 0);
        NoClash(Contents(), id, later);
        if ActiveMint(operations[id]) {
          OnlyMintSettled(Contents(), id, later);
        }
        var thrown := Write(id, later);
      }
    }

    /** Throws only for an unknown id. A reserved Mint gives back its place and its fee, and its wallet is free. */
    method ResolveFailure(id: OperationId, failure: FailureKind, txHash: Option<TxHash>, gas: nat)
      returns (thrown: Option<Refusal>)
      requires Valid()
      modifies this`operations, this`inserted
      ensures Valid()
      ensures Became(
        LedgerModel.ResolveFailure(old(Contents()), id, failure, txHash, gas), old(Contents()), Contents(), thrown)
      ensures thrown == if id in old(operations) then None else Some(NotRecorded)
      ensures thrown.None? ==> OnlyRow(old(Contents()), Contents(), id) && id in operations && !Unresolved(operations[id].state)
      ensures Reserved(old(Contents()), id) ==>
        Settled(old(Contents()), Contents(), id, gas) && ReturnedFee(old(Contents()), Contents(), id)
    {
      hide Sound, Put, OnlyRow, Sum, Listed, Occupied, FeeUse, GasUse, LedgerModel.CanStartMint;
      if id !in operations {
        return Some(NotRecorded);
      }
      var row := operations[id];
      var later := row.(state := failure, txHash := Coalesce(txHash, row.txHash), feeSpent := 0, gasSpent := gas);
      NoClash(Contents(), id, later);
      PutRow(Contents(), id, later);
      if Reserved(Contents(), id) {
        SettlingFrees(Contents(), Fail(id, failure, txHash, gas));
      }
      thrown := Write(id, later);
    }

    /** Throws only for an unknown id; the account is covered afterwards exactly when the gate would have let it through. */
    method SetOperationCommitment(id: OperationId, fee: nat, gas: nat) returns (thrown: Option<Refusal>)
      requires Valid()
      modifies this`operations, this`inserted
      ensures Valid()
      ensures Became(
        LedgerModel.SetOperationCommitment(old(Contents()), id, fee, gas), old(Contents()), Contents(), thrown)
      ensures thrown == if id in old(operations) then None else Some(NotRecorded)
      ensures thrown.None? ==> OnlyRow(old(Contents()), Contents(), id) && SameWallets(old(Contents()), Contents())
      ensures thrown.None? && ActiveMint(old(operations)[id]) ==>
        forall now :: Covered(Contents(), old(operations)[id].account, now)
          <==> BudgetRefusal(old(Contents()), old(operations)[id].account, fee, gas, now, Some(id)).None?
    {
      hide Put, OnlyRow, Sum, Covered, BudgetRefusal, SameWallets, Apart, Unclaimed;
      if id !in operations {
        return Some(NotRecorded);
      }
      CommittingCharges(Contents(), id, fee, gas);
      UnclaimedRow(Contents(), id);
      if ActiveMint(operations[id]) {
        forall now ensures Covered(Apply(Contents(), Commit(id, fee, gas)), operations[id].account, now)
          <==> BudgetRefusal(Contents(), operations[id].account, fee, gas, now, Some(id)).None?
        {
          SendingGateIff(Contents(), id, fee, gas, now);
        }
      }
      CommitIsRow(Contents(), id, fee, gas);
      thrown := Write(id, operations[id].(feeCommitted := fee, gasCommitted := gas));
    }

    /** One authorization per account: from now on the gate is open until it expires, and other accounts notice nothing. */
    method Authorize(account: Account, authorization: Authorization)
      requires Valid()
      modifies this`authorizations
      ensures Valid() && Contents() == LedgerModel.Authorize(old(Contents()), account, authorization)
      ensures forall fee, gas, now, excluded ::
        (BudgetRefusal(Contents(), account, fee, gas, now, excluded) in {Some(NotAuthorized), Some(AuthorizationOver)}
         <==> authorization.expiresAt <= now)
      ensures forall who, fee, gas, now, excluded :: who != account ==>
        BudgetRefusal(Contents(), who, fee, gas, now, excluded) == BudgetRefusal(old(Contents()), who, fee, gas, now, excluded)
    {
      hide Sum, BudgetRefusal, Apart, Unclaimed;
      ghost var before := Contents();
      ghost var after := LedgerModel.Authorize(before, account, authorization);
      assert Sound(after);
      forall fee, gas, now, excluded
        ensures BudgetRefusal(after, account, fee, gas, now, excluded) in {Some(NotAuthorized), Some(AuthorizationOver)}
          <==> authorization.expiresAt <= now
      {
        AuthorizedIsOpen(before, account, authorization, account, fee, gas, now, excluded);
      }
      forall who, fee, gas, now, excluded | who != account
        ensures BudgetRefusal(after, who, fee, gas, now, excluded) == BudgetRefusal(before, who, fee, gas, now, excluded)
      {
        AuthorizedIsOpen(before, account, authorization, who, fee, gas, now, excluded);
      }
      authorizations := authorizations[account := authorization.(revoked := false)];
    }

    /** The gate is shut for this account, whatever is asked and whenever, and other accounts notice nothing. */
    method RevokeAuthorization(account: Account)
      requires Valid()
      modifies this`authorizations
      ensures Valid() && Contents() == LedgerModel.RevokeAuthorization(old(Contents()), account)
      ensures forall fee, gas, now, excluded :: BudgetRefusal(Contents(), account, fee, gas, now, excluded).Some?
      ensures forall who, fee, gas, now, excluded :: who != account ==>
        BudgetRefusal(Contents(), who, fee, gas, now, excluded) == BudgetRefusal(old(Contents()), who, fee, gas, now, excluded)
    {
      hide Sum, BudgetRefusal, Apart, Unclaimed;
      ghost var before := Contents();
      ghost var after := LedgerModel.RevokeAuthorization(before, account);
      assert Sound(after);
      forall fee, gas, now, excluded ensures BudgetRefusal(after, account, fee, gas, now, excluded).Some? {
        RevokedIsShut(before, account, account, fee, gas, now, excluded);
      }
      forall who, fee, gas, now, excluded | who != account
        ensures BudgetRefusal(after, who, fee, gas, now, excluded) == BudgetRefusal(before, who, fee, gas, now, excluded)
      {
        RevokedIsShut(before, account, who, fee, gas, now, excluded);
      }
      if account in authorizations {
        authorizations := authorizations[account := authorizations[account].(revoked := true)];
      }
    }

    /** mintOperations.filter(...).map(...).reduce: one pass per figure. */
    method SumColumn(column: Column, account: Account) returns (sum: nat)
      requires Valid()
      ensures sum == Sum(Contents(), column, account)
    {
      sum := 0;
      for i := 0 to |inserted|
        invariant sum == Total(column, account, operations, inserted[..i])
      {
        assert inserted[..i + 1] == inserted[..i] + [inserted[i]];
        LedgerSums.TotalAppend(column, account, operations, inserted[..i], inserted[i]);
        sum := sum + Cell(column, account, operations[inserted[i]]);
      }
      assert inserted[..|inserted|] == inserted;
    }

    ghost predicate ReservedFor(excluded: Option<OperationId>, account: Account)
      reads this
    {
      && excluded.Some? && excluded.value in operations
      && ActiveMint(operations[excluded.value]) && operations[excluded.value].account == account
    }

    /** Passes if and only if the account is still covered once the amounts asked for are committed. */
    method AssertBudgetAvailable(account: Account, fee: nat, gas: nat, now: int, excluded: Option<OperationId>)
      returns (thrown: Option<Refusal>)
      requires Valid()
      ensures thrown == BudgetRefusal(Contents(), account, fee, gas, now, excluded)
      ensures ReservedFor(excluded, account) ==>
        (thrown.None? <==> Covered(Apply(Contents(), Commit(excluded.value, fee, gas)), account, now))
      ensures excluded.None? && LedgerModel.CanStartMint(Contents(), account) ==>
        forall id :: id !in operations ==> (thrown.None? <==> Covered(Started(Contents(), id, account, fee, gas), account, now))
    {
      hide Sum, Covered, Started, Apart, Unclaimed, Apply, LedgerModel.CanStartMint;
      if ReservedFor(excluded, account) {
        SendingGateIff(Contents(), excluded.value, fee, gas, now);
      }
      if excluded.None? && LedgerModel.CanStartMint(Contents(), account) {
        forall id | id !in operations
          ensures Covered(Started(Contents(), id, account, fee, gas), account, now)
            <==> BudgetRefusal(Contents(), account, fee, gas, now, None).None?
        {
          StartingGateIff(Contents(), id, account, fee, gas, now);
        }
      }
      if account !in authorizations {
        return Some(NotAuthorized);
      }
      var authorization := authorizations[account];
      var confirmed := SumColumn(ConfirmedMints, account);
      var reserved: int := SumColumn(ReservedMints, account);
      var spentFee := SumColumn(SpentFee, account);
      var reservedFee: int := SumColumn(ReservedFee, account);
      var spentGas := SumColumn(SpentGas, account);
      var reservedGas: int := SumColumn(ReservedGas, account);
      if excluded.Some? && excluded.value in operations && ActiveMint(operations[excluded.value]) {
        var own := operations[excluded.value];
        reserved := reserved - 1;
        reservedFee := reservedFee - own.feeCommitted;
        reservedGas := reservedGas - own.gasCommitted;
      }
      if authorization.revoked || authorization.expiresAt <= now {
        return Some(AuthorizationOver);
      }
      if confirmed + reserved + 1 > authorization.maxMints {
        return Some(CountBudget);
      }
      if spentFee + reservedFee + fee > authorization.maxFee {
        return Some(FeeBudget);
      }
      if spentGas + reservedGas + gas > authorization.maxGas {
        return Some(GasBudget);
      }
      return None;
    }
  }
  lemma BeginIsRefusedIff(db: Db, id: OperationId, row: Row)
    requires row.request.None? && row.handle.None?
    ensures Unclaimed(row)
    ensures LedgerModel.BeginOperation(db, id, row).Threw? <==>
      id in db.rows || (row.kind.Mint? && !LedgerModel.CanStartMint(db, row.account))
  {
  }

  lemma UnclaimedRow(db: Db, id: OperationId)
    requires Sound(db) && id in db.rows
    ensures Unclaimed(db.rows[id])
  {
  }

  lemma CommitIsRow(db: Db, id: OperationId, fee: nat, gas: nat)
    requires id in db.rows && Attempt(db, Commit(id, fee, gas)).Done?
    ensures Attempt(db, Commit(id, fee, gas)) == Put(db, id, db.rows[id].(feeCommitted := fee, gasCommitted := gas))
    ensures Unclaimed(db.rows[id]) ==> Unclaimed(db.rows[id].(feeCommitted := fee, gasCommitted := gas))
  {
    hide Put;
  }

  /** What stops the two unguarded marks: an unknown id, or the active-Mint index when a resolved Mint would reopen. */
  function MarkRefusal(db: Db, id: OperationId): Option<Refusal> {
    if id !in db.rows then Some(NotRecorded)
    else if db.rows[id].kind.Mint? && !Unresolved(db.rows[id].state) && !LedgerModel.CanStartMint(db, db.rows[id].account)
    then Some(ActiveMintIndex)
    else None
  }

  lemma MarkIsRefusedIff(db: Db, action: Action)
    requires Sound(db) && (action.LoseTrack? || action.Pend?) && action.id in db.rows
    ensures match Attempt(db, action)
            case Done(_) => MarkRefusal(db, action.id).None?
            case Threw(why) => MarkRefusal(db, action.id) == Some(why)
  {
    hide Sound, LedgerModel.CanStartMint, Put;
    var row := db.rows[action.id];
    if Unresolved(row.state) {
      FollowingIsNeutral(db, action);
    } else if row.kind.Mint? {
      ReopeningIsStoppedIff(db, action);
    } else {
      var later := if action.LoseTrack? then row.(state := SubmissionUnknown)
        else row.(state := TxPending, handle := Coalesce(action.handle, row.handle), txHash := Coalesce(action.txHash, row.txHash));
      NoClash(db, action.id, later);
    }
  }

  /** A reserved Mint was settled: its wallet is free and the reported gas stands in for the reserved gas. */
  ghost predicate Settled(before: Db, after: Db, id: OperationId, gas: nat) {
    && Listed(before) && Listed(after) && id in before.rows
    && var row := before.rows[id];
      && LedgerModel.CanStartMint(after, row.account)
      && GasUse(after, row.account) + row.gasCommitted == GasUse(before, row.account) + gas
  }

  /** The Mint and its fee still count, now as confirmed and spent. */
  ghost predicate KeptFee(before: Db, after: Db, account: Account) {
    && Listed(before) && Listed(after)
    && Sum(after, ConfirmedMints, account) == Sum(before, ConfirmedMints, account) + 1
    && Occupied(after, account) == Occupied(before, account) && FeeUse(after, account) == FeeUse(before, account)
  }

  /** The Mint and its fee count no more. */
  ghost predicate ReturnedFee(before: Db, after: Db, id: OperationId) {
    && Listed(before) && Listed(after) && id in before.rows
    && var row := before.rows[id];
      && Occupied(after, row.account) + 1 == Occupied(before, row.account)
      && FeeUse(after, row.account) + row.feeCommitted == FeeUse(before, row.account)
  }
}
