/** What each ledger statement means for the budget figures, the wallet's next Mint and everybody else's rows. */
module LedgerEffects {
  import opened Options
  import opened LedgerModel
  import opened LedgerRuns
  import opened LedgerSums

  /** Nothing but this row may differ. */
  predicate OnlyRow(db: Db, after: Db, id: OperationId) {
    && after.rows.Keys == db.rows.Keys && after.order == db.order
    && after.authorizations == db.authorizations && after.stops == db.stops
    && forall other :: other in db.rows && other != id ==> after.rows[other] == db.rows[other]
  }

  /** No figure of anybody's budget snapshot moves. */
  ghost predicate SameFigures(db: Db, after: Db) {
    && Listed(db) && Listed(after)
    && forall column, account :: Sum(after, column, account) == Sum(db, column, account)
  }

  ghost predicate SameWallets(db: Db, after: Db) {
    forall account :: CanStartMint(after, account) <==> CanStartMint(db, account)
  }

  /** An update that neither makes a Mint active nor touches the request id violates no index. */
  lemma NoClash(db: Db, id: OperationId, row: Row)
    requires Sound(db) && id in db.rows && row.request == db.rows[id].request && row.account == db.rows[id].account
    requires ActiveMint(row) ==> ActiveMint(db.rows[id])
    ensures Put(db, id, row).Done? && OnlyRow(db, Put(db, id, row).db, id)
  {
    hide Listed;
    forall other | other in db.rows && other != id ensures Apart(db.rows[id], db.rows[other]) {
    }
  }

  predicate SameCells(row: Row, later: Row) {
    && later.kind == row.kind && later.account == row.account
    && (Unresolved(later.state) <==> Unresolved(row.state)) && (later.state.MintConfirmed? <==> row.state.MintConfirmed?)
    && later.feeCommitted == row.feeCommitted && later.gasCommitted == row.gasCommitted
    && later.feeSpent == row.feeSpent && later.gasSpent == row.gasSpent
  }

  lemma QuietPut(db: Db, id: OperationId, row: Row)
    requires Sound(db) && id in db.rows && Put(db, id, row).Done? && SameCells(db.rows[id], row)
    ensures SameFigures(db, Put(db, id, row).db) && SameWallets(db, Put(db, id, row).db)
  {
    hide Sum, Put, CanStartMint;
    SoundIsListed(db);
    SumAfterPut(db, id, row, ConfirmedMints, row.account);
    forall column, account ensures Sum(Put(db, id, row).db, column, account) == Sum(db, column, account) {
      SumAfterPut(db, id, row, column, account);
      EqualCells(db.rows[id], row, column, account);
    }
    forall account ensures CanStartMint(Put(db, id, row).db, account) <==> CanStartMint(db, account) {
      WalletAfterPut(db, id, row, account);
    }
  }

  lemma EqualCells(row: Row, later: Row, column: Column, account: Account)
    requires SameCells(row, later)
    ensures Cell(column, account, later) == Cell(column, account, row)
  {
  }

  lemma WalletAfterPut(db: Db, id: OperationId, row: Row, account: Account)
    requires id in db.rows && Put(db, id, row).Done?
    requires row.account == db.rows[id].account && (ActiveMint(row) <==> ActiveMint(db.rows[id]))
    ensures CanStartMint(Put(db, id, row).db, account) <==> CanStartMint(db, account)
  {
    hide ActiveClash, RequestClash, ActiveMint;
    var after := Put(db, id, row).db;
    if CanStartMint(db, account) {
      forall other | other in after.rows && after.rows[other].account == account ensures !ActiveMint(after.rows[other]) {
        assert other in db.rows && db.rows[other].account == account;
      }
    }
    if CanStartMint(after, account) {
      forall other | other in db.rows && db.rows[other].account == account ensures !ActiveMint(db.rows[other]) {
        assert other in after.rows && after.rows[other].account == account;
      }
    }
  }

  /** A statement that follows a submission: it stores a call, records a handle, or tracks an unresolved operation. */
  predicate Follows(db: Db, action: Action) {
    && (action.StoreCall? || action.Record? || action.Recover? || action.LoseTrack? || action.Pend?)
    && action.id in db.rows
    && (action.StoreCall? || action.Record? || Unresolved(db.rows[action.id].state))
  }

  /**
   * Following a submission is neutral: it cannot fail, changes no other row and no request id, and leaves
   * every budget figure and every wallet's permission to mint as they were.
   */
  lemma FollowingIsNeutral(db: Db, action: Action)
    requires Sound(db) && Follows(db, action)
    ensures Attempt(db, action).Done? && Sound(Apply(db, action))
    ensures var after := Apply(db, action);
      && OnlyRow(db, after, action.id) && after.rows[action.id].request == db.rows[action.id].request
      && SameFigures(db, after) && SameWallets(db, after)
  {
    hide Put, Sum, Sound, Listed, CanStartMint, OnlyRow, SameFigures, SameWallets, Attempt, SameCells;
    ApplyKeepsSound(db, action);
    SoundIsListed(db);
    var row := db.rows[action.id];
    if action.Record? && row.state !in {WalletSubmitting, SubmissionUnknown, Recovering} {
      Unchanged(db, action.id);
      UnawaitedHandle(db, action);
    } else {
      var later := FollowedRow(db, action);
      NoClash(db, action.id, later);
      QuietPut(db, action.id, later);
      PutRow(db, action.id, later);
    }
  }

  lemma UnawaitedHandle(db: Db, action: Action)
    requires action.Record? && action.id in db.rows
    requires db.rows[action.id].state !in {WalletSubmitting, SubmissionUnknown, Recovering}
    ensures Attempt(db, action) == Done(db)
  {
  }

  /** The row such a statement writes. */
  lemma FollowedRow(db: Db, action: Action) returns (later: Row)
    requires Follows(db, action)
    requires action.Record? ==> db.rows[action.id].state in {WalletSubmitting, SubmissionUnknown, Recovering}
    ensures Attempt(db, action) == Put(db, action.id, later)
    ensures SameCells(db.rows[action.id], later)
    ensures later.request == db.rows[action.id].request && later.account == db.rows[action.id].account
    ensures ActiveMint(later) <==> ActiveMint(db.rows[action.id])
  {
    hide Put;
    var row := db.rows[action.id];
    later := match action
      case StoreCall(_) => row.(callStored := true)
      case Record(_, given) => row.(handle := Some(given), txHash := HandleHash(Some(given)), state := TxPending)
      case Recover(_) => row.(state := Recovering)
      case LoseTrack(_) => row.(state := SubmissionUnknown)
      case Pend(_, handle, txHash) =>
        row.(state := TxPending, handle := Coalesce(handle, row.handle), txHash := Coalesce(txHash, row.txHash))
      case _ => row;
  }

  lemma Unchanged(db: Db, id: OperationId)
    requires Listed(db)
    ensures OnlyRow(db, db, id) && SameFigures(db, db) && SameWallets(db, db)
  {
  }

  lemma PutRow(db: Db, id: OperationId, row: Row)
    requires Put(db, id, row).Done?
    ensures id in Put(db, id, row).db.rows && Put(db, id, row).db.rows[id] == row
  {
    hide ActiveClash, RequestClash;
  }

  /** The unguarded updates: the two marks, and the second half of markRecovering after an outdated check. */
  predicate Marks(action: Action) {
    action.LoseTrack? || action.Pend? || action.Reenter?
  }

  /** An unguarded update reopens a resolved row unless the active-Mint index stops it: for a Mint beside an unresolved one. */
  lemma ReopeningIsStoppedIff(db: Db, action: Action)
    requires Sound(db) && Marks(action) && action.id in db.rows && !Unresolved(db.rows[action.id].state)
    ensures var row := db.rows[action.id]; var blocked := row.kind.Mint? && !CanStartMint(db, row.account);
      && (Attempt(db, action) == Threw(ActiveMintIndex) <==> blocked)
      && (Attempt(db, action).Done? <==> !blocked)
      && action.id in Apply(db, action).rows
      && (Unresolved(Apply(db, action).rows[action.id].state) <==> !blocked)
  {
    hide Put, Sound, CanStartMint;
    var row := db.rows[action.id];
    var later := match action
      case LoseTrack(_) => row.(state := SubmissionUnknown)
      case Pend(_, handle, txHash) =>
        row.(state := TxPending, handle := Coalesce(handle, row.handle), txHash := Coalesce(txHash, row.txHash))
      case _ => row.(state := Recovering);
    MarkedRow(db, action.id, later);
  }

  lemma MarkedRow(db: Db, id: OperationId, later: Row)
    requires Sound(db) && id in db.rows && !Unresolved(db.rows[id].state) && Unresolved(later.state)
    requires later.kind == db.rows[id].kind && later.account == db.rows[id].account && later.request == db.rows[id].request
    ensures var blocked := later.kind.Mint? && !CanStartMint(db, later.account);
      && (blocked ==> Put(db, id, later) == Threw(ActiveMintIndex))
      && (!blocked ==> Put(db, id, later).Done? && id in Put(db, id, later).db.rows && Put(db, id, later).db.rows[id] == later)
  {
    var row := db.rows[id];
    forall other | other in db.rows && other != id && row.request.Some? ensures db.rows[other].request != row.request {
      assert Apart(row, db.rows[other]);
    }
  }

  /** No guarded statement, and none about another operation, reopens a resolved row. */
  lemma OthersDoNotReopen(db: Db, action: Action, id: OperationId)
    requires id in db.rows && !Unresolved(db.rows[id].state) && !db.rows[id].state.Created?
    requires !Marks(action) || action.id != id
    ensures id in Apply(db, action).rows && !Unresolved(Apply(db, action).rows[id].state)
  {
    hide ActiveClash, RequestClash, CanStartMint;
  }

  /**
   * Which actions reopen a terminal row: exactly the unguarded updates of that row, and for a Mint exactly
   * while no other Mint of its account is unresolved.
   */
  lemma ReopensIff(db: Db, action: Action, id: OperationId)
    requires Sound(db) && id in db.rows && !Unresolved(db.rows[id].state) && !db.rows[id].state.Created?
    ensures id in Apply(db, action).rows
    ensures Unresolved(Apply(db, action).rows[id].state) <==>
      Marks(action) && action.id == id && (db.rows[id].kind.Mint? ==> CanStartMint(db, db.rows[id].account))
  {
    hide Sound, CanStartMint, Attempt, Apply;
    if Marks(action) && action.id == id {
      ReopeningIsStoppedIff(db, action);
    } else {
      OthersDoNotReopen(db, action, id);
    }
  }

  /** A Mint still reserved, with nothing spent. */
  predicate Reserved(db: Db, id: OperationId) {
    id in db.rows && ActiveMint(db.rows[id]) && db.rows[id].feeSpent == 0 && db.rows[id].gasSpent == 0
  }

  /**
   * Confirming or failing a reserved Mint cannot fail and frees the wallet. Confirming turns the reserved
   * fee into a spent one; failing gives count and fee back; the reported gas replaces the reserved gas.
   */
  lemma SettlingFrees(db: Db, action: Action)
    requires Sound(db) && (action.Confirm? || action.Fail?) && Reserved(db, action.id)
    ensures Attempt(db, action).Done? && Sound(Apply(db, action)) && Listed(db) && Listed(Apply(db, action))
    ensures var row, after := db.rows[action.id], Apply(db, action);
      && OnlyRow(db, after, action.id) && CanStartMint(after, row.account)
      && GasUse(after, row.account) + row.gasCommitted == GasUse(db, row.account) + action.gas
      && (action.Confirm? ==>
            && Sum(after, ConfirmedMints, row.account) == Sum(db, ConfirmedMints, row.account) + 1
            && Occupied(after, row.account) == Occupied(db, row.account) && FeeUse(after, row.account) == FeeUse(db, row.account))
      && (action.Fail? ==>
            && Sum(after, ConfirmedMints, row.account) == Sum(db, ConfirmedMints, row.account)
            && Occupied(after, row.account) + 1 == Occupied(db, row.account)
            && FeeUse(after, row.account) + row.feeCommitted == FeeUse(db, row.account))
  {
    hide Put, Sum, Sound, Listed, Later, CanStartMint, OnlyRow, Occupied, FeeUse, GasUse, Coalesce;
    ApplyKeepsSound(db, action);
    SoundIsListed(db);
    var row := db.rows[action.id];
    var later := match action
      case Confirm(_, txHash, issuedId, gas) => row.(
        state := MintConfirmed, txHash := Coalesce(txHash, row.txHash), issuedId := Coalesce(issuedId, row.issuedId),
        feeSpent := row.feeCommitted, gasSpent := gas)
      case Fail(_, failure, txHash, gas) => row.(
        state := failure, txHash := Coalesce(txHash, row.txHash), feeSpent := 0, gasSpent := gas)
      case _ => row;
    NoClash(db, action.id, later);
    UseAfterPut(db, action.id, later, row.account);
    OnlyMintSettled(db, action.id, later);
  }

  lemma OnlyMintSettled(db: Db, id: OperationId, later: Row)
    requires Sound(db) && id in db.rows && ActiveMint(db.rows[id]) && !ActiveMint(later) && Put(db, id, later).Done?
    ensures CanStartMint(Put(db, id, later).db, db.rows[id].account)
  {
    forall other | other in db.rows && other != id ensures Apart(db.rows[id], db.rows[other]) {
    }
  }

  /** A settled auxiliary operation moves no budget figure of anybody. */
  lemma AuxiliarySettlesQuietly(db: Db, action: Action)
    requires Sound(db) && (action.Confirm? || action.Fail?) && action.id in db.rows && !db.rows[action.id].kind.Mint?
    ensures Attempt(db, action).Done? && OnlyRow(db, Apply(db, action), action.id)
    ensures Listed(db) && Listed(Apply(db, action))
    ensures forall column, account :: Sum(Apply(db, action), column, account) == Sum(db, column, account)
  {
    hide Put, Sum, Sound, Listed, OnlyRow;
    ApplyKeepsSound(db, action);
    SoundIsListed(db);
    SoundIsListed(Apply(db, action));
    var row := db.rows[action.id];
    var later := match action
      case Confirm(_, txHash, issuedId, gas) => row.(
        state := ConfirmedState(row.kind), txHash := Coalesce(txHash, row.txHash),
        issuedId := Coalesce(issuedId, row.issuedId), feeSpent := row.feeCommitted, gasSpent := gas)
      case Fail(_, failure, txHash, gas) => row.(
        state := failure, txHash := Coalesce(txHash, row.txHash), feeSpent := 0, gasSpent := gas)
      case _ => row;
    NoClash(db, action.id, later);
    forall column, account ensures Sum(Apply(db, action), column, account) == Sum(db, column, account) {
      SumAfterPut(db, action.id, later, column, account);
      assert Cell(column, account, row) == Cell(column, account, later) == 0;
    }
  }

  /** Replacing the commitment of a reserved Mint charges its account exactly the difference, and nobody else. */
  lemma CommittingCharges(db: Db, id: OperationId, fee: nat, gas: nat)
    requires Sound(db) && id in db.rows
    ensures Attempt(db, Commit(id, fee, gas)).Done? && Sound(Apply(db, Commit(id, fee, gas)))
    ensures Listed(db) && Listed(Apply(db, Commit(id, fee, gas)))
    ensures var row, after := db.rows[id], Apply(db, Commit(id, fee, gas));
      && OnlyRow(db, after, id) && after.rows[id] == row.(feeCommitted := fee, gasCommitted := gas)
      && SameWallets(db, after)
      && forall account :: (
           var charged := ActiveMint(row) && row.account == account;
           && Occupied(after, account) == Occupied(db, account)
           && FeeUse(after, account) == FeeUse(db, account) + (if charged then fee - row.feeCommitted else 0)
           && GasUse(after, account) == GasUse(db, account) + (if charged then gas - row.gasCommitted else 0))
  {
    hide Put, Sum, Sound, Listed, CanStartMint, OnlyRow, Occupied, FeeUse, GasUse;
    ApplyKeepsSound(db, Commit(id, fee, gas));
    SoundIsListed(db);
    SoundIsListed(Apply(db, Commit(id, fee, gas)));
    var row := db.rows[id];
    var later := row.(feeCommitted := fee, gasCommitted := gas);
    NoClash(db, id, later);
    PutRow(db, id, later);
    forall account
      ensures var charged := ActiveMint(row) && row.account == account; var after := Put(db, id, later).db;
        && Listed(after)
        && Occupied(after, account) == Occupied(db, account)
        && FeeUse(after, account) == FeeUse(db, account) + (if charged then fee - row.feeCommitted else 0)
        && GasUse(after, account) == GasUse(db, account) + (if charged then gas - row.gasCommitted else 0)
    {
      UseAfterPut(db, id, later, account);
    }
    forall account ensures CanStartMint(Put(db, id, later).db, account) <==> CanStartMint(db, account) {
      WalletAfterPut(db, id, later, account);
    }
  }

  /** The account is authorized now and everything it has spent or reserved fits. */
  ghost predicate Covered(db: Db, account: Account, now: int)
    requires Listed(db)
  {
    && account in db.authorizations
    && !db.authorizations[account].revoked && now < db.authorizations[account].expiresAt
    && Occupied(db, account) <= db.authorizations[account].maxMints
    && FeeUse(db, account) <= db.authorizations[account].maxFee
    && GasUse(db, account) <= db.authorizations[account].maxGas
  }

  /** The gate before sending a reserved Mint passes if and only if the account is covered once its commitment is replaced. */
  lemma SendingGateIff(db: Db, id: OperationId, fee: nat, gas: nat, now: int)
    requires Sound(db) && id in db.rows && ActiveMint(db.rows[id])
    ensures Listed(db) && Listed(Apply(db, Commit(id, fee, gas)))
    ensures BudgetRefusal(db, db.rows[id].account, fee, gas, now, Some(id)).None?
      <==> Covered(Apply(db, Commit(id, fee, gas)), db.rows[id].account, now)
  {
    hide Sum, Sound, Listed, Attempt, Apply, Occupied, FeeUse, GasUse;
    OwnCharge(db, id, fee, gas);
    UseIsSum(db, db.rows[id].account);
  }

  lemma UseIsSum(db: Db, account: Account)
    requires Listed(db)
    ensures Occupied(db, account) == Sum(db, ConfirmedMints, account) + Sum(db, ReservedMints, account)
    ensures FeeUse(db, account) == Sum(db, SpentFee, account) + Sum(db, ReservedFee, account)
    ensures GasUse(db, account) == Sum(db, SpentGas, account) + Sum(db, ReservedGas, account)
  {
    hide Sum;
  }

  lemma OwnCharge(db: Db, id: OperationId, fee: nat, gas: nat)
    requires Sound(db) && id in db.rows && ActiveMint(db.rows[id])
    ensures Listed(db) && Listed(Apply(db, Commit(id, fee, gas)))
    ensures var row, after := db.rows[id], Apply(db, Commit(id, fee, gas));
      && after.authorizations == db.authorizations
      && Occupied(after, row.account) == Occupied(db, row.account)
      && FeeUse(after, row.account) == FeeUse(db, row.account) + fee - row.feeCommitted
      && GasUse(after, row.account) == GasUse(db, row.account) + gas - row.gasCommitted
  {
    hide Sum, Sound, Listed, Apply, Occupied, FeeUse, GasUse, SameWallets;
    CommittingCharges(db, id, fee, gas);
  }

  /** The account's table after a new Mint has begun and committed these amounts. */
  ghost function Started(db: Db, id: OperationId, account: Account, fee: nat, gas: nat): (after: Db)
    requires Sound(db)
    ensures Sound(after) && Listed(after)
  {
    var begin := Begin(id, Mint, account, CertificateReady, None, None);
    ApplyKeepsSound(db, begin);
    ApplyKeepsSound(Apply(db, begin), Commit(id, fee, gas));
    Apply(Apply(db, begin), Commit(id, fee, gas))
  }

  /** The gate before new work passes if and only if the account is covered once a Mint with these amounts has begun. */
  lemma StartingGateIff(db: Db, id: OperationId, account: Account, fee: nat, gas: nat, now: int)
    requires Sound(db) && id !in db.rows && CanStartMint(db, account)
    ensures Listed(db) && Listed(Started(db, id, account, fee, gas))
    ensures BudgetRefusal(db, account, fee, gas, now, None).None? <==> Covered(Started(db, id, account, fee, gas), account, now)
  {
    hide Sum, Sound, Listed, Occupied, FeeUse, GasUse, Put, CanStartMint, Attempt, Apply;
    var row := NewRow(Mint, account, CertificateReady, None, None);
    SoundIsListed(db);
    FreshMint(db, id, row);
    UseAfterPut(db, id, row, account);
    BegunIsSound(db, id, account, row);
    PutRow(db, id, row);
    OwnCharge(Put(db, id, row).db, id, fee, gas);
    UseIsSum(db, account);
  }

  lemma FreshMint(db: Db, id: OperationId, row: Row)
    requires id !in db.rows && CanStartMint(db, row.account) && row.request.None?
    ensures Put(db, id, row).Done? && Put(db, id, row).db.authorizations == db.authorizations
  {
  }

  lemma BegunIsSound(db: Db, id: OperationId, account: Account, row: Row)
    requires Sound(db) && id !in db.rows && CanStartMint(db, account) && Put(db, id, row).Done?
    requires row == NewRow(Mint, account, CertificateReady, None, None)
    ensures var begin := Begin(id, Mint, account, CertificateReady, None, None);
      Apply(db, begin) == Put(db, id, row).db && Sound(Put(db, id, row).db)
  {
    hide Put, Sound, CanStartMint;
    ApplyKeepsSound(db, Begin(id, Mint, account, CertificateReady, None, None));
  }

  /** A revoked authorization lets nothing more through, at any time, and concerns no other account. */
  lemma RevokedIsShut(db: Db, account: Account, who: Account, fee: nat, gas: nat, now: int, excluded: Option<OperationId>)
    requires Listed(db)
    ensures var after := RevokeAuthorization(db, account);
      && Listed(after)
      && (who == account ==> BudgetRefusal(after, who, fee, gas, now, excluded).Some?)
      && (who != account ==> BudgetRefusal(after, who, fee, gas, now, excluded) == BudgetRefusal(db, who, fee, gas, now, excluded))
  {
    var after := RevokeAuthorization(db, account);
    assert forall column :: Sum(after, column, who) == Sum(db, column, who);
    hide Sum, Listed;
  }

  /** A fresh authorization opens the gate until it expires, revoked before or not, and concerns no other account. */
  lemma AuthorizedIsOpen(
    db: Db, account: Account, a: Authorization, who: Account, fee: nat, gas: nat, now: int, excluded: Option<OperationId>)
    requires Listed(db)
    ensures var after := LedgerModel.Authorize(db, account, a);
      && Listed(after)
      && (who == account ==>
            (BudgetRefusal(after, who, fee, gas, now, excluded) in {Some(NotAuthorized), Some(AuthorizationOver)}
             <==> a.expiresAt <= now))
      && (who != account ==> BudgetRefusal(after, who, fee, gas, now, excluded) == BudgetRefusal(db, who, fee, gas, now, excluded))
  {
    var after := LedgerModel.Authorize(db, account, a);
    assert forall column :: Sum(after, column, who) == Sum(db, column, who);
    hide Sum, Listed;
  }
}
