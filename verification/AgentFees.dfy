/** Fee conservation: the ledger's fee figures always account for a whole number of Mint fees. */
module AgentFees {
  import opened LedgerModel
  import opened LedgerSums
  import opened Agent
  import opened AgentSolo
  import opened AgentMints
  import AgentSubmissions

  /** A committed Mint of the account that is confirmed or may still be. */
  predicate Carries(account: Account, row: Row) {
    row.kind.Mint? && row.account == account && row.feeCommitted > 0 && (Unresolved(row.state) || row.state.MintConfirmed?)
  }

  function Carried(account: Account, rows: map<OperationId, Row>, ids: seq<OperationId>): nat
    requires forall id :: id in ids ==> id in rows
  {
    if ids == [] then 0 else (if Carries(account, rows[ids[0]]) then 1 else 0) + Carried(account, rows, ids[1..])
  }

  lemma RowFee(account: Account, row: Row)
    requires row.kind.Mint? ==> MintOk(row)
    ensures FeeBy(account, row) == if Carries(account, row) then MINT_FEE else 0
  {
  }

  lemma {:induction false} FeesOfRows(w: World, account: Account, ids: seq<OperationId>)
    requires RowsOk(w) && forall id :: id in ids ==> id in w.db.rows
    ensures Total(SpentFee, account, w.db.rows, ids) + Total(ReservedFee, account, w.db.rows, ids)
      == MINT_FEE * Carried(account, w.db.rows, ids)
  {
    hide MintOk, Cell, Carries, Unresolved;
    if ids != [] {
      assert RowOk(w, ids[0], w.db.rows[ids[0]]);
      RowFee(account, w.db.rows[ids[0]]);
      FeesOfRows(w, account, ids[1..]);
    }
  }

  /** Spent plus reserved fee is the Mint fee times the committed Mints that are confirmed or unresolved. */
  lemma FeeConservation(w: World, account: Account)
    requires Reached(w)
    ensures Listed(w.db)
    ensures Sum(w.db, SpentFee, account) + Sum(w.db, ReservedFee, account) == MINT_FEE * Carried(account, w.db.rows, w.db.order)
  {
    hide RowsOk;
    ReachedIsSolo(w);
    FeesOfRows(w, account, w.db.order);
  }

  /** Each Mint commits nothing or exactly the Mint fee, and every submitted Mint has committed it. */
  lemma CommitmentIsTheMintFee(w: World, id: OperationId)
    requires Reached(w) && id in w.db.rows && w.db.rows[id].kind.Mint?
    ensures w.db.rows[id].feeCommitted in {0, MINT_FEE}
    ensures (exists k :: 0 <= k < |w.submissions| && w.submissions[k].id == id) ==> w.db.rows[id].feeCommitted == MINT_FEE
  {
    ReachedIsSolo(w);
    assert RowOk(w, id, w.db.rows[id]);
    if k :| 0 <= k < |w.submissions| && w.submissions[k].id == id {
      assert AgentSubmissions.Durable(w.db, w.submissions[k]);
    }
  }
}
