/** How one written row moves the figures of a budget snapshot. */
module LedgerSums {
  import opened LedgerModel

  lemma {:induction false} TotalUntouched(
    column: Column, account: Account, rows: map<OperationId, Row>, id: OperationId, row: Row, ids: seq<OperationId>)
    requires forall i :: i in ids ==> i in rows
    requires id !in ids
    ensures Total(column, account, rows[id := row], ids) == Total(column, account, rows, ids)
  {
    if ids != [] {
      TotalUntouched(column, account, rows, id, row, ids[1..]);
    }
  }

  lemma {:induction false} TotalUpdate(
    column: Column, account: Account, rows: map<OperationId, Row>, id: OperationId, row: Row, ids: seq<OperationId>)
    requires forall i :: i in ids ==> i in rows
    requires forall i, j :: 0 <= i < j < |ids| ==> ids[i] != ids[j]
    requires id in ids
    ensures Total(column, account, rows[id := row], ids) + Cell(column, account, rows[id])
      == Total(column, account, rows, ids) + Cell(column, account, row)
  {
    if ids[0] == id {
      assert id !in ids[1..];
      TotalUntouched(column, account, rows, id, row, ids[1..]);
    } else {
      TotalUpdate(column, account, rows, id, row, ids[1..]);
    }
  }

  lemma {:induction false} TotalAppend(
    column: Column, account: Account, rows: map<OperationId, Row>, ids: seq<OperationId>, id: OperationId)
    requires forall i :: i in ids ==> i in rows
    requires id in rows
    ensures Total(column, account, rows, ids + [id]) == Total(column, account, rows, ids) + Cell(column, account, rows[id])
  {
    if ids == [] {
      assert ids + [id] == [id];
    } else {
      assert (ids + [id])[1..] == ids[1..] + [id];
      TotalAppend(column, account, rows, ids[1..], id);
    }
  }

  lemma SumAfterPut(db: Db, id: OperationId, row: Row, column: Column, account: Account)
    requires Listed(db) && Put(db, id, row).Done?
    ensures Listed(Put(db, id, row).db)
    ensures var after := Put(db, id, row).db;
      Sum(after, column, account) + (if id in db.rows then Cell(column, account, db.rows[id]) else 0)
      == Sum(db, column, account) + Cell(column, account, row)
  {
    var after := Put(db, id, row).db;
    if id in db.rows {
      TotalUpdate(column, account, db.rows, id, row, db.order);
    } else {
      TotalAppend(column, account, after.rows, db.order, id);
      TotalUntouched(column, account, db.rows, id, row, db.order);
    }
  }

  /** Mints confirmed or reserved, and the fee and gas they have spent or reserve. */
  function Occupied(db: Db, account: Account): nat
    requires Listed(db)
  {
    Sum(db, ConfirmedMints, account) + Sum(db, ReservedMints, account)
  }

  function FeeUse(db: Db, account: Account): nat
    requires Listed(db)
  {
    Sum(db, SpentFee, account) + Sum(db, ReservedFee, account)
  }

  function GasUse(db: Db, account: Account): nat
    requires Listed(db)
  {
    Sum(db, SpentGas, account) + Sum(db, ReservedGas, account)
  }

  function OccupiedBy(account: Account, row: Row): nat {
    Cell(ConfirmedMints, account, row) + Cell(ReservedMints, account, row)
  }

  function FeeBy(account: Account, row: Row): nat {
    Cell(SpentFee, account, row) + Cell(ReservedFee, account, row)
  }

  function GasBy(account: Account, row: Row): nat {
    Cell(SpentGas, account, row) + Cell(ReservedGas, account, row)
  }

  lemma UseAfterPut(db: Db, id: OperationId, row: Row, account: Account)
    requires Listed(db) && Put(db, id, row).Done?
    ensures Listed(Put(db, id, row).db)
    ensures var after := Put(db, id, row).db;
      && Occupied(after, account) + (if id in db.rows then OccupiedBy(account, db.rows[id]) else 0)
         == Occupied(db, account) + OccupiedBy(account, row)
      && FeeUse(after, account) + (if id in db.rows then FeeBy(account, db.rows[id]) else 0)
         == FeeUse(db, account) + FeeBy(account, row)
      && GasUse(after, account) + (if id in db.rows then GasBy(account, db.rows[id]) else 0)
         == GasUse(db, account) + GasBy(account, row)
      && Sum(after, ConfirmedMints, account) + (if id in db.rows then Cell(ConfirmedMints, account, db.rows[id]) else 0)
         == Sum(db, ConfirmedMints, account) + Cell(ConfirmedMints, account, row)
  {
    hide Put, Sum, Listed, Cell;
    SumAfterPut(db, id, row, ConfirmedMints, account);
    SumAfterPut(db, id, row, ReservedMints, account);
    SumAfterPut(db, id, row, SpentFee, account);
    SumAfterPut(db, id, row, ReservedFee, account);
    SumAfterPut(db, id, row, SpentGas, account);
    SumAfterPut(db, id, row, ReservedGas, account);
  }
}
