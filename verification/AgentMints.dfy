/** What one live process guarantees about its Mints in every run. */
module AgentMints {
  import opened LedgerModel
  import opened LedgerRuns
  import opened Agent
  import opened AgentSubmissions
  import opened AgentSolo

  ghost predicate SoloInputs(inputs: seq<Input>) {
    forall i :: 0 <= i < |inputs| ==> SoloInput(inputs[i])
  }

  /** From an empty ledger, one process at a time: the world after a run. */
  ghost predicate Reached(w: World) {
    exists now: int, inputs: seq<Input> :: SoloInputs(inputs) && w == PlayFresh(now, inputs)
  }

  function PlayFresh(now: int, inputs: seq<Input>): World {
    FreshIsSafe(now);
    Play(Fresh(now), inputs)
  }

  lemma ReachedIsSolo(w: World)
    requires Reached(w)
    ensures Solo(w) && SubmissionsSafe(w)
  {
    var now: int, inputs: seq<Input> :| SoloInputs(inputs) && w == PlayFresh(now, inputs);
    FreshIsSafe(now);
    SoloRun(Fresh(now), inputs);
    SubmittedAtMostOnce(Fresh(now), inputs);
  }

  /** When the wallet is about to be called for a Mint, no other Mint of the account is unresolved, submitted or not. */
  lemma NoMintWhileAnotherIsUnresolved(w: World, other: OperationId)
    requires Reached(w) && 0 in w.procs && w.procs[0].SubmitCall?
    requires var id := w.procs[0].id; id in w.db.rows && w.db.rows[id].kind.Mint?
    requires var id := w.procs[0].id;
      other in w.db.rows && other != id && w.db.rows[other].kind.Mint? && w.db.rows[other].account == w.db.rows[id].account
    ensures !Unresolved(w.db.rows[other].state)
  {
    ReachedIsSolo(w);
    assert Apart(w.db.rows[w.procs[0].id], w.db.rows[other]);
  }

  /** A Mint with no request id is terminal or in a state resolveUnsentFailure accepts. */
  lemma UnsentMintCanBeReleased(w: World, id: OperationId)
    requires Reached(w) && id in w.db.rows && w.db.rows[id].kind.Mint? && w.db.rows[id].request.None?
    ensures !Unresolved(w.db.rows[id].state) || UnsentFailureApplies(w.db, id)
  {
    ReachedIsSolo(w);
    assert RowOk(w, id, w.db.rows[id]);
  }

  /** A submitted Mint stays reserved, with its whole fee, until the chain or the wallet has decided it. */
  lemma UndecidedMintStaysReserved(w: World, k: nat)
    requires Reached(w) && k < |w.submissions|
    ensures var id := w.submissions[k].id;
      && id in w.db.rows
      && var row := w.db.rows[id];
        row.kind.Mint? && id !in w.decided ==>
          Unresolved(row.state) && Cell(ReservedMints, row.account, row) == 1 && Cell(ReservedFee, row.account, row) == MINT_FEE
  {
    ReachedIsSolo(w);
    assert Durable(w.db, w.submissions[k]);
    assert RowOk(w, w.submissions[k].id, w.db.rows[w.submissions[k].id]);
  }
}
