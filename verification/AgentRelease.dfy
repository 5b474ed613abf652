/** Unsent work never blocks for good: one command after expiry frees the wallet, and the mining commands go on to the next Mint. */
module AgentRelease {
  import opened Options
  import opened LedgerModel
  import opened LedgerRuns
  import opened Agent
  import opened AgentSolo
  import opened AgentMints
  import opened AgentProgress
  import opened AgentTermination

  /** A Mint never handed to a wallet, whose certificate is over and whose receipt the chain has not consumed. */
  predicate Abandoned(w: World, op: Snapshot) {
    && op.id in w.db.rows && w.db.rows[op.id] == op.row
    && UnsentMint(op.row) && Unresolved(op.row.state)
    && CertificateExpired(op.row, w.now) && IssuedId(w, op.row.receipt) == 0
  }

  predicate Freed(db: Db, op: Snapshot) {
    op.id in db.rows && db.rows[op.id].state == FailedRetryable && CanStartMint(db, op.row.account)
  }

  /** The records still to recover are auxiliary operations and perhaps the abandoned Mint. */
  ghost predicate Rest(todo: seq<Snapshot>, op: Snapshot) {
    forall i :: 0 <= i < |todo| ==> todo[i] == op || (todo[i].id != op.id && !todo[i].row.kind.Mint?)
  }

  predicate Lists(todo: seq<Snapshot>, op: Snapshot) {
    exists i :: 0 <= i < |todo| && todo[i] == op
  }

  /** Where recoverOutstanding can be on its way to releasing the Mint. */
  ghost predicate Sweeping(pc: Pc, op: Snapshot, goal: Goal, waiting: bool) {
    if pc.Sweep? then
      && pc.account == op.row.account && pc.goal == goal && Rest(pc.todo, op) && (waiting ==> Lists(pc.todo, op))
    else
      && InRecovery(pc) && pc.frame.InSweep? && pc.frame.account == op.row.account && pc.frame.goal == goal
      && Rest(pc.frame.rest, op)
      && (pc.op.id == op.id ==> waiting && pc.op == op && (pc.RecoverEntry? || pc.RecoverRelease?))
      && (pc.op.id != op.id ==> !pc.op.row.kind.Mint? && (waiting ==> Lists(pc.frame.rest, op)))
  }

  /** Before, during or right after recoverOutstanding in a command with this goal. */
  ghost predicate OnTheWay(w: World, op: Snapshot, goal: Goal) {
    && Solo(w)
    && UnsentMint(op.row) && Unresolved(op.row.state)
    && (Abandoned(w, op) || Freed(w.db, op))
    && (0 in w.procs && !w.procs[0].MineChoose? ==> Sweeping(w.procs[0], op, goal, !Freed(w.db, op)))
    && (0 in w.procs && w.procs[0].MineChoose? ==>
          w.procs[0] == MineChoose(op.row.account, goal) && !goal.StatusOnly? && Freed(w.db, op))
    && (0 !in w.procs ==> goal.StatusOnly? && Freed(w.db, op))
  }

  /** The Mint is released, the wallet free, and a command that mines goes on to its next Mint. */
  ghost predicate Arrived(w: World, op: Snapshot, goal: Goal) {
    && Freed(w.db, op)
    && (if goal.StatusOnly? || goal == Once(false) then 0 !in w.procs
        else 0 in w.procs && w.procs[0] == MinePreflight(op.row.account, goal))
  }

  /** Time, stops, other accounts, and a chain that does not consume this receipt. */
  predicate Uneventful(input: Input, op: Snapshot) {
    Surrounding(input, op.row.account) && (input.Issue? ==> op.row.receipt != Some(input.receipt))
  }

  lemma UneventfulKeepsWay(w: World, input: Input, op: Snapshot, goal: Goal)
    requires OnTheWay(w, op, goal) && Uneventful(input, op)
    ensures Sound(w.db) && OnTheWay(React(w, input), op, goal) && React(w, input).procs == w.procs
  {
    hide Solo, Sweeping, Sound, CanStartMint, Put, Administer, StepProcess, Unresolved, UnsentMint;
    SoloIsListed(w);
    SoloReact(w, input);
    SurroundingLeavesProcess(w, input, op.row.account);
    SameMints(w.db, React(w, input).db, op.row.account);
    assert Abandoned(w, op) ==> Abandoned(React(w, input), op);
  }

  lemma SameMints(db: Db, after: Db, account: Account)
    requires after.rows == db.rows
    ensures CanStartMint(after, account) <==> CanStartMint(db, account)
  {
  }

  /** The ledger statement of a point that recovers an auxiliary operation succeeds and touches no Mint. */
  lemma AuxiliaryActs(w: World, pc: Pc, reply: Reply, op: Snapshot)
    requires Sound(w.db) && PcOk(w, pc) && InRecovery(pc) && pc.op.id != op.id && !pc.op.row.kind.Mint?
    requires Act(pc, reply).Some? && op.id in w.db.rows
    ensures Attempt(w.db, Act(pc, reply).value).Done?
    ensures var after := Apply(w.db, Act(pc, reply).value);
      && op.id in after.rows && after.rows[op.id] == w.db.rows[op.id]
      && forall account :: CanStartMint(after, account) <==> CanStartMint(w.db, account)
  {
    hide FrameOk, CanStartMint, Sound;
    assert pc.op.id in w.db.rows && !w.db.rows[pc.op.id].kind.Mint?;
    assert Unresolved(w.db.rows[pc.op.id].state);
    var action := Act(pc, reply).value;
    assert action.id == pc.op.id;
    assert action.Recover? || action.Record? || action.Pend? || action.LoseTrack? || action.Confirm? || action.Fail?;
    AuxiliaryStatement(w.db, action);
    forall account ensures CanStartMint(Apply(w.db, action), account) <==> CanStartMint(w.db, account) {
      OtherMints(w.db, Apply(w.db, action), action.id, account);
    }
  }

  lemma AuxiliaryStatement(db: Db, action: Action)
    requires action.Recover? || action.Record? || action.Pend? || action.LoseTrack? || action.Confirm? || action.Fail?
    requires Sound(db) && action.id in db.rows && !db.rows[action.id].kind.Mint? && Unresolved(db.rows[action.id].state)
    ensures Attempt(db, action).Done?
    ensures var after := Apply(db, action);
      action.id in after.rows && after.rows == db.rows[action.id := after.rows[action.id]] && !after.rows[action.id].kind.Mint?
  {
    hide RequestClash;
    forall row: Row | row.request == db.rows[action.id].request ensures !RequestClash(db.rows, action.id, row) {
      OwnRequest(db, action.id, row);
    }
  }

  lemma OwnRequest(db: Db, id: OperationId, row: Row)
    requires Sound(db) && id in db.rows && row.request == db.rows[id].request
    ensures !RequestClash(db.rows, id, row)
  {
    forall other | other in db.rows && other != id && row.request.Some? ensures db.rows[other].request != row.request {
      assert Apart(db.rows[id], db.rows[other]);
    }
  }

  lemma OtherMints(db: Db, after: Db, id: OperationId, account: Account)
    requires id in db.rows && id in after.rows && after.rows == db.rows[id := after.rows[id]]
    requires !db.rows[id].kind.Mint? && !after.rows[id].kind.Mint?
    ensures CanStartMint(after, account) <==> CanStartMint(db, account)
  {
    assert forall other :: other in db.rows && other != id ==> after.rows[other] == db.rows[other];
  }

  /** Recovering an auxiliary operation stays at that operation until it moves on to the remaining records. */
  lemma AuxiliaryNext(w: World, pc: Pc, reply: Reply)
    requires Listed(w.db) && InRecovery(pc) && pc.frame.InSweep? && !pc.op.row.kind.Mint?
    requires pc.op.id in w.db.rows && !w.db.rows[pc.op.id].kind.Mint? && !pc.RecoverRelease?
    ensures var next := Next(w, pc, reply);
      && next.Some?
      && (next.value == Sweep(pc.frame.account, pc.frame.rest, pc.frame.goal)
          || (InRecovery(next.value) && next.value.frame == pc.frame && next.value.op.id == pc.op.id
              && !next.value.op.row.kind.Mint?))
  {
    hide Listed, IssuedId, Unresolved, CertificateExpired;
  }

  lemma TakeFirst(todo: seq<Snapshot>, op: Snapshot)
    requires todo != [] && Rest(todo, op)
    ensures Rest(todo[1..], op) && (todo[0] == op || (todo[0].id != op.id && !todo[0].row.kind.Mint?))
    ensures Lists(todo, op) && todo[0] != op ==> Lists(todo[1..], op)
  {
    if Lists(todo, op) && todo[0] != op {
      var i :| 0 <= i < |todo| && todo[i] == op;
      assert todo[1..][i - 1] == op;
    }
  }

  lemma Distinct(w: World, pc: Pc, op: Snapshot)
    requires PcOk(w, pc) && pc.Sweep? && pc.todo != []
    ensures forall i :: 0 < i < |pc.todo| ==> pc.todo[i].id != pc.todo[0].id
  {
  }

  /** At these points the process only looks at the ledger. */
  lemma ReadingStep(w: World, reply: Reply)
    requires Sound(w.db) && 0 in w.procs && !reply.throws
    requires w.procs[0].Sweep? || w.procs[0].MineChoose? || w.procs[0].RunHead?
    ensures Listed(w.db) && StepProcess(w, 0, reply) == At(w, 0, Next(w, w.procs[0], reply))
  {
    hide Sound, Next;
    SoundIsListed(w.db);
  }

  /** Once its turn has come, the abandoned Mint is not listed again. */
  lemma SweepNext(w: World, reply: Reply, op: Snapshot, goal: Goal)
    requires OnTheWay(w, op, goal) && Sound(w.db) && 0 in w.procs && w.procs[0].Sweep? && !reply.throws
    ensures Solo(StepProcess(w, 0, reply)) ==> OnTheWay(StepProcess(w, 0, reply), op, goal)
  {
    hide Solo, Sound, StepProcess, CanStartMint, Rest, Lists, CertificateExpired, Unresolved, UnsentMint;
    ReadingStep(w, reply);
    SoloPoint(w);
    var pc := w.procs[0];
    NothingListed(op);
    if pc.todo != [] {
      TakeFirst(pc.todo, op);
      Distinct(w, pc, op);
      if Freed(w.db, op) {
        FreedIsNotListed(w, pc, op);
      }
    }
  }

  lemma SoloPoint(w: World)
    requires Solo(w) && 0 in w.procs
    ensures Sound(w.db) && Listed(w.db) && PcOk(w, w.procs[0]) && (forall pid :: pid in w.procs ==> pid == 0)
  {
    hide Sound;
    SoundIsListed(w.db);
  }

  lemma NothingListed(op: Snapshot)
    ensures !Lists([], op)
  {
  }

  lemma FreedIsNotListed(w: World, pc: Pc, op: Snapshot)
    requires PcOk(w, pc) && pc.Sweep? && Freed(w.db, op) && Unresolved(op.row.state)
    ensures forall i :: 0 <= i < |pc.todo| ==> pc.todo[i] != op
  {
    forall i | 0 <= i < |pc.todo| ensures pc.todo[i] != op {
      assert Current(w, pc.todo[i]);
    }
  }

  /** The world once the statement of a recovery point, if it has one, has succeeded. */
  function Recovered(w: World, pc: Pc, reply: Reply): World
    requires InRecovery(pc)
  {
    w.(
      decided := if Decisive(pc, reply, w) then w.decided + {pc.op.id} else w.decided,
      db := if Act(pc, reply).Some? then Apply(w.db, Act(pc, reply).value) else w.db)
  }

  lemma RecoveryStep(w: World, reply: Reply)
    requires Sound(w.db) && 0 in w.procs && InRecovery(w.procs[0]) && !reply.throws
    requires Act(w.procs[0], reply).Some? ==> Attempt(w.db, Act(w.procs[0], reply).value).Done?
    ensures var pc := w.procs[0]; var met := Recovered(w, pc, reply);
      && Listed(met.db) && Later(w.db, met.db)
      && StepProcess(w, 0, reply) == At(met, 0, Next(met, pc, reply))
  {
    hide Sound, Next, OnThrow, Act, Attempt, Apply, Decisive;
    var pc := w.procs[0];
    SameRowsAreSound(w.db, w.db);
    if Act(pc, reply).Some? {
      ApplyKeepsSound(w.db, Act(pc, reply).value);
    }
    SoundIsListed(Recovered(w, pc, reply).db);
  }

  /** The certificate is over and the receipt unused, so the Mint is to be released. */
  lemma Expires(w: World, pc: Pc, reply: Reply)
    requires Listed(w.db) && pc.RecoverEntry?
    requires var row := pc.op.row;
      UnsentMint(row) && Unresolved(row.state) && IssuedId(w, row.receipt) == 0 && CertificateExpired(row, w.now)
    ensures Act(pc, reply).None? && Recovered(w, pc, reply) == w
    ensures Next(w, pc, reply) == Some(RecoverRelease(pc.frame, pc.op))
  {
    hide Listed, IssuedId, Unresolved, UnsentMint, CertificateExpired;
  }

  /** Once released, recoverOutstanding goes on with the remaining records. */
  lemma ReleasesOnward(w: World, pc: Pc, reply: Reply)
    requires Listed(w.db) && pc.RecoverRelease? && pc.frame.InSweep?
    requires pc.op.id in w.db.rows && w.db.rows[pc.op.id].state == FailedRetryable
    ensures Next(w, pc, reply) == Some(Sweep(pc.frame.account, pc.frame.rest, pc.frame.goal))
  {
    hide Listed;
  }

  lemma ReleaseAct(w: World, pc: Pc, reply: Reply)
    requires pc.RecoverRelease?
    ensures Act(pc, reply) == Some(Release(pc.op.id))
    ensures var met := Recovered(w, pc, reply); met == w.(db := Apply(w.db, Release(pc.op.id)))
  {
    hide Apply;
  }

  lemma ReleaseFrees(db: Db, id: OperationId)
    requires Sound(db) && UnsentFailureApplies(db, id) && ActiveMint(db.rows[id])
    ensures Attempt(db, Release(id)).Done?
    ensures var after := Apply(db, Release(id));
      id in after.rows && after.rows[id].state == FailedRetryable && CanStartMint(after, db.rows[id].account)
  {
    var after := Apply(db, Release(id));
    forall other | other in after.rows && after.rows[other].account == db.rows[id].account
      ensures !ActiveMint(after.rows[other])
    {
      if other != id {
        assert Apart(db.rows[id], db.rows[other]);
      }
    }
  }

  /** The abandoned Mint's own turn: two statements later it is released and the wallet free. */
  lemma OwnTurn(w: World, reply: Reply, op: Snapshot, goal: Goal)
    requires OnTheWay(w, op, goal) && Sound(w.db) && 0 in w.procs && InRecovery(w.procs[0]) && w.procs[0].op.id == op.id
    requires !reply.throws
    ensures Solo(StepProcess(w, 0, reply)) ==> OnTheWay(StepProcess(w, 0, reply), op, goal)
  {
    hide Solo, Rest, Lists, Sound, Listed, Later, StepProcess, Apply, Attempt, CanStartMint, CertificateExpired;
    hide UnsentMint, Unresolved, UnsentFailureApplies, Recovered, Next, Act, PcOk;
    SoloPoint(w);
    SoloFacts(w, op);
    var pc := w.procs[0];
    if pc.RecoverEntry? {
      Expires(w, pc, reply);
      RecoveryStep(w, reply);
    } else {
      ReleaseFrees(w.db, op.id);
      ReleaseAct(w, pc, reply);
      RecoveryStep(w, reply);
      ReleasesOnward(Recovered(w, pc, reply), pc, reply);
    }
  }

  lemma SoloFacts(w: World, op: Snapshot)
    requires Solo(w) && Abandoned(w, op)
    ensures ActiveMint(op.row) && UnsentFailureApplies(w.db, op.id)
  {
    hide Sound, IssuedId, CertificateExpired;
    assert RowOk(w, op.id, op.row);
  }

  /** An auxiliary operation's turn leaves the abandoned Mint where it was. */
  lemma OtherTurn(w: World, reply: Reply, op: Snapshot, goal: Goal)
    requires OnTheWay(w, op, goal) && Sound(w.db) && 0 in w.procs && InRecovery(w.procs[0]) && w.procs[0].op.id != op.id
    requires !reply.throws
    ensures Solo(StepProcess(w, 0, reply)) ==> OnTheWay(StepProcess(w, 0, reply), op, goal)
  {
    hide Solo, Rest, Lists, Sound, StepProcess, Apply, Attempt, CanStartMint, CertificateExpired, PcOk, Next, Act;
    SoloPoint(w);
    OtherStep(w, reply, op);
  }

  lemma OtherStep(w: World, reply: Reply, op: Snapshot)
    requires Sound(w.db) && 0 in w.procs && PcOk(w, w.procs[0]) && InRecovery(w.procs[0]) && !reply.throws
    requires w.procs[0].op.id != op.id && !w.procs[0].op.row.kind.Mint? && w.procs[0].frame.InSweep? && op.id in w.db.rows
    ensures var pc, after := w.procs[0], StepProcess(w, 0, reply);
      && after.now == w.now && after.chain == w.chain && 0 in after.procs
      && op.id in after.db.rows && after.db.rows[op.id] == w.db.rows[op.id]
      && (forall account :: CanStartMint(after.db, account) <==> CanStartMint(w.db, account))
      && (after.procs[0] == Sweep(pc.frame.account, pc.frame.rest, pc.frame.goal)
          || (InRecovery(after.procs[0]) && after.procs[0].frame == pc.frame && after.procs[0].op.id == pc.op.id
              && !after.procs[0].op.row.kind.Mint?))
  {
    hide Sound, Listed, Later, Next, Act, Attempt, Apply, CanStartMint, PcOk, StepProcess, Decisive;
    var pc := w.procs[0];
    OtherPoint(w, pc);
    if Act(pc, reply).Some? {
      AuxiliaryActs(w, pc, reply, op);
    }
    RecoveryStep(w, reply);
    var met := Recovered(w, pc, reply);
    KindStays(w.db, met.db, pc.op.id);
    AuxiliaryNext(met, pc, reply);
  }

  lemma OtherPoint(w: World, pc: Pc)
    requires PcOk(w, pc) && InRecovery(pc) && !pc.op.row.kind.Mint?
    ensures !pc.RecoverRelease? && pc.op.id in w.db.rows && !w.db.rows[pc.op.id].kind.Mint?
  {
  }

  lemma KindStays(db: Db, after: Db, id: OperationId)
    requires Later(db, after) && id in db.rows && !db.rows[id].kind.Mint?
    ensures id in after.rows && !after.rows[id].kind.Mint?
  {
    assert LaterRow(db.rows[id], after.rows[id]);
  }

  lemma StepOnWay(w: World, reply: Reply, op: Snapshot, goal: Goal)
    requires OnTheWay(w, op, goal) && Sound(w.db) && 0 in w.procs && !w.procs[0].MineChoose? && !reply.throws
    ensures OnTheWay(StepProcess(w, 0, reply), op, goal)
    ensures !w.procs[0].SubmitPrepare? && PursuitOf(w.procs[0]).goal == goal
  {
    hide Solo, StepProcess, Rest, Lists, Abandoned, Freed;
    SoloStep(w, reply);
    if w.procs[0].Sweep? {
      SweepNext(w, reply, op, goal);
    } else if w.procs[0].op.id == op.id {
      OwnTurn(w, reply, op, goal);
    } else {
      OtherTurn(w, reply, op, goal);
    }
  }

  /** With the wallet free there is nothing to resume, so mineOnce goes on to its preflight, or ends if not confirmed. */
  lemma Chooses(w: World, reply: Reply, op: Snapshot, goal: Goal)
    requires OnTheWay(w, op, goal) && Sound(w.db) && 0 in w.procs && w.procs[0].MineChoose? && !reply.throws
    ensures Arrived(StepProcess(w, 0, reply), op, goal)
  {
    hide Solo, Sound, StepProcess, FirstResumable, Abandoned;
    ReadingStep(w, reply);
    SoloPoint(w);
    FirstResumableIs(w.db, w.now, op.row.account, w.db.order);
  }

  lemma {:induction false} PlayKeepsWay(w: World, inputs: seq<Input>, op: Snapshot, goal: Goal)
    requires OnTheWay(w, op, goal) && forall i :: 0 <= i < |inputs| ==> Uneventful(inputs[i], op)
    ensures Sound(w.db) && OnTheWay(Play(w, inputs), op, goal) && Play(w, inputs).procs == w.procs
    decreases |inputs|
  {
    hide OnTheWay, Uneventful, React;
    WayIsSound(w, op, goal);
    if inputs != [] {
      UneventfulKeepsWay(w, inputs[0], op, goal);
      PlayKeepsWay(React(w, inputs[0]), inputs[1..], op, goal);
    }
  }

  lemma WayIsSound(w: World, op: Snapshot, goal: Goal)
    requires OnTheWay(w, op, goal)
    ensures Sound(w.db)
  {
  }

  /** What recoverOutstanding is for, and one more step for a command that mines. */
  lemma {:induction false} WayEnds(w: World, answers: World -> Reply, around: nat -> seq<Input>, k: nat, op: Snapshot, goal: Goal)
    returns (count: nat)
    requires OnTheWay(w, op, goal)
    requires forall v: World :: !answers(v).throws
    requires forall j, i :: 0 <= i < |around(j)| ==> Uneventful(around(j)[i], op)
    ensures Sound(w.db) && Arrived(Steps(w, answers, around, k, count), op, goal)
    decreases if 0 in w.procs then 1 else 0,
      if 0 in w.procs then RankOf(w.procs[0], 0).stage else 0,
      if 0 in w.procs then RankOf(w.procs[0], 0).todo else 0,
      if 0 in w.procs then RankOf(w.procs[0], 0).point else 0
  {
    hide OnTheWay, Arrived, RankOf, StepProcess, Play, PursuitOf, Uneventful, Steps;
    WayIsSound(w, op, goal);
    if 0 !in w.procs {
      count := 0;
      Ends(w, op, goal);
      NoStep(w, answers, around, k);
    } else {
      PlayKeepsWay(w, around(k), op, goal);
      var met := Play(w, around(k));
      var after := StepProcess(met, 0, answers(met));
      if met.procs[0].MineChoose? {
        count := 1;
        Chooses(met, answers(met), op, goal);
        NoStep(after, answers, around, k + 1);
        StepsOn(w, answers, around, k, 0);
      } else {
        StepOnWay(met, answers(met), op, goal);
        StepAdvances(met, answers(met), 0);
        if 0 in after.procs {
          SameGoal(after, op, goal);
          SameRuns(met.procs[0], after.procs[0]);
        }
        var rest := WayEnds(after, answers, around, k + 1, op, goal);
        count := rest + 1;
        StepsOn(w, answers, around, k, rest);
      }
    }
  }

  lemma Ends(w: World, op: Snapshot, goal: Goal)
    requires OnTheWay(w, op, goal) && 0 !in w.procs
    ensures Arrived(w, op, goal)
  {
    hide Solo, Abandoned, Freed;
  }

  lemma SameGoal(w: World, op: Snapshot, goal: Goal)
    requires OnTheWay(w, op, goal) && 0 in w.procs
    ensures PursuitOf(w.procs[0]).goal == goal
  {
    hide Solo, Abandoned, Freed, Rest, Lists;
  }

  lemma SameRuns(pc: Pc, next: Pc)
    requires PursuitOf(pc).goal == PursuitOf(next).goal
    ensures RankOf(pc, 0).runs == RankOf(next, 0).runs
  {
    hide PursuitOf;
  }

  lemma {:induction false} UnsettledLists(db: Db, account: Account, ids: seq<OperationId>, id: OperationId)
    requires id in ids && id in db.rows && db.rows[id].account == account && Unresolved(db.rows[id].state)
    ensures Lists(Unsettled(db, account, ids), Snapshot(id, db.rows[id]))
  {
    var todo := Unsettled(db, account, ids);
    if ids[0] == id {
      assert todo[0] == Snapshot(id, db.rows[id]);
    } else {
      UnsettledLists(db, account, ids[1..], id);
      var rest := Unsettled(db, account, ids[1..]);
      var i :| 0 <= i < |rest| && rest[i] == Snapshot(id, db.rows[id]);
      assert todo == rest || todo[i + 1] == rest[i];
    }
  }

  lemma {:induction false} UnsettledAreOpen(db: Db, account: Account, ids: seq<OperationId>)
    ensures forall i :: 0 <= i < |Unsettled(db, account, ids)| ==>
      var s := Unsettled(db, account, ids)[i];
      s.id in db.rows && s.row == db.rows[s.id] && s.row.account == account && Unresolved(s.row.state)
  {
    if ids != [] {
      UnsettledAreOpen(db, account, ids[1..]);
    }
  }

  /** Where the commands begin: the abandoned Mint is listed, and no other unresolved Mint of the account exists. */
  lemma SweepBegins(w: World, op: Snapshot, goal: Goal)
    requires Solo(w) && Abandoned(w, op) && 0 in w.procs
    requires w.procs[0] == Sweep(op.row.account, Unsettled(w.db, op.row.account, w.db.order), goal)
    ensures OnTheWay(w, op, goal)
  {
    hide Solo, Sound, Unsettled, CertificateExpired, CanStartMint, Lists, Rest;
    SoloIsListed(w);
    UnsettledLists(w.db, op.row.account, w.db.order, op.id);
    OnlyOpenMint(w.db, op);
  }

  lemma Launched(w: World, op: Snapshot, command: Command)
    requires Solo(w) && 0 !in w.procs && Abandoned(w, op)
    requires command.ShowStatus? || (command.MineOnce? && op.row.account !in w.db.stops)
    ensures Sound(w.db)
    ensures OnTheWay(React(w, Launch(0, op.row.account, command)), op, if command.ShowStatus? then StatusOnly else Once(command.confirmed))
  {
    hide Solo, Sound, Unsettled, CertificateExpired, UnsentMint, Unresolved;
    SoloIsListed(w);
    SoloReact(w, Launch(0, op.row.account, command));
    SweepBegins(React(w, Launch(0, op.row.account, command)), op, if command.ShowStatus? then StatusOnly else Once(command.confirmed));
  }

  lemma OnlyOpenMint(db: Db, op: Snapshot)
    requires Sound(db) && op.id in db.rows && db.rows[op.id] == op.row && ActiveMint(op.row)
    ensures Rest(Unsettled(db, op.row.account, db.order), op)
    ensures !CanStartMint(db, op.row.account)
  {
    var todo := Unsettled(db, op.row.account, db.order);
    UnsettledAreOpen(db, op.row.account, db.order);
    forall i | 0 <= i < |todo| ensures todo[i] == op || (todo[i].id != op.id && !todo[i].row.kind.Mint?) {
      if todo[i].id != op.id {
        assert Apart(op.row, todo[i].row);
      }
    }
  }

  /** Calls that answer, while the chain does not consume the receipt. */
  ghost predicate Undisturbed(answers: World -> Reply, around: nat -> seq<Input>, op: Snapshot) {
    && (forall v: World :: !answers(v).throws)
    && (forall j, i :: 0 <= i < |around(j)| ==> Uneventful(around(j)[i], op))
  }

  /**
   * Main result: from any reached state without a live process, one status command whose awaited calls
   * answer, while the chain does not consume the receipt, releases the abandoned Mint and ends with the
   * wallet free for the next one.
   */
  lemma ExpiredUnsentMintUnblocks(w: World, answers: World -> Reply, around: nat -> seq<Input>, id: OperationId)
    returns (count: nat)
    requires Reached(w) && 0 !in w.procs && id in w.db.rows && Abandoned(w, Snapshot(id, w.db.rows[id]))
    requires Undisturbed(answers, around, Snapshot(id, w.db.rows[id]))
    ensures Sound(w.db)
    ensures var account := w.db.rows[id].account;
      var after := Steps(React(w, Launch(0, account, ShowStatus)), answers, around, 0, count);
      && 0 !in after.procs && CanStartMint(after.db, account)
      && id in after.db.rows && after.db.rows[id].state == FailedRetryable
  {
    hide Reached, Solo, Abandoned, Uneventful, Steps, React, OnTheWay;
    ReachedIsSolo(w);
    var op := Snapshot(id, w.db.rows[id]);
    Launched(w, op, ShowStatus);
    count := WayEnds(React(w, Launch(0, op.row.account, ShowStatus)), answers, around, 0, op, StatusOnly);
  }

  /** So does mine once, and if confirmed it goes on to the preflight of a new Mint. */
  lemma MineOnceUnblocks(w: World, answers: World -> Reply, around: nat -> seq<Input>, id: OperationId, confirmed: bool)
    returns (count: nat)
    requires Reached(w) && 0 !in w.procs && id in w.db.rows && Abandoned(w, Snapshot(id, w.db.rows[id]))
    requires w.db.rows[id].account !in w.db.stops
    requires Undisturbed(answers, around, Snapshot(id, w.db.rows[id]))
    ensures Sound(w.db)
    ensures var account := w.db.rows[id].account;
      var after := Steps(React(w, Launch(0, account, MineOnce(confirmed))), answers, around, 0, count);
      && CanStartMint(after.db, account) && id in after.db.rows && after.db.rows[id].state == FailedRetryable
      && (if confirmed then 0 in after.procs && after.procs[0] == MinePreflight(account, Once(true)) else 0 !in after.procs)
  {
    hide Reached, Solo, Abandoned, Uneventful, Steps, React, OnTheWay;
    ReachedIsSolo(w);
    var op := Snapshot(id, w.db.rows[id]);
    Launched(w, op, MineOnce(confirmed));
    count := WayEnds(React(w, Launch(0, op.row.account, MineOnce(confirmed))), answers, around, 0, op, Once(confirmed));
  }

  /** run's own test: not stopped, and confirmed and reserved Mints below the authorized number. */
  predicate LoopGoesOn(db: Db, account: Account)
    requires Listed(db)
  {
    && account !in db.stops && account in db.authorizations
    && Sum(db, ConfirmedMints, account) + Sum(db, ReservedMints, account) < db.authorizations[account].maxMints
  }

  /** A `run` about to make its first test, with the abandoned Mint still there. */
  ghost predicate AtHead(w: World, op: Snapshot, goal: Goal) {
    Solo(w) && Abandoned(w, op) && goal.Running? && 0 in w.procs && w.procs[0] == RunHead(op.row.account, goal)
  }

  lemma RunLaunched(w: World, op: Snapshot)
    requires Solo(w) && 0 !in w.procs && Abandoned(w, op)
    requires var account := op.row.account;
      account in w.db.authorizations && !w.db.authorizations[account].revoked && w.now < w.db.authorizations[account].expiresAt
    ensures Sound(w.db) && Listed(w.db)
    ensures AtHead(React(w, Launch(0, op.row.account, Run)), op, Running(0, Sum(w.db, ConfirmedMints, op.row.account)))
  {
    hide Solo, Sound, Sum, Listed, CertificateExpired, UnsentMint, Unresolved;
    SoloIsListed(w);
    SoloReact(w, Launch(0, op.row.account, Run));
  }

  lemma {:induction false} PlayKeepsHead(w: World, inputs: seq<Input>, op: Snapshot, goal: Goal)
    requires AtHead(w, op, goal) && forall i :: 0 <= i < |inputs| ==> Uneventful(inputs[i], op)
    ensures Sound(w.db) && AtHead(Play(w, inputs), op, goal) && Listed(Play(w, inputs).db)
    decreases |inputs|
  {
    hide Solo, Abandoned, Uneventful, React, Listed;
    SoloIsListed(w);
    if inputs != [] {
      UneventfulKeepsHead(w, inputs[0], op, goal);
      PlayKeepsHead(React(w, inputs[0]), inputs[1..], op, goal);
    }
  }

  lemma UneventfulKeepsHead(w: World, input: Input, op: Snapshot, goal: Goal)
    requires AtHead(w, op, goal) && Uneventful(input, op)
    ensures Sound(w.db) && AtHead(React(w, input), op, goal)
  {
    hide Solo, Sound, Administer, StepProcess, Unresolved, UnsentMint;
    SoloIsListed(w);
    SoloReact(w, input);
    SurroundingLeavesProcess(w, input, op.row.account);
  }

  lemma HeadStep(w: World, reply: Reply, op: Snapshot, goal: Goal)
    requires AtHead(w, op, goal) && !reply.throws
    ensures Sound(w.db) && Listed(w.db)
    ensures var after := StepProcess(w, 0, reply);
      && (LoopGoesOn(w.db, op.row.account) ==> OnTheWay(after, op, goal))
      && (!LoopGoesOn(w.db, op.row.account) ==> 0 !in after.procs && after.db == w.db)
  {
    hide Solo, Sound, Sum, Listed, Unsettled, CertificateExpired, UnsentMint, Unresolved, OnTheWay, StepProcess;
    SoloIsListed(w);
    ReadingStep(w, reply);
    SoloStep(w, reply);
    if LoopGoesOn(w.db, op.row.account) {
      SweepBegins(StepProcess(w, 0, reply), op, goal);
    }
  }

  lemma HeadEnds(w: World, answers: World -> Reply, around: nat -> seq<Input>, op: Snapshot, goal: Goal)
    returns (count: nat)
    requires AtHead(w, op, goal) && Undisturbed(answers, around, op)
    ensures Sound(w.db) && Listed(Play(w, around(0)).db)
    ensures var after := Steps(w, answers, around, 0, count);
      if LoopGoesOn(Play(w, around(0)).db, op.row.account) then Arrived(after, op, goal)
      else 0 !in after.procs && op.id in after.db.rows && after.db.rows[op.id] == op.row
  {
    hide Solo, Uneventful, Steps, Play, StepProcess, OnTheWay, Arrived, LoopGoesOn, Listed, UnsentMint, Unresolved, CertificateExpired;
    PlayKeepsHead(w, around(0), op, goal);
    var met := Play(w, around(0));
    var after := StepProcess(met, 0, answers(met));
    SoloIsListed(w);
    HeadStep(met, answers(met), op, goal);
    var rest := 0;
    if LoopGoesOn(met.db, op.row.account) {
      rest := WayEnds(after, answers, around, 1, op, goal);
    } else {
      NoStep(after, answers, around, 1);
    }
    count := rest + 1;
    StepsOn(w, answers, around, 0, rest);
  }

  /**
   * A run goes on past the abandoned Mint to a new one if and only if it passes its own first test, in which
   * the abandoned Mint still counts as reserved: on the last authorized place it ends and changes nothing.
   */
  lemma RunUnblocksIff(w: World, answers: World -> Reply, around: nat -> seq<Input>, id: OperationId)
    returns (count: nat)
    requires Reached(w) && 0 !in w.procs && id in w.db.rows && Abandoned(w, Snapshot(id, w.db.rows[id]))
    requires var account := w.db.rows[id].account;
      account in w.db.authorizations && !w.db.authorizations[account].revoked && w.now < w.db.authorizations[account].expiresAt
    requires Undisturbed(answers, around, Snapshot(id, w.db.rows[id]))
    ensures Sound(w.db) && Listed(w.db)
    ensures var account := w.db.rows[id].account;
      var launched := React(w, Launch(0, account, Run));
      var after := Steps(launched, answers, around, 0, count);
      && Listed(Play(launched, around(0)).db)
      && if LoopGoesOn(Play(launched, around(0)).db, account) then
           && CanStartMint(after.db, account) && id in after.db.rows && after.db.rows[id].state == FailedRetryable
           && 0 in after.procs && after.procs[0] == MinePreflight(account, Running(0, Sum(w.db, ConfirmedMints, account)))
         else
           0 !in after.procs && id in after.db.rows && after.db.rows[id] == w.db.rows[id]
  {
    hide Solo, Steps, React, Play, OnTheWay, LoopGoesOn, Sum, Listed, Undisturbed, UnsentMint, Unresolved, CertificateExpired, CanStartMint;
    hide Reached;
    ReachedIsSolo(w);
    var op := Snapshot(id, w.db.rows[id]);
    RunLaunched(w, op);
    count := HeadEnds(React(w, Launch(0, op.row.account, Run)), answers, around, op, Running(0, Sum(w.db, ConfirmedMints, op.row.account)));
  }
}
