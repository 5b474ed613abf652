/** Any number of processes, crashing at any point: a wallet is called at most once per operation. */
module AgentSubmissions {
  import opened Options
  import opened LedgerModel
  import opened LedgerRuns
  import opened Agent

  function Fresh(now: int): World {
    World(Db(map[], [], map[], {}), [], map[], now, {}, map[], {})
  }

  /** The request id is in the durable row. */
  ghost predicate Durable(db: Db, s: Submission) {
    s.id in db.rows && db.rows[s.id].request == Some(s.request)
  }

  /** A process about to call the wallet: its request is durable and nobody has submitted the operation. */
  ghost predicate MayCall(w: World, pc: Pc) {
    pc.SubmitCall? ==>
      && Durable(w.db, Submission(pc.id, pc.request))
      && forall k :: 0 <= k < |w.submissions| ==> w.submissions[k].id != pc.id
  }

  predicate SameCall(pc: Pc, other: Pc) {
    pc.SubmitCall? && other.SubmitCall? && pc.id == other.id
  }

  ghost predicate SubmissionsSafe(w: World) {
    && Sound(w.db)
    && (forall k :: 0 <= k < |w.submissions| ==> Durable(w.db, w.submissions[k]))
    && (forall j, k :: 0 <= j < k < |w.submissions| ==> w.submissions[j].id != w.submissions[k].id)
    && (forall pid :: pid in w.procs ==> MayCall(w, w.procs[pid]))
    && (forall p, q :: p in w.procs && q in w.procs && p != q ==> !SameCall(w.procs[p], w.procs[q]))
  }

  /** Only a returned attachSubmission leads to the wallet call. */
  lemma OnlyAttachLeadsToCall(w: World, pc: Pc, reply: Reply)
    requires Listed(w.db)
    ensures var next := Next(w, pc, reply);
      next.Some? && next.value.SubmitCall? ==> pc.SubmitAttach? && next.value.id == pc.id && next.value.request == pc.request
    ensures var failed := OnThrow(pc, reply); failed.Some? ==> !failed.value.SubmitCall?
  {
    hide Listed, BudgetRefusal, Sum, FirstResumable, Unsettled, IssuedId;
  }

  lemma DurableLater(before: Db, after: Db, s: Submission)
    requires Later(before, after) && Durable(before, s)
    ensures Durable(after, s)
  {
    assert LaterRow(before.rows[s.id], after.rows[s.id]);
  }

  /** Facts of w survive in any later database for the processes that did not move. */
  lemma OthersKeep(w: World, after: World)
    requires SubmissionsSafe(w) && Sound(after.db) && Later(w.db, after.db) && after.submissions == w.submissions
    ensures forall k :: 0 <= k < |after.submissions| ==> Durable(after.db, after.submissions[k])
    ensures forall pid :: pid in w.procs ==> MayCall(after, w.procs[pid])
  {
    forall k | 0 <= k < |after.submissions| ensures Durable(after.db, after.submissions[k]) {
      DurableLater(w.db, after.db, w.submissions[k]);
    }
    forall pid | pid in w.procs ensures MayCall(after, w.procs[pid]) {
      var pc := w.procs[pid];
      if pc.SubmitCall? {
        DurableLater(w.db, after.db, Submission(pc.id, pc.request));
      }
    }
  }

  /** A row that attachSubmission accepts carries no request id, so nobody has submitted or is about to submit it. */
  lemma AttachIsFirst(w: World, id: OperationId, request: RequestId, handle: Option<Handle>)
    requires SubmissionsSafe(w) && Attempt(w.db, Attach(id, request, handle)).Done?
    ensures forall k :: 0 <= k < |w.submissions| ==> w.submissions[k].id != id
    ensures forall pid :: pid in w.procs && w.procs[pid].SubmitCall? ==> w.procs[pid].id != id
    ensures Durable(Apply(w.db, Attach(id, request, handle)), Submission(id, request))
  {
    assert Unclaimed(w.db.rows[id]);
    forall k | 0 <= k < |w.submissions| ensures w.submissions[k].id != id {
      assert Durable(w.db, w.submissions[k]);
    }
    forall pid | pid in w.procs && w.procs[pid].SubmitCall? ensures w.procs[pid].id != id {
      assert MayCall(w, w.procs[pid]);
    }
  }

  /** A process moves without calling the wallet. */
  lemma MovedSafe(w: World, after: World, pid: ProcessId, next: Option<Pc>)
    requires SubmissionsSafe(w) && pid in w.procs
    requires Sound(after.db) && Later(w.db, after.db) && after.submissions == w.submissions
    requires after.procs == if next.Some? then w.procs[pid := next.value] else w.procs - {pid}
    requires next.Some? && next.value.SubmitCall? ==>
      MayCall(after, next.value) && forall q :: q in w.procs && w.procs[q].SubmitCall? ==> w.procs[q].id != next.value.id
    ensures SubmissionsSafe(after)
  {
    OthersKeep(w, after);
    forall p, q | p in after.procs && q in after.procs && p != q
      ensures !SameCall(after.procs[p], after.procs[q])
    {
      assert p == pid || after.procs[p] == w.procs[p];
      assert q == pid || after.procs[q] == w.procs[q];
    }
  }

  /** The wallet is called: the operation joins the list of submissions, and the process moves on. */
  lemma CallSafe(w: World, after: World, pid: ProcessId, next: Option<Pc>)
    requires SubmissionsSafe(w) && pid in w.procs && w.procs[pid].SubmitCall?
    requires after.db == w.db && after.submissions == w.submissions + [Submission(w.procs[pid].id, w.procs[pid].request)]
    requires after.procs == if next.Some? then w.procs[pid := next.value] else w.procs - {pid}
    requires next.Some? ==> !next.value.SubmitCall?
    ensures SubmissionsSafe(after)
  {
    var pc := w.procs[pid];
    assert MayCall(w, pc);
    forall q | q in after.procs ensures MayCall(after, after.procs[q]) {
      if q != pid {
        assert MayCall(w, w.procs[q]) && !SameCall(w.procs[q], pc);
      }
    }
    forall p, q | p in after.procs && q in after.procs && p != q
      ensures !SameCall(after.procs[p], after.procs[q])
    {
      assert p == pid || after.procs[p] == w.procs[p];
      assert q == pid || after.procs[q] == w.procs[q];
    }
  }

  /** What one step does to the parts this file talks about. */
  lemma StepShape(w: World, pid: ProcessId, reply: Reply) returns (next: Option<Pc>)
    requires Sound(w.db) && pid in w.procs
    ensures var pc, after := w.procs[pid], StepProcess(w, pid, reply);
      && after.procs == (if next.Some? then w.procs[pid := next.value] else w.procs - {pid})
      && after.submissions == (if pc.SubmitCall? then w.submissions + [Submission(pc.id, pc.request)] else w.submissions)
      && (pc.SubmitCall? ==> after.db == w.db)
      && (next.Some? && next.value.SubmitCall? ==>
            pc.SubmitAttach? && next.value.id == pc.id && next.value.request == pc.request
            && Attempt(w.db, Attach(pc.id, pc.request, pc.handle)).Done?
            && after.db == Apply(w.db, Attach(pc.id, pc.request, pc.handle)))
  {
    hide Attempt, Next, OnThrow, Decisive, Sound;
    var pc, after := w.procs[pid], StepProcess(w, pid, reply);
    next := if pid in after.procs then Some(after.procs[pid]) else None;
    StepCalls(w, pid, reply);
  }

  lemma StepCalls(w: World, pid: ProcessId, reply: Reply)
    requires Sound(w.db) && pid in w.procs
    ensures var pc, after := w.procs[pid], StepProcess(w, pid, reply);
      && (pid in after.procs && after.procs[pid].SubmitCall? ==>
            pc.SubmitAttach? && after.procs[pid].id == pc.id && after.procs[pid].request == pc.request
            && Attempt(w.db, Attach(pc.id, pc.request, pc.handle)).Done?
            && after.db == Apply(w.db, Attach(pc.id, pc.request, pc.handle)))
      && (pc.SubmitCall? ==> after.db == w.db)
  {
    hide Attempt, Next, OnThrow, Decisive, Sound;
    var pc := w.procs[pid];
    SoundIsListed(w.db);
    forall v: World | Listed(v.db)
      ensures var n := Next(v, pc, reply);
        n.Some? && n.value.SubmitCall? ==> pc.SubmitAttach? && n.value.id == pc.id && n.value.request == pc.request
    {
      OnlyAttachLeadsToCall(v, pc, reply);
    }
    OnlyAttachLeadsToCall(w, pc, reply);
    SoundIsListed(StepProcess(w, pid, reply).db);
  }

  lemma StepIsSafe(w: World, pid: ProcessId, reply: Reply)
    requires SubmissionsSafe(w) && pid in w.procs
    ensures SubmissionsSafe(StepProcess(w, pid, reply))
  {
    hide StepProcess, Attempt, Apply;
    var pc, after := w.procs[pid], StepProcess(w, pid, reply);
    var next := StepShape(w, pid, reply);
    if pc.SubmitCall? {
      CallSafe(w, after, pid, next);
    } else {
      if next.Some? && next.value.SubmitCall? {
        AttachIsFirst(w, pc.id, pc.request, pc.handle);
      }
      MovedSafe(w, after, pid, next);
    }
  }

  lemma LaunchIsSafe(w: World, pid: ProcessId, account: Account, command: Command)
    requires SubmissionsSafe(w) && pid !in w.procs
    ensures SubmissionsSafe(Start(w, pid, account, command))
  {
    hide Attempt, Apply, Sum, Unsettled, Listed, Durable, Sound;
    var after := Start(w, pid, account, command);
    OthersKeep(w, after);
    assert forall q :: q in after.procs && q != pid ==> q in w.procs && after.procs[q] == w.procs[q];
    assert pid in after.procs ==> !after.procs[pid].SubmitCall?;
  }

  lemma ReactIsSafe(w: World, input: Input)
    requires SubmissionsSafe(w)
    ensures SubmissionsSafe(React(w, input))
  {
    hide StepProcess, Start;
    match input
    case Launch(pid, account, command) =>
      if pid !in w.procs {
        LaunchIsSafe(w, pid, account, command);
      }
    case Step(pid, reply) =>
      if pid in w.procs {
        StepIsSafe(w, pid, reply);
      }
    case _ => OthersKeep(w, React(w, input));
  }

  /** Main result: in every run, submitCall happens at most once per operation, with its request id already durable. */
  lemma {:induction false} SubmittedAtMostOnce(w: World, inputs: seq<Input>)
    requires SubmissionsSafe(w)
    ensures SubmissionsSafe(Play(w, inputs))
    ensures var after := Play(w, inputs);
      && (forall j, k :: 0 <= j < k < |after.submissions| ==> after.submissions[j].id != after.submissions[k].id)
      && (forall k :: 0 <= k < |after.submissions| ==> Durable(after.db, after.submissions[k]))
    decreases |inputs|
  {
    if inputs != [] {
      ReactIsSafe(w, inputs[0]);
      SubmittedAtMostOnce(React(w, inputs[0]), inputs[1..]);
    }
  }

  lemma FreshIsSafe(now: int)
    ensures SubmissionsSafe(Fresh(now))
  {
    EmptyIsSound();
  }
}
