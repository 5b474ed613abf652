/** The native worker's command loop and its search thread: one active job, one terminal message per started job. */
module NativeJobs {
  import opened Options
  import opened WorkBytes
  import opened NativeSearch
  import opened NativeCoverage
  import opened NativeExhaustion
  import opened NativeProgress

  /** The output lines that matter here, in order; serial counts the jobs of this process. */
  datatype Message = Started(serial: nat, job: Job) | Terminal(serial: nat, verdict: Verdict) | CancelRequested | Refused

  /** Where the command thread is inside `search`. */
  datatype Phase = Ready | Joined(job: Job) | Checked(job: Job) | Installed(job: Job)

  /** searchThread: absent, searching, past its terminal message, or finished but still joinable. */
  datatype Thread = NoThread | Searching(serial: nat, job: Job, state: State) | Reported(serial: nat) | Over(serial: nat)

  datatype Worker = Worker(
    phase: Phase, active: Option<nat>, thread: Thread, next: nat, log: seq<Message>,
    aborted: bool)      // std::terminate

  datatype Input =
    | SearchCommand(job: Job)
    | Advance
    | CancelCommand
    | ThreadMove(thread: nat, expired: bool, throws: bool)
    | ReportVerdict
    | ResetActive

  const FRESH: Worker := Worker(Ready, None, NoThread, 0, [], false)

  function Say(w: Worker, message: Message): Worker {
    w.(log := w.log + [message])
  }

  function React(w: Worker, input: Input): Worker {
    if w.aborted then w
    else match input
      case SearchCommand(job) =>
        if !w.phase.Ready? then w
        // joinCompletedSearch
        else w.(phase := Joined(job), thread := if w.active.None? then NoThread else w.thread)
      case Advance =>
        (match w.phase
         case Ready => w
         case Joined(job) =>
           if w.active.Some? || !Accepted(job) then Say(w, Refused).(phase := Ready) else w.(phase := Checked(job))
         case Checked(job) => w.(phase := Installed(job), active := Some(w.next))
         case Installed(job) =>
           var started := Say(w, Started(w.next, job));
           // Assigning over a joinable std::thread terminates the process.
           if w.thread != NoThread then started.(aborted := true)
           else started.(phase := Ready, thread := Searching(w.next, job, Initial(job)), next := w.next + 1))
      case CancelCommand =>
        if !w.phase.Ready? then w
        else if w.active.None? then Say(w, Refused)
        else if w.thread.Searching?
        then Say(w, CancelRequested).(thread := w.thread.(state := Step(w.thread.job, w.thread.state, CancelJob)))
        else Say(w, CancelRequested)
      case ThreadMove(t, expired, throws) =>
        if w.thread.Searching? then w.(thread := w.thread.(state := Step(w.thread.job, w.thread.state, Move(t, expired, throws)))) else w
      case ReportVerdict =>
        if w.thread.Searching? && w.thread.state.done == w.thread.job.threads
        then Say(w, Terminal(w.thread.serial, Report(w.thread.state))).(thread := Reported(w.thread.serial))
        else w
      case ResetActive =>
        if w.thread.Reported?
        then w.(
          thread := Over(w.thread.serial), active := if w.active == Some(w.thread.serial) then None else w.active)
        else w
  }

  function Play(w: Worker, inputs: seq<Input>): Worker
    decreases |inputs|
  {
    if inputs == [] then w else Play(React(w, inputs[0]), inputs[1..])
  }

  predicate AboutJob(message: Message) {
    message.Started? || message.Terminal?
  }

  function Jobs(log: seq<Message>): seq<Message> {
    if log == [] then []
    else if AboutJob(log[|log| - 1]) then Jobs(log[..|log| - 1]) + [log[|log| - 1]]
    else Jobs(log[..|log| - 1])
  }

  /** The verdict of some complete interleaving of that job's threads. */
  ghost predicate IsVerdict(job: Job, verdict: Verdict) {
    exists s :: Ended(job, s) && verdict == Report(s)
  }

  /** Started 0, its terminal message, started 1, its terminal message, and so on. */
  ghost predicate Alternates(jobs: seq<Message>) {
    && (forall k :: 0 <= k < |jobs| && k % 2 == 0 ==> jobs[k].Started? && jobs[k].serial == k / 2)
    && (forall k :: 0 <= k < |jobs| && k % 2 == 1 ==>
          jobs[k].Terminal? && jobs[k].serial == k / 2 && jobs[k - 1].Started? && IsVerdict(jobs[k - 1].job, jobs[k].verdict))
  }

  ghost predicate Reached(job: Job, s: State) {
    Accepted(job) && exists events :: s == Run(job, Initial(job), events)
  }

  ghost predicate ThreadOk(w: Worker) {
    match w.thread
    case Searching(serial, job, s) =>
      && w.next == serial + 1 && w.active == Some(serial) && Reached(job, s)
      && |Jobs(w.log)| == 2 * serial + 1 && Jobs(w.log)[2 * serial] == Started(serial, job)
    case Reported(serial) => w.next == serial + 1 && w.active == Some(serial) && |Jobs(w.log)| == 2 * w.next
    case _ => |Jobs(w.log)| == 2 * w.next
  }

  predicate Quiet(thread: Thread) {
    thread.NoThread? || thread.Over?
  }

  predicate PhaseOk(w: Worker) {
    match w.phase
    case Ready => w.active.None? <==> Quiet(w.thread)
    case Joined(job) => w.active.None? <==> Quiet(w.thread)
    case Checked(job) => Accepted(job) && w.active.None? && Quiet(w.thread)
    case Installed(job) => Accepted(job) && w.active == Some(w.next) && Quiet(w.thread)
  }

  ghost predicate Inv(w: Worker) {
    Alternates(Jobs(w.log)) && (!w.aborted ==> ThreadOk(w) && PhaseOk(w))
  }

  lemma JobsSay(log: seq<Message>, message: Message)
    ensures Jobs(log + [message]) == if AboutJob(message) then Jobs(log) + [message] else Jobs(log)
  {
    assert (log + [message])[..|log|] == log;
  }

  lemma RunSnoc(job: Job, s: State, events: seq<Event>, event: Event)
    ensures Run(job, s, events + [event]) == Step(job, Run(job, s, events), event)
  {
    RunAppend(job, s, events, [event]);
    assert [event][1..] == [];
    assert Run(job, Run(job, s, events), [event]) == Run(job, Step(job, Run(job, s, events), event), []);
  }

  lemma StepReached(job: Job, s: State, event: Event)
    requires Reached(job, s)
    ensures Reached(job, Step(job, s, event))
  {
    var events :| s == Run(job, Initial(job), events);
    RunSnoc(job, Initial(job), events, event);
    assert Step(job, s, event) == Run(job, Initial(job), events + [event]);
  }

  lemma ReactKeepsInv(w: Worker, input: Input)
    requires Inv(w)
    ensures Inv(React(w, input))
  {
    hide Jobs, Run, Step, Initial, Report, Reached, IsVerdict;
    if !w.aborted {
      match input
      case Advance => AdvanceKeepsInv(w);
      case CancelCommand =>
        JobsSay(w.log, CancelRequested);
        JobsSay(w.log, Refused);
        if w.thread.Searching? {
          StepReached(w.thread.job, w.thread.state, CancelJob);
        }
      case ThreadMove(t, expired, throws) =>
        if w.thread.Searching? {
          StepReached(w.thread.job, w.thread.state, Move(t, expired, throws));
        }
      case ReportVerdict =>
        if w.thread.Searching? && w.thread.state.done == w.thread.job.threads {
          JobsSay(w.log, Terminal(w.thread.serial, Report(w.thread.state)));
          VerdictOfEnded(w.thread.job, w.thread.state);
        }
      case _ =>
    }
  }

  lemma VerdictOfEnded(job: Job, s: State)
    requires Reached(job, s) && s.done == job.threads
    ensures IsVerdict(job, Report(s))
  {
    assert Ended(job, s);
  }

  lemma AdvanceKeepsInv(w: Worker)
    requires Inv(w) && !w.aborted
    ensures Inv(React(w, Advance))
  {
    hide Jobs, Step, Report, IsVerdict;
    match w.phase
    case Joined(job) => JobsSay(w.log, Refused);
    case Installed(job) =>
      JobsSay(w.log, Started(w.next, job));
      assert Run(job, Initial(job), []) == Initial(job);
    case _ =>
  }

  lemma {:induction false} PlayKeepsInv(w: Worker, inputs: seq<Input>)
    requires Inv(w)
    ensures Inv(Play(w, inputs))
    decreases |inputs|
  {
    if inputs != [] {
      ReactKeepsInv(w, inputs[0]);
      PlayKeepsInv(React(w, inputs[0]), inputs[1..]);
    }
  }

  lemma FreshInv(inputs: seq<Input>)
    ensures Inv(Play(FRESH, inputs))
  {
    PlayKeepsInv(FRESH, inputs);
  }

  /**
   * Main result: whatever the interleaving, every job gets exactly one terminal message, before the
   * next job starts, and a job is under way exactly while its own terminal message is missing.
   */
  lemma OneTerminalPerJob(inputs: seq<Input>)
    ensures var w := Play(FRESH, inputs);
      && Alternates(Jobs(w.log))
      && (!w.aborted ==> |Jobs(w.log)| == if w.thread.Searching? then 2 * w.next - 1 else 2 * w.next)
      && (!w.aborted && w.thread.Searching? ==> w.active == Some(w.next - 1) && w.thread.serial == w.next - 1)
  {
    hide Alternates, Jobs, Play;
    FreshInv(inputs);
  }

  /** Every solution line ever written is sound for the job it belongs to. */
  lemma EverySolutionIsSound(inputs: seq<Input>, k: nat)
    requires var jobs := Jobs(Play(FRESH, inputs).log); k < |jobs| && jobs[k].Terminal? && jobs[k].verdict.Solution?
    ensures var jobs := Jobs(Play(FRESH, inputs).log);
      && k > 0 && jobs[k - 1].Started? && jobs[k - 1].serial == jobs[k].serial
      && var job, verdict := jobs[k - 1].job, jobs[k].verdict;
        && job.startNonce <= verdict.nonce < job.startNonce + Limit(job) && verdict.nonce <= UINT64_MAX
        && verdict.hash == job.work.randomX(RandomXInput(job.work.challenge, verdict.nonce))
        && BigEndian(verdict.hash) <= job.work.target
  {
    hide Jobs, Play, Report, Ended, Limit, BigEndian, RandomXInput;
    FreshInv(inputs);
    var jobs := Jobs(Play(FRESH, inputs).log);
    assert k % 2 == 1;
    var job := jobs[k - 1].job;
    var s :| Ended(job, s) && jobs[k].verdict == Report(s);
    var w := SolutionIsSound(job, s);
  }

  ghost predicate HasTerminal(log: seq<Message>, serial: nat) {
    exists k :: 0 <= k < |log| && log[k].Terminal? && log[k].serial == serial
  }

  lemma LogGrows(w: Worker, input: Input)
    ensures |w.log| <= |React(w, input).log| && React(w, input).log[..|w.log|] == w.log
  {
    hide Step, Report, Initial;
  }

  lemma {:induction false} TerminalStays(w: Worker, inputs: seq<Input>, serial: nat)
    requires HasTerminal(w.log, serial)
    ensures HasTerminal(Play(w, inputs).log, serial)
    decreases |inputs|
  {
    hide React;
    if inputs != [] {
      var next := React(w, inputs[0]);
      LogGrows(w, inputs[0]);
      var k :| 0 <= k < |w.log| && w.log[k].Terminal? && w.log[k].serial == serial;
      assert next.log[k] == next.log[..|w.log|][k];
      TerminalStays(next, inputs[1..], serial);
    }
  }

  function MovesIn(inputs: seq<Input>, t: nat): nat {
    if inputs == [] then 0
    else (if inputs[0].ThreadMove? && inputs[0].thread == t then 1 else 0) + MovesIn(inputs[1..], t)
  }

  /** Each of the job's threads moves at least this often. */
  ghost predicate EachMoves(inputs: seq<Input>, threads: nat, bound: nat) {
    forall t: nat :: t < threads ==> MovesIn(inputs, t) >= bound
  }

  /** What one event does to the search thread while it is searching. */
  lemma SearchingReacts(w: Worker, input: Input) returns (events: seq<Event>)
    requires Inv(w) && !w.aborted && w.thread.Searching?
    ensures var after := React(w, input); var search := w.thread;
      || HasTerminal(after.log, search.serial)
      || (!after.aborted && after.thread == search.(state := Run(search.job, search.state, events))
          && forall t: nat :: MovesOf(events, t) >= MovesIn([input], t))
  {
    hide Step, Report, Initial, Jobs, Alternates, Reached;
    var search := w.thread;
    events := [];
    if input.ThreadMove? {
      var move := Move(input.thread, input.expired, input.throws);
      events := [move];
      assert [move][1..] == [] && [input][1..] == [];
      assert Run(search.job, search.state, events) == Run(search.job, Step(search.job, search.state, move), []);
    } else if input.CancelCommand? && w.phase.Ready? && w.active.Some? {
      events := [CancelJob];
      assert [CancelJob][1..] == [] && [input][1..] == [];
      assert Run(search.job, search.state, events) == Run(search.job, Step(search.job, search.state, CancelJob), []);
    } else {
      assert [input][1..] == [];
      if input.ReportVerdict? && search.state.done == search.job.threads {
        var after := React(w, input);
        assert after.log[|w.log|] == Terminal(search.serial, Report(search.state));
      }
    }
  }

  lemma {:induction false} MovesOfSum(a: seq<Event>, b: seq<Event>, t: nat)
    ensures MovesOf(a + b, t) == MovesOf(a, t) + MovesOf(b, t)
  {
    if a == [] {
      assert a + b == b;
    } else {
      assert (a + b)[1..] == a[1..] + b;
      MovesOfSum(a[1..], b, t);
    }
  }

  lemma MovesInFirst(inputs: seq<Input>, t: nat)
    requires inputs != []
    ensures MovesIn(inputs, t) == MovesIn([inputs[0]], t) + MovesIn(inputs[1..], t)
  {
    assert [inputs[0]][1..] == [];
  }

  /** Whatever else happens, the search thread has made the moves it was given, unless its verdict is already out. */
  lemma {:induction false} Follow(w: Worker, inputs: seq<Input>) returns (events: seq<Event>)
    requires Inv(w) && !w.aborted && w.thread.Searching?
    ensures var after := Play(w, inputs); var search := w.thread;
      || HasTerminal(after.log, search.serial)
      || (Inv(after) && !after.aborted && after.thread == search.(state := Run(search.job, search.state, events))
          && forall t: nat :: MovesOf(events, t) >= MovesIn(inputs, t))
    decreases |inputs|
  {
    hide Inv, React, HasTerminal, MovesOf, MovesIn;
    if inputs == [] {
      events := [];
      forall t: nat ensures MovesOf(events, t) >= MovesIn(inputs, t) {
        NoMoves(t);
      }
      assert Run(w.thread.job, w.thread.state, events) == w.thread.state;
    } else {
      var next := React(w, inputs[0]);
      var first := SearchingReacts(w, inputs[0]);
      ReactKeepsInv(w, inputs[0]);
      if HasTerminal(next.log, w.thread.serial) {
        TerminalStays(next, inputs[1..], w.thread.serial);
        events := first;
      } else {
        var rest := Follow(next, inputs[1..]);
        events := first + rest;
        assert Play(w, inputs) == Play(next, inputs[1..]);
        RunAppend(w.thread.job, w.thread.state, first, rest);
        if !HasTerminal(Play(w, inputs).log, w.thread.serial) {
          forall t: nat ensures MovesOf(events, t) >= MovesIn(inputs, t) {
            MovesOfSum(first, rest, t);
            MovesInFirst(inputs, t);
          }
        }
      }
    }
  }

  lemma NoMoves(t: nat)
    ensures MovesOf([], t) == 0 && MovesIn([], t) == 0
  {
  }

  /**
   * Main result: once started, a search whose ordinals leave the range, as when none can wrap, comes to its
   * terminal message: there is a bound such that, in any further run in which every thread moves that often,
   * the message is written by the time the search thread next looks.
   */
  lemma TerminalComes(inputs: seq<Input>) returns (bound: nat)
    requires var w := Play(FRESH, inputs);
      !w.aborted && w.thread.Searching? && Accepted(w.thread.job) && SPACE - Limit(w.thread.job) >= Spacing(w.thread.job)
    ensures var w := Play(FRESH, inputs);
      forall more :: EachMoves(more, w.thread.job.threads, bound) ==>
        HasTerminal(React(Play(w, more), ReportVerdict).log, w.thread.serial)
  {
    hide Play, Inv, EachMoves, HasTerminal, React, Limit, Spacing;
    var w := Play(FRESH, inputs);
    FreshInv(inputs);
    bound := ThreadsEnd(w.thread.job);
    forall more | EachMoves(more, w.thread.job.threads, bound)
      ensures HasTerminal(React(Play(w, more), ReportVerdict).log, w.thread.serial)
    {
      VerdictIsOut(w, more, bound);
    }
  }

  lemma VerdictIsOut(w: Worker, more: seq<Input>, bound: nat)
    requires Inv(w) && !w.aborted && w.thread.Searching?
    requires EachMoves(more, w.thread.job.threads, bound)
    requires forall s, events :: NativeSearch.Inv(w.thread.job, s) && Fair(w.thread.job, events, bound) ==>
      Run(w.thread.job, s, events).done == w.thread.job.threads
    ensures HasTerminal(React(Play(w, more), ReportVerdict).log, w.thread.serial)
  {
    hide Play, Inv, MovesIn, MovesOf, Jobs, Report, NativeSearch.Inv, Run, HasTerminal, React;
    var events := Follow(w, more);
    var after := Play(w, more);
    if HasTerminal(after.log, w.thread.serial) {
      TerminalStaysOnce(after, w.thread.serial);
    } else {
      SearchIsInv(w);
      forall t | 0 <= t < w.thread.job.threads ensures MovesOf(events, t) >= bound {
        assert MovesOf(events, t) >= MovesIn(more, t);
      }
      assert Fair(w.thread.job, events, bound);
      Speaks(after);
    }
  }

  lemma TerminalStaysOnce(w: Worker, serial: nat)
    requires HasTerminal(w.log, serial)
    ensures HasTerminal(React(w, ReportVerdict).log, serial)
  {
    hide React;
    LogGrows(w, ReportVerdict);
    var k :| 0 <= k < |w.log| && w.log[k].Terminal? && w.log[k].serial == serial;
    assert React(w, ReportVerdict).log[k] == React(w, ReportVerdict).log[..|w.log|][k];
  }

  lemma SearchIsInv(w: Worker)
    requires Inv(w) && !w.aborted && w.thread.Searching?
    ensures NativeSearch.Inv(w.thread.job, w.thread.state)
  {
    hide Jobs, Alternates, NativeSearch.Inv, Run, Initial;
    var job := w.thread.job;
    var events :| w.thread.state == Run(job, Initial(job), events);
    InitialInv(job);
    RunKeepsInv(job, Initial(job), events);
  }

  lemma Speaks(w: Worker)
    requires !w.aborted && w.thread.Searching? && w.thread.state.done == w.thread.job.threads
    ensures HasTerminal(React(w, ReportVerdict).log, w.thread.serial)
  {
    hide Report;
    var after := React(w, ReportVerdict);
    assert after.log[|w.log|] == Terminal(w.thread.serial, Report(w.thread.state));
  }

  ghost predicate NoSearch(inputs: seq<Input>) {
    forall i :: 0 <= i < |inputs| ==> !inputs[i].SearchCommand?
  }

  /** Until its search command is done, the worker has a thread to trip over exactly if a job was active when it began. */
  predicate Since(busy: bool, w: Worker) {
    !w.aborted && !w.phase.Ready? ==> (w.thread.NoThread? <==> !busy)
  }

  lemma ReactKeepsSince(busy: bool, w: Worker, input: Input)
    requires Since(busy, w) && !input.SearchCommand? && (w.aborted ==> busy)
    ensures Since(busy, React(w, input)) && (React(w, input).aborted ==> busy)
  {
    hide Step, Report, Initial;
  }

  lemma {:induction false} PlayKeepsSince(busy: bool, w: Worker, inputs: seq<Input>)
    requires Since(busy, w) && NoSearch(inputs) && (w.aborted ==> busy)
    ensures Since(busy, Play(w, inputs)) && (Play(w, inputs).aborted ==> busy)
    decreases |inputs|
  {
    hide Since, React;
    if inputs != [] {
      ReactKeepsSince(busy, w, inputs[0]);
      PlayKeepsSince(busy, React(w, inputs[0]), inputs[1..]);
    }
  }

  /** Where a search command stands at its first step: a thread is left exactly if a job is active. */
  lemma SearchBegins(w: Worker, job: Job)
    requires Inv(w) && !w.aborted && w.phase.Ready?
    ensures var begun := React(w, SearchCommand(job)); Since(w.active.Some?, begun) && !begun.aborted
  {
    hide Jobs, Alternates, Reached;
  }

  /**
   * Main result: whether starting a search kills the process is settled by what `status` reports when the
   * command is sent. If the command gets as far as starting its thread, that aborts if and only if a job
   * was active at the time of sending; otherwise the earlier thread has been joined.
   */
  lemma LaunchAbortsIff(inputs: seq<Input>, job: Job, more: seq<Input>)
    requires var w := Play(FRESH, inputs); !w.aborted && w.phase.Ready?
    requires NoSearch(more)
    requires var w := Play(React(Play(FRESH, inputs), SearchCommand(job)), more); !w.aborted && w.phase.Installed?
    ensures var w := Play(React(Play(FRESH, inputs), SearchCommand(job)), more);
      React(w, Advance).aborted <==> Play(FRESH, inputs).active.Some?
  {
    hide Play, Inv, NoSearch;
    FreshInv(inputs);
    var w := Play(FRESH, inputs);
    SearchBegins(w, job);
    PlayKeepsSince(w.active.Some?, React(w, SearchCommand(job)), more);
  }

  /** A search sent while no job is active never aborts, however the rest of the run goes until the next search. */
  lemma IdleSearchIsSafe(inputs: seq<Input>, job: Job, more: seq<Input>)
    requires var w := Play(FRESH, inputs); !w.aborted && w.phase.Ready? && w.active.None?
    requires NoSearch(more)
    ensures !Play(React(Play(FRESH, inputs), SearchCommand(job)), more).aborted
  {
    hide Play, Inv, NoSearch, React, Since;
    FreshInv(inputs);
    var w := Play(FRESH, inputs);
    SearchBegins(w, job);
    PlayKeepsSince(false, React(w, SearchCommand(job)), more);
  }

  /** Conversely, whenever a job has reported but is still active, some continuation of the next search aborts. */
  lemma BusySearchCanAbort(inputs: seq<Input>, job: Job)
    requires var w := Play(FRESH, inputs); !w.aborted && w.phase.Ready? && w.thread.Reported?
    requires Accepted(job)
    ensures Play(Play(FRESH, inputs), [SearchCommand(job), ResetActive, Advance, Advance, Advance]).aborted
  {
    FreshInv(inputs);
    var w0 := Play(FRESH, inputs);
    FourSteps(w0, job);
  }

  lemma FourSteps(w0: Worker, job: Job)
    requires Inv(w0) && !w0.aborted && w0.phase.Ready? && w0.thread.Reported? && Accepted(job)
    ensures Play(w0, [SearchCommand(job), ResetActive, Advance, Advance, Advance]).aborted
  {
    hide Jobs, Alternates, Initial;
    var w1 := React(w0, SearchCommand(job));
    var w2 := React(w1, ResetActive);
    var w3 := React(w2, Advance);
    PlayFirst(w0, SearchCommand(job), [ResetActive, Advance, Advance, Advance]);
    PlayFirst(w1, ResetActive, [Advance, Advance, Advance]);
    PlayFirst(w2, Advance, [Advance, Advance]);
    PlayFirst(w3, Advance, [Advance]);
    PlayFirst(React(w3, Advance), Advance, []);
  }

  lemma PlayFirst(w: Worker, input: Input, rest: seq<Input>)
    ensures Play(w, [input] + rest) == Play(React(w, input), rest)
  {
    assert ([input] + rest)[0] == input && ([input] + rest)[1..] == rest;
  }

  lemma {:induction false} PlayAppend(w: Worker, first: seq<Input>, rest: seq<Input>)
    ensures Play(w, first + rest) == Play(Play(w, first), rest)
    decreases |first|
  {
    if first == [] {
      assert first + rest == rest;
    } else {
      assert (first + rest)[0] == first[0] && (first + rest)[1..] == first[1..] + rest;
      PlayAppend(React(w, first[0]), first[1..], rest);
    }
  }

  function Searched(job: Job, pc: Pc, error: bool, cancel: bool, done: nat): Worker {
    Worker(
      Ready, Some(0), Searching(0, job, Initial(job).(pcs := [pc], error := error, cancel := cancel, done := done)), 1,
      [Started(0, job)], false)
  }

  lemma FirstJobStarts(job: Job)
    requires Accepted(job) && job.threads == 1
    ensures Play(FRESH, [SearchCommand(job), Advance, Advance, Advance]) == Searched(job, Starting, false, false, 0)
  {
    assert Initial(job).pcs == [Starting];
    assert Play(FRESH, [SearchCommand(job), Advance, Advance, Advance])
      == Play(React(FRESH, SearchCommand(job)), [Advance, Advance, Advance]);
    var joined := React(FRESH, SearchCommand(job));
    PlayFirst(joined, Advance, [Advance, Advance]);
    PlayFirst(React(joined, Advance), Advance, [Advance]);
    PlayFirst(React(React(joined, Advance), Advance), Advance, []);
  }

  /** Its only thread fails to get a VM and ends. */
  lemma FirstJobEnds(job: Job)
    requires Accepted(job) && job.threads == 1
    ensures Play(
      Searched(job, Starting, false, false, 0),
      [ThreadMove(0, false, true), ThreadMove(0, false, false), ThreadMove(0, false, false), ThreadMove(0, false, false)])
      == Searched(job, Finished, true, true, 1)
  {
    assert |Initial(job).tried| == 1;
    var move := ThreadMove(0, false, false);
    PlayFirst(Searched(job, Starting, false, false, 0), ThreadMove(0, false, true), [move, move, move]);
    assert React(Searched(job, Starting, false, false, 0), ThreadMove(0, false, true)) == Searched(job, Failing, false, false, 0);
    PlayFirst(Searched(job, Failing, false, false, 0), move, [move, move]);
    assert React(Searched(job, Failing, false, false, 0), move) == Searched(job, Stopping, true, false, 0);
    PlayFirst(Searched(job, Stopping, true, false, 0), move, [move]);
    assert React(Searched(job, Stopping, true, false, 0), move) == Searched(job, Leaving, true, true, 0);
    PlayFirst(Searched(job, Leaving, true, true, 0), move, []);
    assert [Leaving][0 := Finished] == [Finished];
    assert React(Searched(job, Leaving, true, true, 0), move) == Searched(job, Finished, true, true, 1);
  }

  lemma LateCommandAborts(job: Job)
    requires Accepted(job) && job.threads == 1
    ensures Play(
      Searched(job, Finished, true, true, 1),
      [ReportVerdict, SearchCommand(job), ResetActive, Advance, Advance, Advance]).aborted
  {
    hide Report, Initial;
    var w0 := Searched(job, Finished, true, true, 1);
    var w1 := React(w0, ReportVerdict);
    var w2 := React(w1, SearchCommand(job));
    var w3 := React(w2, ResetActive);
    var w4 := React(w3, Advance);
    PlayFirst(w0, ReportVerdict, [SearchCommand(job), ResetActive, Advance, Advance, Advance]);
    PlayFirst(w1, SearchCommand(job), [ResetActive, Advance, Advance, Advance]);
    PlayFirst(w2, ResetActive, [Advance, Advance, Advance]);
    PlayFirst(w3, Advance, [Advance, Advance]);
    PlayFirst(w4, Advance, [Advance]);
    PlayFirst(React(w4, Advance), Advance, []);
  }

  /** Such a run exists, even for a client that sends its next search only after the terminal message of the one before. */
  lemma RaceIsPossible(job: Job) returns (inputs: seq<Input>)
    requires Accepted(job) && job.threads == 1
    ensures Play(FRESH, inputs).aborted
  {
    hide Play, React, Initial;
    var move := ThreadMove(0, false, false);
    var start := [SearchCommand(job), Advance, Advance, Advance];
    var fail := [ThreadMove(0, false, true), move, move, move];
    var late := [ReportVerdict, SearchCommand(job), ResetActive, Advance, Advance, Advance];
    inputs := start + (fail + late);
    PlayAppend(FRESH, start, fail + late);
    FirstJobStarts(job);
    PlayAppend(Searched(job, Starting, false, false, 0), fail, late);
    FirstJobEnds(job);
    LateCommandAborts(job);
  }
}
