/** When an untimed native search can report `exhausted` at all: exactly when every thread's ordinals leave the range. */
module NativeExhaustion {
  import opened Powers
  import opened WorkBytes
  import opened WasmSearch
  import opened NativeSearch
  import opened NativeCoverage

  /** The exponent of the largest power of two dividing t. */
  function Twos(t: nat): nat
    requires t > 0
  {
    if t % 2 == 1 then 0 else 1 + Twos(t / 2)
  }

  function OddPart(t: nat): (m: nat)
    requires t > 0
    ensures m % 2 == 1
  {
    if t % 2 == 1 then t else OddPart(t / 2)
  }

  /** The largest power of two dividing the thread count: ordinals of one thread agree modulo this. */
  function Spacing(job: Job): nat
    requires job.threads > 0
  {
    Pow2(Twos(job.threads))
  }

  lemma {:induction false} Factored(t: nat)
    requires t > 0
    ensures t == Pow2(Twos(t)) * OddPart(t)
    ensures Pow2(Twos(t)) <= t
  {
    if t % 2 == 1 {
      assert Pow2(0) == 1;
    } else {
      Factored(t / 2);
      Double(Pow2(Twos(t / 2)), OddPart(t / 2));
    }
  }

  lemma Double(p: nat, m: nat)
    ensures 2 * p * m == 2 * (p * m)
  {
  }

  lemma {:induction false} TwosBound(t: nat, n: nat)
    requires 0 < t && t < Pow2(n)
    ensures Twos(t) < n
    decreases n
  {
    if t % 2 == 0 {
      TwosBound(t / 2, n - 1);
    }
  }

  /** 2^64 is a multiple of the spacing. */
  lemma SpaceIsMultiple(job: Job) returns (q: nat)
    requires Accepted(job)
    ensures Twos(job.threads) < 9
    ensures SPACE == Spacing(job) * q && q == Pow2(64 - Twos(job.threads))
  {
    hide Twos;
    var n: nat := 9;
    Pow2Of9(n);
    TwosBound(job.threads, n);
    Pow2Of64();
    var a, b := Twos(job.threads), 64 - Twos(job.threads);
    Pow2Add(a, b);
    q := Pow2(b);
  }

  lemma Pow2Of9(n: nat)
    requires n == 9
    ensures Pow2(n) == 512
  {
  }

  ghost predicate Divides(g: nat, x: int) {
    exists q: int :: IsProduct(x, g, q)
  }

  predicate IsProduct(x: int, g: nat, q: int) {
    x == g * q
  }

  lemma DividesSum(g: nat, x: int, y: int)
    requires Divides(g, x) && Divides(g, y)
    ensures Divides(g, x + y) && Divides(g, x - y)
  {
    var p: int :| IsProduct(x, g, p);
    var q: int :| IsProduct(y, g, q);
    assert IsProduct(x + y, g, p + q) by {
      Spread(g, p, q);
    }
    assert IsProduct(x - y, g, p - q) by {
      Spread(g, p, q);
    }
  }

  lemma Spread(g: nat, p: int, q: int)
    ensures g * (p + q) == g * p + g * q && g * (p - q) == g * p - g * q
  {
  }

  lemma SpacingDivides(job: Job)
    requires Accepted(job)
    ensures Divides(Spacing(job), job.threads) && Divides(Spacing(job), SPACE) && 0 < Spacing(job) <= job.threads
  {
    hide Twos;
    Factored(job.threads);
    assert IsProduct(job.threads, Spacing(job), OddPart(job.threads));
    var q := SpaceIsMultiple(job);
    assert IsProduct(SPACE, Spacing(job), q);
  }

  /** Thread 0 only ever sees multiples of the spacing, wrapping included. */
  lemma {:induction false} FirstThreadOrdinals(job: Job, k: nat)
    requires Accepted(job)
    ensures Divides(Spacing(job), Ordinal(job, 0, k)) && Ordinal(job, 0, k) < SPACE
  {
    hide Divides, Spacing;
    SpacingDivides(job);
    if k == 0 {
      ZeroDivides(Spacing(job));
    } else {
      FirstThreadOrdinals(job, k - 1);
      var o := Ordinal(job, 0, k - 1);
      DividesSum(Spacing(job), o, job.threads);
      DividesSum(Spacing(job), o + job.threads, SPACE);
    }
  }

  lemma ZeroDivides(g: nat)
    ensures Divides(g, 0)
  {
    assert IsProduct(0, g, 0);
  }

  /** A multiple of g below another multiple of g is at least g below it. */
  lemma MultiplesAreApart(g: nat, x: int, y: int)
    requires Divides(g, x) && Divides(g, y) && x < y
    ensures x + g <= y
  {
    var p: int :| IsProduct(x, g, p);
    var q: int :| IsProduct(y, g, q);
    if q <= p {
      Ordered(g, q, p);
    } else {
      Ordered(g, p + 1, q);
      Spread(g, p, 1);
    }
  }

  lemma Ordered(g: nat, p: int, q: int)
    requires p <= q
    ensures g * p <= g * q
  {
  }

  /** m times the result is d modulo 2^n, for any odd m. */
  lemma {:induction false} OddSolves(m: nat, d: nat, n: nat) returns (k: nat, e: int)
    requires m % 2 == 1
    ensures k * m == d + e * Pow2(n)
  {
    if n == 0 {
      var debt: int := d;
      k, e := 0, -debt;
      assert Pow2(0) == 1;
    } else {
      k, e := OddSolves(m, d, n - 1);
      var p := Pow2(n - 1);
      if e % 2 == 0 {
        Halved(e, p);
        e := e / 2;
      } else {
        Grown(k, m, d, e, p);
        Halved(e + m, p);
        k, e := k + p, (e + m) / 2;
      }
    }
  }

  lemma Halved(e: int, p: nat)
    requires e % 2 == 0
    ensures e * p == (e / 2) * (2 * p)
  {
    var h := e / 2;
    assert e == h * 2;
    assert (h * 2) * p == h * (2 * p);
  }

  lemma Grown(k: nat, m: nat, d: nat, e: int, p: nat)
    requires k * m == d + e * p
    ensures (k + p) * m == d + (e + m) * p
  {
  }

  lemma {:induction false} OrdinalIsModulo(job: Job, t: nat, k: nat)
    requires t < SPACE
    ensures Ordinal(job, t, k) == Straight(job, t, k) % SPACE
  {
    hide Straight, Bump;
    StraightStep(job, t, if k == 0 then 0 else k - 1);
    if k > 0 {
      OrdinalIsModulo(job, t, k - 1);
      BumpModulo(job, Straight(job, t, k - 1));
    }
  }

  lemma BumpModulo(job: Job, n: nat)
    ensures Bump(job, n % SPACE) == (n + job.threads) % SPACE
  {
    var q := n / SPACE;
    assert n == q * SPACE + n % SPACE;
    WholeTurnsAdded(n % SPACE + job.threads, q);
  }

  lemma WholeTurnsAdded(n: nat, q: nat)
    ensures (n + q * SPACE) % SPACE == n % SPACE
  {
  }

  lemma WholeTurns(v: nat, x: int)
    requires v < SPACE
    ensures (v + x * SPACE) % SPACE == v
  {
  }

  /** If the part of uint64 above the limit is as wide as the spacing, every thread's ordinal gets there. */
  lemma ReachesEnd(job: Job, t: nat) returns (k: nat)
    requires Accepted(job) && t < job.threads && SPACE - Limit(job) >= Spacing(job)
    ensures Ordinal(job, t, k) >= Limit(job)
  {
    hide Twos, Limit, Straight, Ordinal, OddPart, Pow2;
    SpacingDivides(job);
    Factored(job.threads);
    var g, m := Spacing(job), OddPart(job.threads);
    var q := SpaceIsMultiple(job);
    var v := SPACE - g + t % g;
    var d := SameResidue(t, g, q);
    var e: int;
    k, e := OddSolves(m, d, 64);
    Pow2Of64();
    Landing(job, t, k, g, m, d, e, v);
    OrdinalIsModulo(job, t, k);
  }

  /** From t to the last number below g * q with its residue is a multiple of g. */
  lemma SameResidue(t: nat, g: nat, q: nat) returns (d: nat)
    requires g > 0 && t < 256 <= g * q - g
    ensures g * q - g + t % g == t + g * d
  {
    var r := t / g;
    assert t == g * r + t % g;
    assert g * (q - 1 - r) == g * q - g - g * r;
    if q - 1 < r {
      Ordered(g, q - 1 - r, 0);
    }
    d := q - 1 - r;
  }

  lemma Landing(job: Job, t: nat, k: nat, g: nat, m: nat, d: nat, e: int, v: nat)
    requires job.threads == g * m && k * m == d + e * SPACE && v == t + g * d && v < SPACE
    ensures Straight(job, t, k) % SPACE == v
  {
    assert k * (g * m) == g * (k * m);
    assert g * (d + e * SPACE) == g * d + (g * e) * SPACE;
    WholeTurns(v, g * e);
  }

  /** No thread has found, failed or been told to stop, and thread t has got from s0 to pc. */
  ghost predicate At(s: State, s0: State, t: nat, pc: Pc) {
    && t < |s0.pcs| == |s0.tried| == |s.tried|
    && s.pcs == s0.pcs[t := pc] && s.done == s0.done
    && !s.found && !s.cancel && !s.error
  }

  /** No nonce in range is a solution. */
  ghost predicate Silent(job: Job) {
    forall n: nat :: job.startNonce <= n < job.startNonce + Limit(job) ==> !Wins(job.work, n)
  }

  function Turn(job: Job, s: State, t: nat): State {
    Step(job, s, Move(t, false, false))
  }

  lemma TestTurn(job: Job, s: State, s0: State, t: nat, pc: Pc)
    requires At(s, s0, t, pc) && !job.timed
    requires pc.Starting? || (BeforeHash(pc) && !pc.Computing?)
    ensures At(Turn(job, s, t), s0, t, AfterTest(job, s, t, pc, false))
  {
    assert s.pcs[t] == pc;
  }

  lemma HashTurn(job: Job, s: State, s0: State, t: nat, pc: Pc)
    requires At(s, s0, t, pc) && pc.Computing? && job.startNonce + pc.ordinal <= UINT64_MAX
    ensures At(Turn(job, s, t), s0, t, Counting(pc.ordinal, HashOf(job.work, job.startNonce + pc.ordinal)))
  {
    assert s.pcs[t] == pc;
  }

  lemma CountTurn(job: Job, s: State, s0: State, t: nat, pc: Pc)
    requires At(s, s0, t, pc) && pc.Counting?
    ensures At(Turn(job, s, t), s0, t, Comparing(pc.ordinal, pc.digest))
  {
    assert s.pcs[t] == pc;
  }

  lemma MissTurn(job: Job, s: State, s0: State, t: nat, pc: Pc)
    requires At(s, s0, t, pc) && pc.Comparing? && !IsHashAtOrBelowTarget(pc.digest, job.work.target)
    ensures At(Turn(job, s, t), s0, t, LoopTest(Bump(job, pc.ordinal)))
  {
    hide IsHashAtOrBelowTarget;
    assert s.pcs[t] == pc;
  }

  lemma LastTurn(job: Job, s: State, s0: State, t: nat)
    requires At(s, s0, t, Leaving)
    ensures var after := Turn(job, s, t);
      At(after.(done := s0.done), s0, t, Finished) && after.done == s0.done + 1
  {
    assert s.pcs[t] == Leaving;
  }

  function Turns(t: nat, n: nat): seq<Event> {
    seq(n, _ => Move(t, false, false))
  }

  lemma OneTurn(job: Job, s: State, t: nat, n: nat)
    requires n > 0
    ensures Run(job, s, Turns(t, n)) == Run(job, Turn(job, s, t), Turns(t, n - 1))
    ensures Run(job, s, Turns(t, 0)) == s
  {
    assert Turns(t, n)[0] == Move(t, false, false) && Turns(t, n)[1..] == Turns(t, n - 1);
  }

  /** From the loop condition to hashing an ordinal in range. */
  lemma ToHash(job: Job, s: State, s0: State, t: nat, o: nat)
    requires At(s, s0, t, LoopTest(o)) && !job.timed && o < Limit(job)
    ensures At(Run(job, s, Turns(t, 5)), s0, t, Computing(o))
  {
    hide At, Turn, Run;
    LimitIs(job, o);
    var s1 := Turn(job, s, t);
    TestTurn(job, s, s0, t, LoopTest(o));
    TestTurn(job, s1, s0, t, CancelTest(o)) by { Flags(s1, s0, t, CancelTest(o)); }
    var s2 := Turn(job, s1, t);
    Flags(s1, s0, t, CancelTest(o));
    TestTurn(job, s2, s0, t, FoundTest(o));
    Flags(s2, s0, t, FoundTest(o));
    var s3 := Turn(job, s2, t);
    TestTurn(job, s3, s0, t, ClockTest(o));
    var s4 := Turn(job, s3, t);
    TestTurn(job, s4, s0, t, RangeTest(o));
    OneTurn(job, s, t, 5);
    OneTurn(job, s1, t, 4);
    OneTurn(job, s2, t, 3);
    OneTurn(job, s3, t, 2);
    OneTurn(job, s4, t, 1);
    OneTurn(job, Turn(job, s4, t), t, 1);
  }

  lemma Flags(s: State, s0: State, t: nat, pc: Pc)
    requires At(s, s0, t, pc)
    ensures !s.found && !s.cancel && !s.error
  {
  }

  /** One round of the loop over a nonce that is no solution. */
  lemma Round(job: Job, s: State, s0: State, t: nat, o: nat)
    requires At(s, s0, t, LoopTest(o)) && !job.timed && o < Limit(job) && !Wins(job.work, job.startNonce + o)
    ensures At(Run(job, s, Turns(t, 8)), s0, t, LoopTest(Bump(job, o)))
  {
    hide At, Turn, Run, Bump, Turns, IsHashAtOrBelowTarget, RandomXInput;
    ToHash(job, s, s0, t, o);
    LimitIs(job, o);
    var s5 := Run(job, s, Turns(t, 5));
    HashTurn(job, s5, s0, t, Computing(o));
    var s6, digest := Turn(job, s5, t), HashOf(job.work, job.startNonce + o);
    CountTurn(job, s6, s0, t, Counting(o, digest));
    var s7 := Turn(job, s6, t);
    MissTurn(job, s7, s0, t, Comparing(o, digest));
    OneTurn(job, s5, t, 3);
    OneTurn(job, s6, t, 2);
    OneTurn(job, s7, t, 1);
    OneTurn(job, Turn(job, s7, t), t, 1);
    TurnsSplit(t);
    RunAppend(job, s, Turns(t, 5), Turns(t, 3));
  }

  lemma TurnsSplit(t: nat)
    ensures Turns(t, 8) == Turns(t, 5) + Turns(t, 3)
  {
  }

  /** An ordinal out of range, by either test, ends the thread. */
  lemma LeaveLoop(job: Job, s: State, s0: State, t: nat, o: nat) returns (events: seq<Event>)
    requires At(s, s0, t, LoopTest(o)) && !job.timed && o >= Limit(job)
    ensures var after := Run(job, s, events);
      At(after.(done := s0.done), s0, t, Finished) && after.done == s0.done + 1
  {
    hide At, Turn, Run;
    LimitIs(job, o);
    var s1 := Turn(job, s, t);
    TestTurn(job, s, s0, t, LoopTest(o));
    if o >= job.maxHashes {
      LastTurn(job, s1, s0, t);
      OneTurn(job, s, t, 2);
      OneTurn(job, s1, t, 1);
      OneTurn(job, Turn(job, s1, t), t, 1);
      return Turns(t, 2);
    }
    Flags(s1, s0, t, CancelTest(o));
    TestTurn(job, s1, s0, t, CancelTest(o));
    var s2 := Turn(job, s1, t);
    Flags(s2, s0, t, FoundTest(o));
    TestTurn(job, s2, s0, t, FoundTest(o));
    var s3 := Turn(job, s2, t);
    TestTurn(job, s3, s0, t, ClockTest(o));
    var s4 := Turn(job, s3, t);
    TestTurn(job, s4, s0, t, RangeTest(o));
    var s5 := Turn(job, s4, t);
    LastTurn(job, s5, s0, t);
    OneTurn(job, s, t, 6);
    OneTurn(job, s1, t, 5);
    OneTurn(job, s2, t, 4);
    OneTurn(job, s3, t, 3);
    OneTurn(job, s4, t, 2);
    OneTurn(job, s5, t, 1);
    OneTurn(job, Turn(job, s5, t), t, 1);
    return Turns(t, 6);
  }

  /** A thread running alone, without solutions, ends once its ordinal sequence reaches the limit. */
  lemma {:induction false} ThreadEnds(job: Job, s: State, s0: State, t: nat, k: nat, last: nat) returns (events: seq<Event>)
    requires At(s, s0, t, LoopTest(Ordinal(job, t, k))) && !job.timed && Silent(job)
    requires k <= last && Ordinal(job, t, last) >= Limit(job)
    ensures var after := Run(job, s, events);
      At(after.(done := s0.done), s0, t, Finished) && after.done == s0.done + 1
    decreases last - k
  {
    hide At, Turn, Run, Limit, Wins, Turns, Bump;
    var o := Ordinal(job, t, k);
    if o >= Limit(job) {
      events := LeaveLoop(job, s, s0, t, o);
    } else {
      Round(job, s, s0, t, o);
      OrdinalStep(job, t, k);
      var rest := ThreadEnds(job, Run(job, s, Turns(t, 8)), s0, t, k + 1, last);
      RunAppend(job, s, Turns(t, 8), rest);
      events := Turns(t, 8) + rest;
    }
  }

  /** The first m threads have ended, the others have not begun. */
  ghost predicate Progressed(job: Job, s: State, m: nat) {
    && |s.pcs| == |s.tried| == job.threads && s.done == m
    && !s.found && !s.cancel && !s.error
    && forall t :: 0 <= t < job.threads ==> s.pcs[t] == if t < m then Finished else Starting
  }

  lemma NextThread(job: Job, s: State, m: nat) returns (events: seq<Event>)
    requires Accepted(job) && Progressed(job, s, m) && m < job.threads && !job.timed && Silent(job)
    requires SPACE - Limit(job) >= Spacing(job)
    ensures Progressed(job, Run(job, s, events), m + 1)
  {
    hide Limit, Spacing, Wins, Run, Ordinal, Turn;
    var last := ReachesEnd(job, m);
    assert s.pcs == s.pcs[m := Starting];
    TestTurn(job, s, s, m, Starting);
    OrdinalStarts(job, m);
    var begun := Turn(job, s, m);
    var rest := ThreadEnds(job, begun, s, m, 0, last);
    OneEvent(job, s, m, rest);
    events := [Move(m, false, false)] + rest;
  }

  lemma OrdinalStarts(job: Job, t: nat)
    ensures Ordinal(job, t, 0) == t
  {
  }

  lemma OneEvent(job: Job, s: State, t: nat, rest: seq<Event>)
    ensures Run(job, s, [Move(t, false, false)] + rest) == Run(job, Turn(job, s, t), rest)
  {
    var events := [Move(t, false, false)] + rest;
    assert events[0] == Move(t, false, false) && events[1..] == rest;
  }

  lemma {:induction false} ThreadsInTurn(job: Job, m: nat) returns (events: seq<Event>)
    requires Accepted(job) && m <= job.threads && !job.timed && Silent(job) && SPACE - Limit(job) >= Spacing(job)
    ensures Progressed(job, Run(job, Initial(job), events), m)
  {
    hide Limit, Spacing, Wins;
    if m == 0 {
      events := [];
    } else {
      var before := ThreadsInTurn(job, m - 1);
      var more := NextThread(job, Run(job, Initial(job), before), m - 1);
      RunAppend(job, Initial(job), before, more);
      events := before + more;
    }
  }

  ghost predicate CanExhaust(job: Job) {
    exists s :: Ended(job, s) && Report(s).Exhausted?
  }

  lemma ExhaustionNeedsRoom(job: Job, s: State)
    requires Ended(job, s) && Report(s).Exhausted? && !job.timed
    ensures SPACE - Limit(job) >= Spacing(job)
  {
    hide Ended, Report, Limit, Spacing, Divides, HistoryOk, Misses, Ordinal;
    EndedSizes(job, s);
    ExhaustedThread(job, s, 0);
    var n := |s.tried[0]|;
    FirstThreadOrdinals(job, n);
    SpacingDivides(job);
    MultiplesAreApart(Spacing(job), Ordinal(job, 0, n), SPACE);
  }

  /**
   * Main result: an untimed search can report `exhausted` if and only if no nonce in range is a solution
   * and at least `Spacing` ordinals lie beyond the limit; otherwise some thread never leaves by itself.
   */
  lemma CanExhaustIff(job: Job)
    requires Accepted(job) && !job.timed
    ensures CanExhaust(job) <==> Silent(job) && SPACE - Limit(job) >= Spacing(job)
  {
    hide Limit, Spacing, Wins, Report, Ended, Run;
    if CanExhaust(job) {
      var s :| Ended(job, s) && Report(s).Exhausted?;
      ExhaustionNeedsRoom(job, s);
      forall n: nat | job.startNonce <= n < job.startNonce + Limit(job) ensures !Wins(job.work, n) {
        ExhaustedMeansNone(job, s, n - job.startNonce);
      }
    }
    if Silent(job) && SPACE - Limit(job) >= Spacing(job) {
      var events := ThreadsInTurn(job, job.threads);
      ProgressedIsExhausted(job, events);
    }
  }

  /**
   * Without that room an untimed search goes round for ever unless a solution, a cancellation or a failure
   * stops it: in no interleaving are all threads done before one of these has happened.
   */
  lemma NeverEndsByItself(job: Job, events: seq<Event>)
    requires Accepted(job) && !job.timed && SPACE - Limit(job) < Spacing(job)
    ensures var s := Run(job, Initial(job), events); s.done == job.threads ==> s.found || s.cancel || s.error
  {
    hide Limit, Spacing, Run, Initial;
    var s := Run(job, Initial(job), events);
    if s.done == job.threads && !s.found && !s.cancel && !s.error {
      assert Ended(job, s);
      ExhaustionNeedsRoom(job, s);
    }
  }

  lemma ProgressedIsExhausted(job: Job, events: seq<Event>)
    requires Accepted(job) && Progressed(job, Run(job, Initial(job), events), job.threads)
    ensures CanExhaust(job)
  {
    hide Run;
    var s := Run(job, Initial(job), events);
    assert Ended(job, s) && Report(s).Exhausted?;
  }

  /**
   * The command-line request, UINT64_MAX hashes from nonce 0, taken without its time limit: it can exhaust
   * only with an odd number of threads, and then hashes each nonce once only with a single thread.
   */
  lemma CommandLineSearch(job: Job)
    requires Accepted(job) && !job.timed && job.startNonce == 0 && job.maxHashes == UINT64_MAX
    ensures CanExhaust(job) <==> job.threads % 2 == 1 && forall n: nat :: n < UINT64_MAX ==> !Wins(job.work, n)
    ensures forall s :: Ended(job, s) && Report(s).Exhausted? ==> (EachOnce(s) <==> job.threads == 1)
  {
    hide Wins, Ended, Report, EachOnce, CanExhaust;
    CanExhaustIff(job);
    OddSpacing(job);
    forall s | Ended(job, s) && Report(s).Exhausted? ensures EachOnce(s) <==> job.threads == 1 {
      ExactlyOnceIff(job, s);
    }
    assert Limit(job) == UINT64_MAX;
  }

  lemma OddSpacing(job: Job)
    requires Accepted(job)
    ensures Spacing(job) <= 1 <==> job.threads % 2 == 1
  {
  }

  /** A run in which ordinals wrap and `exhausted` is reported exists: three threads, and hashes that never qualify. */
  lemma WrappingRunExhausts() returns (job: Job, s: State)
    ensures Accepted(job) && !job.timed && job.threads == 3 && job.startNonce == 0 && job.maxHashes == UINT64_MAX
    ensures Ended(job, s) && Report(s).Exhausted? && !EachOnce(s)
  {
    hide Ended, Report, EachOnce;
    var ones: Bytes32 := seq(32, _ => 1);
    job := Job(Work(_ => ones, seq(32, _ => 0), 0), 0, 3, UINT64_MAX, false);
    OnesNeverWin(job.work, ones);
    CommandLineSearch(job);
    s :| Ended(job, s) && Report(s).Exhausted?;
  }

  lemma OnesNeverWin(work: Work, ones: Bytes32)
    requires ones[31] == 1 && work.target == 0 && forall input :: work.randomX(input) == ones
    ensures forall n: nat :: !Wins(work, n)
  {
    assert BigEndian(ones) == 256 * BigEndian(ones[..31]) + ones[31];
  }
}
