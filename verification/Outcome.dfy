/** The outcome of a run: logbook rows against counters, the exit code, and the dry run. */
module Outcome {
  import opened Text
  import opened Merge
  import opened World
  import opened LagGate
  import opened Retry
  import opened Runner
  import opened RunnerLaws
  import opened Run
  import opened RunLaws

  // ----------------------------------------------------------------- logbook and counters

  function Rows(t: seq<Event>, s: LogStatus): nat {
    if t == [] then 0 else Rows(t[..|t| - 1], s) + if t[|t| - 1].Logbook? && t[|t| - 1].status == s then 1 else 0
  }

  lemma RowsSnoc(t: seq<Event>, e: Event, s: LogStatus)
    ensures Rows(t + [e], s) == Rows(t, s) + if e.Logbook? && e.status == s then 1 else 0
  {
    assert (t + [e])[..|t|] == t;
  }

  ghost predicate NoRows(a: seq<Event>, b: seq<Event>) { a <= b && forall k :: |a| <= k < |b| ==> !b[k].Logbook? }

  lemma NoRowsTrans(a: seq<Event>, b: seq<Event>, c: seq<Event>)
    requires NoRows(a, b) && NoRows(b, c)
    ensures NoRows(a, c)
  {
    assert forall k :: |a| <= k < |b| ==> c[k] == b[k];
  }

  lemma {:induction false} NoRowsKept(a: seq<Event>, b: seq<Event>, s: LogStatus)
    requires NoRows(a, b)
    ensures Rows(b, s) == Rows(a, s)
    decreases |b|
  {
    if |b| > |a| {
      NoRowsKept(a, b[..|b| - 1], s);
    } else {
      assert a == b;
    }
  }

  lemma RetryNoRows(phase: Phase, t: Name, a: World, b: World)
    requires Retrying(phase, t, a, b)
    ensures NoRows(a.trace, b.trace)
  {
  }

  /** Counters and rows move together; a cancelled row is written only for a booked skip. */
  ghost predicate RowsMatch(st: State, st': State) {
    && Rows(st'.world.trace, Success) - Rows(st.world.trace, Success) == st'.summary.succeeded - st.summary.succeeded
    && Rows(st'.world.trace, Failure) - Rows(st.world.trace, Failure) == st'.summary.failed - st.summary.failed
    && 0 <= Rows(st'.world.trace, Cancelled) - Rows(st.world.trace, Cancelled)
       <= st'.summary.skipped - st.summary.skipped
  }

  lemma BookRows(env: Env, phase: Phase, t: Name, outcome: Option<PgError>, st: State)
    ensures RowsMatch(st, Book(env, phase, t, outcome, st).1)
  {
    hide ClassifyOpError, World.Flag;
    forall s, row
      ensures Rows(st.world.trace + [Logbook(phase, t, row)], s) == Rows(st.world.trace, s) + if row == s then 1 else 0
    {
      RowsSnoc(st.world.trace, Logbook(phase, t, row), s);
    }
  }

  lemma TableRows(env: Env, policy: Policy, phase: Phase, already: set<Name>, t: Name, st: State)
    ensures RowsMatch(st, RunTable(env, policy, phase, already, t, st).1)
  {
    hide PassGates, RetryLoop, Book, Rows, World.Flag;
    var live := st.(world := st.world.Next(env).Next(env));
    var (g, gated) := PassGates(env, policy, phase, live);
    GatesStep(env, policy, phase, live);
    assert NoRows(st.world.trace, gated.world.trace);
    forall s
      ensures Rows(gated.world.trace, s) == Rows(st.world.trace, s)
    {
      NoRowsKept(st.world.trace, gated.world.trace, s);
    }
    forall s
      ensures Rows(st.world.trace + [ClientClosed], s) == Rows(st.world.trace, s)
    {
      RowsSnoc(st.world.trace, ClientClosed, s);
    }
    if g.Pass? && !policy.dryRun {
      var w := gated.world.Emit(Begin(phase, t));
      RetryTries(env, policy.retry, phase, t, w, 0, policy.retry.delayMs);
      var (o, w') := WithRetry(env, policy.retry, phase, t, w);
      RetryNoRows(phase, t, w, w');
      NoRowsTrans(gated.world.trace, w.trace, w'.trace);
      forall s ensures Rows(w'.trace, s) == Rows(gated.world.trace, s) { NoRowsKept(gated.world.trace, w'.trace, s); }
      BookRows(env, phase, t, o, gated.(world := w'));
    }
  }

  /** Conservation in every runner: one success row per success, one error row per failure,
      and no more cancelled rows than skips. */
  lemma {:induction false} TablesRows(env: Env, policy: Policy, phase: Phase, already: set<Name>, tables: seq<Name>,
        i: nat, st: State)
    requires i <= |tables|
    ensures RowsMatch(st, RunTables(env, policy, phase, already, tables, i, st).1)
    decreases |tables| - i
  {
    hide RunTable, Rows;
    if i < |tables| {
      TableRows(env, policy, phase, already, tables[i], st);
      var (x, st') := RunTable(env, policy, phase, already, tables[i], st);
      if x.NextTable? {
        TablesRows(env, policy, phase, already, tables, i + 1, st');
      }
    }
  }

  lemma PhaseRows(env: Env, cfg: Config, p: Phase, rs: RunState)
    requires Rows(rs.world.trace, Failure) == rs.failed
    ensures var rs' := RunPhase(env, cfg, p, rs).1; Rows(rs'.world.trace, Failure) == rs'.failed
  {
    hide RunTables, Discover, Already, Selected, Rows, ToSet, World.Flag;
    if Selected(cfg, p) && !rs.world.Flag(env) {
      var checked := rs.world.Next(env);
      DiscoverQuiet(env, cfg, p, checked);
      var (found, w) := Discover(env, cfg, p, checked);
      if found.Ok? {
        RowsSnoc(w.trace, Found(p, found.value), Failure);
        TablesRows(env, cfg.policy, p, Already(p, rs), found.value, 0,
                   State(w.Emit(Found(p, found.value)), rs.gate, Summary(|found.value|, 0, 0, 0)));
      }
    }
  }

  lemma {:induction false} RunFromRows(env: Env, cfg: Config, n: nat, rs: RunState)
    requires 1 <= n <= 9 && Rows(rs.world.trace, Failure) == rs.failed
    ensures var rs' := RunFrom(env, cfg, n, rs).1; Rows(rs'.world.trace, Failure) == rs'.failed
    decreases 9 - n
  {
    hide RunPhase, Rows;
    if n < 9 {
      PhaseRows(env, cfg, PhaseAt(n), rs);
      if RunPhase(env, cfg, PhaseAt(n), rs).0.None? {
        RunFromRows(env, cfg, n + 1, RunPhase(env, cfg, PhaseAt(n), rs).1);
      }
    }
  }

  // ------------------------------------------------------- calls and how they are booked

  lemma {:induction false} OutcomesKept(a: seq<Event>, b: seq<Event>)
    requires a <= b && forall k :: |a| <= k < |b| ==> !b[k].Called?
    ensures Outcomes(b) == Outcomes(a)
    decreases |b|
  {
    if |b| > |a| {
      OutcomesKept(a, b[..|b| - 1]);
    } else {
      assert a == b;
    }
  }

  /** The retried operation makes at least one call, and its result is the last one's. */
  lemma {:induction false} RetryLast(env: Env, policy: RetryPolicy, phase: Phase, t: Name, w: World, attempt: nat,
        delay: nat)
    ensures var (o, w') := RetryLoop(env, policy, phase, t, w, attempt, delay); var calls := Outcomes(w'.trace);
            Outcomes(w.trace) < calls && calls[|calls| - 1] == o
    decreases policy.retries - attempt
  {
    hide Call, Doubled, World.Interrupted, World.Wait, World.Flag, Outcomes;
    CallTrace(env, phase, t, w);
    var (o, w') := Call(env, phase, t, w);
    if o.Some? && IsLockTimeout(o.value) && attempt < policy.retries && !w'.Flag(env) {
      var waiting := w'.Next(env).Emit(RetrySleep(delay));
      SleepTrace(env, w', delay);
      if !waiting.Interrupted(env, delay * MILLISECOND) {
        RetryLast(env, policy, phase, t, waiting.Wait(env, delay * MILLISECOND), attempt + 1, Doubled(delay));
      }
    }
  }

  /** The logbook rows in a trace, in order. */
  function LogbookRows(t: seq<Event>): seq<Event> {
    if t == [] then [] else LogbookRows(t[..|t| - 1]) + if t[|t| - 1].Logbook? then [t[|t| - 1]] else []
  }

  lemma LogbookRowsSnoc(t: seq<Event>, e: Event)
    ensures LogbookRows(t + [e]) == LogbookRows(t) + if e.Logbook? then [e] else []
  {
    assert (t + [e])[..|t|] == t;
  }

  lemma {:induction false} LogbookRowsKept(a: seq<Event>, b: seq<Event>)
    requires NoRows(a, b)
    ensures LogbookRows(b) == LogbookRows(a)
    decreases |b|
  {
    if |b| > |a| {
      LogbookRowsKept(a, b[..|b| - 1]);
    } else {
      assert a == b;
    }
  }

  /** What a runner makes of the last call for a table, told by the call, its exit, its counters
      and the rows it writes: a success, a failure, an interruption by the shutdown, a lost
      connection, or a lock that was not free. A lost or cancelled statement is an interruption
      if and only if the channel is published when the flag is read. */
  ghost predicate Judged(env: Env, phase: Phase, t: Name, last: Option<PgError>, st: State, x: Exit, st': State) {
    var lost, lockTimeout := last.Some? && IsConnectionLost(last.value), last == Some(Db(LockNotAvailable));
    var before, after := LogbookRows(st.world.trace), LogbookRows(st'.world.trace);
    && before <= after
    && var rows := after[|before|..];
       // The flag is read one step before the rows, and two before them if the client is looked at too.
       var asked := st'.world.step - |rows| - (if x.Stop? then 2 else 1);
    && (last.None? ==> x.NextTable? && rows == [Logbook(phase, t, Success)])
    && (last.Some? ==>
       asked >= 0 && (x.Stop? <==> (lost || last == Some(Db(QueryCanceled))) && env.published(asked) > 0))
    && (x.Stop? ==> rows == if env.closed(asked + 1) then [] else [Logbook(phase, t, Cancelled)])
    && (last.Some? && !x.Stop? && lost ==> x == Abort(ConnectionLost) && rows == [])
    && (last.Some? && !x.Stop? && lockTimeout ==> x.NextTable? && rows == [])
    && (last.Some? && !x.Stop? && !lost && !lockTimeout ==> x.NextTable? && rows == [Logbook(phase, t, Failure)])
    && Counted(last, lost, lockTimeout, st.summary, x, st'.summary)
  }

  predicate Counted(last: Option<PgError>, lost: bool, lockTimeout: bool, sum: Summary, x: Exit, sum': Summary) {
    && sum'.total == sum.total
    && sum'.succeeded == sum.succeeded + (if last.None? then 1 else 0)
    && sum'.failed == sum.failed + (if last.Some? && !lost && !lockTimeout && !x.Stop? then 1 else 0)
    && sum'.skipped == sum.skipped + (if x.Stop? || lockTimeout then 1 else 0)
  }

  lemma BookJudged(env: Env, phase: Phase, t: Name, outcome: Option<PgError>, st: State)
    ensures Judged(env, phase, t, outcome, st, Book(env, phase, t, outcome, st).0, Book(env, phase, t, outcome, st).1)
  {
    hide LogbookRows, IsConnectionLost;
    forall status
      ensures LogbookRows(st.world.trace + [Logbook(phase, t, status)])
           == LogbookRows(st.world.trace) + [Logbook(phase, t, status)]
    {
      LogbookRowsSnoc(st.world.trace, Logbook(phase, t, status));
    }
    LockIsKept();
  }

  /** A lock that is not free is no lost connection, and no cancelled statement. */
  lemma LockIsKept()
    ensures !IsConnectionLost(Db(LockNotAvailable))
  {
  }

  /** One table: either no call is made and nothing is booked but skips, or the last call made
      for it decides counters, exit and logbook. */
  lemma TableOutcome(env: Env, policy: Policy, phase: Phase, already: set<Name>, t: Name, st: State)
    ensures var (x, st') := RunTable(env, policy, phase, already, t, st);
            var before, calls := Outcomes(st.world.trace), Outcomes(st'.world.trace);
            if calls == before then
              && st'.summary.succeeded == st.summary.succeeded && st'.summary.failed == st.summary.failed
              && LogbookRows(st'.world.trace) == LogbookRows(st.world.trace)
            else before < calls && Judged(env, phase, t, calls[|calls| - 1], st, x, st')
  {
    hide PassGates, RetryLoop, Book, Rows, Judged, Outcomes, LogbookRows, World.Flag;
    var live := st.(world := st.world.Next(env).Next(env));
    var (g, gated) := PassGates(env, policy, phase, live);
    GatesStep(env, policy, phase, live);
    OutcomesKept(st.world.trace, gated.world.trace);
    OutcomesKept(st.world.trace, st.world.trace + [ClientClosed]);
    LogbookRowsKept(st.world.trace, gated.world.trace);
    LogbookRowsSnoc(st.world.trace, ClientClosed);
    if g.Pass? && !policy.dryRun {
      var w := gated.world.Emit(Begin(phase, t));
      OutcomesKept(gated.world.trace, w.trace);
      RetryLast(env, policy.retry, phase, t, w, 0, policy.retry.delayMs);
      RetryTries(env, policy.retry, phase, t, w, 0, policy.retry.delayMs);
      var (o, w') := WithRetry(env, policy.retry, phase, t, w);
      var called := gated.(world := w');
      var (x, end) := Book(env, phase, t, o, called);
      BookJudged(env, phase, t, o, called);
      BookCallsNothing(env, phase, t, o, called);
      OutcomesKept(w'.trace, end.world.trace);
      assert NoRows(st.world.trace, gated.world.trace) && NoRows(gated.world.trace, w.trace);
      RetryNoRows(phase, t, w, w');
      NoRowsTrans(st.world.trace, gated.world.trace, w.trace);
      NoRowsTrans(st.world.trace, w.trace, w'.trace);
      LogbookRowsKept(st.world.trace, w'.trace);
      JudgedFrom(env, phase, t, o, st, called, x, end);
    }
  }

  lemma JudgedFrom(env: Env, phase: Phase, t: Name, last: Option<PgError>, st: State, called: State, x: Exit,
        end: State)
    requires Judged(env, phase, t, last, called, x, end) && called.summary == st.summary
    requires LogbookRows(called.world.trace) == LogbookRows(st.world.trace)
    ensures Judged(env, phase, t, last, st, x, end)
  {
    hide LogbookRows, IsConnectionLost, Counted;
  }

  lemma BookCallsNothing(env: Env, phase: Phase, t: Name, outcome: Option<PgError>, st: State)
    ensures var b := Book(env, phase, t, outcome, st).1.world.trace;
            st.world.trace <= b && forall k :: |st.world.trace| <= k < |b| ==> b[k].Logbook?
  {
    hide ClassifyOpError, World.Flag;
  }

  /** A statement for the table was sent in this stretch of the trace, and it succeeded. */
  ghost predicate SentWell(env: Env, phase: Phase, t: Name, a: World, b: World) {
    exists k :: |a.trace| <= k < |b.trace| && b.trace[k].Statement? && b.trace[k].phase == phase
        && b.trace[k].table == t && env.answer(b.trace[k].at).None?
  }

  lemma {:induction false} RetrySends(env: Env, policy: RetryPolicy, phase: Phase, t: Name, w: World, attempt: nat,
        delay: nat)
    ensures var (o, w') := RetryLoop(env, policy, phase, t, w, attempt, delay);
            w.trace <= w'.trace && (o.None? ==> SentWell(env, phase, t, w, w'))
    decreases policy.retries - attempt
  {
    hide Doubled, World.Interrupted;
    var ready := if CountsTuples(phase) then w.Next(env) else w;
    var (o, w') := Call(env, phase, t, w);
    if o.None? {
      assert w'.trace[|w.trace|] == Statement(phase, t, ready.step);
    } else if IsLockTimeout(o.value) && attempt < policy.retries && !w'.Flag(env) {
      var waiting := w'.Next(env).Emit(RetrySleep(delay));
      var woken := waiting.Wait(env, delay * MILLISECOND);
      assert w.trace <= woken.trace;
      if !waiting.Interrupted(env, delay * MILLISECOND) {
        RetrySends(env, policy, phase, t, woken, attempt + 1, Doubled(delay));
      }
    }
  }

  /** A success is booked only for a table whose statement was sent and succeeded. */
  lemma SuccessMeansStatement(env: Env, policy: Policy, phase: Phase, already: set<Name>, t: Name, st: State)
    ensures var st' := RunTable(env, policy, phase, already, t, st).1;
            st'.summary.succeeded > st.summary.succeeded ==> SentWell(env, phase, t, st.world, st'.world)
  {
    hide PassGates, RetryLoop, Book;
    var live := st.(world := st.world.Next(env).Next(env));
    var (g, gated) := PassGates(env, policy, phase, live);
    GatesStep(env, policy, phase, live);
    if g.Pass? && !policy.dryRun {
      var w := gated.world.Emit(Begin(phase, t));
      RetrySends(env, policy.retry, phase, t, w, 0, policy.retry.delayMs);
      var (o, w') := WithRetry(env, policy.retry, phase, t, w);
      BookJudged(env, phase, t, o, gated.(world := w'));
      BookQuiet(env, phase, t, o, gated.(world := w'));
      var end := Book(env, phase, t, o, gated.(world := w')).1.world;
      if o.None? {
        var k :| |w.trace| <= k < |w'.trace| && w'.trace[k].Statement? && w'.trace[k].phase == phase
            && w'.trace[k].table == t
                 && env.answer(w'.trace[k].at).None?;
        assert end.trace[k] == w'.trace[k];
      }
    }
  }

  // -------------------------------------------------------------------- lost connections

  /** A closed client, or a call whose error means that the connection is gone. */
  predicate Lost(e: Event) { e.ClientClosed? || (e.Called? && e.outcome.Some? && IsConnectionLost(e.outcome.value)) }

  ghost predicate NoLoss(t: seq<Event>) { forall k :: 0 <= k < |t| ==> !Lost(t[k]) }

  lemma {:induction false} RetryLoss(env: Env, policy: RetryPolicy, phase: Phase, t: Name, w: World, attempt: nat,
        delay: nat)
    requires NoLoss(w.trace)
    ensures var (o, w') := RetryLoop(env, policy, phase, t, w, attempt, delay);
            NoLoss(w'.trace) || (o.Some? && IsConnectionLost(o.value))
    decreases policy.retries - attempt
  {
    hide Doubled, World.Interrupted;
    var (o, w') := Call(env, phase, t, w);
    if o.Some? && IsLockTimeout(o.value) && attempt < policy.retries && !w'.Flag(env) {
      var waiting := w'.Next(env).Emit(RetrySleep(delay));
      var woken := waiting.Wait(env, delay * MILLISECOND);
      assert NoLoss(w'.trace) && NoLoss(woken.trace);
      if !waiting.Interrupted(env, delay * MILLISECOND) {
        RetryLoss(env, policy, phase, t, woken, attempt + 1, Doubled(delay));
      }
    }
  }

  /** A loss was seen only if it ended the run with its type, or a shutdown explains it. */
  ghost predicate LossSettled(env: Env, e: Option<RunError>, w: World) {
    NoLoss(w.trace) || e == Some(ConnectionLost) || w.Flag(env)
  }

  lemma BookLoss(env: Env, phase: Phase, t: Name, outcome: Option<PgError>, st: State)
    requires env.Valid()
    ensures var (x, st') := Book(env, phase, t, outcome, st);
            && (NoLoss(st.world.trace) ==> NoLoss(st'.world.trace))
            && (outcome.Some? && IsConnectionLost(outcome.value) ==>
               x == Abort(ConnectionLost) || (x.Stop? && st'.world.Flag(env)))
  {
    hide Book, IsConnectionLost, Env.Valid, World.Flag;
    BookCallsNothing(env, phase, t, outcome, st);
    LossExit(env, phase, t, outcome, st);
  }

  lemma LossExit(env: Env, phase: Phase, t: Name, outcome: Option<PgError>, st: State)
    requires env.Valid()
    ensures var (x, st') := Book(env, phase, t, outcome, st);
            outcome.Some? && IsConnectionLost(outcome.value) ==>
                x == Abort(ConnectionLost) || (x.Stop? && st'.world.Flag(env))
  {
    hide IsConnectionLost;
  }

  lemma TableLoss(env: Env, policy: Policy, phase: Phase, already: set<Name>, t: Name, st: State)
    requires env.Valid() && NoLoss(st.world.trace)
    ensures var (x, st') := RunTable(env, policy, phase, already, t, st);
            NoLoss(st'.world.trace) || x == Abort(ConnectionLost) || (x.Stop? && st'.world.Flag(env))
  {
    hide PassGates, RetryLoop, Book, IsConnectionLost;
    var live := st.(world := st.world.Next(env).Next(env));
    var (g, gated) := PassGates(env, policy, phase, live);
    GatesStep(env, policy, phase, live);
    assert NoLoss(gated.world.trace);
    if g.Pass? && !policy.dryRun {
      var w := gated.world.Emit(Begin(phase, t));
      RetryLoss(env, policy.retry, phase, t, w, 0, policy.retry.delayMs);
      var (o, w') := WithRetry(env, policy.retry, phase, t, w);
      BookLoss(env, phase, t, o, gated.(world := w'));
    }
  }

  lemma {:induction false} TablesLoss(env: Env, policy: Policy, phase: Phase, already: set<Name>, tables: seq<Name>,
        i: nat, st: State)
    requires env.Valid() && i <= |tables| && NoLoss(st.world.trace)
    ensures var (e, st') := RunTables(env, policy, phase, already, tables, i, st); LossSettled(env, e, st'.world)
    decreases |tables| - i
  {
    hide RunTable, World.Flag;
    if i < |tables| {
      TableLoss(env, policy, phase, already, tables[i], st);
      var (x, st') := RunTable(env, policy, phase, already, tables[i], st);
      if x.NextTable? {
        TablesLoss(env, policy, phase, already, tables, i + 1, st');
      }
    }
  }

  lemma PhaseLoss(env: Env, cfg: Config, p: Phase, rs: RunState)
    requires env.Valid() && LossSettled(env, None, rs.world)
    ensures var (e, rs') := RunPhase(env, cfg, p, rs); LossSettled(env, e, rs'.world)
  {
    hide RunTables, Discover, Already, Selected, ToSet;
    if Selected(cfg, p) && !rs.world.Flag(env) {
      var checked := rs.world.Next(env);
      DiscoverQuiet(env, cfg, p, checked);
      var (found, w) := Discover(env, cfg, p, checked);
      if found.Ok? {
        TablesLoss(env, cfg.policy, p, Already(p, rs), found.value, 0,
                   State(w.Emit(Found(p, found.value)), rs.gate, Summary(|found.value|, 0, 0, 0)));
      }
    }
  }

  lemma {:induction false} RunFromLoss(env: Env, cfg: Config, n: nat, rs: RunState)
    requires env.Valid() && 1 <= n <= 9 && LossSettled(env, None, rs.world)
    ensures var (e, rs') := RunFrom(env, cfg, n, rs); LossSettled(env, e, rs'.world)
    decreases 9 - n
  {
    hide RunPhase, LossSettled;
    if n < 9 {
      PhaseLoss(env, cfg, PhaseAt(n), rs);
      if RunPhase(env, cfg, PhaseAt(n), rs).0.None? {
        RunFromLoss(env, cfg, n + 1, RunPhase(env, cfg, PhaseAt(n), rs).1);
      }
    }
  }

  // ------------------------------------------------------------------------- exit codes

  /** The documented codes. A shutdown published before the last check gives 130 whether the
      run ended well or in an error; 0 means that no phase was aborted, nothing was published
      and no statement failed; 3 means that a connection loss ended the run and no shutdown
      was marked; and neither a closed client nor a statement that lost its connection ever goes
      unnoticed. */
  lemma ExitCodes(env: Env, cfg: Config, w: World, gate: Gate)
    requires env.Valid() && w.trace == []
    ensures var (code, rs) := Main(env, cfg, w, gate); var e := RunFrom(env, cfg, 1, Start(w, gate)).0;
            && code in {0, 1, 3, 130}
            && (rs.world.Flag(env) ==> code == 130)
            && (code == 0 <==> e.None? && !rs.world.Flag(env) && Rows(rs.world.trace, Failure) == 0)
            && (code == 3 <==> e.Some? && !env.marked(rs.world.step)
                               && (e.value.ConnectionLost? || (e.value.Server? && IsConnectionLost(e.value.cause))))
            && (code == 130 ==> env.marked(rs.world.step + 1))
            && (NoLoss(rs.world.trace) || code == 3 || code == 130)
  {
    hide RunFrom, Rows, IsConnectionLost;
    assert Rows([], Failure) == 0 by { NoRowsAtAll(); }
    RunFromRows(env, cfg, 1, Start(w, gate));
    RunFromLoss(env, cfg, 1, Start(w, gate));
  }

  lemma NoRowsAtAll()
    ensures forall s :: Rows([], s) == 0
  {
  }

  // ---------------------------------------------------------------------------- dry runs

  /** Searching, and noticing a closed client, is all that was done. */
  ghost predicate OnlyFound(t: seq<Event>) { forall k :: 0 <= k < |t| ==> t[k].Found? || t[k].ClientClosed? }

  lemma PhaseDry(env: Env, cfg: Config, p: Phase, rs: RunState)
    requires cfg.policy.dryRun && OnlyFound(rs.world.trace)
    ensures var rs' := RunPhase(env, cfg, p, rs).1; OnlyFound(rs'.world.trace) && rs'.failed == rs.failed
  {
    hide RunTables, Discover, Already, Selected, ToSet, World.Flag;
    if Selected(cfg, p) && !rs.world.Flag(env) {
      var checked := rs.world.Next(env);
      DiscoverQuiet(env, cfg, p, checked);
      var (found, w) := Discover(env, cfg, p, checked);
      if found.Ok? {
        TablesBook(env, cfg.policy, p, Already(p, rs), found.value, 0,
                   State(w.Emit(Found(p, found.value)), rs.gate, Summary(|found.value|, 0, 0, 0)));
      }
    }
  }

  lemma {:induction false} RunFromDry(env: Env, cfg: Config, n: nat, rs: RunState)
    requires 1 <= n <= 9 && cfg.policy.dryRun && OnlyFound(rs.world.trace)
    ensures var rs' := RunFrom(env, cfg, n, rs).1; OnlyFound(rs'.world.trace) && rs'.failed == rs.failed
    decreases 9 - n
  {
    hide RunPhase, OnlyFound;
    if n < 9 {
      PhaseDry(env, cfg, PhaseAt(n), rs);
      if RunPhase(env, cfg, PhaseAt(n), rs).0.None? {
        RunFromDry(env, cfg, n + 1, RunPhase(env, cfg, PhaseAt(n), rs).1);
      }
    }
  }

  /** A dry run does nothing but search, whatever the server answers: no statement, no
      terminated backend, no wait, no logbook row, no failure. */
  lemma DryRunSilent(env: Env, cfg: Config, w: World, gate: Gate)
    requires cfg.policy.dryRun && w.trace == []
    ensures var rs := Main(env, cfg, w, gate).1; OnlyFound(rs.world.trace) && rs.failed == 0
  {
    hide RunFrom;
    RunFromDry(env, cfg, 1, Start(w, gate));
  }
}
