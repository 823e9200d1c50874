/** Laws of the runners, for every environment: statements after a shutdown, tables taken up,
    accounting, and silence of a dry run. */
module RunnerLaws {
  import opened Text
  import opened Merge
  import opened World
  import opened LagGate
  import opened Retry
  import opened Runner

  // ------------------------------------------------------------------- steps without work

  /** Waits, kills of conflicting vacuums, bookkeeping: everything but taking up a table. */
  predicate Quiet(e: Event) { !e.Found? && !e.Begin? && !e.Statement? }

  ghost predicate Quietly(a: World, b: World) {
    && a.step <= b.step && a.trace <= b.trace
    && forall i :: |a.trace| <= i < |b.trace| ==> Quiet(b.trace[i])
  }

  /** The stronger form for the gates: only waits and kills. */
  ghost predicate Waits(a: World, b: World) {
    && a.step <= b.step && a.trace <= b.trace
    && forall i :: |a.trace| <= i < |b.trace| ==> b.trace[i].LagSleep? || b.trace[i].KilledBackend?
  }

  lemma WaitsTrans(a: World, b: World, c: World)
    requires Waits(a, b) && Waits(b, c)
    ensures Waits(a, c)
  {
    assert forall i :: |a.trace| <= i < |b.trace| ==> b.trace[i] == c.trace[i];
  }

  lemma QuietlyTrans(a: World, b: World, c: World)
    requires Quietly(a, b) && Quietly(b, c)
    ensures Quietly(a, c)
  {
    assert forall i :: |a.trace| <= i < |b.trace| ==> b.trace[i] == c.trace[i];
  }

  lemma QuietSnoc(w: World, e: Event)
    requires Quiet(e)
    ensures Quietly(w, w.Emit(e))
  {
  }

  lemma {:induction false} WaitLoopWaits(env: Env, cfg: GateConfig, g: Gate, w: World, started: nat)
    requires started <= w.clock
    ensures Waits(w, WaitLoop(env, cfg, g, w, started).world)
    decreases Remaining(cfg, w, started)
  {
    hide Turn, GateConfig.Deadline, GateConfig.Poll;
    var top := w.Next(env);
    LaterLess(env, cfg, w, started);
    if Remaining(cfg, top, started) > 0 {
      var (o, w') := Turn(env, cfg, top, started);
      TurnWaits(env, cfg, top, started);
      WaitsTrans(w, top, w');
      if o.StillLagging? {
        WaitLoopWaits(env, cfg, g, w', started);
        WaitsTrans(w, w', WaitLoop(env, cfg, g, w', started).world);
      }
    }
  }

  lemma TurnWaits(env: Env, cfg: GateConfig, w: World, started: nat)
    requires started <= w.clock && Remaining(cfg, w, started) > 0
    ensures Waits(w, Turn(env, cfg, w, started).1)
  {
    hide Exceeds;
  }

  lemma WaitForLagWaits(env: Env, cfg: GateConfig, dryRun: bool, g: Gate, w: World)
    ensures Waits(w, WaitForLag(env, cfg, dryRun, g, w).world)
  {
    hide WaitLoop, Exceeds;
    var w' := w.Next(env);
    WaitLoopWaits(env, cfg, g, w', w'.clock);
    WaitsTrans(w, w', WaitLoop(env, cfg, g, w', w'.clock).world);
  }

  lemma {:induction false} KillAllWaits(env: Env, pids: seq<int>, w: World)
    ensures Waits(w, KillAll(env, pids, w).1)
    decreases |pids|
  {
    if pids != [] {
      var w' := w.Emit(KilledBackend(pids[0])).Next(env);
      assert Waits(w, w');
      KillAllWaits(env, pids[1..], w');
      WaitsTrans(w, w', KillAll(env, pids[1..], w').1);
    }
  }

  // ------------------------------------------------------------------------- the two gates

  /** What a gate may do: wait and kill, book a skip with every recorded skip, and stop the
      loop only on a shutdown. */
  ghost predicate GateStep(env: Env, policy: Policy, st: State, x: GateExit, st': State) {
    && Waits(st.world, st'.world)
    && st'.summary == (if x.Skip? then st.summary.(skipped := st.summary.skipped + 1) else st.summary)
    && st.gate.skipped <= st'.gate.skipped <= st.gate.skipped + (if x.Skip? then 1 else 0)
    && (st.gate.disabled ==> st'.gate.disabled)
    && (x.Out? ==> !x.exit.NextTable? && (x.exit.Stop? && env.Valid() ==> st'.world.Flag(env)))
    && (policy.dryRun ==> st'.world.trace == st.world.trace && (x.Out? ==> x.exit.Abort?))
  }

  lemma LagGateStep(env: Env, policy: Policy, st: State)
    ensures GateStep(env, policy, st, PassLagGateOnce(env, policy, st).0, PassLagGateOnce(env, policy, st).1)
  {
    hide WaitForLag, World.Flag, GateConfig.Deadline, GateConfig.Poll;
    if policy.gate.Some? {
      WaitForLagWaits(env, policy.gate.value, policy.dryRun, st.gate, st.world);
      WaitForLagVerdict(env, policy.gate.value, policy.dryRun, st.gate, st.world);
    }
  }

  lemma ActiveVacuumStep(env: Env, policy: Policy, st: State)
    ensures GateStep(env, policy, st, PassActiveVacuums(env, policy, st).0, PassActiveVacuums(env, policy, st).1)
  {
    hide Pids, KillAll, World.Flag;
    var st' := st.(world := st.world.Next(env));
    if env.sessions(st.world.step).Ok? {
      var active := env.sessions(st.world.step).value;
      var auto := if policy.dryRun then [] else Pids(active, true);
      var manual := if policy.dryRun then [] else Pids(active, false);
      KillAllWaits(env, auto, st'.world);
      var w := KillAll(env, auto, st'.world).1;
      KillAllWaits(env, manual, w);
      KillNothing(env, st'.world);
      KillNothing(env, w);
      WaitsTrans(st.world, st'.world, w);
      WaitsTrans(st.world, w, KillAll(env, manual, w).1);
    }
  }

  lemma KillNothing(env: Env, w: World)
    ensures KillAll(env, [], w) == (None, w)
  {
  }

  lemma GateStepTrans(env: Env, policy: Policy, st: State, st': State, x: GateExit, st'': State)
    requires GateStep(env, policy, st, Pass, st') && GateStep(env, policy, st', x, st'')
    ensures GateStep(env, policy, st, x, st'')
  {
    WaitsTrans(st.world, st'.world, st''.world);
  }

  lemma GatesStep(env: Env, policy: Policy, phase: Phase, st: State)
    ensures GateStep(env, policy, st, PassGates(env, policy, phase, st).0, PassGates(env, policy, phase, st).1)
  {
    hide PassLagGateOnce, PassActiveVacuums, GateStep;
    var (x, a) := PassLagGateOnce(env, policy, st);
    LagGateStep(env, policy, st);
    if x.Pass? {
      if phase.AlsoTables? {
        LagGateStep(env, policy, a);
        var (y, b) := PassLagGateOnce(env, policy, a);
        GateStepTrans(env, policy, st, a, y, b);
        if y.Pass? {
          ActiveVacuumStep(env, policy, b);
          GateStepTrans(env, policy, st, b, PassActiveVacuums(env, policy, b).0, PassActiveVacuums(env, policy, b).1);
        }
      } else {
        ActiveVacuumStep(env, policy, a);
        GateStepTrans(env, policy, st, a, PassActiveVacuums(env, policy, a).0, PassActiveVacuums(env, policy, a).1);
      }
    }
  }

  /** PIDs of the backends killed so far. */
  function Killed(t: seq<Event>): seq<int> {
    if t == [] then [] else Killed(t[..|t| - 1]) + match t[|t| - 1] case KilledBackend(pid) => [pid] case _ => []
  }

  lemma KilledSnoc(t: seq<Event>, pid: int)
    ensures Killed(t + [KilledBackend(pid)]) == Killed(t) + [pid]
  {
    assert (t + [KilledBackend(pid)])[..|t|] == t;
  }

  lemma {:induction false} KillsAll(env: Env, pids: seq<int>, w: World)
    requires KillAll(env, pids, w).0.None?
    ensures Killed(KillAll(env, pids, w).1.trace) == Killed(w.trace) + pids
    decreases |pids|
  {
    hide Killed;
    if pids == [] {
      assert Killed(w.trace) + [] == Killed(w.trace);
    } else {
      KilledSnoc(w.trace, pids[0]);
      KillsAll(env, pids[1..], w.Emit(KilledBackend(pids[0])).Next(env));
      assert Killed(w.trace) + [pids[0]] + pids[1..] == Killed(w.trace) + pids;
    }
  }

  /** The active-vacuum gate opens only on a successful lookup; then every autovacuum worker
      has been killed, and manual sessions only under `force`. A skip kills no manual one. */
  lemma ActiveVacuumKills(env: Env, policy: Policy, st: State)
    ensures var (x, st') := PassActiveVacuums(env, policy, st);
            var found := env.sessions(st.world.step);
            && (x.Pass? ==> found.Ok? && (found.value == [] || !policy.skipActiveVacuum)
                            && (Pids(found.value, false) == [] || policy.force)
                            && Killed(st'.world.trace) == Killed(st.world.trace)
                               + if policy.dryRun then [] else Pids(found.value, true) + Pids(found.value, false))
            && (x.Skip? ==> found.Ok? && found.value != []
                            && Killed(st'.world.trace) == Killed(st.world.trace)
                               + if policy.dryRun || policy.skipActiveVacuum then [] else Pids(found.value, true))
  {
    hide Pids, KillAll, Killed;
    var w0 := st.world.Next(env);
    if env.sessions(st.world.step).Ok? {
      var active := env.sessions(st.world.step).value;
      NoPids();
      var auto := if policy.dryRun then [] else Pids(active, true);
      var manual := if policy.dryRun then [] else Pids(active, false);
      var w := KillAll(env, auto, w0).1;
      KillNothing(env, w);
      assert forall s: seq<int> :: s + [] == s;
      if KillAll(env, auto, w0).0.None? {
        KillsAll(env, auto, w0);
        if KillAll(env, manual, w).0.None? {
          KillsAll(env, manual, w);
          assert Killed(w0.trace) + auto + manual == Killed(w0.trace) + (auto + manual);
        }
      }
    }
  }

  lemma NoPids()
    ensures forall b :: Pids([], b) == []
  {
  }

  /** The lag gate opens only if it is off, in a dry run, or on a reading within bounds. */
  ghost predicate LagClear(env: Env, policy: Policy, from: nat, to: State) {
    || policy.gate.None? || policy.dryRun || to.gate.disabled
    || exists k: nat :: from <= k < to.world.step && env.lag(k).Ok?
         && !Exceeds(env.lag(k).value, policy.gate.value.thresholdSeconds)
  }

  lemma LagGateClears(env: Env, policy: Policy, st: State)
    ensures var (x, st') := PassLagGateOnce(env, policy, st); x.Pass? ==> LagClear(env, policy, st.world.step, st')
  {
    hide WaitForLag, Exceeds, GateConfig.Deadline, GateConfig.Poll, World.Flag;
    if policy.gate.Some? {
      WaitForLagVerdict(env, policy.gate.value, policy.dryRun, st.gate, st.world);
    }
  }

  /** What must hold for a table to be taken up, in the order of the checks: the client was
      open, no shutdown was visible, the table was not handled, the lag gate was clear, and
      the lookup of active vacuums, the last step before the work, let it pass. */
  ghost predicate Clear(env: Env, policy: Policy, phase: Phase, already: set<Name>, t: Name, start: nat, at: State) {
    && !env.closed(start) && env.published(start + 1) == 0 && !(ConsultsSet(phase) && t in already) && !policy.dryRun
    && exists k: nat :: start + 2 <= k < at.world.step && LagClear(env, policy, start + 2, at) && env.sessions(k).Ok?
         && var found := env.sessions(k).value;
            (found == [] || !policy.skipActiveVacuum) && (Pids(found, false) == [] || policy.force)
  }

  lemma TakenUpOnlyWhenClear(env: Env, policy: Policy, phase: Phase, already: set<Name>, t: Name, st: State)
    ensures !Quietly(st.world, RunTable(env, policy, phase, already, t, st).1.world) ==>
              Clear(env, policy, phase, already, t, st.world.step,
                    PassGates(env, policy, phase, st.(world := st.world.Next(env).Next(env))).1)
  {
    hide Quietly, PassGates, RunTable, LagClear, Pids;
    var live := st.(world := st.world.Next(env).Next(env));
    QuietUnlessPassed(env, policy, phase, already, t, st);
    if PassGates(env, policy, phase, live).0.Pass? {
      GatesClear(env, policy, phase, live);
    }
  }

  lemma QuietUnlessPassed(env: Env, policy: Policy, phase: Phase, already: set<Name>, t: Name, st: State)
    ensures !Quietly(st.world, RunTable(env, policy, phase, already, t, st).1.world) ==>
              && !env.closed(st.world.step) && env.published(st.world.step + 1) == 0
              && !(ConsultsSet(phase) && t in already) && !policy.dryRun
              && PassGates(env, policy, phase, st.(world := st.world.Next(env).Next(env))).0.Pass?
  {
    hide PassGates, Maintain;
    GatesStep(env, policy, phase, st.(world := st.world.Next(env).Next(env)));
  }

  /** What both gates together establish. */
  lemma GatesClear(env: Env, policy: Policy, phase: Phase, live: State)
    requires PassGates(env, policy, phase, live).0.Pass?
    ensures var at := PassGates(env, policy, phase, live).1;
            exists k: nat :: live.world.step <= k < at.world.step && LagClear(env, policy, live.world.step, at)
                && env.sessions(k).Ok?
              && var found := env.sessions(k).value;
                 (found == [] || !policy.skipActiveVacuum) && (Pids(found, false) == [] || policy.force)
  {
    hide PassLagGateOnce, PassActiveVacuums, Pids, LagClear, Killed;
    var (_, b) := PassLagGate(env, policy, phase, live);
    var a := PassLagGateOnce(env, policy, live).1;
    LagGateClears(env, policy, live);
    LagGateStep(env, policy, live);
    if phase.AlsoTables? {
      LagGateClears(env, policy, a);
      LagGateStep(env, policy, a);
      LagClearLater(env, policy, live.world.step, a.world.step, b);
    }
    var (_, gated) := PassActiveVacuums(env, policy, b);
    ActiveVacuumKills(env, policy, b);
    ActiveVacuumStep(env, policy, b);
    LagClearKept(env, policy, live.world.step, b, gated);
    LookupTakesAStep(env, policy, b);
    assert env.sessions(b.world.step).Ok?;
  }

  lemma LagClearLater(env: Env, policy: Policy, from: nat, later: nat, to: State)
    requires from <= later && LagClear(env, policy, later, to)
    ensures LagClear(env, policy, from, to)
  {
  }

  lemma LagClearKept(env: Env, policy: Policy, from: nat, to: State, later: State)
    requires LagClear(env, policy, from, to) && to.world.step <= later.world.step
        && (to.gate.disabled ==> later.gate.disabled)
    ensures LagClear(env, policy, from, later)
  {
  }

  lemma LookupTakesAStep(env: Env, policy: Policy, st: State)
    ensures st.world.step < PassActiveVacuums(env, policy, st).1.world.step
  {
    hide Pids, KillAll;
    var w0 := st.world.Next(env);
    forall pids ensures KillAll(env, pids, w0).1.step >= w0.step { KillAllWaits(env, pids, w0); }
    forall p1, p2 ensures KillAll(env, p2, KillAll(env, p1, w0).1).1.step >= w0.step {
      KillAllWaits(env, p1, w0);
      KillAllWaits(env, p2, KillAll(env, p1, w0).1);
    }
  }

  // ------------------------------------------------------- statements after a shutdown

  /** How many statements were sent at a step at which the shutdown flag was already set. */
  function Late(env: Env, t: seq<Event>): nat {
    if t == [] then 0 else
      Late(env, t[..|t| - 1])
          + match t[|t| - 1] case Statement(_, _, at) => (if env.published(at) > 0 then 1 else 0) case _ => 0
  }

  lemma LateSnoc(env: Env, t: seq<Event>, e: Event)
    ensures Late(env, t + [e])
        == Late(env, t) + match e case Statement(_, _, at) => (if env.published(at) > 0 then 1 else 0) case _ => 0
  {
    assert (t + [e])[..|t|] == t;
  }

  lemma {:induction false} LateQuiet(env: Env, a: World, b: World)
    requires Quietly(a, b)
    ensures Late(env, b.trace) == Late(env, a.trace)
    decreases |b.trace|
  {
    hide Late;
    if |b.trace| > |a.trace| {
      var c := b.(trace := b.trace[..|b.trace| - 1]);
      LateQuiet(env, a, c);
      assert b.trace == c.trace + [b.trace[|b.trace| - 1]];
      LateSnoc(env, c.trace, b.trace[|b.trace| - 1]);
    } else {
      assert a.trace == b.trace;
    }
  }

  /** At most one statement more is late, and then the flag is set from here on. */
  ghost predicate LateStep(env: Env, a: World, b: World) {
    && a.step <= b.step && Late(env, a.trace) <= Late(env, b.trace) <= Late(env, a.trace) + 1
    && (Late(env, b.trace) > Late(env, a.trace) ==> b.Flag(env))
  }

  lemma CallLate(env: Env, phase: Phase, t: Name, w: World)
    requires env.Valid()
    ensures LateStep(env, w, Call(env, phase, t, w).1)
  {
    var ready := if CountsTuples(phase) then w.Next(env) else w;
    var (o, done) := Operate(env, phase, t, w);
    LateSnoc(env, w.trace, Statement(phase, t, ready.step));
    LateSnoc(env, done.trace, Called(o));
  }

  lemma {:induction false} RetryLate(env: Env, policy: RetryPolicy, phase: Phase, t: Name, w: World, attempt: nat,
        delay: nat)
    requires env.Valid()
    ensures LateStep(env, w, RetryLoop(env, policy, phase, t, w, attempt, delay).1)
    decreases policy.retries - attempt
  {
    hide Call, Late, Doubled, World.Interrupted;
    CallLate(env, phase, t, w);
    var (o, w') := Call(env, phase, t, w);
    if o.Some? && IsLockTimeout(o.value) && attempt < policy.retries {
      var checked := w'.Next(env);
      var waiting := checked.Emit(RetrySleep(delay));
      LateSnoc(env, checked.trace, RetrySleep(delay));
      var woken := waiting.Wait(env, delay * MILLISECOND);
      if !w'.Flag(env) && !waiting.Interrupted(env, delay * MILLISECOND) {
        RetryLate(env, policy, phase, t, woken, attempt + 1, Doubled(delay));
      }
    }
  }

  lemma BookQuiet(env: Env, phase: Phase, t: Name, outcome: Option<PgError>, st: State)
    ensures Quietly(st.world, Book(env, phase, t, outcome, st).1.world)
  {
    hide ClassifyOpError, World.Flag;
    forall status ensures Quietly(st.world, st.world.Emit(Logbook(phase, t, status))) {
      QuietSnoc(st.world, Logbook(phase, t, status));
    }
  }

  /** One table: a statement is late only if the flag was not yet set at the top of the loop,
      and then the loop is left at its next check. */
  lemma TableLate(env: Env, policy: Policy, phase: Phase, already: set<Name>, t: Name, st: State)
    requires env.Valid()
    ensures var (x, st') := RunTable(env, policy, phase, already, t, st);
            LateStep(env, st.world, st'.world)
            && (st.world.Flag(env) ==> Late(env, st'.world.trace) == Late(env, st.world.trace) && !x.NextTable?)
  {
    hide PassGates, WithRetry, Book, Late;
    var live := st.(world := st.world.Next(env).Next(env));
    GatesStep(env, policy, phase, live);
    var (g, gated) := PassGates(env, policy, phase, live);
    LateQuiet(env, live.world, gated.world);
    LateSnoc(env, st.world.trace, ClientClosed);
    if g.Pass? {
      var w := gated.world.Emit(Begin(phase, t));
      LateSnoc(env, gated.world.trace, Begin(phase, t));
      RetriedLate(env, policy.retry, phase, t, w);
      var (o, w') := WithRetry(env, policy.retry, phase, t, w);
      BookQuiet(env, phase, t, o, gated.(world := w'));
      LateQuiet(env, w', Book(env, phase, t, o, gated.(world := w')).1.world);
    }
  }

  lemma RetriedLate(env: Env, policy: RetryPolicy, phase: Phase, t: Name, w: World)
    requires env.Valid()
    ensures LateStep(env, w, WithRetry(env, policy, phase, t, w).1)
  {
    RetryLate(env, policy, phase, t, w, 0, policy.delayMs);
  }

  /** At most one statement so far is late, and only with the flag set. */
  ghost predicate AtMostOneLate(env: Env, w: World) {
    Late(env, w.trace) <= 1 && (Late(env, w.trace) == 1 ==> w.Flag(env))
  }

  lemma {:induction false} TablesLate(env: Env, policy: Policy, phase: Phase, already: set<Name>, tables: seq<Name>,
        i: nat, st: State)
    requires env.Valid() && i <= |tables| && AtMostOneLate(env, st.world)
    ensures AtMostOneLate(env, RunTables(env, policy, phase, already, tables, i, st).1.world)
    ensures st.world.step <= RunTables(env, policy, phase, already, tables, i, st).1.world.step
    decreases |tables| - i
  {
    hide RunTable, Late;
    if i < |tables| {
      TableLate(env, policy, phase, already, tables[i], st);
      var (x, st') := RunTable(env, policy, phase, already, tables[i], st);
      if x.NextTable? {
        TablesLate(env, policy, phase, already, tables, i + 1, st');
      }
    }
  }

  // ------------------------------------------------------------------- tables taken up

  function Begins(t: seq<Event>, phase: Phase, table: Name): nat {
    if t == [] then 0 else Begins(t[..|t| - 1], phase, table) + if t[|t| - 1] == Begin(phase, table) then 1 else 0
  }

  lemma BeginsSnoc(t: seq<Event>, e: Event, phase: Phase, table: Name)
    ensures Begins(t + [e], phase, table) == Begins(t, phase, table) + if e == Begin(phase, table) then 1 else 0
  {
    assert (t + [e])[..|t|] == t;
  }

  /** Only a table's own statements, and quiet steps. */
  ghost predicate WorksOn(phase: Phase, t: Name, a: World, b: World) {
    && a.step <= b.step && a.trace <= b.trace
    && forall i :: |a.trace| <= i < |b.trace| ==>
       Quiet(b.trace[i]) || (b.trace[i].Statement? && b.trace[i].phase == phase && b.trace[i].table == t)
  }

  lemma WorksOnTrans(phase: Phase, t: Name, a: World, b: World, c: World)
    requires WorksOn(phase, t, a, b) && WorksOn(phase, t, b, c)
    ensures WorksOn(phase, t, a, c)
  {
    assert forall i :: |a.trace| <= i < |b.trace| ==> b.trace[i] == c.trace[i];
  }

  lemma {:induction false} BeginsKept(p: Phase, n: Name, phase: Phase, t: Name, a: World, b: World)
    requires WorksOn(phase, t, a, b)
    ensures Begins(b.trace, p, n) == Begins(a.trace, p, n)
    decreases |b.trace|
  {
    hide Begins;
    if |b.trace| > |a.trace| {
      var c := b.(trace := b.trace[..|b.trace| - 1]);
      BeginsKept(p, n, phase, t, a, c);
      assert b.trace == c.trace + [b.trace[|b.trace| - 1]];
      BeginsSnoc(c.trace, b.trace[|b.trace| - 1], p, n);
    } else {
      assert a.trace == b.trace;
    }
  }

  /** All that the retried operation does: statements for its table, outcomes, back-off. */
  predicate Tries(phase: Phase, t: Name, e: Event) {
    (e.Statement? && e.phase == phase && e.table == t) || e.Called? || e.RetrySleep?
  }

  ghost predicate Retrying(phase: Phase, t: Name, a: World, b: World) {
    && a.step <= b.step && a.trace <= b.trace
    && forall i :: |a.trace| <= i < |b.trace| ==> Tries(phase, t, b.trace[i])
  }

  lemma RetryingTrans(phase: Phase, t: Name, a: World, b: World, c: World)
    requires Retrying(phase, t, a, b) && Retrying(phase, t, b, c)
    ensures Retrying(phase, t, a, c)
  {
    assert forall i :: |a.trace| <= i < |b.trace| ==> b.trace[i] == c.trace[i];
  }

  lemma CallTries(env: Env, phase: Phase, t: Name, w: World)
    ensures Retrying(phase, t, w, Call(env, phase, t, w).1)
  {
  }

  lemma BackOffTries(env: Env, phase: Phase, t: Name, w: World, delay: nat)
    ensures Retrying(phase, t, w, w.Next(env))
        && Retrying(phase, t, w, w.Next(env).Emit(RetrySleep(delay)).Wait(env, delay * MILLISECOND))
  {
    hide World.Interrupted;
  }

  lemma {:induction false} RetryTries(env: Env, policy: RetryPolicy, phase: Phase, t: Name, w: World, attempt: nat,
        delay: nat)
    ensures Retrying(phase, t, w, RetryLoop(env, policy, phase, t, w, attempt, delay).1)
    decreases policy.retries - attempt
  {
    hide Call, Doubled, World.Interrupted, World.Wait, World.Flag, Retrying;
    CallTries(env, phase, t, w);
    var (o, w') := Call(env, phase, t, w);
    BackOffTries(env, phase, t, w', delay);
    RetryingTrans(phase, t, w, w', w'.Next(env));
    if o.Some? && IsLockTimeout(o.value) && attempt < policy.retries && !w'.Flag(env) {
      var waiting := w'.Next(env).Emit(RetrySleep(delay));
      var woken := waiting.Wait(env, delay * MILLISECOND);
      RetryingTrans(phase, t, w, w', woken);
      if !waiting.Interrupted(env, delay * MILLISECOND) {
        RetryTries(env, policy, phase, t, woken, attempt + 1, Doubled(delay));
        RetryingTrans(phase, t, w, woken, RetryLoop(env, policy, phase, t, woken, attempt + 1, Doubled(delay)).1);
      }
    }
  }

  /** One table either stays untouched, or is begun once and then worked on; it is begun only
      if the phase's set does not hold it, and never in a dry run. */
  ghost predicate TableStep(policy: Policy, phase: Phase, already: set<Name>, t: Name, a: World, b: World) {
    || Quietly(a, b)
    || (!policy.dryRun && !(ConsultsSet(phase) && t in already)
        && exists c: World :: Quietly(a, c) && WorksOn(phase, t, c.Emit(Begin(phase, t)), b))
  }

  lemma TableTakesUp(env: Env, policy: Policy, phase: Phase, already: set<Name>, t: Name, st: State)
    ensures TableStep(policy, phase, already, t, st.world, RunTable(env, policy, phase, already, t, st).1.world)
  {
    hide PassGates, RetryLoop, Book, World.Flag;
    var live := st.(world := st.world.Next(env).Next(env));
    GatesStep(env, policy, phase, live);
    var (g, gated) := PassGates(env, policy, phase, live);
    QuietlyTrans(st.world, live.world, gated.world);
    if g.Pass? && !policy.dryRun {
      var w := gated.world.Emit(Begin(phase, t));
      RetryTries(env, policy.retry, phase, t, w, 0, policy.retry.delayMs);
      var (o, w') := WithRetry(env, policy.retry, phase, t, w);
      BookQuiet(env, phase, t, o, gated.(world := w'));
      var end := Book(env, phase, t, o, gated.(world := w')).1.world;
      WorksOnTrans(phase, t, w, w', end);
    }
  }

  ghost predicate NoDup(names: seq<Name>) { forall i, j :: 0 <= i < j < |names| ==> names[i] != names[j] }

  /** May this runner still begin table `n` of `p`, from candidate `i` on? */
  ghost predicate MayBegin(phase: Phase, already: set<Name>, tables: seq<Name>, i: nat, p: Phase, n: Name)
    requires i <= |tables|
  {
    p == phase && n in tables[i..] && !(ConsultsSet(phase) && n in already)
  }

  /** What happened to the trace: no phase was entered, each table was begun at most once
      more, and only where this runner may; statements belong to tables that were begun. */
  ghost predicate TablesStep(phase: Phase, already: set<Name>, tables: seq<Name>, i: nat, a: World, b: World)
    requires i <= |tables|
  {
    && a.step <= b.step && a.trace <= b.trace
    && (forall k :: |a.trace| <= k < |b.trace| ==> !b.trace[k].Found?)
    && (forall p, n :: Begins(a.trace, p, n) <= Begins(b.trace, p, n)
                       <= Begins(a.trace, p, n) + if MayBegin(phase, already, tables, i, p, n) then 1 else 0)
    && (forall k :: |a.trace| <= k < |b.trace| && b.trace[k].Statement? ==>
       Begins(b.trace, b.trace[k].phase, b.trace[k].table) > 0)
  }

  lemma TableBegins(policy: Policy, phase: Phase, already: set<Name>, t: Name, a: World, b: World, p: Phase, n: Name)
    requires TableStep(policy, phase, already, t, a, b)
    ensures Begins(a.trace, p, n) <= Begins(b.trace, p, n)
            <= Begins(a.trace, p, n) + if p == phase && n == t && !(ConsultsSet(phase) && t in already) then 1 else 0
  {
    if Quietly(a, b) {
      BeginsKept(p, n, phase, t, a, b);
    } else {
      var c: World :| Quietly(a, c) && WorksOn(phase, t, c.Emit(Begin(phase, t)), b);
      BeginsKept(p, n, phase, t, a, c);
      BeginsSnoc(c.trace, Begin(phase, t), p, n);
      BeginsKept(p, n, phase, t, c.Emit(Begin(phase, t)), b);
    }
  }

  lemma TableTrace(policy: Policy, phase: Phase, already: set<Name>, t: Name, a: World, b: World)
    requires TableStep(policy, phase, already, t, a, b)
    ensures a.step <= b.step && a.trace <= b.trace
    ensures forall k :: |a.trace| <= k < |b.trace| ==> !b.trace[k].Found?
    ensures forall k :: |a.trace| <= k < |b.trace| && b.trace[k].Statement? ==>
        Begins(b.trace, b.trace[k].phase, b.trace[k].table) > 0
  {
    hide Begins;
    if !Quietly(a, b) {
      var c: World :| Quietly(a, c) && WorksOn(phase, t, c.Emit(Begin(phase, t)), b);
      var d := c.Emit(Begin(phase, t));
      BeginsSnoc(c.trace, Begin(phase, t), phase, t);
      BeginsKept(phase, t, phase, t, d, b);
      forall k | |a.trace| <= k < |b.trace|
        ensures !b.trace[k].Found?
        ensures b.trace[k].Statement? ==> b.trace[k].phase == phase && b.trace[k].table == t
      {
        if k < |d.trace| {
          assert b.trace[k] == d.trace[k];
          assert k < |c.trace| ==> d.trace[k] == c.trace[k];
        }
      }
    }
  }

  lemma {:induction false} TablesTakeUp(env: Env, policy: Policy, phase: Phase, already: set<Name>,
        tables: seq<Name>, i: nat, st: State)
    requires i <= |tables| && NoDup(tables)
    ensures TablesStep(phase, already, tables, i, st.world,
        RunTables(env, policy, phase, already, tables, i, st).1.world)
    decreases |tables| - i
  {
    hide RunTable, TableStep, Begins, ConsultsSet;
    if i < |tables| {
      var t := tables[i];
      var (x, st') := RunTable(env, policy, phase, already, t, st);
      TableTakesUp(env, policy, phase, already, t, st);
      TableTrace(policy, phase, already, t, st.world, st'.world);
      assert tables[i..] == [t] + tables[i + 1..];
      forall p, n ensures Begins(st.world.trace, p, n) <= Begins(st'.world.trace, p, n)
                          <= Begins(st.world.trace, p, n)
                             + if p == phase && n == t && !(ConsultsSet(phase) && t in already) then 1 else 0
      {
        TableBegins(policy, phase, already, t, st.world, st'.world, p, n);
      }
      if x.NextTable? {
        TablesTakeUp(env, policy, phase, already, tables, i + 1, st');
        TablesCons(phase, already, tables, i, st.world, st'.world,
            RunTables(env, policy, phase, already, tables, i + 1, st').1.world);
      }
    }
  }

  /** One table, and then the tables behind it. */
  lemma TablesCons(phase: Phase, already: set<Name>, tables: seq<Name>, i: nat, a: World, b: World, c: World)
    requires i < |tables| && NoDup(tables) && TablesStep(phase, already, tables, i + 1, b, c)
    requires a.step <= b.step && a.trace <= b.trace
    requires forall k :: |a.trace| <= k < |b.trace| ==> !b.trace[k].Found?
    requires forall k :: |a.trace| <= k < |b.trace| && b.trace[k].Statement? ==>
        Begins(b.trace, b.trace[k].phase, b.trace[k].table) > 0
    requires forall p, n :: Begins(a.trace, p, n) <= Begins(b.trace, p, n)
                            <= Begins(a.trace, p, n)
                               + if p == phase && n == tables[i] && !(ConsultsSet(phase) && n in already) then 1 else 0
    ensures TablesStep(phase, already, tables, i, a, c)
  {
    hide Begins, ConsultsSet;
    assert tables[i..] == [tables[i]] + tables[i + 1..];
    assert tables[i] !in tables[i + 1..];
    assert forall k :: |a.trace| <= k < |b.trace| ==> c.trace[k] == b.trace[k];
  }

  // -------------------------------------------------------------------------- accounting

  /** One table's bookkeeping: at most one counter moves, by one; outside a dry run a table
      that is passed moves exactly one; a stop means a shutdown; a recorded gate skip is a
      booked skip; a dry run does nothing at all. */
  ghost predicate Booked(env: Env, policy: Policy, st: State, x: Exit, st': State) {
    && st'.summary.total == st.summary.total
    && st.summary.succeeded <= st'.summary.succeeded && st.summary.failed <= st'.summary.failed
       && st.summary.skipped <= st'.summary.skipped
    && st'.summary.Done() <= st.summary.Done() + 1
    && (x.NextTable? && !policy.dryRun ==> st'.summary.Done() == st.summary.Done() + 1)
    && (x.Stop? && env.Valid() ==> st'.world.Flag(env))
    && st.gate.skipped <= st'.gate.skipped
       && st'.gate.skipped - st.gate.skipped <= st'.summary.skipped - st.summary.skipped
    && (st.gate.disabled ==> st'.gate.disabled)
    && (policy.dryRun ==> Idle(st.world.trace, st'.world.trace) && st'.summary.succeeded == st.summary.succeeded
                          && st'.summary.failed == st.summary.failed)
    && (policy.dryRun && !x.Abort? ==> st'.world.trace == st.world.trace)
  }

  /** Nothing was done, at most a closed client noticed. */
  predicate Idle(a: seq<Event>, b: seq<Event>) { b == a || b == a + [ClientClosed] }

  lemma BookBooks(env: Env, phase: Phase, t: Name, outcome: Option<PgError>, st: State)
    ensures var (x, st') := Book(env, phase, t, outcome, st);
            && st'.summary.total == st.summary.total && st'.gate == st.gate
            && st.summary.succeeded <= st'.summary.succeeded && st.summary.failed <= st'.summary.failed
               && st.summary.skipped <= st'.summary.skipped
            && st'.summary.Done() == st.summary.Done() + (if x.Abort? then 0 else 1)
            && (x.Stop? && env.Valid() ==> st'.world.Flag(env))
  {
  }

  lemma TableBooks(env: Env, policy: Policy, phase: Phase, already: set<Name>, t: Name, st: State)
    ensures Booked(env, policy, st, RunTable(env, policy, phase, already, t, st).0,
        RunTable(env, policy, phase, already, t, st).1)
  {
    hide PassGates, WithRetry, Book, ConsultsSet;
    var live := st.(world := st.world.Next(env).Next(env));
    GatesStep(env, policy, phase, live);
    var (g, gated) := PassGates(env, policy, phase, live);
    if g.Pass? && !policy.dryRun {
      var (o, w') := WithRetry(env, policy.retry, phase, t, gated.world.Emit(Begin(phase, t)));
      BookBooks(env, phase, t, o, gated.(world := w'));
    }
  }

  lemma {:induction false} TablesBook(env: Env, policy: Policy, phase: Phase, already: set<Name>, tables: seq<Name>,
        i: nat, st: State)
    requires i <= |tables|
    ensures var (e, st') := RunTables(env, policy, phase, already, tables, i, st);
            && st'.summary.total == st.summary.total
            && st.summary.Done() <= st'.summary.Done() <= st.summary.Done() + |tables| - i
            && (e.None? && !policy.dryRun && env.Valid() && !st'.world.Flag(env) ==>
               st'.summary.Done() == st.summary.Done() + |tables| - i)
            && st.summary.skipped <= st'.summary.skipped
            && st.gate.skipped <= st'.gate.skipped
               && st'.gate.skipped - st.gate.skipped <= st'.summary.skipped - st.summary.skipped
            && (st.gate.disabled ==> st'.gate.disabled)
            && (policy.dryRun ==> Idle(st.world.trace, st'.world.trace) && st'.summary.succeeded == st.summary.succeeded
                                  && st'.summary.failed == st.summary.failed)
    decreases |tables| - i
  {
    hide RunTable, World.Flag;
    if i < |tables| {
      TableBooks(env, policy, phase, already, tables[i], st);
      var (x, st') := RunTable(env, policy, phase, already, tables[i], st);
      if x.NextTable? {
        TablesBook(env, policy, phase, already, tables, i + 1, st');
      }
    }
  }

  /** A runner's summary, for every environment: the three outcomes never exceed the total,
      and add up to it unless the run was dry or a shutdown arrived; a dry run succeeds and
      fails at nothing and does nothing: no statement, kill, sleep or logbook row. */
  lemma Accounting(env: Env, policy: Policy, phase: Phase, already: set<Name>, tables: seq<Name>, world: World,
        gate: Gate)
    ensures var (e, st) := RunTables(env, policy, phase, already, tables, 0,
            State(world, gate, Summary(|tables|, 0, 0, 0)));
            && st.summary.total == |tables| && st.summary.Done() <= st.summary.total
            && (e.None? && !policy.dryRun && env.Valid() && !st.world.Flag(env) ==>
               st.summary.Done() == st.summary.total)
            && st.gate.skipped - gate.skipped <= st.summary.skipped
            && (policy.dryRun ==>
               Idle(world.trace, st.world.trace) && st.summary.succeeded == 0 && st.summary.failed == 0)
  {
    TablesBook(env, policy, phase, already, tables, 0, State(world, gate, Summary(|tables|, 0, 0, 0)));
  }
}
