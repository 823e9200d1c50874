/** How long a run can wait in the lag gate: for one table, for one phase, and over all. */
module WaitBudget {
  import opened Text
  import opened Merge
  import opened World
  import opened LagGate
  import opened Retry
  import opened Runner
  import opened RunnerLaws
  import opened Run
  import opened RunLaws

  /** What one table may wait: the configured wait, twice in phase 8, where the gate is passed
      twice; nothing without a gate or in a dry run. */
  function TableBudget(policy: Policy, phase: Phase): nat {
    if policy.gate.None? || policy.dryRun then 0
    else if phase.AlsoTables? then 2 * policy.gate.value.Deadline()
    else policy.gate.value.Deadline()
  }

  lemma {:induction false} NoNaps(a: seq<Event>, b: seq<Event>)
    requires a <= b && forall k :: |a| <= k < |b| ==> !b[k].LagSleep?
    ensures NapTotal(b) == NapTotal(a)
    decreases |b|
  {
    if |b| > |a| {
      NoNaps(a, b[..|b| - 1]);
    } else {
      assert a == b;
    }
  }

  lemma LagGateNaps(env: Env, policy: Policy, st: State)
    ensures NapTotal(PassLagGateOnce(env, policy, st).1.world.trace)
         <= NapTotal(st.world.trace) + if policy.gate.None? || policy.dryRun then 0 else policy.gate.value.Deadline()
  {
    hide WaitForLag, NapTotal, NapCount, Exceeds, World.Flag, GateConfig.Deadline, GateConfig.Poll;
    if policy.gate.Some? {
      WaitForLagVerdict(env, policy.gate.value, policy.dryRun, st.gate, st.world);
    }
  }

  /** Looking for active vacuums and killing them takes no wait. */
  lemma {:induction false} KillsDoNotNap(env: Env, pids: seq<int>, w: World)
    ensures var b := KillAll(env, pids, w).1.trace;
            w.trace <= b && forall k :: |w.trace| <= k < |b| ==> b[k].KilledBackend?
    decreases |pids|
  {
    if pids != [] {
      KillsDoNotNap(env, pids[1..], w.Emit(KilledBackend(pids[0])).Next(env));
    }
  }

  lemma ActiveVacuumNaps(env: Env, policy: Policy, st: State)
    ensures NapTotal(PassActiveVacuums(env, policy, st).1.world.trace) == NapTotal(st.world.trace)
  {
    hide Pids, KillAll, NapTotal;
    var w0 := st.world.Next(env);
    forall pids ensures NapTotal(KillAll(env, pids, w0).1.trace) == NapTotal(w0.trace) {
      KillsDoNotNap(env, pids, w0);
      NoNaps(w0.trace, KillAll(env, pids, w0).1.trace);
    }
    forall p1, p2
      ensures NapTotal(KillAll(env, p2, KillAll(env, p1, w0).1).1.trace) == NapTotal(KillAll(env, p1, w0).1.trace)
    {
      var w := KillAll(env, p1, w0).1;
      KillsDoNotNap(env, p2, w);
      NoNaps(w.trace, KillAll(env, p2, w).1.trace);
    }
  }

  lemma GatesNap(env: Env, policy: Policy, phase: Phase, st: State)
    ensures NapTotal(PassGates(env, policy, phase, st).1.world.trace)
        <= NapTotal(st.world.trace) + TableBudget(policy, phase)
  {
    hide PassLagGateOnce, PassActiveVacuums, NapTotal, GateConfig.Deadline;
    var (x, a) := PassLagGateOnce(env, policy, st);
    LagGateNaps(env, policy, st);
    LagGateNaps(env, policy, a);
    ActiveVacuumNaps(env, policy, a);
    ActiveVacuumNaps(env, policy, PassLagGateOnce(env, policy, a).1);
  }

  /** One table waits in the lag gate no longer than its budget: the work itself and its
      bookkeeping add nothing to it. */
  lemma TableNaps(env: Env, policy: Policy, phase: Phase, already: set<Name>, t: Name, st: State)
    ensures NapTotal(RunTable(env, policy, phase, already, t, st).1.world.trace)
        <= NapTotal(st.world.trace) + TableBudget(policy, phase)
  {
    hide PassGates, RetryLoop, Book, NapTotal, World.Flag, TableBudget;
    var live := st.(world := st.world.Next(env).Next(env));
    GatesNap(env, policy, phase, live);
    NoNaps(st.world.trace, st.world.trace + [ClientClosed]);
    var (g, gated) := PassGates(env, policy, phase, live);
    if g.Pass? && !policy.dryRun {
      var w := gated.world.Emit(Begin(phase, t));
      NoNaps(gated.world.trace, w.trace);
      RetryTries(env, policy.retry, phase, t, w, 0, policy.retry.delayMs);
      var (o, w') := WithRetry(env, policy.retry, phase, t, w);
      NoNaps(w.trace, w'.trace);
      BookNapsNot(env, phase, t, o, gated.(world := w'));
    }
  }

  lemma BookNapsNot(env: Env, phase: Phase, t: Name, outcome: Option<PgError>, st: State)
    ensures NapTotal(Book(env, phase, t, outcome, st).1.world.trace) == NapTotal(st.world.trace)
  {
    hide ClassifyOpError, World.Flag, NapTotal;
    forall status ensures NapTotal(st.world.trace + [Logbook(phase, t, status)]) == NapTotal(st.world.trace) {
      NoNaps(st.world.trace, st.world.trace + [Logbook(phase, t, status)]);
    }
  }

  lemma {:induction false} TablesNap(env: Env, policy: Policy, phase: Phase, already: set<Name>, tables: seq<Name>,
        i: nat, st: State)
    requires i <= |tables|
    ensures NapTotal(RunTables(env, policy, phase, already, tables, i, st).1.world.trace)
         <= NapTotal(st.world.trace) + (|tables| - i) * TableBudget(policy, phase)
    decreases |tables| - i
  {
    hide RunTable, NapTotal, TableBudget;
    if i < |tables| {
      TableNaps(env, policy, phase, already, tables[i], st);
      var (x, st') := RunTable(env, policy, phase, already, tables[i], st);
      OneMore(|tables| - i, TableBudget(policy, phase));
      if x.NextTable? {
        TablesNap(env, policy, phase, already, tables, i + 1, st');
      }
    }
  }

  lemma OneMore(n: nat, budget: nat)
    requires n > 0
    ensures n * budget == budget + (n - 1) * budget && (n - 1) * budget >= 0
  {
  }

  /** What a run may wait for the tables it has matched so far. */
  function Budget(policy: Policy, t: seq<Event>): nat {
    if t == [] then 0 else
      Budget(policy, t[..|t| - 1])
      + match t[|t| - 1] case Found(p, tables) => |tables| * TableBudget(policy, p) case _ => 0
  }

  lemma BudgetSnoc(policy: Policy, t: seq<Event>, p: Phase, tables: seq<Name>)
    ensures Budget(policy, t + [Found(p, tables)]) == Budget(policy, t) + |tables| * TableBudget(policy, p)
  {
    assert (t + [Found(p, tables)])[..|t|] == t;
  }

  lemma {:induction false} BudgetKept(policy: Policy, a: seq<Event>, b: seq<Event>)
    requires a <= b && forall k :: |a| <= k < |b| ==> !b[k].Found?
    ensures Budget(policy, b) == Budget(policy, a)
    decreases |b|
  {
    if |b| > |a| {
      BudgetKept(policy, a, b[..|b| - 1]);
    } else {
      assert a == b;
    }
  }

  lemma PhaseNaps(env: Env, cfg: Config, p: Phase, rs: RunState)
    requires NapTotal(rs.world.trace) <= Budget(cfg.policy, rs.world.trace)
    ensures var t := RunPhase(env, cfg, p, rs).1.world.trace; NapTotal(t) <= Budget(cfg.policy, t)
  {
    hide RunTables, Discover, Already, Selected, Remember, NapTotal, Budget, TableBudget, World.Flag;
    if Selected(cfg, p) && !rs.world.Flag(env) {
      var checked := rs.world.Next(env);
      DiscoverQuiet(env, cfg, p, checked);
      var (found, w) := Discover(env, cfg, p, checked);
      if found.Ok? {
        var m := w.Emit(Found(p, found.value));
        var st := State(m, rs.gate, Summary(|found.value|, 0, 0, 0));
        NoNaps(w.trace, m.trace);
        BudgetSnoc(cfg.policy, w.trace, p, found.value);
        TablesNap(env, cfg.policy, p, Already(p, rs), found.value, 0, st);
        TablesFindNothing(env, cfg.policy, p, Already(p, rs), found.value, 0, st);
        BudgetKept(cfg.policy, m.trace,
            RunTables(env, cfg.policy, p, Already(p, rs), found.value, 0, st).1.world.trace);
        RememberKeepsWorld(p, found.value, rs);
      }
    }
  }

  lemma {:induction false} RunFromNaps(env: Env, cfg: Config, n: nat, rs: RunState)
    requires 1 <= n <= 9 && NapTotal(rs.world.trace) <= Budget(cfg.policy, rs.world.trace)
    ensures var t := RunFrom(env, cfg, n, rs).1.world.trace; NapTotal(t) <= Budget(cfg.policy, t)
    decreases 9 - n
  {
    hide RunPhase, NapTotal, Budget;
    if n < 9 {
      PhaseNaps(env, cfg, PhaseAt(n), rs);
      if RunPhase(env, cfg, PhaseAt(n), rs).0.None? {
        RunFromNaps(env, cfg, n + 1, RunPhase(env, cfg, PhaseAt(n), rs).1);
      }
    }
  }

  /** A whole run waits in the lag gate at most the configured wait for every table matched,
      and at most twice that for every table listed explicitly; a dry run does not wait. */
  lemma RunWaitsWithinBudget(env: Env, cfg: Config, w: World, gate: Gate)
    requires w.trace == []
    ensures var t := Main(env, cfg, w, gate).1.world.trace; NapTotal(t) <= Budget(cfg.policy, t)
  {
    hide RunFrom;
    RunFromNaps(env, cfg, 1, Start(w, gate));
  }

  // --------------------------------------------------- the wait documented for one table

  /** The wait that the command line documents as the most for one table. */
  function OneWait(policy: Policy): nat { if policy.gate.None? then 0 else policy.gate.value.Deadline() }

  ghost predicate WithinOneWait(env: Env, policy: Policy, phase: Phase, already: set<Name>, t: Name, st: State) {
    NapTotal(RunTable(env, policy, phase, already, t, st).1.world.trace) <= NapTotal(st.world.trace) + OneWait(policy)
  }

  /** Standbys that lag more than allowed, except when looked at in step 5: the look after the
      first nap of the first table. Steps take no time. */
  function Relapsing(threshold: real): Env {
    Env(_ => 0, _ => false, _ => false, _ => None,
        k => Ok(if k == 5 then Unobservable else Observed([Some(threshold + 1.0)])),
        _ => Ok([]), _ => Ok([]), _ => Ok([]), _ => Ok([]), _ => 0, _ => false)
  }

  lemma LagsBehind(threshold: real)
    ensures Exceeds(Observed([Some(threshold + 1.0)]), threshold) && !Exceeds(Unobservable, threshold)
  {
    var lags := [Some(threshold + 1.0)];
    assert MaxLag(lags) >= LagOf(lags[0]);
  }

  /** While the lag stays, a turn naps, costs no other time, and ends the loop only at the
      deadline. */
  lemma LaggingTurn(cfg: GateConfig, w: World, started: nat)
    requires started <= w.clock && Remaining(cfg, w, started) > 0 && w.step > 5
    ensures var env := Relapsing(cfg.thresholdSeconds); var (o, w') := Turn(env, cfg, w, started);
            && w'.step > w.step && started <= w'.clock
            && Remaining(cfg, w', started) == Remaining(cfg, w, started) - Nap(cfg, w, started)
            && (o.StillLagging? || o.Expired?) && (o.Expired? ==> Remaining(cfg, w', started) == 0)
            && NapTotal(w'.trace) == NapTotal(w.trace) + Nap(cfg, w, started)
  {
    hide Exceeds, NapTotal, NapCount, GateConfig.Deadline, GateConfig.Poll;
    LagsBehind(cfg.thresholdSeconds);
    TurnNaps(Relapsing(cfg.thresholdSeconds), cfg, w, started);
  }

  /** Lag that stays uses up the whole wait, and the table is skipped. */
  lemma {:induction false} LaggingLoop(cfg: GateConfig, g: Gate, w: World, started: nat)
    requires started <= w.clock && w.step > 5
    ensures var r := WaitLoop(Relapsing(cfg.thresholdSeconds), cfg, g, w, started);
            r.verdict == Ok(SkipTable) && NapTotal(r.world.trace) == NapTotal(w.trace) + Remaining(cfg, w, started)
    decreases Remaining(cfg, w, started)
  {
    hide Turn, NapTotal, GateConfig.Deadline, GateConfig.Poll;
    var top := w.Next(Relapsing(cfg.thresholdSeconds));
    if Remaining(cfg, top, started) > 0 {
      LaggingTurn(cfg, top, started);
      var (o, w') := Turn(Relapsing(cfg.thresholdSeconds), cfg, top, started);
      if o.StillLagging? {
        LaggingLoop(cfg, g, w', started);
      }
    }
  }

  /** The first pass: one nap, and the lag is gone at the next look. */
  lemma FirstPass(cfg: GateConfig)
    requires cfg.maxWaitSeconds > 0
    ensures var r := WaitForLag(Relapsing(cfg.thresholdSeconds), cfg, false, Gate(false, 0, 0), World(2, 0, 0, []));
            && r.verdict == Ok(Proceed) && !r.gate.disabled && r.world.step == 6
            && NapTotal(r.world.trace) == Min(cfg.Poll(), cfg.Deadline())
  {
    hide Exceeds, NapTotal, NapCount, GateConfig.Deadline, GateConfig.Poll;
    var env, w := Relapsing(cfg.thresholdSeconds), World(4, 0, 0, []);
    LagsBehind(cfg.thresholdSeconds);
    DeadlineSign(cfg);
    assert World(2, 0, 0, []).Next(env).Next(env) == w && Remaining(cfg, w, 0) == cfg.Deadline();
    TurnNaps(env, cfg, w, 0);
    NothingNapped();
  }

  lemma NothingNapped()
    ensures NapTotal([]) == 0
  {
  }

  /** The second pass: the lag is back, and stays. */
  lemma SecondPass(cfg: GateConfig, g: Gate, w: World)
    requires cfg.maxWaitSeconds > 0 && !g.disabled && w.step >= 6
    ensures var r := WaitForLag(Relapsing(cfg.thresholdSeconds), cfg, false, g, w);
            r.verdict == Ok(SkipTable) && NapTotal(r.world.trace) == NapTotal(w.trace) + cfg.Deadline()
  {
    hide Exceeds, NapTotal, WaitLoop, GateConfig.Deadline, GateConfig.Poll;
    LagsBehind(cfg.thresholdSeconds);
    var w' := w.Next(Relapsing(cfg.thresholdSeconds));
    LaggingLoop(cfg, g, w', w'.clock);
  }

  const FRESH: State := State(World(0, 0, 0, []), Gate(false, 0, 0), Summary(1, 0, 0, 0))

  /** Phase 8 exceeds the documented wait for one table, whatever the settings of a gate that
      waits at all: by one poll interval at least, and twofold if that is the whole wait. */
  lemma WaitsTwice(policy: Policy, t: Name)
    requires policy.gate.Some? && !policy.dryRun && policy.gate.value.maxWaitSeconds > 0
    ensures var cfg := policy.gate.value;
            var end := RunTable(Relapsing(cfg.thresholdSeconds), policy, AlsoTables, {}, t, FRESH).1.world;
            NapTotal(end.trace) == cfg.Deadline() + Min(cfg.Poll(), cfg.Deadline())
  {
    hide WaitForLag, PassActiveVacuums, Maintain, NapTotal, GateConfig.Deadline, GateConfig.Poll;
    var cfg := policy.gate.value;
    var env := Relapsing(cfg.thresholdSeconds);
    assert FRESH.world.Next(env).Next(env) == World(2, 0, 0, []);
    FirstPass(cfg);
    var first := WaitForLag(env, cfg, false, Gate(false, 0, 0), World(2, 0, 0, []));
    SecondPass(cfg, first.gate, first.world);
  }

  /** "Max wait per table for replica lag": kept on every tape and from every state exactly
      outside phase 8, or without a gate that waits. */
  lemma OneWaitExactly(policy: Policy, phase: Phase)
    ensures (forall env: Env, already: set<Name>, t: Name, st: State :: env.Valid() ==>
               WithinOneWait(env, policy, phase, already, t, st))
       <==> !phase.AlsoTables? || policy.gate.None? || policy.dryRun || policy.gate.value.maxWaitSeconds == 0
  {
    hide RunTable, NapTotal, Env.Valid, GateConfig.Poll, WithinOneWait;
    if !phase.AlsoTables? || policy.gate.None? || policy.dryRun || policy.gate.value.maxWaitSeconds == 0 {
      forall env: Env, already: set<Name>, t: Name, st: State
        ensures WithinOneWait(env, policy, phase, already, t, st)
      {
        WithinBudget(env, policy, phase, already, t, st);
      }
    } else {
      var env, t := Relapsing(policy.gate.value.thresholdSeconds), Name("", "");
      WaitsTooLong(policy, t);
      RelapsingValid(policy.gate.value.thresholdSeconds);
      assert !WithinOneWait(env, policy, phase, {}, t, FRESH);
    }
  }

  lemma WithinBudget(env: Env, policy: Policy, phase: Phase, already: set<Name>, t: Name, st: State)
    requires !phase.AlsoTables? || policy.gate.None? || policy.dryRun || policy.gate.value.maxWaitSeconds == 0
    ensures WithinOneWait(env, policy, phase, already, t, st)
  {
    hide RunTable, NapTotal;
    TableNaps(env, policy, phase, already, t, st);
  }

  lemma WaitsTooLong(policy: Policy, t: Name)
    requires policy.gate.Some? && !policy.dryRun && policy.gate.value.maxWaitSeconds > 0
    ensures !WithinOneWait(Relapsing(policy.gate.value.thresholdSeconds), policy, AlsoTables, {}, t, FRESH)
  {
    hide RunTable, NapTotal;
    WaitsTwice(policy, t);
    NothingNapped();
  }

  lemma RelapsingValid(threshold: real)
    ensures Relapsing(threshold).Valid()
  {
  }
}
