/** Which errors end a run, and which of them keep the exit code of a lost connection. */
module AbortCode {
  import opened Text
  import opened Merge
  import opened World
  import opened LagGate
  import opened Retry
  import opened Runner
  import opened RunnerLaws
  import opened Run
  import opened RunLaws
  import opened Outcome
  import opened LagStory
  import opened GateVerdicts

  /** The error a run ends with is the answer of its last step: a query of the lag, of candidates
      or a kill keeps the error itself, the lookup of active vacuums only a message. A closed
      client or a lost statement has its own error. */
  ghost predicate Explained(env: Env, e: RunError, w: World) {
    match e
    case ConnectionLost => true
    case Message => w.step > 0 && env.sessions(w.step - 1).Err?
    case Server(c) => w.step > 0 && c in Failures(env, w.step - 1)
  }

  /** The errors that the queries with a typed error may answer in a step. */
  function Failures(env: Env, k: nat): set<PgError> {
    (match env.lag(k) case Err(e) => {e} case Ok(_) => {})
    + (match env.answer(k) case Some(e) => {e} case None => {})
    + (match env.candidates(k) case Err(e) => {e} case Ok(_) => {})
    + (match env.classic(k) case Err(e) => {e} case Ok(_) => {})
  }

  lemma {:induction false} WaitLoopFails(env: Env, cfg: GateConfig, g: Gate, w: World, started: nat)
    requires started <= w.clock
    ensures var r := WaitLoop(env, cfg, g, w, started);
            r.verdict.Err? ==> r.world.step > 0 && env.lag(r.world.step - 1) == Err(r.verdict.error)
    decreases Remaining(cfg, w, started)
  {
    hide Turn, GateConfig.Deadline, GateConfig.Poll;
    var top := w.Next(env);
    LaterLess(env, cfg, w, started);
    if Remaining(cfg, top, started) > 0 {
      TurnFails(env, cfg, top, started);
      var (o, w') := Turn(env, cfg, top, started);
      if o.StillLagging? {
        WaitLoopFails(env, cfg, g, w', started);
      }
    }
  }

  lemma TurnFails(env: Env, cfg: GateConfig, w: World, started: nat)
    requires started <= w.clock && Remaining(cfg, w, started) > 0
    ensures var (o, w') := Turn(env, cfg, w, started);
            o.Broken? ==> w'.step > 0 && env.lag(w'.step - 1) == Err(o.error)
  {
    hide Exceeds;
  }

  lemma {:induction false} KillAllFails(env: Env, pids: seq<int>, w: World)
    ensures var (e, w') := KillAll(env, pids, w);
            e.Some? ==> w'.step > 0 && env.answer(w'.step - 1) == e
    decreases |pids|
  {
    if pids != [] {
      KillAllFails(env, pids[1..], w.Emit(KilledBackend(pids[0])).Next(env));
    }
  }

  ghost predicate ExitExplained(env: Env, x: Exit, w: World) { x.Abort? ==> Explained(env, x.error, w) }

  lemma LagGateFails(env: Env, policy: Policy, st: State)
    ensures var (x, st') := PassLagGateOnce(env, policy, st); x.Out? ==> ExitExplained(env, x.exit, st'.world)
  {
    hide WaitLoop, Exceeds, GateConfig.Deadline;
    if policy.gate.Some? {
      var w' := st.world.Next(env);
      WaitLoopFails(env, policy.gate.value, st.gate, w', w'.clock);
    }
  }

  lemma ActiveVacuumFails(env: Env, policy: Policy, st: State)
    ensures var (x, st') := PassActiveVacuums(env, policy, st); x.Out? ==> ExitExplained(env, x.exit, st'.world)
  {
    hide Pids, KillAll;
    var w0 := st.world.Next(env);
    if env.sessions(st.world.step).Ok? {
      var active := env.sessions(st.world.step).value;
      var auto := if policy.dryRun then [] else Pids(active, true);
      var w := KillAll(env, auto, w0).1;
      KillAllFails(env, auto, w0);
      KillAllFails(env, if policy.dryRun then [] else Pids(active, false), w);
    }
  }

  lemma GatesFail(env: Env, policy: Policy, phase: Phase, st: State)
    ensures var (x, st') := PassGates(env, policy, phase, st); x.Out? ==> ExitExplained(env, x.exit, st'.world)
  {
    hide PassLagGateOnce, PassActiveVacuums, ExitExplained;
    var a := PassLagGateOnce(env, policy, st).1;
    LagGateFails(env, policy, st);
    LagGateFails(env, policy, a);
    ActiveVacuumFails(env, policy, a);
    ActiveVacuumFails(env, policy, PassLagGateOnce(env, policy, a).1);
  }

  lemma TableFails(env: Env, policy: Policy, phase: Phase, already: set<Name>, t: Name, st: State)
    ensures var (x, st') := RunTable(env, policy, phase, already, t, st); ExitExplained(env, x, st'.world)
  {
    hide PassGates, WithRetry, Book, Failures;
    var live := st.(world := st.world.Next(env).Next(env));
    GatesFail(env, policy, phase, live);
    var gated := PassGates(env, policy, phase, live).1;
    var (o, w') := WithRetry(env, policy.retry, phase, t, gated.world.Emit(Begin(phase, t)));
    BookJudged(env, phase, t, o, gated.(world := w'));
  }

  lemma {:induction false} TablesFail(env: Env, policy: Policy, phase: Phase, already: set<Name>, tables: seq<Name>,
        i: nat, st: State)
    requires i <= |tables|
    ensures var (e, st') := RunTables(env, policy, phase, already, tables, i, st);
            e.Some? ==> Explained(env, e.value, st'.world)
    decreases |tables| - i
  {
    hide RunTable, Explained;
    if i < |tables| {
      TableFails(env, policy, phase, already, tables[i], st);
      var (x, st') := RunTable(env, policy, phase, already, tables[i], st);
      if x.NextTable? {
        TablesFail(env, policy, phase, already, tables, i + 1, st');
      }
    }
  }

  lemma DiscoverFails(env: Env, cfg: Config, p: Phase, w: World)
    ensures var (found, w') := Discover(env, cfg, p, w); found.Err? ==> Explained(env, Server(found.error), w')
  {
    hide Merged;
  }

  lemma PhaseFails(env: Env, cfg: Config, p: Phase, rs: RunState)
    ensures var (e, rs') := RunPhase(env, cfg, p, rs); e.Some? ==> Explained(env, e.value, rs'.world)
  {
    hide RunTables, Discover, Already, Selected, Remember, ToSet, World.Flag, Explained;
    if Selected(cfg, p) && !rs.world.Flag(env) {
      var checked := rs.world.Next(env);
      DiscoverFails(env, cfg, p, checked);
      var (found, w) := Discover(env, cfg, p, checked);
      if found.Ok? {
        TablesFail(env, cfg.policy, p, Already(p, rs), found.value, 0,
                   State(w.Emit(Found(p, found.value)), rs.gate, Summary(|found.value|, 0, 0, 0)));
      }
    }
  }

  lemma {:induction false} RunFromFails(env: Env, cfg: Config, n: nat, rs: RunState)
    requires 1 <= n <= 9
    ensures var (e, rs') := RunFrom(env, cfg, n, rs); e.Some? ==> Explained(env, e.value, rs'.world)
    decreases 9 - n
  {
    hide RunPhase, Explained;
    if n < 9 {
      PhaseFails(env, cfg, PhaseAt(n), rs);
      if RunPhase(env, cfg, PhaseAt(n), rs).0.None? {
        RunFromFails(env, cfg, n + 1, RunPhase(env, cfg, PhaseAt(n), rs).1);
      }
    }
  }

  /** An aborted run without a marked shutdown: a closed client and a lost statement exit with 3;
      so does any query in the last step whose error means a lost connection; the one exception
      is a failed lookup of active vacuums, which exits with 1 whatever its error was. */
  lemma AbortCodes(env: Env, cfg: Config, w: World, gate: Gate)
    ensures var (code, rs) := Main(env, cfg, w, gate); var e := RunFrom(env, cfg, 1, Start(w, gate)).0;
            e.Some? && !env.marked(rs.world.step) ==>
              match e.value
              case ConnectionLost => code == 3
              case Server(c) => rs.world.step > 0 && c in Failures(env, rs.world.step - 1)
                                && code == if IsConnectionLost(c) then 3 else 1
              case Message => rs.world.step > 0 && env.sessions(rs.world.step - 1).Err? && code == 1
  {
    hide RunFrom, IsConnectionLost, Failures;
    RunFromFails(env, cfg, 1, Start(w, gate));
  }

  // ------------------------------------------------------------- what ends a run, and how

  /** Every search finds one table, and no signal is sent. */
  ghost predicate AlwaysFinds(env: Env, name: Name) {
    forall k: nat ::
      && env.candidates(k) == Ok([name]) && env.classic(k) == Ok([Candidate(name, 0, 0, None, false)])
      && env.published(k) == 0 && !env.marked(k)
  }

  /** No table gets past its gates: the first one ends the run. */
  ghost predicate FirstTableAborts(env: Env, policy: Policy, e: RunError) {
    forall phase: Phase, t: Name, st: State ::
      !st.gate.disabled ==> RunTable(env, policy, phase, {}, t, st).0 == Abort(e)
  }

  lemma SomethingFound(env: Env, name: Name, cfg: Config, p: Phase, w: World)
    requires AlwaysFinds(env, name) && Selected(cfg, p) && cfg.limit != 0
    ensures var found := Discover(env, cfg, p, w).0; found.Ok? && found.value != []
  {
    hide Merged;
    if p.NeedsVacuum? {
      var ready := w.Next(env).Next(env).Next(env).Next(env);
      var extra := match env.extra(ready.step) case Ok(cs) => cs case Err(_) => [];
      SomeMerged(Candidate(name, 0, 0, None, false), extra, cfg.order, cfg.limit);
    }
  }

  lemma SomeMerged(c: Candidate, extra: seq<Candidate>, order: OrderBy, limit: int)
    requires limit != 0
    ensures |Merged([c], extra, order, limit)| >= 1
  {
    hide StableSort, Unique;
    var all := [c] + extra;
    UniqueNames(all);
    SortSorts(order, Unique(all));
    assert all[0].name in Names(all);
    assert Unique(all) != [];
  }

  /** The first selected phase aborts on its first table. */
  lemma {:induction false} FirstPhaseAborts(env: Env, name: Name, e: RunError, cfg: Config, n: nat, rs: RunState)
    requires 1 <= n <= 9 && cfg.limit != 0 && rs.handled == rs.vacuumed == rs.analyzed == {} && !rs.gate.disabled
    requires AlwaysFinds(env, name) && FirstTableAborts(env, cfg.policy, e)
    requires exists p :: Number(p) >= n && Selected(cfg, p)
    ensures RunFrom(env, cfg, n, rs).0 == Some(e) && !env.marked(RunFrom(env, cfg, n, rs).1.world.step)
    decreases 9 - n
  {
    hide RunTable, Discover, Selected;
    var p := PhaseAt(n);
    RunStep(env, cfg, n, rs);
    if Selected(cfg, p) {
      var checked := rs.world.Next(env);
      SomethingFound(env, name, cfg, p, checked);
      var (found, w) := Discover(env, cfg, p, checked);
      var st := State(w.Emit(Found(p, found.value)), rs.gate, Summary(|found.value|, 0, 0, 0));
      assert RunTable(env, cfg.policy, p, {}, found.value[0], st).0 == Abort(e);
    } else {
      var q :| Number(q) >= n && Selected(cfg, q);
      assert q != p;
      if Number(q) == n {
        NumberOf(q, n);
      }
      FirstPhaseAborts(env, name, e, cfg, n + 1, rs);
    }
  }

  lemma NumberOf(q: Phase, n: nat)
    requires 1 <= n <= 8 && Number(q) == n
    ensures q == PhaseAt(n)
  {
  }

  /** What an abort makes of a run that finds a table: 3 for a lost connection that kept its type. */
  lemma AbortExits(env: Env, name: Name, e: RunError, cfg: Config, w: World, gate: Gate)
    requires AlwaysFinds(env, name) && FirstTableAborts(env, cfg.policy, e) && !gate.disabled
    requires cfg.limit != 0 && exists p :: Selected(cfg, p)
    ensures Main(env, cfg, w, gate).0 ==
            match e
            case ConnectionLost => 3
            case Server(c) => (if IsConnectionLost(c) then 3 else 1)
            case Message => 1
  {
    hide RunFrom, Selected, FirstTableAborts, AlwaysFinds, IsConnectionLost;
    var p :| Selected(cfg, p);
    assert Number(p) >= 1;
    FirstPhaseAborts(env, name, e, cfg, 1, Start(w, gate));
  }

  /** Nothing in front of the gates holds a table. */
  ghost predicate AlwaysOpen(env: Env) { forall k: nat :: !env.closed(k) && env.published(k) == 0 }

  /** A gate that is never held by the lag. */
  ghost predicate NeverLags(env: Env, policy: Policy) {
    policy.gate.None? || forall k: nat :: Recovers(env.lag(k), policy.gate.value.thresholdSeconds)
  }

  /** A client that is closed ends the run with 3. */
  lemma ClosedClientExits(env: Env, name: Name, cfg: Config, w: World, gate: Gate)
    requires AlwaysFinds(env, name) && (forall k: nat :: env.closed(k)) && !gate.disabled
    requires cfg.limit != 0 && exists p :: Selected(cfg, p)
    ensures Main(env, cfg, w, gate).0 == 3
  {
    hide Main, Selected, PassGates;
    AbortExits(env, name, ConnectionLost, cfg, w, gate);
  }

  /** A view of the lag that cannot be queried ends the run with the error of the query. */
  lemma UnreadableLagExits(env: Env, name: Name, error: PgError, cfg: Config, w: World, gate: Gate)
    requires AlwaysFinds(env, name) && AlwaysOpen(env) && cfg.policy.gate.Some? && !gate.disabled
    requires forall k: nat :: env.lag(k) == Err(error)
    requires cfg.limit != 0 && exists p :: Selected(cfg, p)
    ensures Main(env, cfg, w, gate).0 == if IsConnectionLost(error) then 3 else 1
  {
    hide Main, Selected, IsConnectionLost, PassLagGateOnce, PassActiveVacuums;
    forall phase: Phase, t: Name, st: State | !st.gate.disabled
      ensures RunTable(env, cfg.policy, phase, {}, t, st).0 == Abort(Server(error))
    {
      var _, _ := LagGateVerdict(env, cfg.policy, st.(world := st.world.Next(env).Next(env)));
    }
    AbortExits(env, name, Server(error), cfg, w, gate);
  }

  lemma GatesReachLookup(env: Env, policy: Policy, phase: Phase, st: State)
    requires NeverLags(env, policy)
    ensures PassLagGate(env, policy, phase, st).0 == Pass
  {
    hide PassLagGateOnce, Exceeds;
    var _, _ := LagGateVerdict(env, policy, st);
    var _, _ := LagGateVerdict(env, policy, PassLagGateOnce(env, policy, st).1);
  }

  /** A connection that is lost while active vacuums are looked up ends the run with 1, not 3,
      for every error and every configuration that finds a table at all. */
  lemma LookupLosesCode(env: Env, name: Name, cfg: Config, w: World, gate: Gate)
    requires AlwaysFinds(env, name) && AlwaysOpen(env) && NeverLags(env, cfg.policy) && !gate.disabled
    requires forall k: nat :: env.sessions(k).Err?
    requires cfg.limit != 0 && exists p :: Selected(cfg, p)
    ensures Main(env, cfg, w, gate).0 == 1
  {
    hide Main, Selected, PassLagGate, PassActiveVacuums, NeverLags;
    forall phase: Phase, t: Name, st: State | !st.gate.disabled
      ensures RunTable(env, cfg.policy, phase, {}, t, st).0 == Abort(Message)
    {
      var live := st.(world := st.world.Next(env).Next(env));
      GatesReachLookup(env, cfg.policy, phase, live);
      ActiveVacuumVerdict(env, cfg.policy, PassLagGate(env, cfg.policy, phase, live).1);
    }
    AbortExits(env, name, Message, cfg, w, gate);
  }

  /** A worker that cannot be killed ends the run with the error of the attempt. */
  lemma FailedKillExits(env: Env, name: Name, error: PgError, workers: seq<Backend>, cfg: Config, w: World, gate: Gate)
    requires AlwaysFinds(env, name) && AlwaysOpen(env) && NeverLags(env, cfg.policy) && !gate.disabled
    requires (forall k: nat :: env.sessions(k) == Ok(workers) && env.answer(k) == Some(error))
        && Count(workers, true) > 0
    requires !cfg.policy.dryRun && !cfg.policy.skipActiveVacuum && cfg.limit != 0 && exists p :: Selected(cfg, p)
    ensures Main(env, cfg, w, gate).0 == if IsConnectionLost(error) then 3 else 1
  {
    hide Main, Selected, IsConnectionLost, PassLagGate, PassActiveVacuums, NeverLags, AlwaysFinds;
    forall phase: Phase, t: Name, st: State | !st.gate.disabled
      ensures RunTable(env, cfg.policy, phase, {}, t, st).0 == Abort(Server(error))
    {
      var live := st.(world := st.world.Next(env).Next(env));
      var at := PassLagGate(env, cfg.policy, phase, live).1;
      GatesReachLookup(env, cfg.policy, phase, live);
      ActiveVacuumVerdict(env, cfg.policy, at);
      KillsFail(env, error, at.world.step + 1, Count(workers, true));
    }
    AbortExits(env, name, Server(error), cfg, w, gate);
  }

  lemma KillsFail(env: Env, error: PgError, from: nat, n: nat)
    requires n > 0 && forall k: nat :: env.answer(k) == Some(error)
    ensures !AllKilled(env, from, n) && forall e :: FirstFailure(env, from, n, e) ==> e == error
  {
    assert env.answer(from) == Some(error);
  }
}
