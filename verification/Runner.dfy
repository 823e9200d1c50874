/** The eight runners of src/operations.rs. Their loops differ only in the statement they
    send, in whether they consult an already-handled set (phases 4 to 8), and in that
    `run_also_tables` passes the lag gate twice; the model has them once, indexed by phase. */
module Runner {
  import opened Text
  import opened Merge
  import opened World
  import opened LagGate
  import opened Retry

  /** `RunPolicy`, and the lag gate when one is configured. */
  datatype Policy = Policy(
    dryRun: bool, force: bool, skipActiveVacuum: bool, retry: RetryPolicy, gate: Option<GateConfig>)

  datatype Summary = Summary(total: nat, succeeded: nat, failed: nat, skipped: nat) {
    function Done(): nat { succeeded + failed + skipped }
  }

  /** What a runner changes: the session, the gate, and its summary. */
  datatype State = State(world: World, gate: Gate, summary: Summary)

  /** How one table leaves the loop: on to the next, out of the loop, or out of the run. */
  datatype Exit = NextTable | Stop | Abort(error: RunError)

  predicate ConsultsSet(phase: Phase) { !(phase.NeverVacuumed? || phase.NeverAnalyzed? || phase.Wraparound?) }

  // ------------------------------------------------------------------------- the two gates

  datatype GateExit = Pass | Skip | Out(exit: Exit)

  function PassLagGateOnce(env: Env, policy: Policy, st: State): (GateExit, State) {
    if policy.gate.None? then (Pass, st) else
      var r := WaitForLag(env, policy.gate.value, policy.dryRun, st.gate, st.world);
      var st' := st.(world := r.world, gate := r.gate);
      match r.verdict
      case Err(e) => (Out(Abort(Server(e))), st')
      case Ok(Proceed) => (Pass, st')
      case Ok(SkipTable) => (Skip, st'.(summary := st.summary.(skipped := st.summary.skipped + 1)))
      case Ok(ShutdownVerdict) => (Out(Stop), st')
  }

  function PassLagGate(env: Env, policy: Policy, phase: Phase, st: State): (GateExit, State) {
    var (x, st') := PassLagGateOnce(env, policy, st);
    if x.Pass? && phase.AlsoTables? then PassLagGateOnce(env, policy, st') else (x, st')
  }

  /** `terminate_backends`: stops at the first failure. */
  function KillAll(env: Env, pids: seq<int>, w: World): (Option<PgError>, World)
    decreases |pids|
  {
    if pids == [] then (None, w) else
      var w' := w.Emit(KilledBackend(pids[0])).Next(env);
      if env.answer(w.step).Some? then (env.answer(w.step), w') else KillAll(env, pids[1..], w')
  }

  function Pids(backends: seq<Backend>, autovacuum: bool): seq<int> {
    if backends == [] then [] else
      (if backends[0].autovacuum == autovacuum then [backends[0].pid] else []) + Pids(backends[1..], autovacuum)
  }

  /** `handle_active_vacuums`. The failed lookup loses its type, a failed kill keeps it. */
  function PassActiveVacuums(env: Env, policy: Policy, st: State): (GateExit, State) {
    var st' := st.(world := st.world.Next(env));
    var skipped := st'.(summary := st.summary.(skipped := st.summary.skipped + 1));
    match env.sessions(st.world.step)
    case Err(_) => (Out(Abort(Message)), st')
    case Ok(active) =>
      var auto, manual := Pids(active, true), Pids(active, false);
      if active == [] then (Pass, st')
      else if policy.skipActiveVacuum then (Skip, skipped)
      else
        var (e, w) := KillAll(env, if policy.dryRun then [] else auto, st'.world);
        if e.Some? then (Out(Abort(Server(e.value))), st'.(world := w))
        else if manual == [] then (Pass, st'.(world := w))
        else if !policy.force then (Skip, skipped.(world := w))
        else
          var (e', w') := KillAll(env, if policy.dryRun then [] else manual, w);
          if e'.Some? then (Out(Abort(Server(e'.value))), st'.(world := w')) else (Pass, st'.(world := w'))
  }

  // ------------------------------------------------------------------------------ one table

  function LogRow(env: Env, phase: Phase, t: Name, status: LogStatus, w: World): World {
    w.Emit(Logbook(phase, t, status)).Next(env)
  }

  /** From the retried operation on: book the outcome. */
  function Book(env: Env, phase: Phase, t: Name, outcome: Option<PgError>, st: State): (Exit, State) {
    var w, sum := st.world, st.summary;
    match outcome
    case None =>
      (NextTable, st.(world := LogRow(env, phase, t, Success, w), summary := sum.(succeeded := sum.succeeded + 1)))
    case Some(e) =>
      var seen := w.Next(env);
      match ClassifyOpError(e, w.Flag(env))
      case LostConnection => (Abort(ConnectionLost), st.(world := seen))
      case ShutdownInterrupted =>
        var asked := seen.Next(env);
        (Stop, st.(world := if env.closed(seen.step) then asked else LogRow(env, phase, t, Cancelled, asked),
                   summary := sum.(skipped := sum.skipped + 1)))
      case LockTimeout => (NextTable, st.(world := seen, summary := sum.(skipped := sum.skipped + 1)))
      case OtherFailure =>
        (NextTable, st.(world := LogRow(env, phase, t, Failure, seen), summary := sum.(failed := sum.failed + 1)))
  }

  function Maintain(env: Env, policy: Policy, phase: Phase, t: Name, st: State): (Exit, State) {
    var (outcome, w) := WithRetry(env, policy.retry, phase, t, st.world.Emit(Begin(phase, t)));
    Book(env, phase, t, outcome, st.(world := w))
  }

  /** After the checks at the top of the loop: the gates, the dry-run cut, the work. */
  function PassGates(env: Env, policy: Policy, phase: Phase, st: State): (GateExit, State) {
    var (x, st') := PassLagGate(env, policy, phase, st);
    if x.Pass? then PassActiveVacuums(env, policy, st') else (x, st')
  }

  function RunTable(env: Env, policy: Policy, phase: Phase, already: set<Name>, t: Name, st: State): (Exit, State) {
    var open := st.(world := st.world.Next(env));
    var live := open.(world := open.world.Next(env));
    if env.closed(st.world.step) then (Abort(ConnectionLost), open.(world := open.world.Emit(ClientClosed)))
    else if open.world.Flag(env) then (Stop, live)
    else if ConsultsSet(phase) && t in already then
      (NextTable, live.(summary := st.summary.(skipped := st.summary.skipped + 1)))
    else
      var (x, st') := PassGates(env, policy, phase, live);
      match x
      case Out(exit) => (exit, st')
      case Skip => (NextTable, st')
      case Pass => if policy.dryRun then (NextTable, st') else Maintain(env, policy, phase, t, st')
  }

  function RunTables(env: Env, policy: Policy, phase: Phase, already: set<Name>, tables: seq<Name>, i: nat,
        st: State): (Option<RunError>, State)
    requires i <= |tables|
    decreases |tables| - i
  {
    if i == |tables| then (None, st) else
      match RunTable(env, policy, phase, already, tables[i], st)
      case (NextTable, st') => RunTables(env, policy, phase, already, tables, i + 1, st')
      case (Stop, st') => (None, st')
      case (Abort(e), st') => (Some(e), st')
  }

  // -------------------------------------------------------------------------- as it runs

  class OperationSummary {
    var total: nat
    var succeeded: nat
    var failed: nat
    var skipped: nat

    constructor (total: nat)
      ensures Now() == Summary(total, 0, 0, 0)
    {
      this.total := total;
      succeeded, failed, skipped := 0, 0, 0;
    }

    function Now(): Summary
      reads this
    {
      Summary(total, succeeded, failed, skipped)
    }
  }

  /** One phase in progress: the shared session and gate, and the phase's own summary. */
  class PhaseRunner {
    const policy: Policy
    const phase: Phase
    const session: Session
    const gate: ReplicaLagGate
    const summary: OperationSummary

    constructor (policy: Policy, phase: Phase, session: Session, gate: ReplicaLagGate, total: nat)
      ensures this.policy == policy && this.phase == phase && this.session == session && this.gate == gate
          && fresh(summary)
      ensures summary.Now() == Summary(total, 0, 0, 0)
    {
      this.policy, this.phase, this.session, this.gate := policy, phase, session, gate;
      summary := new OperationSummary(total);
    }

    ghost predicate Valid()
      reads this
    {
      policy.gate.Some? ==> gate.cfg == policy.gate.value
    }

    function Now(): State
      reads session, gate, summary
    {
      State(session.Now(), gate.Now(), summary.Now())
    }

    method LagCheck() returns (x: GateExit)
      requires Valid()
      modifies session, gate, summary
      ensures (x, Now()) == PassLagGateOnce(session.env, policy, old(Now()))
    {
      if policy.gate.None? { return Pass; }
      var verdict := gate.WaitForReplicaLag(session, policy.dryRun);
      match verdict
      case Err(e) => x := Out(Abort(Server(e)));
      case Ok(Proceed) => x := Pass;
      case Ok(SkipTable) =>
        summary.skipped := summary.skipped + 1;
        x := Skip;
      case Ok(ShutdownVerdict) => x := Out(Stop);
    }

    method TerminateBackends(pids: seq<int>) returns (failure: Option<PgError>)
      modifies session
      ensures (failure, session.Now()) == KillAll(session.env, pids, old(session.Now()))
    {
      ghost var w0 := session.Now();
      for i := 0 to |pids|
        invariant KillAll(session.env, pids, w0) == KillAll(session.env, pids[i..], session.Now())
      {
        assert pids[i..][1..] == pids[i + 1..];
        session.Emit(KilledBackend(pids[i]));
        failure := session.Execute();
        if failure.Some? { return; }
      }
      failure := None;
    }

    /** `handle_active_vacuums`. */
    method HandleActiveVacuums() returns (x: GateExit)
      modifies session, summary
      ensures (x, Now()) == PassActiveVacuums(session.env, policy, old(Now()))
    {
      var found := session.env.sessions(session.step);
      session.Advance();
      if found.Err? { return Out(Abort(Message)); }
      var active := found.value;
      if active == [] { return Pass; }
      if policy.skipActiveVacuum {
        summary.skipped := summary.skipped + 1;
        return Skip;
      }
      var auto, manual := Pids(active, true), Pids(active, false);
      if auto != [] && !policy.dryRun {
        var failure := TerminateBackends(auto);
        if failure.Some? { return Out(Abort(Server(failure.value))); }
      }
      if manual == [] { return Pass; }
      if !policy.force {
        summary.skipped := summary.skipped + 1;
        return Skip;
      }
      if !policy.dryRun {
        var failure := TerminateBackends(manual);
        if failure.Some? { return Out(Abort(Server(failure.value))); }
      }
      return Pass;
    }

    /** `log_maintenance_operation`: a failed insert is ignored. */
    method LogMaintenance(t: Name, status: LogStatus)
      modifies session
      ensures session.Now() == LogRow(session.env, phase, t, status, old(session.Now()))
    {
      session.Emit(Logbook(phase, t, status));
      var _ := session.Execute();
    }

    /** The match on the retried operation's result. */
    method BookOutcome(t: Name, outcome: Option<PgError>) returns (x: Exit)
      modifies session, summary
      ensures (x, Now()) == Book(session.env, phase, t, outcome, old(Now()))
    {
      if outcome.None? {
        LogMaintenance(t, Success);
        summary.succeeded := summary.succeeded + 1;
        return NextTable;
      }
      var flag := session.ShutdownRequested();
      match ClassifyOpError(outcome.value, flag)
      case LostConnection => return Abort(ConnectionLost);
      case ShutdownInterrupted =>
        summary.skipped := summary.skipped + 1;
        var closed := session.IsClosed();
        if !closed { LogMaintenance(t, Cancelled); }
        return Stop;
      case LockTimeout =>
        summary.skipped := summary.skipped + 1;
        return NextTable;
      case OtherFailure =>
        LogMaintenance(t, Failure);
        summary.failed := summary.failed + 1;
        return NextTable;
    }

    /** The two gates in front of the work. */
    method Gates() returns (x: GateExit)
      requires Valid()
      modifies session, gate, summary
      ensures (x, Now()) == PassGates(session.env, policy, phase, old(Now()))
    {
      x := LagCheck();
      if !x.Pass? { return; }
      if phase.AlsoTables? {
        x := LagCheck();
        if !x.Pass? { return; }
      }
      x := HandleActiveVacuums();
    }

    /** The body of a runner's loop. */
    method Table(t: Name, already: set<Name>) returns (x: Exit)
      requires Valid()
      modifies session, gate, summary
      ensures (x, Now()) == RunTable(session.env, policy, phase, already, t, old(Now()))
    {
      var closed := session.IsClosed();
      if closed {
        session.Emit(ClientClosed);
        return Abort(ConnectionLost);
      }
      var flag := session.ShutdownRequested();
      if flag { return Stop; }
      if ConsultsSet(phase) && t in already {
        summary.skipped := summary.skipped + 1;
        return NextTable;
      }
      var passed := Gates();
      match passed
      case Out(exit) => return exit;
      case Skip => return NextTable;
      case Pass =>
        if policy.dryRun { return NextTable; }
        session.Emit(Begin(phase, t));
        var outcome := WithLockTimeoutRetry(session, policy.retry, phase, t);
        x := BookOutcome(t, outcome);
    }

    /** `run_vacuum_never_vacuumed` and its seven siblings. */
    method Tables(tables: seq<Name>, already: set<Name>) returns (failure: Option<RunError>)
      requires Valid()
      modifies session, gate, summary
      ensures (failure, Now()) == RunTables(session.env, policy, phase, already, tables, 0, old(Now()))
    {
      ghost var st0 := Now();
      for i := 0 to |tables|
        invariant RunTables(session.env, policy, phase, already, tables, 0, st0)
               == RunTables(session.env, policy, phase, already, tables, i, Now())
      {
        var x := Table(tables[i], already);
        match x
        case NextTable =>
        case Stop => return None;
        case Abort(e) => return Some(e);
      }
      failure := None;
    }
  }
}
