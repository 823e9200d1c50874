/** The run of src/main.rs: eight phases over one session, three sets of tables already
    matched, and the exit code. */
module Run {
  import opened Text
  import opened Merge
  import opened World
  import opened LagGate
  import opened Retry
  import opened Runner

  datatype Config = Config(
    modes: set<Phase>,     // --mode
    alsoTables: seq<Name>, // --also-tables, resolved against the catalog
    order: OrderBy,
    limit: int,
    policy: Policy)

  /** The sets grow with every phase; `failed` is the total over the finished phases. */
  datatype RunState = RunState(
    world: World, gate: Gate, handled: set<Name>, vacuumed: set<Name>, analyzed: set<Name>, failed: nat)

  function Number(p: Phase): (n: nat)
    ensures 1 <= n <= 8
  {
    match p
    case NeverVacuumed => 1 case NeverAnalyzed => 2 case Wraparound => 3 case Bloat => 4
    case NeedsVacuum => 5 case VacuumOverdue => 6 case AnalyzeOverdue => 7 case AlsoTables => 8
  }

  function PhaseAt(n: nat): (p: Phase)
    requires 1 <= n <= 8
    ensures Number(p) == n
  {
    match n
    case 1 => NeverVacuumed case 2 => NeverAnalyzed case 3 => Wraparound case 4 => Bloat
    case 5 => NeedsVacuum case 6 => VacuumOverdue case 7 => AnalyzeOverdue case _ => AlsoTables
  }

  predicate Selected(cfg: Config, p: Phase) { if p.AlsoTables? then cfg.alsoTables != [] else p in cfg.modes }

  function ToSet(names: seq<Name>): set<Name> { set i | 0 <= i < |names| :: names[i] }

  function NamesOf(cs: seq<Candidate>): (r: seq<Name>)
    ensures |r| == |cs| && forall i :: 0 <= i < |r| ==> r[i] == cs[i].name
  {
    seq(|cs|, i requires 0 <= i < |cs| => cs[i].name)
  }

  /** The candidates of a phase. Needs-vacuum reads the server's thresholds, the classic list,
      the server version and the cap, then the second list; only the classic list is needed. */
  function Discover(env: Env, cfg: Config, p: Phase, w: World): (Result<seq<Name>, PgError>, World) {
    if p.AlsoTables? then (Ok(cfg.alsoTables), w)
    else if !p.NeedsVacuum? then (env.candidates(w.step), w.Next(env))
    else
      var asked := w.Next(env);
      var listed := asked.Next(env);
      match env.classic(asked.step)
      case Err(e) => (Err(e), listed)
      case Ok(classic) =>
        var ready := listed.Next(env).Next(env);
        var extra := match env.extra(ready.step) case Ok(cs) => cs case Err(_) => [];
        (Ok(NamesOf(Merged(classic, extra, cfg.order, cfg.limit))), ready.Next(env))
  }

  /** Which set a phase consults; the first three phases consult none. */
  function Already(p: Phase, rs: RunState): set<Name> {
    match p
    case Bloat => rs.handled
    case AlsoTables => rs.handled
    case NeedsVacuum => rs.vacuumed
    case VacuumOverdue => rs.vacuumed
    case AnalyzeOverdue => rs.analyzed
    case _ => {}
  }

  predicate FeedsVacuumed(p: Phase) { p.NeverVacuumed? || p.Wraparound? || p.Bloat? || p.NeedsVacuum? }

  /** Which sets a phase's candidates enter: all go into `handled`. */
  function Remember(p: Phase, tables: seq<Name>, rs: RunState): RunState {
    if p.AlsoTables? then rs else
      var names := ToSet(tables);
      rs.(handled := rs.handled + names,
          vacuumed := if FeedsVacuumed(p) then rs.vacuumed + names else rs.vacuumed,
          analyzed := if p.NeverAnalyzed? then rs.analyzed + names else rs.analyzed)
  }

  /** The first three phases enter their candidates before they run, the others afterwards. */
  function RunPhase(env: Env, cfg: Config, p: Phase, rs: RunState): (Option<RunError>, RunState) {
    if !Selected(cfg, p) then (None, rs)
    else
      var checked := rs.world.Next(env);
      if rs.world.Flag(env) then (None, rs.(world := checked))
      else
        var (found, w) := Discover(env, cfg, p, checked);
        match found
        case Err(e) => (Some(Server(e)), rs.(world := w))
        case Ok(tables) =>
          var st := State(w.Emit(Found(p, tables)), rs.gate, Summary(|tables|, 0, 0, 0));
          var (e, st') := RunTables(env, cfg.policy, p, Already(p, rs), tables, 0, st);
          var after := rs.(world := st'.world, gate := st'.gate, failed := rs.failed + st'.summary.failed);
          (e, if e.Some? then after else Remember(p, tables, after))
  }

  function RunFrom(env: Env, cfg: Config, n: nat, rs: RunState): (Option<RunError>, RunState)
    requires 1 <= n <= 9
    decreases 9 - n
  {
    if n == 9 then (None, rs) else
      var (e, rs') := RunPhase(env, cfg, PhaseAt(n), rs);
      if e.Some? then (e, rs') else RunFrom(env, cfg, n + 1, rs')
  }

  function Start(w: World, gate: Gate): RunState { RunState(w, gate, {}, {}, {}, 0) }

  // --------------------------------------------------------------------------- exit code

  /** `exit_code_for`: a typed connection loss anywhere in the chain. */
  function ExitCodeFor(e: RunError): nat {
    match e
    case ConnectionLost => 3
    case Server(cause) => if IsConnectionLost(cause) then 3 else 1
    case Message => 1
  }

  /** The end of `run()`, and `main()` on its error. */
  function ExitCode(env: Env, e: Option<RunError>, rs: RunState): nat {
    match e
    case Some(error) => if env.marked(rs.world.step) then 130 else ExitCodeFor(error)
    case None =>
      if rs.world.Flag(env) then 130
      else if rs.failed > 0 then (if env.marked(rs.world.step + 1) then 130 else ExitCodeFor(Message))
      else 0
  }

  function Main(env: Env, cfg: Config, w: World, gate: Gate): (nat, RunState) {
    var (e, rs) := RunFrom(env, cfg, 1, Start(w, gate));
    (ExitCode(env, e, rs), rs)
  }

  // -------------------------------------------------------------------------- as it runs

  class Maintenance {
    const cfg: Config
    const session: Session
    const gate: ReplicaLagGate
    var handled: set<Name>
    var vacuumed: set<Name>
    var analyzed: set<Name>
    var failed: nat

    constructor (cfg: Config, session: Session, gate: ReplicaLagGate)
      ensures this.cfg == cfg && this.session == session && this.gate == gate
      ensures handled == {} && vacuumed == {} && analyzed == {} && failed == 0
    {
      this.cfg, this.session, this.gate := cfg, session, gate;
      handled, vacuumed, analyzed, failed := {}, {}, {}, 0;
    }

    ghost predicate Valid()
      reads this
    {
      cfg.policy.gate.Some? ==> gate.cfg == cfg.policy.gate.value
    }

    function Now(): RunState
      reads this, session, gate
    {
      RunState(session.Now(), gate.Now(), handled, vacuumed, analyzed, failed)
    }

    method Candidates(p: Phase) returns (found: Result<seq<Name>, PgError>)
      modifies session
      ensures (found, session.Now()) == Discover(session.env, cfg, p, old(session.Now()))
    {
      if p.AlsoTables? { return Ok(cfg.alsoTables); }
      if !p.NeedsVacuum? {
        found := session.env.candidates(session.step);
        session.Advance();
        return;
      }
      session.Advance(); // get_vacuum_settings, with a fallback
      var classic := session.env.classic(session.step);
      session.Advance();
      if classic.Err? { return Err(classic.error); }
      session.Advance(); // get_server_version_num, with a fallback
      session.Advance(); // get_vacuum_max_threshold, with a fallback
      var extra := session.env.extra(session.step);
      session.Advance();
      var merged := MergeCandidates(classic.value, if extra.Ok? then extra.value else [], cfg.order, cfg.limit);
      found := Ok(NamesOf(merged));
    }

    method Insert(p: Phase, tables: seq<Name>)
      requires !p.AlsoTables?
      modifies this
      ensures Now() == Remember(p, tables, old(Now())) && unchanged(session) && unchanged(gate)
    {
      handled := handled + ToSet(tables);
      if p.NeverVacuumed? || p.Wraparound? || p.Bloat? || p.NeedsVacuum? { vacuumed := vacuumed + ToSet(tables); }
      if p.NeverAnalyzed? { analyzed := analyzed + ToSet(tables); }
    }

    /** One phase: the block between two banners of `run()`. */
    method Phase(p: Phase) returns (failure: Option<RunError>)
      requires Valid()
      modifies this, session, gate
      ensures var (e, rs) := RunPhase(session.env, cfg, p, old(Now()));
              failure == e && (e.None? ==> Now() == rs) && (e.Some? ==> session.Now() == rs.world)
    {
      hide RunTables, Discover, World.Flag, ToSet;
      if if p.AlsoTables? then cfg.alsoTables == [] else p !in cfg.modes { return None; }
      var flag := session.ShutdownRequested();
      if flag { return None; }
      var already := match p
        case Bloat => handled
        case AlsoTables => handled
        case NeedsVacuum => vacuumed
        case VacuumOverdue => vacuumed
        case AnalyzeOverdue => analyzed
        case _ => {};
      var found := Candidates(p);
      if found.Err? { return Some(Server(found.error)); }
      var tables := found.value;
      session.Emit(Found(p, tables));
      var before := p.NeverVacuumed? || p.NeverAnalyzed? || p.Wraparound?;
      if before { Insert(p, tables); }
      var runner := new PhaseRunner(cfg.policy, p, session, gate, |tables|);
      failure := runner.Tables(tables, already);
      if failure.Some? { return; }
      failed := failed + runner.summary.failed;
      if !before && !p.AlsoTables? { Insert(p, tables); }
    }

    /** The eight phases in order, up to the first that fails. */
    method Phases() returns (failure: Option<RunError>)
      requires Valid()
      modifies this, session, gate
      ensures var (e, rs) := RunFrom(session.env, cfg, 1, old(Now()));
              failure == e && (e.None? ==> Now() == rs) && (e.Some? ==> session.Now() == rs.world)
    {
      hide RunPhase, RunFrom;
      RunStep(session.env, cfg, 1, Now());
      failure := Phase(NeverVacuumed);
      if failure.Some? { return; }
      RunStep(session.env, cfg, 2, Now());
      failure := Phase(NeverAnalyzed);
      if failure.Some? { return; }
      RunStep(session.env, cfg, 3, Now());
      failure := Phase(Wraparound);
      if failure.Some? { return; }
      RunStep(session.env, cfg, 4, Now());
      failure := Phase(Bloat);
      if failure.Some? { return; }
      RunStep(session.env, cfg, 5, Now());
      failure := Phase(NeedsVacuum);
      if failure.Some? { return; }
      RunStep(session.env, cfg, 6, Now());
      failure := Phase(VacuumOverdue);
      if failure.Some? { return; }
      RunStep(session.env, cfg, 7, Now());
      failure := Phase(AnalyzeOverdue);
      if failure.Some? { return; }
      RunStep(session.env, cfg, 8, Now());
      failure := Phase(AlsoTables);
      if failure.Some? { return; }
      RunStep(session.env, cfg, 9, Now());
    }

    /** `run()` from the first phase on, and the exit code `main()` makes of it. */
    method Run() returns (code: nat)
      requires Valid() && handled == {} && vacuumed == {} && analyzed == {} && failed == 0
      modifies this, session, gate
      ensures code == Main(session.env, cfg, old(session.Now()), old(gate.Now())).0
      ensures session.Now().trace == Main(session.env, cfg, old(session.Now()), old(gate.Now())).1.world.trace
    {
      hide RunPhase, RunFrom;
      var failure := Phases();
      if failure.Some? { return ErrorCode(failure.value); }
      var flag := session.ShutdownRequested();
      if flag { return 130; }
      if failed > 0 { return ErrorCode(Message); }
      return 0;
    }

    /** `shutdown::exit_code`, as `main()` calls it on an error. */
    function ErrorCode(e: RunError): nat
      reads session
    {
      if session.env.marked(session.step) then 130 else ExitCodeFor(e)
    }
  }

  lemma RunStep(env: Env, cfg: Config, n: nat, rs: RunState)
    requires 1 <= n <= 9
    ensures RunFrom(env, cfg, n, rs)
         == if n == 9 then (None, rs)
            else var (e, rs') := RunPhase(env, cfg, PhaseAt(n), rs);
                 if e.Some? then (e, rs') else RunFrom(env, cfg, n + 1, rs')
  {
  }
}
