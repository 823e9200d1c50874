/** The replica-lag gate over a whole run: once it is off it stays off, for every later phase too,
    and the run goes on as if no gate had been configured. */
module GateOff {
  import opened Text
  import opened World
  import opened Merge
  import opened LagGate
  import opened Retry
  import opened Runner
  import opened RunnerLaws
  import opened Run
  import opened RunLaws

  /** The same run without --max-replica-lag. */
  function Ungated(policy: Policy): Policy { policy.(gate := None) }

  function UngatedRun(cfg: Config): Config { cfg.(policy := Ungated(cfg.policy)) }

  // ------------------------------------------------------------- a gate that is off is no gate

  lemma VacuumsUngated(env: Env, policy: Policy, st: State)
    ensures PassActiveVacuums(env, policy, st) == PassActiveVacuums(env, Ungated(policy), st)
    ensures PassActiveVacuums(env, policy, st).1.gate == st.gate
  {
    hide KillAll, Pids;
  }

  lemma GatesUngated(env: Env, policy: Policy, phase: Phase, st: State)
    requires st.gate.disabled
    ensures PassGates(env, policy, phase, st) == PassGates(env, Ungated(policy), phase, st)
    ensures PassGates(env, policy, phase, st).1.gate == st.gate
  {
    hide PassActiveVacuums;
    VacuumsUngated(env, policy, st);
  }

  lemma TableUngated(env: Env, policy: Policy, phase: Phase, already: set<Name>, t: Name, st: State)
    requires st.gate.disabled
    ensures RunTable(env, policy, phase, already, t, st) == RunTable(env, Ungated(policy), phase, already, t, st)
    ensures RunTable(env, policy, phase, already, t, st).1.gate == st.gate
  {
    hide WithRetry, PassGates, Book, World.Flag, Maintain;
    var live := st.(world := st.world.Next(env).Next(env));
    GatesUngated(env, policy, phase, live);
    var gated := PassGates(env, policy, phase, live).1;
    MaintainKeepsGate(env, policy, phase, t, gated);
    MaintainUngated(env, policy, phase, t, gated);
  }

  lemma MaintainKeepsGate(env: Env, policy: Policy, phase: Phase, t: Name, st: State)
    ensures Maintain(env, policy, phase, t, st).1.gate == st.gate
  {
    hide WithRetry, World.Flag, ClassifyOpError;
  }

  lemma MaintainUngated(env: Env, policy: Policy, phase: Phase, t: Name, st: State)
    ensures Maintain(env, policy, phase, t, st) == Maintain(env, Ungated(policy), phase, t, st)
  {
    hide WithRetry, Book;
  }

  lemma {:induction false} TablesUngated(env: Env, policy: Policy, phase: Phase, already: set<Name>,
        tables: seq<Name>, i: nat, st: State)
    requires i <= |tables| && st.gate.disabled
    ensures RunTables(env, policy, phase, already, tables, i, st)
         == RunTables(env, Ungated(policy), phase, already, tables, i, st)
    ensures RunTables(env, policy, phase, already, tables, i, st).1.gate == st.gate
    decreases |tables| - i
  {
    hide RunTable, Ungated;
    if i < |tables| {
      TableUngated(env, policy, phase, already, tables[i], st);
      var (x, st') := RunTable(env, policy, phase, already, tables[i], st);
      if x.NextTable? {
        TablesUngated(env, policy, phase, already, tables, i + 1, st');
      }
    }
  }

  lemma PhaseUngated(env: Env, cfg: Config, p: Phase, rs: RunState)
    requires rs.gate.disabled
    ensures RunPhase(env, cfg, p, rs) == RunPhase(env, UngatedRun(cfg), p, rs)
    ensures RunPhase(env, cfg, p, rs).1.gate == rs.gate
  {
    hide RunTables, World.Flag, ToSet;
    var found := Discover(env, cfg, p, rs.world.Next(env));
    if found.0.Ok? {
      var tables := found.0.value;
      var st := State(found.1.Emit(Found(p, tables)), rs.gate, Summary(|tables|, 0, 0, 0));
      TablesUngated(env, cfg.policy, p, Already(p, rs), tables, 0, st);
    }
  }

  lemma {:induction false} RunUngated(env: Env, cfg: Config, n: nat, rs: RunState)
    requires 1 <= n <= 9 && rs.gate.disabled
    ensures RunFrom(env, cfg, n, rs) == RunFrom(env, UngatedRun(cfg), n, rs)
    ensures RunFrom(env, cfg, n, rs).1.gate == rs.gate
    decreases 9 - n
  {
    hide RunPhase;
    if n < 9 {
      PhaseUngated(env, cfg, PhaseAt(n), rs);
      var (e, rs') := RunPhase(env, cfg, PhaseAt(n), rs);
      if e.None? {
        RunUngated(env, cfg, n + 1, rs');
      }
    }
  }

  /** From any point of a run on: a gate that is off changes nothing, and does not change. */
  lemma OffIsAbsent(env: Env, cfg: Config, n: nat, rs: RunState)
    requires 1 <= n <= 9 && rs.gate.disabled
    ensures var (e, rs') := RunFrom(env, cfg, n, rs);
            (e, rs') == RunFrom(env, UngatedRun(cfg), n, rs) && rs'.gate == rs.gate
  {
    hide RunFrom;
    RunUngated(env, cfg, n, rs);
  }

  // ------------------------------------------------------------------------ when it goes off

  /** Every reading of the lag finds no standby, or none that it may see. */
  ghost predicate Blind(env: Env) { forall k: nat :: env.lag(k).Ok? && !env.lag(k).value.Observed? }

  ghost predicate NoBegin(a: seq<Event>, b: seq<Event>) { a <= b && forall k :: |a| <= k < |b| ==> !b[k].Begin? }

  /** Nothing is taken up while the gate is on. */
  ghost predicate OffFirst(g: Gate, a: seq<Event>, g': Gate, b: seq<Event>) {
    a <= b && (g.disabled ==> g'.disabled) && (g'.disabled || NoBegin(a, b))
  }

  lemma OffFirstTrans(g: Gate, a: seq<Event>, g': Gate, b: seq<Event>, g'': Gate, c: seq<Event>)
    requires OffFirst(g, a, g', b) && OffFirst(g', b, g'', c)
    ensures OffFirst(g, a, g'', c)
  {
    if !g''.disabled {
      forall k | |a| <= k < |c| ensures !c[k].Begin? {
        assert k < |b| ==> c[k] == b[k];
      }
    }
  }

  lemma GateGoesOff(env: Env, policy: Policy, phase: Phase, st: State)
    requires Blind(env) && policy.gate.Some?
    ensures PassGates(env, policy, phase, st).1.gate.disabled
  {
    hide KillAll, Pids, Exceeds, WaitLoop;
    assert env.lag(st.world.step).Ok? && !env.lag(st.world.step).value.Observed?;
    assert PassLagGateOnce(env, policy, st).0 == Pass && PassLagGateOnce(env, policy, st).1.gate.disabled;
  }

  lemma TableOff(env: Env, policy: Policy, phase: Phase, already: set<Name>, t: Name, st: State)
    requires Blind(env) && policy.gate.Some?
    ensures var st' := RunTable(env, policy, phase, already, t, st).1;
            OffFirst(st.gate, st.world.trace, st'.gate, st'.world.trace)
  {
    hide PassGates, Maintain, Blind, World.Flag;
    var live := st.(world := st.world.Next(env).Next(env));
    GateGoesOff(env, policy, phase, live);
    GatesStep(env, policy, phase, live);
    MaintainKeepsGate(env, policy, phase, t, PassGates(env, policy, phase, live).1);
    TableTakesUp(env, policy, phase, already, t, st);
    TableTrace(policy, phase, already, t, st.world, RunTable(env, policy, phase, already, t, st).1.world);
  }

  lemma {:induction false} TablesOff(env: Env, policy: Policy, phase: Phase, already: set<Name>, tables: seq<Name>,
        i: nat, st: State)
    requires Blind(env) && policy.gate.Some? && i <= |tables|
    ensures var st' := RunTables(env, policy, phase, already, tables, i, st).1;
            OffFirst(st.gate, st.world.trace, st'.gate, st'.world.trace)
    decreases |tables| - i
  {
    hide RunTable, Blind, OffFirst;
    if i < |tables| {
      TableOff(env, policy, phase, already, tables[i], st);
      var (x, st') := RunTable(env, policy, phase, already, tables[i], st);
      if x.NextTable? {
        TablesOff(env, policy, phase, already, tables, i + 1, st');
        var end := RunTables(env, policy, phase, already, tables, i + 1, st').1;
        OffFirstTrans(st.gate, st.world.trace, st'.gate, st'.world.trace, end.gate, end.world.trace);
      }
    } else {
      NothingTakenUp(st.gate, st.world.trace);
    }
  }

  lemma NothingTakenUp(g: Gate, t: seq<Event>)
    ensures OffFirst(g, t, g, t) && forall p, names :: OffFirst(g, t, g, t + [Found(p, names)])
  {
  }

  lemma PhaseOff(env: Env, cfg: Config, p: Phase, rs: RunState)
    requires Blind(env) && cfg.policy.gate.Some?
    ensures var rs' := RunPhase(env, cfg, p, rs).1; OffFirst(rs.gate, rs.world.trace, rs'.gate, rs'.world.trace)
  {
    hide RunTables, Blind, OffFirst, Discover, Already, Selected, ToSet, World.Flag;
    var checked := rs.world.Next(env);
    DiscoverQuiet(env, cfg, p, checked);
    NothingTakenUp(rs.gate, rs.world.trace);
    var (found, w) := Discover(env, cfg, p, checked);
    if found.Ok? {
      var st := State(w.Emit(Found(p, found.value)), rs.gate, Summary(|found.value|, 0, 0, 0));
      TablesOff(env, cfg.policy, p, Already(p, rs), found.value, 0, st);
      var end := RunTables(env, cfg.policy, p, Already(p, rs), found.value, 0, st).1;
      OffFirstTrans(rs.gate, rs.world.trace, st.gate, st.world.trace, end.gate, end.world.trace);
    }
  }

  lemma {:induction false} RunFromOff(env: Env, cfg: Config, n: nat, rs: RunState)
    requires Blind(env) && cfg.policy.gate.Some? && 1 <= n <= 9
    ensures var rs' := RunFrom(env, cfg, n, rs).1; OffFirst(rs.gate, rs.world.trace, rs'.gate, rs'.world.trace)
    decreases 9 - n
  {
    hide RunPhase, Blind, OffFirst;
    NothingTakenUp(rs.gate, rs.world.trace);
    if n < 9 {
      PhaseOff(env, cfg, PhaseAt(n), rs);
      var (e, rs') := RunPhase(env, cfg, PhaseAt(n), rs);
      if e.None? {
        RunFromOff(env, cfg, n + 1, rs');
        var end := RunFrom(env, cfg, n + 1, rs').1;
        OffFirstTrans(rs.gate, rs.world.trace, rs'.gate, rs'.world.trace, end.gate, end.world.trace);
      }
    }
  }

  /** Where no standby can be seen, the gate is off at the end of every run that took up a table at
      all, whatever else happened in it. */
  lemma BlindGateGoesOff(env: Env, cfg: Config, w: World, gate: Gate)
    requires Blind(env) && cfg.policy.gate.Some? && w.trace == []
    ensures var rs := Main(env, cfg, w, gate).1; rs.gate.disabled || forall e :: e in rs.world.trace ==> !e.Begin?
  {
    hide RunFrom, Blind;
    RunFromOff(env, cfg, 1, Start(w, gate));
  }
}
