/** "A table matched by an earlier mode in the same run is not reprocessed by a later mode"
    (README.md:45 of the repository): for which pairs of phases, and for which configurations,
    this holds in every run. */
module Reprocessing {
  import opened Text
  import opened Merge
  import opened World
  import opened LagGate
  import opened Retry
  import opened Runner
  import opened RunnerLaws
  import opened Run
  import opened RunLaws
  import opened CalmRun
  import opened Outcome

  function TraceOf(env: Env, cfg: Config, w: World, gate: Gate): seq<Event> { Main(env, cfg, w, gate).1.world.trace }

  // ----------------------------------------------------------------- which phases can match

  /** The queries end in a LIMIT: no list is longer than the limit. */
  ghost predicate HonoursLimit(env: Env, cfg: Config) {
    cfg.limit >= 0 ==> forall n: nat ::
      && (env.candidates(n).Ok? ==> |env.candidates(n).value| <= cfg.limit)
      && (env.classic(n).Ok? ==> |env.classic(n).value| <= cfg.limit)
  }

  predicate MayMatch(cfg: Config, p: Phase) { Selected(cfg, p) && (p.AlsoTables? || cfg.limit != 0) }

  ghost predicate OnlyMayMatch(cfg: Config, t: seq<Event>) { forall p :: !MayMatch(cfg, p) ==> Matched(t, p) == {} }

  lemma NoneFound(env: Env, cfg: Config, p: Phase, rs: RunState)
    requires HonoursLimit(env, cfg) && !MayMatch(cfg, p)
    ensures FoundIn(env, cfg, p, rs) == {}
  {
    hide StableSort, Unique;
  }

  lemma {:induction false} RunFromMatches(env: Env, cfg: Config, n: nat, rs: RunState)
    requires HonoursLimit(env, cfg) && 1 <= n <= 9 && OnlyMayMatch(cfg, rs.world.trace)
    ensures OnlyMayMatch(cfg, RunFrom(env, cfg, n, rs).1.world.trace)
    decreases 9 - n
  {
    hide RunPhase, FoundIn, MayMatch, Matched, HonoursLimit;
    if n < 9 {
      var p := PhaseAt(n);
      PhaseMatched(env, cfg, p, rs);
      if !MayMatch(cfg, p) {
        NoneFound(env, cfg, p, rs);
      }
      if RunPhase(env, cfg, p, rs).0.None? {
        RunFromMatches(env, cfg, n + 1, RunPhase(env, cfg, p, rs).1);
      }
    }
  }

  // ------------------------------------------------------------------ tapes with one table

  /** One table satisfies every discovery query, except those asked in the given steps; nothing
      else happens. */
  function Tape(name: Name, holes: set<nat>): Env {
    Env(_ => 0, _ => false, _ => false, _ => None, _ => Ok(NoReplicas), _ => Ok([]),
        k => Ok(if k in holes then [] else [name]),
        _ => Ok([Entry(name)]), _ => Ok([]), _ => 0, _ => false)
  }

  function Entry(name: Name): Candidate { Candidate(name, 0, 0, None, false) }

  const ORIGIN: World := World(0, 0, 0, [])
  const OPEN: Gate := Gate(false, 0, 0)

  function TapeTrace(cfg: Config, name: Name, holes: set<nat>): seq<Event> {
    TraceOf(Tape(name, holes), cfg, ORIGIN, OPEN)
  }

  /** Settings under which tapes with one table are calm. */
  ghost predicate Busy(cfg: Config) { !cfg.policy.dryRun && cfg.limit != 0 && NoDup(cfg.alsoTables) }

  lemma TapeIsCalm(name: Name, holes: set<nat>, cfg: Config)
    requires Busy(cfg)
    ensures var env := Tape(name, holes);
            && env.Valid() && Calm(env) && Unhindered(env, cfg.policy) && DistinctLists(env, cfg)
               && HonoursLimit(env, cfg)
  {
  }

  /** What a phase finds when every query is answered. */
  lemma FoundOne(cfg: Config, name: Name, p: Phase)
    requires cfg.limit != 0 && !p.AlsoTables?
    ensures FoundBy(cfg, [name], [Entry(name)], p) == if Selected(cfg, p) then [name] else []
  {
    var cs := [Entry(name)];
    assert cs + [] == cs && Unique(cs) == cs by { UniqueFixed(cs); }
    assert StableSort(cfg.order, cs) == cs by { assert cs[..0] == []; }
    assert NamesOf(cs) == [name];
  }

  lemma OnlyMember(name: Name)
    ensures ToSet([name]) == {name} && ToSet([]) == {}
  {
    assert [name][0] == name;
  }

  /** From the n-th phase on, the selected phases of a tape without further holes match its table. */
  lemma TapeFinds(cfg: Config, name: Name, t: seq<Event>, n: nat, p: Phase)
    requires cfg.limit != 0 && Finds(cfg, [name], [Entry(name)], t, n) && Number(p) >= n && !p.AlsoTables?
    ensures Matched(t, p) == if Selected(cfg, p) then {name} else {}
  {
    hide FoundBy, ToSet, Matched;
    FoundOne(cfg, name, p);
    OnlyMember(name);
  }

  // ------------------------------------------------------------------- a pair of phases

  /** Two phases selected; the explicit list is a phase of its own. */
  function TwoPhases(q: Phase, p: Phase, name: Name): Config {
    var listed := if p.AlsoTables? then [name] else [];
    Config({q, p}, listed, DeadTuples, -1, Policy(false, false, false, RetryPolicy(0, 0), None))
  }

  /** Two phases run on a table that both match: the later one leaves it alone exactly if the
      earlier one blocks it. */
  lemma ReprocessedUnlessBlocked(q: Phase, p: Phase, name: Name)
    requires Number(q) < Number(p)
    ensures var t := TapeTrace(TwoPhases(q, p, name), name, {});
            && name in Matched(t, q) && name in Matched(t, p) && Begins(t, q, name) == 1
            && (Begins(t, p, name) == 0 <==> Blocks(q, p))
  {
    hide Main, Begins, Matched, FoundBy, Calm, Unhindered, DistinctLists, HonoursLimit, Env.Valid, Tape;
    var cfg, t := TwoPhases(q, p, name), TapeTrace(TwoPhases(q, p, name), name, {});
    TapeIsCalm(name, {}, cfg);
    TapeConstant(name, {}, 0);
    CalmRunExact(Tape(name, {}), cfg, ORIGIN, OPEN, [name], [Entry(name)]);
    OnlyMember(name);
    forall r ensures name in Matched(t, r) <==> r == q || r == p {
      if !r.AlsoTables? {
        TapeFinds(cfg, name, t, 1, r);
      } else {
        assert Matched(t, r) == ToSet(FoundBy(cfg, [name], [Entry(name)], r));
        AlsoFound(cfg, name);
      }
    }
  }

  lemma AlsoFound(cfg: Config, name: Name)
    ensures FoundBy(cfg, [name], [Entry(name)], AlsoTables) == cfg.alsoTables
  {
  }

  lemma TapeConstant(name: Name, holes: set<nat>, from: nat)
    requires forall k :: k in holes ==> k < from
    ensures Constant(Tape(name, holes), [name], [Entry(name)], from)
  {
  }

  /** What is asked of a run: lists without duplicates, and a fresh trace. */
  ghost predicate Admits(env: Env, cfg: Config, w: World) { env.Valid() && DistinctLists(env, cfg) && w.trace == [] }

  /** No run reprocesses in `p` what `q` matched, whatever else happens in it, exactly if `q`
      blocks `p`. */
  lemma PairExactly(q: Phase, p: Phase)
    requires Number(q) < Number(p)
    ensures (forall env: Env, cfg: Config, w: World, gate: Gate, name: Name ::
               Admits(env, cfg, w) && name in Matched(TraceOf(env, cfg, w, gate), q) ==>
                 Begins(TraceOf(env, cfg, w, gate), p, name) == 0)
       <==> Blocks(q, p)
  {
    hide Begins, Matched, Main, DistinctLists, Env.Valid, HeldBack;
    if Blocks(q, p) {
      forall env: Env, cfg: Config, w: World, gate: Gate, name: Name |
        Admits(env, cfg, w) && name in Matched(TraceOf(env, cfg, w, gate), q)
        ensures Begins(TraceOf(env, cfg, w, gate), p, name) == 0
      {
        RunOnce(env, cfg, w, gate);
        Held(TraceOf(env, cfg, w, gate), q, p, name);
      }
    } else {
      var name := Name("", "");
      ReprocessedUnlessBlocked(q, p, name);
      TapeIsCalm(name, {}, TwoPhases(q, p, name));
      assert Admits(Tape(name, {}), TwoPhases(q, p, name), ORIGIN);
      assert TapeTrace(TwoPhases(q, p, name), name, {}) == TraceOf(Tape(name, {}), TwoPhases(q, p, name), ORIGIN, OPEN);
    }
  }

  lemma Held(t: seq<Event>, q: Phase, p: Phase, name: Name)
    requires OnceInv(t) && Blocks(q, p) && name in Matched(t, q)
    ensures Begins(t, p, name) == 0
  {
    assert HeldBack(t, p, name);
  }

  // ------------------------------------------------------------------- a configuration

  ghost predicate NothingReprocessed(t: seq<Event>) {
    forall q, p, name :: Number(q) < Number(p) && name in Matched(t, q) ==> Begins(t, p, name) == 0
  }

  predicate AllBlock(cfg: Config) {
    forall q, p :: Selected(cfg, q) && Selected(cfg, p) && Number(q) < Number(p) ==> Blocks(q, p)
  }

  /** What the calm lemmas keep from phase to phase. */
  ghost predicate Going(rs: RunState, n: nat) {
    SetsInv(rs) && Untouched(rs.world.trace, n) && OnceInv(rs.world.trace) && Thorough(rs.world.trace)
  }

  lemma StartGoing()
    ensures Going(Start(ORIGIN, OPEN), 1)
  {
    StartInv(ORIGIN, OPEN);
    StartThorough(ORIGIN);
  }

  lemma Unselected(env: Env, cfg: Config, n: nat, rs: RunState)
    requires 1 <= n <= 8 && !Selected(cfg, PhaseAt(n))
    ensures RunFrom(env, cfg, n, rs) == RunFrom(env, cfg, n + 1, rs)
    ensures Going(rs, n) ==> Going(rs, n + 1)
  {
    hide RunTables, Discover, SetsInv, OnceInv, Thorough;
    RunStep(env, cfg, n, rs);
    if Going(rs, n) {
      UntouchedLess(rs.world.trace, n);
    }
  }

  /** One selected phase of a tape. */
  lemma TapePhase(cfg: Config, name: Name, holes: set<nat>, n: nat, rs: RunState)
    requires Busy(cfg) && 1 <= n < 8 && Going(rs, n) && Selected(cfg, PhaseAt(n)) && !PhaseAt(n).NeedsVacuum?
    ensures var env := Tape(name, holes); var rs' := RunPhase(env, cfg, PhaseAt(n), rs).1; var t := rs'.world.trace;
            && RunFrom(env, cfg, n, rs) == RunFrom(env, cfg, n + 1, rs')
            && Going(rs', n + 1) && rs.world.step + 2 <= rs'.world.step
            && (forall p :: Number(p) != n ==> Matched(t, p) == Matched(rs.world.trace, p))
            && Matched(t, PhaseAt(n)) == if rs.world.step + 1 in holes then {} else {name}
  {
    hide RunPhase, Matched, ToSet, Calm, Unhindered, DistinctLists, SetsInv, OnceInv, Thorough;
    var env, p := Tape(name, holes), PhaseAt(n);
    TapeIsCalm(name, holes, cfg);
    RunStep(env, cfg, n, rs);
    PhaseOnce(env, cfg, n, rs);
    CalmPhase(env, cfg, n, rs);
    PhaseMatched(env, cfg, p, rs);
    OnlyMember(name);
    NumberInjective();
    FoundOnTape(cfg, name, holes, p, rs);
  }

  lemma FoundOnTape(cfg: Config, name: Name, holes: set<nat>, p: Phase, rs: RunState)
    requires Selected(cfg, p) && !p.NeedsVacuum? && !p.AlsoTables?
    ensures FoundIn(Tape(name, holes), cfg, p, rs) == if rs.world.step + 1 in holes then {} else {name}
  {
    hide ToSet;
    OnlyMember(name);
  }

  /** The phases behind all holes. */
  lemma TapeRest(cfg: Config, name: Name, holes: set<nat>, n: nat, rs: RunState)
    requires Busy(cfg) && 1 <= n <= 9 && Going(rs, n) && forall k :: k in holes ==> k < rs.world.step
    ensures var t := RunFrom(Tape(name, holes), cfg, n, rs).1.world.trace;
            && Exactly(t)
            && (forall p :: Number(p) < n ==> Matched(t, p) == Matched(rs.world.trace, p))
            && (forall p :: n <= Number(p) < 8 ==> Matched(t, p) == if Selected(cfg, p) then {name} else {})
  {
    hide RunFrom, Matched, Begins, ToSet, Calm, Unhindered, DistinctLists, SetsInv, OnceInv, Thorough, FoundBy, Exactly;
    var env := Tape(name, holes);
    TapeIsCalm(name, holes, cfg);
    TapeConstant(name, holes, rs.world.step);
    CalmRunFrom(env, cfg, n, rs, [name], [Entry(name)]);
    RunFromOnce(env, cfg, n, rs);
    var t := RunFrom(env, cfg, n, rs).1.world.trace;
    OnceAndThorough(t);
    forall p | n <= Number(p) < 8 ensures Matched(t, p) == if Selected(cfg, p) then {name} else {} {
      TapeFinds(cfg, name, t, n, p);
    }
  }

  lemma Violates(t: seq<Event>, q: Phase, p: Phase, name: Name)
    requires Exactly(t) && Number(q) < Number(p) && name in Matched(t, q) && name in Matched(t, p)
    requires forall r :: Blocks(r, p) ==> name !in Matched(t, r)
    ensures !NothingReprocessed(t)
  {
    hide Matched, Begins;
    assert Begins(t, p, name) == 1;
  }

  /** A pair of which no selected phase blocks the later one: a server that answers alike. */
  lemma OpenPair(cfg: Config, q: Phase, p: Phase, name: Name)
    requires Busy(cfg) && Number(q) < Number(p) < 8 && Selected(cfg, q) && Selected(cfg, p)
    requires forall r :: Selected(cfg, r) ==> !Blocks(r, p)
    ensures !NothingReprocessed(TapeTrace(cfg, name, {}))
  {
    hide RunFrom, Matched, Exactly, Going, NothingReprocessed, Tape;
    StartGoing();
    TapeRest(cfg, name, {}, 1, Start(ORIGIN, OPEN));
    Violates(TapeTrace(cfg, name, {}), q, p, name);
  }

  /** Phase 2 matches nothing, so it cannot block phase 7. */
  lemma SilentAnalyze(cfg: Config, q: Phase, name: Name)
    requires Busy(cfg) && !Selected(cfg, NeverVacuumed) && Selected(cfg, NeverAnalyzed)
    requires 3 <= Number(q) < 7 && Selected(cfg, q) && Selected(cfg, AnalyzeOverdue)
    ensures !NothingReprocessed(TapeTrace(cfg, name, {1}))
  {
    hide RunFrom, RunPhase, Matched, Exactly, Going, NothingReprocessed, Tape;
    var env, rs := Tape(name, {1}), Start(ORIGIN, OPEN);
    StartGoing();
    Unselected(env, cfg, 1, rs);
    TapePhase(cfg, name, {1}, 2, rs);
    TapeRest(cfg, name, {1}, 3, RunPhase(env, cfg, NeverAnalyzed, rs).1);
    Violates(TapeTrace(cfg, name, {1}), q, AnalyzeOverdue, name);
  }

  /** The step in which phase 4 asks, once phase 2 has analyzed one table. */
  function BloatAsks(cfg: Config): nat { if cfg.policy.gate.None? then 8 else 9 }

  lemma AnalyzeTakes(cfg: Config, name: Name, holes: set<nat>)
    requires Busy(cfg) && Selected(cfg, NeverAnalyzed) && 1 !in holes
    ensures RunPhase(Tape(name, holes), cfg, NeverAnalyzed, Start(ORIGIN, OPEN)).1.world.step + 1 == BloatAsks(cfg)
  {
    hide RunTables, Calm, Unhindered, DistinctLists, HonoursLimit;
    var env, rs := Tape(name, holes), Start(ORIGIN, OPEN);
    var st := State(World(2, 0, 0, [Found(NeverAnalyzed, [name])]), OPEN, Summary(1, 0, 0, 0));
    TapeIsCalm(name, holes, cfg);
    assert Discover(env, cfg, NeverAnalyzed, ORIGIN.Next(env)) == (Ok([name]), World(2, 0, 0, []));
    assert World(2, 0, 0, []).Emit(Found(NeverAnalyzed, [name])) == st.world;
    OneTableTakes(env, cfg, name, st);
  }

  lemma OneTableTakes(env: Env, cfg: Config, name: Name, st: State)
    requires env.lag(st.world.step + 2) == Ok(NoReplicas) && Calm(env) && !cfg.policy.dryRun && !st.gate.disabled
    ensures var (e, st') := RunTables(env, cfg.policy, NeverAnalyzed, {}, [name], 0, st);
            e.None? && st'.world.step == st.world.step + if cfg.policy.gate.None? then 5 else 6
  {
    hide RunTable, Calm;
    TableTakes(env, cfg, name, st);
    var (x, st') := RunTable(env, cfg.policy, NeverAnalyzed, {}, name, st);
    assert RunTables(env, cfg.policy, NeverAnalyzed, {}, [name], 1, st') == (None, st');
  }

  lemma TableTakes(env: Env, cfg: Config, name: Name, st: State)
    requires env.lag(st.world.step + 2) == Ok(NoReplicas) && Calm(env) && !cfg.policy.dryRun && !st.gate.disabled
    ensures var (x, st') := RunTable(env, cfg.policy, NeverAnalyzed, {}, name, st);
            x.NextTable? && st'.world.step == st.world.step + if cfg.policy.gate.None? then 5 else 6
  {
    var live := st.(world := st.world.Next(env).Next(env));
    var gated := PassGates(env, cfg.policy, NeverAnalyzed, live);
    assert gated.0.Pass? && gated.1.world.step == live.world.step + if cfg.policy.gate.None? then 1 else 2;
  }

  /** Phase 4 matches nothing, so it cannot block phases 5 and 6. */
  lemma SilentBloat(cfg: Config, p: Phase, name: Name)
    requires Busy(cfg) && !Selected(cfg, NeverVacuumed) && Selected(cfg, NeverAnalyzed) && !Selected(cfg, Wraparound)
    requires Selected(cfg, Bloat) && Selected(cfg, p)
    requires p.NeedsVacuum? || (p.VacuumOverdue? && !Selected(cfg, NeedsVacuum))
    ensures !NothingReprocessed(TapeTrace(cfg, name, {BloatAsks(cfg)}))
  {
    hide RunFrom, RunPhase, Matched, Exactly, Going, NothingReprocessed, Tape;
    var holes := {BloatAsks(cfg)};
    var env, rs := Tape(name, holes), Start(ORIGIN, OPEN);
    StartGoing();
    Unselected(env, cfg, 1, rs);
    TapePhase(cfg, name, holes, 2, rs);
    AnalyzeTakes(cfg, name, holes);
    var rs2 := RunPhase(env, cfg, NeverAnalyzed, rs).1;
    Unselected(env, cfg, 3, rs2);
    TapePhase(cfg, name, holes, 4, rs2);
    TapeRest(cfg, name, holes, 5, RunPhase(env, cfg, Bloat, rs2).1);
    StartMatches();
    Violates(TapeTrace(cfg, name, holes), NeverAnalyzed, p, name);
  }

  lemma StartMatches()
    ensures forall p :: Matched(Start(ORIGIN, OPEN).world.trace, p) == {}
  {
  }

  /** Where two selected phases do not block, some tape shows it. */
  lemma SomeReprocessed(cfg: Config, q: Phase, p: Phase, name: Name) returns (holes: set<nat>)
    requires Busy(cfg) && Number(q) < Number(p) && Selected(cfg, q) && Selected(cfg, p) && !Blocks(q, p)
    ensures !NothingReprocessed(TapeTrace(cfg, name, holes))
  {
    hide NothingReprocessed, TapeTrace, Selected;
    holes := {};
    if Selected(cfg, NeverVacuumed) && Selected(cfg, NeverAnalyzed) {
      OpenPair(cfg, NeverVacuumed, NeverAnalyzed, name);
    } else if Selected(cfg, Wraparound) && Selected(cfg, NeverVacuumed) {
      OpenPair(cfg, NeverVacuumed, Wraparound, name);
    } else if Selected(cfg, Wraparound) && Selected(cfg, NeverAnalyzed) {
      OpenPair(cfg, NeverAnalyzed, Wraparound, name);
    } else if p.AnalyzeOverdue? {
      if Selected(cfg, NeverAnalyzed) {
        holes := {1};
        SilentAnalyze(cfg, q, name);
      } else {
        OpenPair(cfg, q, AnalyzeOverdue, name);
      }
    } else {
      var later := if Selected(cfg, NeedsVacuum) then NeedsVacuum else VacuumOverdue;
      if Selected(cfg, Bloat) {
        holes := {BloatAsks(cfg)};
        SilentBloat(cfg, later, name);
      } else {
        OpenPair(cfg, NeverAnalyzed, later, name);
      }
    }
  }

  lemma {:induction false} NothingBegun(t: seq<Event>, p: Phase, name: Name)
    requires OnlyFound(t)
    ensures Begins(t, p, name) == 0
  {
    if t != [] {
      NothingBegun(t[..|t| - 1], p, name);
    }
  }

  /** The claim, for one configuration: no run on any tape reprocesses a table, exactly if it is
      a dry run, or the limit is 0, or every two selected phases block. */
  lemma NothingReprocessedExactly(cfg: Config)
    requires NoDup(cfg.alsoTables)
    ensures (forall env: Env, w: World, gate: Gate :: Admits(env, cfg, w) && HonoursLimit(env, cfg) ==>
               NothingReprocessed(TraceOf(env, cfg, w, gate)))
       <==> cfg.policy.dryRun || cfg.limit == 0 || AllBlock(cfg)
  {
    hide Admits, HonoursLimit, NothingReprocessed, TraceOf, Selected, Tape;
    if cfg.policy.dryRun || cfg.limit == 0 || AllBlock(cfg) {
      forall env: Env, w: World, gate: Gate | Admits(env, cfg, w) && HonoursLimit(env, cfg)
        ensures NothingReprocessed(TraceOf(env, cfg, w, gate))
      {
        KeepsClaim(env, cfg, w, gate);
      }
    } else {
      var q, p :| Selected(cfg, q) && Selected(cfg, p) && Number(q) < Number(p) && !Blocks(q, p);
      var name := Name("", "");
      var holes := SomeReprocessed(cfg, q, p, name);
      TapeAdmitted(cfg, name, holes);
    }
  }

  lemma TapeAdmitted(cfg: Config, name: Name, holes: set<nat>)
    requires Busy(cfg)
    ensures Admits(Tape(name, holes), cfg, ORIGIN) && HonoursLimit(Tape(name, holes), cfg)
    ensures TapeTrace(cfg, name, holes) == TraceOf(Tape(name, holes), cfg, ORIGIN, OPEN)
  {
    hide DistinctLists, HonoursLimit, Main;
    TapeIsCalm(name, holes, cfg);
  }

  lemma KeepsClaim(env: Env, cfg: Config, w: World, gate: Gate)
    requires Admits(env, cfg, w) && HonoursLimit(env, cfg) && (cfg.policy.dryRun || cfg.limit == 0 || AllBlock(cfg))
    ensures NothingReprocessed(TraceOf(env, cfg, w, gate))
  {
    hide RunFrom, Matched, Begins, DistinctLists, HonoursLimit, OnceInv, Selected, Blocks, OnlyFound;
    var t := TraceOf(env, cfg, w, gate);
    if cfg.policy.dryRun {
      DryRunSilent(env, cfg, w, gate);
      forall p, name ensures Begins(t, p, name) == 0 { NothingBegun(t, p, name); }
    } else {
      RunOnce(env, cfg, w, gate);
      NothingMatched(w);
      RunFromMatches(env, cfg, 1, Start(w, gate));
      forall q, p, name | Number(q) < Number(p) && name in Matched(t, q) ensures Begins(t, p, name) == 0 {
        LaterLeavesAlone(cfg, t, q, p, name);
      }
    }
  }

  lemma NothingMatched(w: World)
    requires w.trace == []
    ensures forall p :: Matched(w.trace, p) == {}
  {
  }

  lemma LaterLeavesAlone(cfg: Config, t: seq<Event>, q: Phase, p: Phase, name: Name)
    requires OnceInv(t) && OnlyMayMatch(cfg, t) && (cfg.limit == 0 || AllBlock(cfg))
    requires Number(q) < Number(p) && name in Matched(t, q)
    ensures Begins(t, p, name) == 0
  {
    hide Matched, Begins, HeldBack, Selected;
    assert MayMatch(cfg, q);
    assert !q.AlsoTables?;
    if name in Matched(t, p) {
      assert MayMatch(cfg, p);
      Held(t, q, p, name);
    }
  }
}
