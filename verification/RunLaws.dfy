/** Laws of a whole run, for every environment and configuration. */
module RunLaws {
  import opened Text
  import opened Merge
  import opened World
  import opened LagGate
  import opened Retry
  import opened Runner
  import opened RunnerLaws
  import opened Run

  // ------------------------------------------------------- statements after a shutdown

  lemma DiscoverQuiet(env: Env, cfg: Config, p: Phase, w: World)
    ensures Discover(env, cfg, p, w).1.trace == w.trace && w.step <= Discover(env, cfg, p, w).1.step
  {
    hide Merged;
  }

  lemma PhaseLate(env: Env, cfg: Config, p: Phase, rs: RunState)
    requires env.Valid() && AtMostOneLate(env, rs.world)
    ensures AtMostOneLate(env, RunPhase(env, cfg, p, rs).1.world)
  {
    hide RunTables, Discover, Late, Already, Remember, Selected;
    if Selected(cfg, p) && !rs.world.Flag(env) {
      var checked := rs.world.Next(env);
      DiscoverQuiet(env, cfg, p, checked);
      var (found, w) := Discover(env, cfg, p, checked);
      if found.Ok? {
        LateSnoc(env, w.trace, Found(p, found.value));
        TablesLate(env, cfg.policy, p, Already(p, rs), found.value, 0,
                   State(w.Emit(Found(p, found.value)), rs.gate, Summary(|found.value|, 0, 0, 0)));
        RememberKeepsWorld(p, found.value, rs);
      }
    }
  }

  lemma RememberKeepsWorld(p: Phase, tables: seq<Name>, rs: RunState)
    ensures forall r: RunState :: Remember(p, tables, r).world == r.world
  {
    hide ToSet;
  }

  lemma {:induction false} RunFromLate(env: Env, cfg: Config, n: nat, rs: RunState)
    requires env.Valid() && 1 <= n <= 9 && AtMostOneLate(env, rs.world)
    ensures AtMostOneLate(env, RunFrom(env, cfg, n, rs).1.world)
    decreases 9 - n
  {
    hide RunPhase, AtMostOneLate;
    if n < 9 {
      PhaseLate(env, cfg, PhaseAt(n), rs);
      if RunPhase(env, cfg, PhaseAt(n), rs).0.None? {
        RunFromLate(env, cfg, n + 1, RunPhase(env, cfg, PhaseAt(n), rs).1);
      }
    }
  }

  /** However and whenever a shutdown arrives, at most one VACUUM or ANALYZE statement of the
      whole run is sent after the flag is set, retries and later phases included. */
  lemma AtMostOneLateStatement(env: Env, cfg: Config, w: World, gate: Gate)
    requires env.Valid() && w.trace == []
    ensures Late(env, Main(env, cfg, w, gate).1.world.trace) <= 1
  {
    hide RunFrom;
    RunFromLate(env, cfg, 1, Start(w, gate));
  }

  // ------------------------------------------------------------------ tables across phases

  /** The tables a phase has matched so far. */
  function Matched(t: seq<Event>, p: Phase): set<Name> {
    if t == [] then {} else
      Matched(t[..|t| - 1], p)
      + match t[|t| - 1] case Found(q, tables) => (if q == p then ToSet(tables) else {}) case _ => {}
  }

  lemma MatchedSnoc(t: seq<Event>, e: Event, p: Phase)
    ensures Matched(t + [e], p)
        == Matched(t, p) + match e case Found(q, tables) => (if q == p then ToSet(tables) else {}) case _ => {}
  {
    assert (t + [e])[..|t|] == t;
  }

  lemma {:induction false} MatchedKept(a: seq<Event>, b: seq<Event>, p: Phase)
    requires a <= b && forall k :: |a| <= k < |b| ==> !b[k].Found?
    ensures Matched(b, p) == Matched(a, p)
    decreases |b|
  {
    if |b| > |a| {
      MatchedKept(a, b[..|b| - 1], p);
    } else {
      assert a == b;
    }
  }

  /** A table matched in `q` is held back from the later phase `p`: phases 4 and 8 consult
      everything matched before, 5 and 6 what 1, 3, 4 and 5 matched, 7 what 2 matched, and
      2 and 3 nothing. */
  predicate Blocks(q: Phase, p: Phase) {
    && Number(q) < Number(p)
    && match p
       case Bloat => true
       case AlsoTables => true
       case NeedsVacuum => q.NeverVacuumed? || q.Wraparound? || q.Bloat?
       case VacuumOverdue => q.NeverVacuumed? || q.Wraparound? || q.Bloat? || q.NeedsVacuum?
       case AnalyzeOverdue => q.NeverAnalyzed?
       case _ => false
  }

  ghost predicate HeldBack(t: seq<Event>, p: Phase, n: Name) { exists q :: Blocks(q, p) && n in Matched(t, q) }

  /** The sets are exactly what the trace says was matched. */
  ghost predicate SetsInv(rs: RunState) {
    var t := rs.world.trace;
    && rs.handled == Matched(t, NeverVacuumed) + Matched(t, NeverAnalyzed) + Matched(t, Wraparound) + Matched(t, Bloat)
                     + Matched(t, NeedsVacuum) + Matched(t, VacuumOverdue) + Matched(t, AnalyzeOverdue)
    && rs.vacuumed == Matched(t, NeverVacuumed) + Matched(t, Wraparound) + Matched(t, Bloat) + Matched(t, NeedsVacuum)
    && rs.analyzed == Matched(t, NeverAnalyzed)
  }

  ghost predicate Untouched(t: seq<Event>, n: nat) {
    forall p | Number(p) >= n :: Matched(t, p) == {} && forall name :: Begins(t, p, name) == 0
  }

  /** Every table is begun at most once per phase, only when that phase matched it, and never
      when an earlier phase holds it back; statements belong to begun tables. */
  ghost predicate OnceInv(t: seq<Event>) {
    && (forall p, name ::
          Begins(t, p, name) <= 1 && (Begins(t, p, name) == 1 ==> name in Matched(t, p) && !HeldBack(t, p, name)))
    && forall k :: 0 <= k < |t| && t[k].Statement? ==> Begins(t, t[k].phase, t[k].table) == 1
  }

  lemma ConsultedSet(rs: RunState, p: Phase, name: Name)
    requires SetsInv(rs) && Untouched(rs.world.trace, Number(p))
    ensures ConsultsSet(p) && name in Already(p, rs) <==> HeldBack(rs.world.trace, p, name)
  {
    hide Matched;
    var t := rs.world.trace;
    assert forall q :: Number(q) >= Number(p) ==> Matched(t, q) == {};
    assert HeldBack(t, p, name) <==>
           || (Blocks(NeverVacuumed, p) && name in Matched(t, NeverVacuumed))
           || (Blocks(NeverAnalyzed, p) && name in Matched(t, NeverAnalyzed))
           || (Blocks(Wraparound, p) && name in Matched(t, Wraparound))
           || (Blocks(Bloat, p) && name in Matched(t, Bloat))
           || (Blocks(NeedsVacuum, p) && name in Matched(t, NeedsVacuum))
           || (Blocks(VacuumOverdue, p) && name in Matched(t, VacuumOverdue))
           || (Blocks(AnalyzeOverdue, p) && name in Matched(t, AnalyzeOverdue)) by {
      forall q | Blocks(q, p) ensures !q.AlsoTables? { }
    }
  }

  /** Every list of candidates names a table at most once. The needs-vacuum list does so by
      itself, because it is the result of the merge. */
  ghost predicate DistinctLists(env: Env, cfg: Config) {
    NoDup(cfg.alsoTables) && forall n: nat :: env.candidates(n).Ok? ==> NoDup(env.candidates(n).value)
  }

  lemma MergedNoDup(classic: seq<Candidate>, extra: seq<Candidate>, order: OrderBy, limit: int)
    ensures NoDup(NamesOf(Merged(classic, extra, order, limit)))
  {
    var all := Unique(classic + extra);
    UniqueNames(classic + extra);
    SortSorts(order, all);
    DistinctPermuted(all, StableSort(order, all));
  }

  lemma DiscoverNoDup(env: Env, cfg: Config, p: Phase, w: World)
    requires DistinctLists(env, cfg) && Discover(env, cfg, p, w).0.Ok?
    ensures NoDup(Discover(env, cfg, p, w).0.value)
  {
    hide Merged, NoDup;
    if p.NeedsVacuum? {
      var asked := w.Next(env);
      var ready := asked.Next(env).Next(env).Next(env);
      MergedNoDup(env.classic(asked.step).value, match env.extra(ready.step) case Ok(cs) => cs case Err(_) => [],
          cfg.order, cfg.limit);
    }
  }

  /** The trace of a phase: the match, then the runner's work. */
  lemma PhaseTrace(p: Phase, already: set<Name>, tables: seq<Name>, a: World, b: World)
    requires TablesStep(p, already, tables, 0, a.Emit(Found(p, tables)), b)
    requires OnceInv(a.trace) && Untouched(a.trace, Number(p))
    requires forall name :: ConsultsSet(p) && name in already <==> HeldBack(a.trace, p, name)
    ensures OnceInv(b.trace) && Untouched(b.trace, Number(p) + 1)
    ensures forall q :: Matched(b.trace, q) == Matched(a.trace, q) + if q == p then ToSet(tables) else {}
    ensures forall q, name :: Begins(a.trace, q, name) <= Begins(b.trace, q, name) <= Begins(a.trace, q, name) + 1
    ensures forall q, name :: q != p ==> Begins(b.trace, q, name) == Begins(a.trace, q, name)
  {
    hide Matched, Begins, ConsultsSet, ToSet, HeldBack;
    var m := a.Emit(Found(p, tables));
    forall q ensures Matched(b.trace, q) == Matched(a.trace, q) + if q == p then ToSet(tables) else {} {
      MatchedSnoc(a.trace, Found(p, tables), q);
      MatchedKept(m.trace, b.trace, q);
    }
    forall q, name
      ensures Begins(m.trace, q, name) == Begins(a.trace, q, name)
    {
      BeginsSnoc(a.trace, Found(p, tables), q, name);
    }
    assert tables[0..] == tables;
    assert b.trace[|a.trace|] == m.trace[|a.trace|] && m.trace[|a.trace|].Found?;
    forall q, name
      ensures HeldBack(b.trace, q, name) && Number(q) <= Number(p) <==>
          HeldBack(a.trace, q, name) && Number(q) <= Number(p)
    {
      HeldBackKept(a.trace, b.trace, p, q, name);
    }
    forall q, name
      ensures Begins(b.trace, q, name) <= 1
          && (Begins(b.trace, q, name) == 1 ==> name in Matched(b.trace, q) && !HeldBack(b.trace, q, name))
    {
      InSet(tables, name);
    }
    forall k | 0 <= k < |b.trace| && b.trace[k].Statement?
      ensures Begins(b.trace, b.trace[k].phase, b.trace[k].table) == 1
    {
      if k < |a.trace| {
        assert b.trace[k] == m.trace[k] == a.trace[k];
      }
    }
  }

  lemma InSet(tables: seq<Name>, name: Name)
    ensures name in tables <==> name in ToSet(tables)
  {
  }

  /** What holds a table back from a phase is settled once that phase starts. */
  lemma HeldBackKept(a: seq<Event>, b: seq<Event>, p: Phase, q: Phase, name: Name)
    requires forall r :: r != p ==> Matched(b, r) == Matched(a, r)
    ensures Number(q) <= Number(p) ==> (HeldBack(b, q, name) <==> HeldBack(a, q, name))
  {
    hide Matched;
    assert forall r :: Blocks(r, q) && Number(q) <= Number(p) ==> r != p;
  }

  lemma RememberInv(p: Phase, tables: seq<Name>, rs: RunState, after: RunState)
    requires SetsInv(rs) && after.handled == rs.handled && after.vacuumed == rs.vacuumed
        && after.analyzed == rs.analyzed
    requires forall q ::
        Matched(after.world.trace, q) == Matched(rs.world.trace, q) + if q == p then ToSet(tables) else {}
    ensures SetsInv(Remember(p, tables, after))
  {
    hide Matched, ToSet;
  }

  /** A runner enters no phase of its own. */
  lemma {:induction false} TablesFindNothing(env: Env, policy: Policy, phase: Phase, already: set<Name>,
        tables: seq<Name>, i: nat, st: State)
    requires i <= |tables|
    ensures var a, b := st.world.trace, RunTables(env, policy, phase, already, tables, i, st).1.world.trace;
            a <= b && forall k :: |a| <= k < |b| ==> !b[k].Found?
    ensures st.world.step <= RunTables(env, policy, phase, already, tables, i, st).1.world.step
    decreases |tables| - i
  {
    hide RunTable, TableStep;
    if i < |tables| {
      TableTakesUp(env, policy, phase, already, tables[i], st);
      var (x, st') := RunTable(env, policy, phase, already, tables[i], st);
      TableTrace(policy, phase, already, tables[i], st.world, st'.world);
      if x.NextTable? {
        TablesFindNothing(env, policy, phase, already, tables, i + 1, st');
        var b := RunTables(env, policy, phase, already, tables, i + 1, st').1.world.trace;
        assert forall k :: |st.world.trace| <= k < |st'.world.trace| ==> b[k] == st'.world.trace[k];
      }
    }
  }

  /** What a phase matches, if it gets as far as searching. */
  function FoundIn(env: Env, cfg: Config, p: Phase, rs: RunState): set<Name> {
    if !Selected(cfg, p) || rs.world.Flag(env) then {} else
      match Discover(env, cfg, p, rs.world.Next(env)).0
      case Ok(tables) => ToSet(tables)
      case Err(_) => {}
  }

  lemma PhaseMatched(env: Env, cfg: Config, p: Phase, rs: RunState)
    ensures var t := RunPhase(env, cfg, p, rs).1.world.trace;
            forall q :: Matched(t, q) == Matched(rs.world.trace, q) + if q == p then FoundIn(env, cfg, p, rs) else {}
  {
    hide RunTables, Discover, Already, Remember, Selected, Matched, ToSet, World.Flag;
    var checked := rs.world.Next(env);
    if Selected(cfg, p) && !rs.world.Flag(env) {
      DiscoverQuiet(env, cfg, p, checked);
      var (found, w) := Discover(env, cfg, p, checked);
      if found.Ok? {
        var m := w.Emit(Found(p, found.value));
        var st := State(m, rs.gate, Summary(|found.value|, 0, 0, 0));
        TablesFindNothing(env, cfg.policy, p, Already(p, rs), found.value, 0, st);
        var (e, st') := RunTables(env, cfg.policy, p, Already(p, rs), found.value, 0, st);
        forall q ensures Matched(st'.world.trace, q) == Matched(rs.world.trace, q)
                         + if q == p then ToSet(found.value) else {} {
          MatchedSnoc(w.trace, Found(p, found.value), q);
          MatchedKept(m.trace, st'.world.trace, q);
        }
        RememberKeepsWorld(p, found.value, rs);
      }
    }
  }

  lemma PhaseSets(env: Env, cfg: Config, p: Phase, rs: RunState)
    requires SetsInv(rs)
    ensures var (e, rs') := RunPhase(env, cfg, p, rs); e.None? ==> SetsInv(rs')
  {
    hide RunTables, Discover, Already, Remember, Selected, SetsInv, Matched, ToSet, World.Flag;
    var checked := rs.world.Next(env);
    SameTrace(rs, checked);
    PhaseMatched(env, cfg, p, rs);
    var (found, w) := Discover(env, cfg, p, checked);
    if Selected(cfg, p) && !rs.world.Flag(env) && found.Ok? {
      var st := State(w.Emit(Found(p, found.value)), rs.gate, Summary(|found.value|, 0, 0, 0));
      var (e, st') := RunTables(env, cfg.policy, p, Already(p, rs), found.value, 0, st);
      var after := rs.(world := st'.world, gate := st'.gate, failed := rs.failed + st'.summary.failed);
      RememberKeepsWorld(p, found.value, rs);
      RememberInv(p, found.value, rs, after);
    }
  }

  lemma {:induction false} RunFromSets(env: Env, cfg: Config, n: nat, rs: RunState)
    requires 1 <= n <= 9 && SetsInv(rs)
    ensures var (e, rs') := RunFrom(env, cfg, n, rs); e.None? ==> SetsInv(rs')
    decreases 9 - n
  {
    hide RunPhase, SetsInv;
    if n < 9 {
      PhaseSets(env, cfg, PhaseAt(n), rs);
      if RunPhase(env, cfg, PhaseAt(n), rs).0.None? {
        RunFromSets(env, cfg, n + 1, RunPhase(env, cfg, PhaseAt(n), rs).1);
      }
    }
  }

  /** Whatever is skipped, fails or is interrupted, the three sets hold exactly the tables that
      the trace says were matched by the phases that feed them. */
  lemma RunSets(env: Env, cfg: Config, w: World, gate: Gate)
    requires w.trace == []
    ensures var (e, rs) := RunFrom(env, cfg, 1, Start(w, gate)); e.None? ==> SetsInv(rs)
  {
    hide RunFrom, SetsInv, Untouched, OnceInv;
    StartInv(w, gate);
    RunFromSets(env, cfg, 1, Start(w, gate));
  }

  lemma PhaseOnce(env: Env, cfg: Config, n: nat, rs: RunState)
    requires DistinctLists(env, cfg) && 1 <= n <= 8 && SetsInv(rs) && Untouched(rs.world.trace, n)
        && OnceInv(rs.world.trace)
    ensures var (e, rs') := RunPhase(env, cfg, PhaseAt(n), rs);
            Untouched(rs'.world.trace, n + 1) && OnceInv(rs'.world.trace) && (e.None? ==> SetsInv(rs'))
  {
    hide RunPhase, OnceInv, SetsInv, Untouched, DistinctLists;
    PhaseSets(env, cfg, PhaseAt(n), rs);
    PhaseTakesUpOnce(env, cfg, n, rs);
  }

  lemma PhaseTakesUpOnce(env: Env, cfg: Config, n: nat, rs: RunState)
    requires DistinctLists(env, cfg) && 1 <= n <= 8 && SetsInv(rs) && Untouched(rs.world.trace, n)
        && OnceInv(rs.world.trace)
    ensures var rs' := RunPhase(env, cfg, PhaseAt(n), rs).1;
            Untouched(rs'.world.trace, n + 1) && OnceInv(rs'.world.trace)
  {
    hide RunTables, Discover, Already, Remember, Selected, OnceInv, SetsInv, Untouched, DistinctLists, HeldBack,
        ConsultsSet, ToSet, World.Flag;
    var p := PhaseAt(n);
    UntouchedLess(rs.world.trace, n);
    var checked := rs.world.Next(env);
    if Selected(cfg, p) && !rs.world.Flag(env) {
      DiscoverQuiet(env, cfg, p, checked);
      var (found, w) := Discover(env, cfg, p, checked);
      if found.Ok? {
        DiscoverNoDup(env, cfg, p, checked);
        var st := State(w.Emit(Found(p, found.value)), rs.gate, Summary(|found.value|, 0, 0, 0));
        TablesTakeUp(env, cfg.policy, p, Already(p, rs), found.value, 0, st);
        forall name
          ensures ConsultsSet(p) && name in Already(p, rs) <==> HeldBack(rs.world.trace, p, name)
        {
          ConsultedSet(rs, p, name);
        }
        PhaseTrace(p, Already(p, rs), found.value, w,
            RunTables(env, cfg.policy, p, Already(p, rs), found.value, 0, st).1.world);
        RememberKeepsWorld(p, found.value, rs);
      }
    }
  }

  lemma UntouchedLess(t: seq<Event>, n: nat)
    requires Untouched(t, n)
    ensures Untouched(t, n + 1)
  {
  }

  lemma SameTrace(rs: RunState, w: World)
    requires SetsInv(rs) && w.trace == rs.world.trace
    ensures SetsInv(rs.(world := w))
  {
  }

  lemma {:induction false} RunFromOnce(env: Env, cfg: Config, n: nat, rs: RunState)
    requires DistinctLists(env, cfg) && 1 <= n <= 9 && SetsInv(rs) && Untouched(rs.world.trace, n)
        && OnceInv(rs.world.trace)
    ensures OnceInv(RunFrom(env, cfg, n, rs).1.world.trace)
    decreases 9 - n
  {
    hide RunPhase, SetsInv, Untouched, OnceInv, DistinctLists;
    if n < 9 {
      PhaseOnce(env, cfg, n, rs);
      if RunPhase(env, cfg, PhaseAt(n), rs).0.None? {
        RunFromOnce(env, cfg, n + 1, RunPhase(env, cfg, PhaseAt(n), rs).1);
      }
    }
  }

  lemma StartInv(w: World, gate: Gate)
    requires w.trace == []
    ensures SetsInv(Start(w, gate)) && Untouched(w.trace, 1) && OnceInv(w.trace)
  {
  }

  /** Over a whole run, whatever is skipped, fails or is interrupted: each phase takes up a
      table at most once, only if it matched it, and never if an earlier blocking phase did. */
  lemma RunOnce(env: Env, cfg: Config, w: World, gate: Gate)
    requires DistinctLists(env, cfg) && w.trace == []
    ensures OnceInv(Main(env, cfg, w, gate).1.world.trace)
  {
    hide RunFrom, SetsInv, Untouched, OnceInv, DistinctLists;
    StartInv(w, gate);
    RunFromOnce(env, cfg, 1, Start(w, gate));
  }

  function BeginsIn(t: seq<Event>, ps: seq<Phase>, name: Name): nat {
    if ps == [] then 0 else Begins(t, ps[0], name) + BeginsIn(t, ps[1..], name)
  }

  /** Phases of which each blocks all later ones. */
  ghost predicate Chain(ps: seq<Phase>) { forall i, j :: 0 <= i < j < |ps| ==> Blocks(ps[i], ps[j]) }

  lemma {:induction false} ChainOnce(t: seq<Event>, ps: seq<Phase>, name: Name)
    requires OnceInv(t) && Chain(ps)
    ensures BeginsIn(t, ps, name) <= 1
    ensures BeginsIn(t, ps, name) == 1 ==> exists i :: 0 <= i < |ps| && Begins(t, ps[i], name) == 1
  {
    hide Begins, Matched, Blocks;
    if ps != [] {
      ChainOnce(t, ps[1..], name);
      if BeginsIn(t, ps[1..], name) == 1 {
        var i :| 0 <= i < |ps[1..]| && Begins(t, ps[1..][i], name) == 1;
        assert Begins(t, ps[i + 1], name) == 1 && Blocks(ps[0], ps[i + 1]);
        assert Begins(t, ps[0], name) == 0;
      } else if Begins(t, ps[0], name) == 1 {
        assert 0 <= 0 < |ps|;
      }
    }
  }

  /** Groups within which a table is taken up at most once: phases 1, 4, 5, 6, 8; 3, 4, 5, 6,
      8; and 2, 7, 8. */
  lemma AtMostOncePerGroup(env: Env, cfg: Config, w: World, gate: Gate, name: Name)
    requires DistinctLists(env, cfg) && w.trace == []
    ensures var t := Main(env, cfg, w, gate).1.world.trace;
            && BeginsIn(t, [NeverVacuumed, Bloat, NeedsVacuum, VacuumOverdue, AlsoTables], name) <= 1
            && BeginsIn(t, [Wraparound, Bloat, NeedsVacuum, VacuumOverdue, AlsoTables], name) <= 1
            && BeginsIn(t, [NeverAnalyzed, AnalyzeOverdue, AlsoTables], name) <= 1
  {
    hide Main, OnceInv, BeginsIn;
    RunOnce(env, cfg, w, gate);
    var t := Main(env, cfg, w, gate).1.world.trace;
    ChainOnce(t, [NeverVacuumed, Bloat, NeedsVacuum, VacuumOverdue, AlsoTables], name);
    ChainOnce(t, [Wraparound, Bloat, NeedsVacuum, VacuumOverdue, AlsoTables], name);
    ChainOnce(t, [NeverAnalyzed, AnalyzeOverdue, AlsoTables], name);
  }

  /** A table matched in phase 1 or 3 is never taken up in 4, 5, 6 or 8, even if phase 1 or 3
      skipped it. */
  lemma MatchedMeansHandled(env: Env, cfg: Config, w: World, gate: Gate, name: Name)
    requires DistinctLists(env, cfg) && w.trace == []
    ensures var t := Main(env, cfg, w, gate).1.world.trace;
            name in Matched(t, NeverVacuumed) + Matched(t, Wraparound) ==>
              forall p :: p in {Bloat, NeedsVacuum, VacuumOverdue, AlsoTables} ==> Begins(t, p, name) == 0
  {
    hide Main, Matched, Begins;
    RunOnce(env, cfg, w, gate);
  }
}
