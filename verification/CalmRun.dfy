/** Runs in which nothing goes wrong: every matched table that is not held back is taken up.
    Together with `RunOnce` this says exactly when a run processes a table twice. */
module CalmRun {
  import opened Text
  import opened Merge
  import opened World
  import opened LagGate
  import opened Retry
  import opened Runner
  import opened RunnerLaws
  import opened Run
  import opened RunLaws

  /** No signal, no error, no conflicting vacuum. */
  ghost predicate Calm(env: Env) {
    forall n: nat :: env.published(n) == 0 && !env.closed(n) && env.answer(n).None? && env.sessions(n) == Ok([])
                     && env.candidates(n).Ok? && env.classic(n).Ok?
  }

  /** Not a dry run, and no reading of the lag that holds the gate. */
  ghost predicate Unhindered(env: Env, policy: Policy) {
    && !policy.dryRun
    && (policy.gate.None? || forall n: nat :: LagFine(env.lag(n), policy.gate.value.thresholdSeconds))
  }

  predicate LagFine(o: Result<LagObservation, PgError>, threshold: real) {
    o.Ok? && !(o.value.Observed? && Exceeds(o.value, threshold))
  }

  lemma CalmLagGate(env: Env, policy: Policy, st: State)
    requires Unhindered(env, policy)
    ensures PassLagGateOnce(env, policy, st).0 == Pass
  {
    hide WaitForLag, Exceeds, GateConfig.Deadline;
    if policy.gate.Some? {
      assert LagFine(env.lag(st.world.step), policy.gate.value.thresholdSeconds);
      WaitForLagPatience(env, policy.gate.value, policy.dryRun, st.gate, st.world);
    }
  }

  lemma CalmGates(env: Env, policy: Policy, phase: Phase, st: State)
    requires Calm(env) && Unhindered(env, policy)
    ensures PassGates(env, policy, phase, st).0 == Pass
  {
    hide PassLagGateOnce, Unhindered;
    CalmLagGate(env, policy, st);
    CalmLagGate(env, policy, PassLagGateOnce(env, policy, st).1);
  }

  /** The operation succeeds at once and is booked as a success. */
  lemma CalmWork(env: Env, policy: Policy, phase: Phase, t: Name, st: State)
    requires Calm(env)
    ensures var (o, w') := WithRetry(env, policy.retry, phase, t, st.world); o.None?
    ensures var (x, st') := Book(env, phase, t, None, st); x.NextTable? && st'.summary.failed == st.summary.failed
  {
    hide CountsTuples;
  }

  lemma CalmTable(env: Env, policy: Policy, phase: Phase, already: set<Name>, t: Name, st: State)
    requires Calm(env) && Unhindered(env, policy)
    ensures var (x, st') := RunTable(env, policy, phase, already, t, st);
            && x.NextTable? && st'.summary.failed == st.summary.failed
            && (!(ConsultsSet(phase) && t in already) ==>
                  Begins(st'.world.trace, phase, t) >= Begins(st.world.trace, phase, t) + 1)
  {
    hide Begins, PassGates, WithRetry, Book, Unhindered, ConsultsSet;
    var live := st.(world := st.world.Next(env).Next(env));
    var gated := PassGates(env, policy, phase, live).1;
    CalmGates(env, policy, phase, live);
    GatesStep(env, policy, phase, live);
    UnhinderedIsWet(env, policy);
    if !(ConsultsSet(phase) && t in already) {
      var w := gated.world.Emit(Begin(phase, t));
      BeginsKept(phase, t, phase, t, live.world, gated.world);
      BeginsSnoc(gated.world.trace, Begin(phase, t), phase, t);
      WithRetryTries(env, policy.retry, phase, t, w);
      var (o, w') := WithRetry(env, policy.retry, phase, t, w);
      CalmWork(env, policy, phase, t, gated.(world := w));
      CalmWork(env, policy, phase, t, gated.(world := w'));
      BeginsKept(phase, t, phase, t, w, w');
      BookQuiet(env, phase, t, o, gated.(world := w'));
      BeginsKept(phase, t, phase, t, w', Book(env, phase, t, o, gated.(world := w')).1.world);
    }
  }

  lemma UnhinderedIsWet(env: Env, policy: Policy)
    requires Unhindered(env, policy)
    ensures !policy.dryRun
  {
  }

  lemma WithRetryTries(env: Env, policy: RetryPolicy, phase: Phase, t: Name, w: World)
    ensures Retrying(phase, t, w, WithRetry(env, policy, phase, t, w).1)
  {
    RetryTries(env, policy, phase, t, w, 0, policy.delayMs);
  }

  lemma {:induction false} CalmTables(env: Env, policy: Policy, phase: Phase, already: set<Name>, tables: seq<Name>,
        i: nat, st: State)
    requires Calm(env) && Unhindered(env, policy) && i <= |tables| && NoDup(tables)
    ensures var (e, st') := RunTables(env, policy, phase, already, tables, i, st);
            && e.None? && st'.summary.failed == st.summary.failed
            && forall j :: i <= j < |tables| && !(ConsultsSet(phase) && tables[j] in already) ==>
                 Begins(st'.world.trace, phase, tables[j]) >= 1
    decreases |tables| - i
  {
    hide RunTable, Begins, ConsultsSet, Unhindered;
    if i < |tables| {
      CalmTable(env, policy, phase, already, tables[i], st);
      var (x, st') := RunTable(env, policy, phase, already, tables[i], st);
      CalmTables(env, policy, phase, already, tables, i + 1, st');
      TablesTakeUp(env, policy, phase, already, tables, i + 1, st');
    }
  }

  /** Every matched table that is not held back was taken up. */
  ghost predicate Thorough(t: seq<Event>) {
    forall p, name :: name in Matched(t, p) && !HeldBack(t, p, name) ==> Begins(t, p, name) >= 1
  }

  /** A server that always answers alike from some step on. */
  ghost predicate Constant(env: Env, list: seq<Name>, cs: seq<Candidate>, from: nat) {
    forall n: nat :: n >= from ==>
      env.candidates(n) == Ok(list) && env.classic(n) == Ok(cs) && env.extra(n) == Ok([])
  }

  /** What a phase finds on such a server. */
  function FoundBy(cfg: Config, list: seq<Name>, cs: seq<Candidate>, p: Phase): seq<Name> {
    if !Selected(cfg, p) then []
    else if p.AlsoTables? then cfg.alsoTables
    else if p.NeedsVacuum? then NamesOf(Merged(cs, [], cfg.order, cfg.limit))
    else list
  }

  /** What the phases from the n-th on have matched. */
  ghost predicate Finds(cfg: Config, list: seq<Name>, cs: seq<Candidate>, t: seq<Event>, n: nat) {
    forall p :: Number(p) >= n ==> Matched(t, p) == ToSet(FoundBy(cfg, list, cs, p))
  }

  lemma CalmDiscover(env: Env, cfg: Config, p: Phase, w: World)
    requires Calm(env)
    ensures Discover(env, cfg, p, w).0.Ok? && (!p.AlsoTables? ==> w.step < Discover(env, cfg, p, w).1.step)
  {
    hide Merged;
  }

  lemma CalmFound(env: Env, cfg: Config, p: Phase, rs: RunState, list: seq<Name>, cs: seq<Candidate>)
    requires Calm(env) && Constant(env, list, cs, rs.world.step)
    ensures FoundIn(env, cfg, p, rs) == ToSet(FoundBy(cfg, list, cs, p))
  {
    hide Merged, ToSet;
    NothingIn();
  }

  /** One phase: it ends well, and takes up what it matched and nothing holds back. */
  lemma CalmPhase(env: Env, cfg: Config, n: nat, rs: RunState)
    requires Calm(env) && Unhindered(env, cfg.policy) && DistinctLists(env, cfg) && 1 <= n <= 8
    requires SetsInv(rs) && Untouched(rs.world.trace, n) && OnceInv(rs.world.trace) && Thorough(rs.world.trace)
    ensures var (e, rs') := RunPhase(env, cfg, PhaseAt(n), rs);
            && e.None? && rs'.failed == rs.failed && Thorough(rs'.world.trace) && rs.world.step <= rs'.world.step
            && (Selected(cfg, PhaseAt(n)) && n < 8 ==> rs.world.step + 2 <= rs'.world.step)
  {
    hide RunTables, Discover, Already, Remember, Selected, OnceInv, SetsInv, DistinctLists, Unhindered, Thorough;
    hide HeldBack, ToSet, Matched, Begins, ConsultsSet;
    var p := PhaseAt(n);
    var checked := rs.world.Next(env);
    if Selected(cfg, p) {
      DiscoverQuiet(env, cfg, p, checked);
      CalmDiscover(env, cfg, p, checked);
      DiscoverNoDup(env, cfg, p, checked);
      var (found, w) := Discover(env, cfg, p, checked);
      var tables := found.value;
      var st := State(w.Emit(Found(p, tables)), rs.gate, Summary(|tables|, 0, 0, 0));
      TablesTakeUp(env, cfg.policy, p, Already(p, rs), tables, 0, st);
      CalmTables(env, cfg.policy, p, Already(p, rs), tables, 0, st);
      forall name ensures ConsultsSet(p) && name in Already(p, rs) <==> HeldBack(rs.world.trace, p, name) {
        ConsultedSet(rs, p, name);
      }
      var (e, st') := RunTables(env, cfg.policy, p, Already(p, rs), tables, 0, st);
      PhaseTrace(p, Already(p, rs), tables, w, st'.world);
      PhaseThorough(p, Already(p, rs), tables, w, st'.world);
      var after := rs.(world := st'.world, gate := st'.gate, failed := rs.failed + st'.summary.failed);
      RememberKeepsWorld(p, tables, after);
      RememberKeepsFailed(p, tables, after);
    }
  }

  lemma NumberInjective()
    ensures forall a, b :: Number(a) == Number(b) ==> a == b
  {
  }

  lemma NothingIn()
    ensures ToSet([]) == {}
  {
  }

  lemma RememberKeepsFailed(p: Phase, tables: seq<Name>, rs: RunState)
    ensures Remember(p, tables, rs).failed == rs.failed
  {
  }

  lemma PhaseThorough(p: Phase, already: set<Name>, tables: seq<Name>, a: World, b: World)
    requires Thorough(a.trace) && Untouched(a.trace, Number(p))
    requires forall q :: Matched(b.trace, q) == Matched(a.trace, q) + if q == p then ToSet(tables) else {}
    requires forall q, name :: Begins(a.trace, q, name) <= Begins(b.trace, q, name)
    requires forall name :: ConsultsSet(p) && name in already <==> HeldBack(a.trace, p, name)
    requires forall j :: 0 <= j < |tables| && !(ConsultsSet(p) && tables[j] in already) ==>
        Begins(b.trace, p, tables[j]) >= 1
    ensures Thorough(b.trace)
  {
    hide ConsultsSet, HeldBack, ToSet, Matched, Begins;
    assert forall q :: Number(q) > Number(p) ==> Matched(a.trace, q) == {};
    forall q, name | name in Matched(b.trace, q) && !HeldBack(b.trace, q, name) ensures Begins(b.trace, q, name) >= 1 {
      if Number(q) <= Number(p) {
        HeldBackKept(a.trace, b.trace, p, q, name);
        if name in Matched(a.trace, q) {
          assert Begins(a.trace, q, name) >= 1;
        } else {
          InSet(tables, name);
          var j :| 0 <= j < |tables| && tables[j] == name;
          assert Begins(b.trace, p, tables[j]) >= 1;
        }
      }
    }
  }

  /** The run from the n-th phase on: earlier matches stay, and on a server that answers alike
      from here on the later matches are its answers. */
  lemma {:induction false} CalmRunFrom(env: Env, cfg: Config, n: nat, rs: RunState, list: seq<Name>,
        cs: seq<Candidate>)
    requires Calm(env) && Unhindered(env, cfg.policy) && DistinctLists(env, cfg) && 1 <= n <= 9
    requires SetsInv(rs) && Untouched(rs.world.trace, n) && OnceInv(rs.world.trace) && Thorough(rs.world.trace)
    ensures var (e, rs') := RunFrom(env, cfg, n, rs);
            && e.None? && rs'.failed == rs.failed && Thorough(rs'.world.trace)
            && (Constant(env, list, cs, rs.world.step) ==> Finds(cfg, list, cs, rs'.world.trace, n))
            && forall p :: Number(p) < n ==> Matched(rs'.world.trace, p) == Matched(rs.world.trace, p)
    decreases 9 - n
  {
    hide RunPhase, Calm, SetsInv, OnceInv, DistinctLists, Thorough, Unhindered, FoundIn, FoundBy, Matched, ToSet;
    if n < 9 {
      var p := PhaseAt(n);
      var rs1 := RunPhase(env, cfg, p, rs).1;
      NumberInjective();
      PhaseMatched(env, cfg, p, rs);
      PhaseOnce(env, cfg, n, rs);
      CalmPhase(env, cfg, n, rs);
      CalmRunFrom(env, cfg, n + 1, rs1, list, cs);
      if Constant(env, list, cs, rs.world.step) {
        CalmFound(env, cfg, p, rs, list, cs);
      }
    }
  }

  /** When nothing goes wrong the run exits with 0, and a matched table is taken up by its
      phase exactly once if no earlier blocking phase matched it, and not at all otherwise. */
  lemma CalmRunExact(env: Env, cfg: Config, w: World, gate: Gate, list: seq<Name>, cs: seq<Candidate>)
    requires Calm(env) && Unhindered(env, cfg.policy) && DistinctLists(env, cfg) && w.trace == []
    ensures var (code, rs) := Main(env, cfg, w, gate);
            && code == 0 && Exactly(rs.world.trace)
            && (Constant(env, list, cs, w.step) ==> Finds(cfg, list, cs, rs.world.trace, 1))
  {
    hide RunFrom, SetsInv, Untouched, DistinctLists, Unhindered, Matched, Begins, Finds, OnceInv, Thorough;
    StartInv(w, gate);
    StartThorough(w);
    CalmRunFrom(env, cfg, 1, Start(w, gate), list, cs);
    RunOnce(env, cfg, w, gate);
    OnceAndThorough(Main(env, cfg, w, gate).1.world.trace);
  }

  /** Taken up once if matched and not held back, and never otherwise. */
  ghost predicate Exactly(t: seq<Event>) {
    forall p, name :: Begins(t, p, name) == if name in Matched(t, p) && !HeldBack(t, p, name) then 1 else 0
  }

  lemma OnceAndThorough(t: seq<Event>)
    requires OnceInv(t) && Thorough(t)
    ensures Exactly(t)
  {
    hide HeldBack, Matched, Begins;
  }

  lemma StartThorough(w: World)
    requires w.trace == []
    ensures Thorough(w.trace)
  {
  }
}
