/** What is decided in front of a table, told by the answers alone: the check at the top of the loop,
    and the gate of active vacuums. */
module GateVerdicts {
  import opened Text
  import opened Merge
  import opened World
  import opened LagGate
  import opened Retry
  import opened Runner
  import opened RunnerLaws

  // ------------------------------------------------------------- the gate of active vacuums

  function Count(backends: seq<Backend>, autovacuum: bool): nat {
    if backends == [] then 0
        else (if backends[0].autovacuum == autovacuum then 1 else 0) + Count(backends[1..], autovacuum)
  }

  /** The two lists of processes: who is in them, and how many. */
  lemma {:induction false} PidsMeaning(backends: seq<Backend>, autovacuum: bool)
    ensures |Pids(backends, autovacuum)| == Count(backends, autovacuum)
    ensures forall p :: p in Pids(backends, autovacuum) <==> Backend(p, autovacuum) in backends
  {
    if backends != [] {
      PidsMeaning(backends[1..], autovacuum);
      assert backends == [backends[0]] + backends[1..];
    }
  }

  /** All the answers from a step on, so many of them, are successes. */
  ghost predicate AllKilled(env: Env, from: nat, n: nat) { forall k :: from <= k < from + n ==> env.answer(k).None? }

  /** The first answer that is a failure, among so many from a step on. */
  ghost predicate FirstFailure(env: Env, from: nat, n: nat, e: PgError) {
    exists k :: from <= k < from + n && env.answer(k) == Some(e) && AllKilled(env, from, k - from)
  }

  lemma {:induction false} KillAllExactly(env: Env, pids: seq<int>, w: World)
    ensures var (e, w') := KillAll(env, pids, w);
            && (e.None? <==> AllKilled(env, w.step, |pids|))
            && (e.None? ==> w'.step == w.step + |pids|)
            && (e.Some? ==> FirstFailure(env, w.step, |pids|, e.value))
    decreases |pids|
  {
    hide AllKilled, FirstFailure;
    NoneToKill(env, w.step);
    if pids != [] {
      KillAllExactly(env, pids[1..], w.Emit(KilledBackend(pids[0])).Next(env));
      OneMoreKill(env, w.step, |pids| - 1);
      var e := KillAll(env, pids[1..], w.Emit(KilledBackend(pids[0])).Next(env)).0;
      if env.answer(w.step).None? && e.Some? {
        LaterFailure(env, w.step, |pids| - 1, e.value);
      }
    }
  }

  lemma NoneToKill(env: Env, from: nat)
    ensures AllKilled(env, from, 0)
  {
  }

  lemma OneMoreKill(env: Env, from: nat, n: nat)
    ensures AllKilled(env, from, n + 1) <==> env.answer(from).None? && AllKilled(env, from + 1, n)
    ensures env.answer(from).Some? ==> FirstFailure(env, from, n + 1, env.answer(from).value)
  {
    if env.answer(from).Some? {
      assert AllKilled(env, from, from - from);
    }
  }

  lemma LaterFailure(env: Env, from: nat, n: nat, e: PgError)
    requires env.answer(from).None? && FirstFailure(env, from + 1, n, e)
    ensures FirstFailure(env, from, n + 1, e)
  {
    var k :| from + 1 <= k < from + 1 + n && env.answer(k) == Some(e) && AllKilled(env, from + 1, k - from - 1);
    assert AllKilled(env, from, k - from);
  }

  /** The verdict on a table that others vacuum, in terms of the answers alone. The table passes
      if and only if the lookup succeeds and finds nothing, or --skip-active-vacuum is off, every
      autovacuum worker can be killed, and manual sessions are absent or may and can be killed.
      It is skipped if and only if --skip-active-vacuum is on, or manual sessions are left that
      may not be killed. Otherwise the run ends, with the error that stood in the way. */
  lemma ActiveVacuumVerdict(env: Env, policy: Policy, st: State)
    ensures var (x, _) := PassActiveVacuums(env, policy, st);
            var s := st.world.step;
            match env.sessions(s)
            case Err(_) => x == Out(Abort(Message))
            case Ok(found) =>
              var auto, manual := Count(found, true), Count(found, false);
              var autoKilled := policy.dryRun || AllKilled(env, s + 1, auto);
              var manualKilled := policy.dryRun || AllKilled(env, s + 1 + auto, manual);
              && (x == Pass <==> found == [] || (!policy.skipActiveVacuum && autoKilled
                                                 && (manual == 0 || (policy.force && manualKilled))))
              && (x == Skip <==>
                 found != [] && (policy.skipActiveVacuum || (autoKilled && manual > 0 && !policy.force)))
              && (x.Out? ==> exists e :: x == Out(Abort(Server(e)))
                                         && (if autoKilled then FirstFailure(env, s + 1 + auto, manual, e)
                                             else FirstFailure(env, s + 1, auto, e)))
  {
    hide Pids, KillAll, Count, AllKilled, FirstFailure;
    var w0 := st.world.Next(env);
    if env.sessions(st.world.step).Ok? {
      var found := env.sessions(st.world.step).value;
      PidsMeaning(found, true);
      PidsMeaning(found, false);
      NothingCounted();
      KillNothing(env, w0);
      KillAllExactly(env, Pids(found, true), w0);
      var auto := if policy.dryRun then [] else Pids(found, true);
      var w := KillAll(env, auto, w0).1;
      KillNothing(env, w);
      KillAllExactly(env, Pids(found, false), w);
      var kills := KillAll(env, Pids(found, false), w);
      assert kills.0.None? <==> AllKilled(env, w.step, Count(found, false));
    }
  }

  lemma NothingCounted()
    ensures forall b :: Count([], b) == 0
  {
  }

  // -------------------------------------------------------------------- the top of the loop

  /** What the checks at the top of the loop decide before any gate. */
  lemma TopOfLoop(env: Env, policy: Policy, phase: Phase, already: set<Name>, t: Name, st: State)
    ensures var (x, st') := RunTable(env, policy, phase, already, t, st);
            var s := st.world.step;
            var reached := !env.closed(s) && env.published(s + 1) == 0;
            && (env.closed(s) ==> x == Abort(ConnectionLost) && st'.summary == st.summary
                                  && st'.world.trace == st.world.trace + [ClientClosed])
            && (!env.closed(s) && env.published(s + 1) > 0 ==>
                  x == Stop && st'.summary == st.summary && st'.world.trace == st.world.trace)
            && (reached && t in already && phase in {Bloat, NeedsVacuum, VacuumOverdue, AnalyzeOverdue, AlsoTables} ==>
                  x == NextTable && st'.world.trace == st.world.trace
                  && st'.summary == st.summary.(skipped := st.summary.skipped + 1))
  {
    hide PassGates, Maintain;
  }
}
