/** The replica-lag gate told by the readings, the signals and the clock: which readings are taken,
    how long each nap lasts, and what ends the wait. */
module LagStory {
  import opened Text
  import opened Merge
  import opened World
  import opened LagGate
  import opened Retry
  import opened Runner

  /** Time taken by the steps from `a` on, before step `b`. */
  function Took(env: Env, a: nat, b: nat): nat
    decreases b
  {
    if b <= a then 0 else Took(env, a, b - 1) + env.took(b - 1)
  }

  lemma TookOne(env: Env, a: nat)
    ensures Took(env, a, a + 1) == env.took(a)
  {
    assert Took(env, a, a) == 0;
  }

  lemma {:induction false} TookJoin(env: Env, a: nat, b: nat, c: nat)
    requires a <= b <= c
    ensures Took(env, a, c) == Took(env, a, b) + Took(env, b, c)
    decreases c
  {
    if b < c {
      TookJoin(env, a, b, c - 1);
    }
  }

  /** A nap in step `k` is cut short by a version of the channel not seen before: it is there
      already, or it comes during the nap and beats the timer. */
  predicate CutShort(env: Env, seen: nat, k: nat) {
    env.published(k) > seen || (env.published(k + 1) > seen && env.wakes(k))
  }

  predicate Lags(o: Result<LagObservation, PgError>, threshold: real) { o.Ok? && Exceeds(o.value, threshold) }

  predicate Recovers(o: Result<LagObservation, PgError>, threshold: real) { o.Ok? && !Exceeds(o.value, threshold) }

  /** The lengths of the waits in a trace. */
  function Naps(t: seq<Event>): seq<nat> {
    if t == [] then [] else Naps(t[..|t| - 1]) + match t[|t| - 1] case LagSleep(ns) => [ns] case _ => []
  }

  lemma NapsSnoc(t: seq<Event>, ns: nat)
    ensures Naps(t + [LagSleep(ns)]) == Naps(t) + [ns]
  {
    assert (t + [LagSleep(ns)])[..|t|] == t;
  }

  /** How long one nap lasts when the deadline is far: the poll interval, with zero read as one. */
  function FullNap(cfg: GateConfig): nat { (if cfg.pollSeconds == 0 then 1 else cfg.pollSeconds) * 1_000_000_000 }

  /** Every nap but the last is a full one, and the last is no longer. */
  ghost predicate NapsFull(cfg: GateConfig, naps: seq<nat>) {
    forall i :: 0 <= i < |naps| ==> 0 < naps[i] <= FullNap(cfg) && (i < |naps| - 1 ==> naps[i] == FullNap(cfg))
  }

  /** One turn: a nap in step `s`, a look in step `s + 1`. */
  lemma TurnStory(env: Env, cfg: GateConfig, w: World, started: nat)
    requires started <= w.clock && Remaining(cfg, w, started) > 0
    ensures var (o, w') := Turn(env, cfg, w, started);
            var nap := Nap(cfg, w, started);
            && 0 < nap <= FullNap(cfg) && Naps(w'.trace) == Naps(w.trace) + [nap]
            && (o.Signalled? <==> CutShort(env, w.seen, w.step))
            && (o.Signalled? ==> w'.step == w.step + 1 && w'.clock == w.clock + env.took(w.step))
            && (!o.Signalled? ==> w'.step == w.step + 2 && w'.seen == w.seen
                                  && w'.clock == w.clock + nap + env.took(w.step) + env.took(w.step + 1))
            && (o.Broken? ==> env.lag(w.step + 1) == Err(o.error))
            && (o.Recovered? ==> Recovers(env.lag(w.step + 1), cfg.thresholdSeconds))
            && (o.StillLagging? || o.Expired? ==> Lags(env.lag(w.step + 1), cfg.thresholdSeconds))
            && (o.Expired? ==> Elapsed(w', started) >= cfg.maxWaitSeconds * 1_000_000_000)
            && (o.StillLagging? ==> nap == FullNap(cfg))
  {
    hide Exceeds, Naps;
    NapsSnoc(w.trace, Nap(cfg, w, started));
  }

  /** What is known when the loop ends after `n` turns that found the lag too high. */
  ghost predicate Ends(env: Env, cfg: GateConfig, w: World, started: nat, r: GateResult, n: nat, naps: seq<nat>) {
    var s, waited := w.step, r.world.clock - Took(env, w.step, r.world.step);
    match r.verdict
    case Ok(Proceed) =>
      && Recovers(env.lag(s + 3 * n + 2), cfg.thresholdSeconds) && !CutShort(env, w.seen, s + 3 * n + 1)
      && r.world.step == s + 3 * n + 3 && |naps| == n + 1 && waited == w.clock + Sum(naps)
    case Err(e) =>
      && env.lag(s + 3 * n + 2) == Err(e) && !CutShort(env, w.seen, s + 3 * n + 1)
      && r.world.step == s + 3 * n + 3 && |naps| == n + 1 && waited == w.clock + Sum(naps)
    case Ok(ShutdownVerdict) =>
      && CutShort(env, w.seen, s + 3 * n + 1)
      && r.world.step == s + 3 * n + 2 && |naps| == n + 1 && waited == w.clock + Sum(naps[..n])
    case Ok(SkipTable) =>
      && Elapsed(r.world, started) >= cfg.maxWaitSeconds * 1_000_000_000
      && (r.world.step == s + 3 * n || r.world.step == s + 3 * n + 1) && |naps| == n && waited == w.clock + Sum(naps)
  }

  /** The first `n` turns: a whole nap, and a look that finds the lag too high. */
  ghost predicate Lagging(env: Env, cfg: GateConfig, w: World, n: nat) {
    forall j: nat :: j < n ==> LagsIn(env, cfg, w, j)
  }

  predicate LagsIn(env: Env, cfg: GateConfig, w: World, j: nat) {
    Lags(env.lag(w.step + 3 * j + 2), cfg.thresholdSeconds) && !CutShort(env, w.seen, w.step + 3 * j + 1)
  }

  lemma {:induction false} SumCons(first: nat, rest: seq<nat>)
    ensures Sum([first] + rest) == first + Sum(rest)
  {
    if rest == [] {
      assert [first] + rest == [first] && [first][..0] == [];
    } else {
      var n := |rest|;
      assert ([first] + rest)[..n] == [first] + rest[..n - 1];
      SumCons(first, rest[..n - 1]);
    }
  }

  /** The story of the waiting loop: so many turns find the lag too high, and then comes the first
      reading that does not, the first signal, or the deadline. The naps are full ones, the last
      one clipped, and the clock moves on by the naps that were not cut short. */
  lemma {:induction false} WaitLoopStory(env: Env, cfg: GateConfig, g: Gate, w: World, started: nat)
    returns (n: nat, naps: seq<nat>)
    requires started <= w.clock
    ensures var r := WaitLoop(env, cfg, g, w, started);
            && Lagging(env, cfg, w, n) && Ends(env, cfg, w, started, r, n, naps)
            && Naps(r.world.trace) == Naps(w.trace) + naps && NapsFull(cfg, naps)
    decreases Remaining(cfg, w, started)
  {
    hide Turn, Exceeds, Naps, Sum, Took, Lags, Recovers, CutShort, Elapsed, GateConfig.Deadline, FullNap, Nap;
    var top := w.Next(env);
    LaterLess(env, cfg, w, started);
    n, naps := 0, [];
    TookOne(env, w.step);
    NothingSlept();
    assert Naps(w.trace) + [] == Naps(w.trace);
    if Remaining(cfg, top, started) == 0 {
      TimeIsUp(cfg, top, started);
    } else {
      var (o, w') := Turn(env, cfg, top, started);
      var nap := Nap(cfg, top, started);
      TurnStory(env, cfg, top, started);
      naps := [nap];
      SumCons(nap, []);
      assert [nap] + [] == [nap];
      if o.Signalled? {
        assert naps[..0] == [];
        TookOne(env, w.step + 1);
        TookJoin(env, w.step, w.step + 1, w.step + 2);
      } else {
        TookOne(env, w.step + 1);
        TookOne(env, w.step + 2);
        TookJoin(env, w.step, w.step + 1, w.step + 2);
        TookJoin(env, w.step, w.step + 2, w.step + 3);
        if o.StillLagging? {
          var m, more := WaitLoopStory(env, cfg, g, w', started);
          var r := WaitLoop(env, cfg, g, w', started);
          n, naps := m + 1, [nap] + more;
          TurnThenStory(env, cfg, w, w', started, r, nap, m, more);
          assert Naps(w.trace) + [nap] + more == Naps(w.trace) + naps;
        } else if o.Expired? {
          n := 1;
          assert LagsIn(env, cfg, w, 0);
        }
      }
    }
  }

  lemma NothingSlept()
    ensures Sum([]) == 0
  {
  }

  lemma TimeIsUp(cfg: GateConfig, w: World, started: nat)
    requires Remaining(cfg, w, started) == 0
    ensures Elapsed(w, started) >= cfg.maxWaitSeconds * 1_000_000_000
  {
  }

  lemma TurnThenStory(env: Env, cfg: GateConfig, w: World, w': World, started: nat, r: GateResult, nap: nat, m: nat,
        more: seq<nat>)
    requires LagsIn(env, cfg, w, 0) && Lagging(env, cfg, w', m) && Ends(env, cfg, w', started, r, m, more)
    requires w'.step == w.step + 3 && w'.seen == w.seen && w'.clock == w.clock + nap + Took(env, w.step, w'.step)
    requires NapsFull(cfg, more) && nap == FullNap(cfg) > 0
    ensures Lagging(env, cfg, w, m + 1) && Ends(env, cfg, w, started, r, m + 1, [nap] + more)
        && NapsFull(cfg, [nap] + more)
  {
    hide Took, Sum, Lags, Recovers, CutShort, Elapsed, FullNap;
    forall j: nat | j < m + 1 ensures LagsIn(env, cfg, w, j) {
      if j > 0 {
        assert LagsIn(env, cfg, w', j - 1);
        assert w'.step + 3 * (j - 1) == w.step + 3 * j;
      }
    }
    assert w'.step + 3 * m == w.step + 3 * (m + 1);
    assert r.world.step >= w'.step;
    TookJoin(env, w.step, w'.step, r.world.step);
    SumCons(nap, more);
    if r.verdict == Ok(ShutdownVerdict) {
      assert ([nap] + more)[..m + 1] == [nap] + more[..m];
      SumCons(nap, more[..m]);
    }
  }

  /** What the gate decides for a table: nothing if there is no gate or it is off; then the first
      reading decides, unless it finds the lag too high and there is time to wait; then the
      story of the loop, which starts one step later. */
  lemma LagGateVerdict(env: Env, policy: Policy, st: State) returns (n: nat, naps: seq<nat>)
    ensures var (x, st') := PassLagGateOnce(env, policy, st);
            if policy.gate.None? || st.gate.disabled then x == Pass && st' == st
            else
              var cfg, s := policy.gate.value, st.world.step;
              match env.lag(s)
              case Err(e) => x == Out(Abort(Server(e))) && st'.gate == st.gate
              case Ok(o) =>
                if !o.Observed? then x == Pass && st'.gate == st.gate.(disabled := true)
                else if !Exceeds(o, cfg.thresholdSeconds) || policy.dryRun then x == Pass && st'.gate == st.gate
                else if cfg.maxWaitSeconds == 0 then
                  x == Skip && st'.gate == st.gate.(skipped := st.gate.skipped + 1) && st'.world.trace == st.world.trace
                else
                  var w := st.world.Next(env);
                  && !st'.gate.disabled && Lagging(env, cfg, w, n) && NapsFull(cfg, naps)
                  && Naps(st'.world.trace) == Naps(st.world.trace) + naps
                  && match x
                     case Pass => Ends(env, cfg, w, w.clock, GateResult(Ok(Proceed), st'.gate, st'.world), n, naps)
                     case Skip => Ends(env, cfg, w, w.clock, GateResult(Ok(SkipTable), st'.gate, st'.world), n, naps)
                     case Out(Stop) =>
                       Ends(env, cfg, w, w.clock, GateResult(Ok(ShutdownVerdict), st'.gate, st'.world), n, naps)
                     case Out(Abort(Server(e))) =>
                       Ends(env, cfg, w, w.clock, GateResult(Err(e), st'.gate, st'.world), n, naps)
                     case _ => false
  {
    hide WaitLoop, Exceeds, Lagging, Ends, NapsFull, Naps, GateConfig.Deadline, GateConfig.Poll;
    n, naps := 0, [];
    if policy.gate.Some? && !st.gate.disabled {
      var cfg, w := policy.gate.value, st.world.Next(env);
      var o := env.lag(st.world.step);
      if o.Ok? && o.value.Observed? && Exceeds(o.value, cfg.thresholdSeconds) && !policy.dryRun
          && cfg.maxWaitSeconds > 0 {
        n, naps := WaitLoopStory(env, cfg, st.gate, w, w.clock);
        WaitLoopVerdict(env, cfg, st.gate, w, w.clock);
      }
    }
  }
}
