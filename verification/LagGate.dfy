/** The replica-lag gate: `LagObservation` and `ReplicaLagGate` of src/types.rs and
    `wait_for_replica_lag` of src/operations.rs. */
module LagGate {
  import opened Text
  import opened World

  datatype GateConfig = GateConfig(thresholdSeconds: real, maxWaitSeconds: nat, pollSeconds: nat) {
    function Deadline(): nat { maxWaitSeconds * SECOND }
    function Poll(): (p: nat)
      ensures p >= SECOND
    {
      (if pollSeconds == 0 then 1 else pollSeconds) * SECOND
    }
  }

  /** The gate's atomics. */
  datatype Gate = Gate(disabled: bool, waitedMs: nat, skipped: nat) {
    /** `fetch_add` wraps at 64 bits. */
    function AddWaited(elapsed: nat): Gate { this.(waitedMs := (waitedMs + elapsed / MILLISECOND) % U64) }
    function RecordSkip(): Gate { this.(skipped := skipped + 1) }
  }

  datatype Verdict = Proceed | SkipTable | ShutdownVerdict

  function LagOf(l: Option<real>): real { match l case None => 0.0 case Some(v) => v }

  /** The fold of `max_lag_seconds`. */
  function MaxLag(lags: seq<Option<real>>): real {
    if lags == [] then 0.0 else
      var m := MaxLag(lags[..|lags| - 1]);
      if LagOf(lags[|lags| - 1]) > m then LagOf(lags[|lags| - 1]) else m
  }

  predicate Exceeds(o: LagObservation, threshold: real) {
    match o
    case NoReplicas => 0.0 > threshold
    case Unobservable => false
    case Observed(lags) => MaxLag(lags) > threshold
  }

  /** Lag exceeds a threshold that is not negative exactly when some standby reports one that
      does; a standby without a figure has caught up and counts as zero. */
  lemma {:induction false} ExceedsMeaning(lags: seq<Option<real>>, threshold: real)
    requires threshold >= 0.0
    ensures Exceeds(Observed(lags), threshold) <==> exists l :: l in lags && l.Some? && l.value > threshold
  {
    if lags != [] {
      var front, last := lags[..|lags| - 1], lags[|lags| - 1];
      assert lags == front + [last];
      ExceedsMeaning(front, threshold);
    }
  }

  // ----------------------------------------------------------------- the gate, as a function

  datatype GateResult = GateResult(verdict: Result<Verdict, PgError>, gate: Gate, world: World)

  function Elapsed(w: World, started: nat): nat { if w.clock >= started then w.clock - started else 0 }

  function Remaining(cfg: GateConfig, w: World, started: nat): nat {
    if Elapsed(w, started) >= cfg.Deadline() then 0 else cfg.Deadline() - Elapsed(w, started)
  }

  function Nap(cfg: GateConfig, w: World, started: nat): nat {
    if cfg.Poll() < Remaining(cfg, w, started) then cfg.Poll() else Remaining(cfg, w, started)
  }

  datatype Outcome = Expired | Signalled | Broken(error: PgError) | Recovered | StillLagging

  /** One turn of the waiting loop, with time left on the clock. */
  function Turn(env: Env, cfg: GateConfig, w: World, started: nat): (r: (Outcome, World))
    requires started <= w.clock && Remaining(cfg, w, started) > 0
    ensures r.0.StillLagging? ==> started <= r.1.clock && Remaining(cfg, r.1, started) > 0
    ensures r.0.StillLagging? ==> Remaining(cfg, r.1, started) + Nap(cfg, w, started) <= Remaining(cfg, w, started)
    ensures Nap(cfg, w, started) > 0
  {
    var nap := Nap(cfg, w, started);
    var woken := w.Emit(LagSleep(nap)).Wait(env, nap);
    if w.Interrupted(env, nap) then (Signalled, woken) else
      var looked := woken.Next(env);
      match env.lag(woken.step)
      case Err(e) => (Broken(e), looked)
      case Ok(current) =>
        if !Exceeds(current, cfg.thresholdSeconds) then (Recovered, looked)
        else if Elapsed(looked, started) >= cfg.Deadline() then (Expired, looked)
        else (StillLagging, looked)
  }

  /** How the loop ends: every verdict adds the wait once, and a skip is recorded once. */
  function Settle(o: Outcome, g: Gate, w: World, started: nat): GateResult
    requires !o.StillLagging?
  {
    var waited := g.AddWaited(Elapsed(w, started));
    match o
    case Expired => GateResult(Ok(SkipTable), waited.RecordSkip(), w)
    case Signalled => GateResult(Ok(ShutdownVerdict), waited, w)
    case Broken(e) => GateResult(Err(e), g, w)
    case Recovered => GateResult(Ok(Proceed), waited, w)
  }

  function WaitLoop(env: Env, cfg: GateConfig, g: Gate, w: World, started: nat): GateResult
    requires started <= w.clock
    decreases Remaining(cfg, w, started)
  {
    // Time goes by before the clock is read.
    var top := w.Next(env);
    if Remaining(cfg, top, started) == 0 then Settle(Expired, g, top, started)
    else
      var (o, w') := Turn(env, cfg, top, started);
      if o.StillLagging? then WaitLoop(env, cfg, g, w', started) else Settle(o, g, w', started)
  }

  function WaitForLag(env: Env, cfg: GateConfig, dryRun: bool, g: Gate, w: World): GateResult {
    if g.disabled then GateResult(Ok(Proceed), g, w) else
      var w' := w.Next(env);
      match env.lag(w.step)
      case Err(e) => GateResult(Err(e), g, w')
      case Ok(o) =>
        if !o.Observed? then GateResult(Ok(Proceed), g.(disabled := true), w')
        else if !Exceeds(o, cfg.thresholdSeconds) || dryRun then GateResult(Ok(Proceed), g, w')
        else if cfg.maxWaitSeconds == 0 then GateResult(Ok(SkipTable), g.RecordSkip(), w')
        else WaitLoop(env, cfg, g, w', w'.clock)
  }

  // ------------------------------------------------------------------ the gate, as it runs

  class ReplicaLagGate {
    const cfg: GateConfig
    var disabled: bool
    var totalWaitedMs: nat
    var tablesSkipped: nat

    constructor (cfg: GateConfig)
      ensures this.cfg == cfg && Now() == Gate(false, 0, 0)
    {
      this.cfg := cfg;
      disabled, totalWaitedMs, tablesSkipped := false, 0, 0;
    }

    function Now(): Gate
      reads this
    {
      Gate(disabled, totalWaitedMs, tablesSkipped)
    }

    method AddWaited(elapsed: nat)
      modifies this`totalWaitedMs
      ensures Now() == old(Now()).AddWaited(elapsed)
    {
      totalWaitedMs := (totalWaitedMs + elapsed / MILLISECOND) % U64;
    }

    method RecordSkip()
      modifies this`tablesSkipped
      ensures Now() == old(Now()).RecordSkip()
    {
      tablesSkipped := tablesSkipped + 1;
    }

    method Observe(session: Session) returns (o: Result<LagObservation, PgError>)
      modifies session
      ensures o == session.env.lag(old(session.step)) && session.Now() == old(session.Now()).Next(session.env)
    {
      o := session.env.lag(session.step);
      session.Advance();
    }

    /** `wait_for_replica_lag`. */
    method WaitForReplicaLag(session: Session, dryRun: bool) returns (r: Result<Verdict, PgError>)
      modifies this, session
      ensures GateResult(r, Now(), session.Now())
          == WaitForLag(session.env, cfg, dryRun, old(Now()), old(session.Now()))
    {
      if disabled { return Ok(Proceed); }
      var observation := Observe(session);
      if observation.Err? { return Err(observation.error); }
      match observation.value {
        case Unobservable => disabled := true; return Ok(Proceed);
        case NoReplicas => disabled := true; return Ok(Proceed);
        case Observed(_) =>
      }
      if !Exceeds(observation.value, cfg.thresholdSeconds) || dryRun { return Ok(Proceed); }
      if cfg.maxWaitSeconds == 0 {
        RecordSkip();
        return Ok(SkipTable);
      }
      r := Hold(session);
    }

    /** The body of the waiting loop, up to the decision it comes to. */
    method Poll(session: Session, started: nat) returns (o: Outcome)
      requires started <= session.clock && Remaining(cfg, session.Now(), started) > 0
      modifies session
      ensures (o, session.Now()) == Turn(session.env, cfg, old(session.Now()), started)
    {
      hide Exceeds, World.Wait, GateConfig.Deadline, GateConfig.Poll;
      var remaining := cfg.Deadline() - (session.clock - started);
      var nap := if cfg.Poll() < remaining then cfg.Poll() else remaining;
      session.Emit(LagSleep(nap));
      var interrupted := session.Sleep(nap);
      if interrupted { return Signalled; }
      var current := Observe(session);
      if current.Err? { return Broken(current.error); }
      if !Exceeds(current.value, cfg.thresholdSeconds) { return Recovered; }
      return if session.clock - started >= cfg.Deadline() then Expired else StillLagging;
    }

    /** The waiting loop of `wait_for_replica_lag`. */
    method Hold(session: Session) returns (r: Result<Verdict, PgError>)
      modifies this, session
      ensures GateResult(r, Now(), session.Now())
          == WaitLoop(session.env, cfg, old(Now()), old(session.Now()), old(session.clock))
    {
      hide Turn, Elapsed;
      var started := session.clock;
      var o := StillLagging;
      ghost var g0, w0 := Now(), session.Now();
      while o.StillLagging?
        invariant started <= session.clock || !o.StillLagging?
        invariant Now() == g0
        invariant WaitLoop(session.env, cfg, g0, w0, started)
               == if o.StillLagging? then WaitLoop(session.env, cfg, g0, session.Now(), started)
                  else Settle(o, g0, session.Now(), started)
        decreases o.StillLagging?, Remaining(cfg, session.Now(), started)
      {
        LaterLess(session.env, cfg, session.Now(), started);
        session.Advance();
        if Remaining(cfg, session.Now(), started) == 0 {
          o := Expired;
        } else {
          o := Poll(session, started);
        }
      }
      var elapsed := Elapsed(session.Now(), started);
      match o
      case Expired =>
        AddWaited(elapsed);
        RecordSkip();
        r := Ok(SkipTable);
      case Signalled =>
        AddWaited(elapsed);
        r := Ok(ShutdownVerdict);
      case Broken(e) => r := Err(e);
      case Recovered =>
        AddWaited(elapsed);
        r := Ok(Proceed);
    }
  }

  // ------------------------------------------------------------------------------- laws

  function NapTotal(t: seq<Event>): nat {
    if t == [] then 0 else NapTotal(t[..|t| - 1]) + match t[|t| - 1] case LagSleep(ns) => ns case _ => 0
  }

  function NapCount(t: seq<Event>): nat {
    if t == [] then 0 else NapCount(t[..|t| - 1]) + match t[|t| - 1] case LagSleep(_) => 1 case _ => 0
  }

  lemma NapSnoc(t: seq<Event>, ns: nat)
    ensures NapTotal(t + [LagSleep(ns)]) == NapTotal(t) + ns && NapCount(t + [LagSleep(ns)]) == NapCount(t) + 1
  {
    assert (t + [LagSleep(ns)])[..|t|] == t;
  }

  lemma TurnNaps(env: Env, cfg: GateConfig, w: World, started: nat)
    requires started <= w.clock && Remaining(cfg, w, started) > 0
    ensures var t := Turn(env, cfg, w, started).1.trace;
            NapTotal(t) == NapTotal(w.trace) + Nap(cfg, w, started) && NapCount(t) == NapCount(w.trace) + 1
  {
    hide NapTotal, NapCount, Exceeds, World.Interrupted;
    NapSnoc(w.trace, Nap(cfg, w, started));
  }

  lemma TurnFacts(env: Env, cfg: GateConfig, w: World, started: nat)
    requires started <= w.clock && Remaining(cfg, w, started) > 0
    ensures var (o, w') := Turn(env, cfg, w, started);
            && w'.step > w.step
            && (o.Recovered? ==> env.lag(w'.step - 1).Ok? && !Exceeds(env.lag(w'.step - 1).value, cfg.thresholdSeconds))
            && (o.Expired? ==> Elapsed(w', started) >= cfg.Deadline())
            && (o.Signalled? && env.Valid() ==> w'.Flag(env))
  {
    hide Exceeds;
  }

  lemma LaterLess(env: Env, cfg: GateConfig, w: World, started: nat)
    requires started <= w.clock
    ensures Remaining(cfg, w.Next(env), started) <= Remaining(cfg, w, started)
  {
  }

  /** The naps of the loop never exceed the budget that is left, and there are at most
      ceil(left / poll) of them. */
  lemma {:induction false} WaitLoopBounded(env: Env, cfg: GateConfig, g: Gate, w: World, started: nat)
    requires started <= w.clock
    ensures var t, left := WaitLoop(env, cfg, g, w, started).world.trace, Remaining(cfg, w, started);
            && NapTotal(t) <= NapTotal(w.trace) + left
            && NapCount(w.trace) <= NapCount(t) && (NapCount(t) - NapCount(w.trace)) * cfg.Poll() < left + cfg.Poll()
    decreases Remaining(cfg, w, started)
  {
    hide Turn, World.Interrupted, NapTotal, NapCount, GateConfig.Poll, GateConfig.Deadline;
    var top := w.Next(env);
    LaterLess(env, cfg, w, started);
    if Remaining(cfg, top, started) > 0 {
      TurnNaps(env, cfg, top, started);
      var (o, w') := Turn(env, cfg, top, started);
      if o.StillLagging? {
        WaitLoopBounded(env, cfg, g, w', started);
        CountNaps(NapCount(WaitLoop(env, cfg, g, w', started).world.trace) - NapCount(w'.trace), cfg.Poll());
      }
    }
  }

  lemma CountNaps(n: int, poll: nat)
    ensures (n + 1) * poll == n * poll + poll
  {
  }

  /** The verdict of the loop, its bookkeeping, and the reading it rests on. */
  lemma {:induction false} WaitLoopVerdict(env: Env, cfg: GateConfig, g: Gate, w: World, started: nat)
    requires started <= w.clock
    ensures var r := WaitLoop(env, cfg, g, w, started);
            && r.gate.disabled == g.disabled
            && r.gate.skipped == g.skipped + (if r.verdict == Ok(SkipTable) then 1 else 0)
            && r.gate.waitedMs
               == (if r.verdict.Err? then g.waitedMs else (g.waitedMs + Elapsed(r.world, started) / MILLISECOND) % U64)
            && (r.verdict == Ok(Proceed) ==> r.world.step > w.step && env.lag(r.world.step - 1).Ok?
                                             && !Exceeds(env.lag(r.world.step - 1).value, cfg.thresholdSeconds))
            && (r.verdict == Ok(SkipTable) ==> Elapsed(r.world, started) >= cfg.Deadline())
            && (r.verdict == Ok(ShutdownVerdict) && env.Valid() ==> r.world.Flag(env))
            && r.world.step > w.step
    decreases Remaining(cfg, w, started)
  {
    hide Turn, World.Interrupted, Exceeds, Elapsed, GateConfig.Deadline;
    var top := w.Next(env);
    LaterLess(env, cfg, w, started);
    if Remaining(cfg, top, started) == 0 {
      NoTimeLeft(cfg, top, started);
    } else {
      TurnFacts(env, cfg, top, started);
      var (o, w') := Turn(env, cfg, top, started);
      if o.StillLagging? {
        WaitLoopVerdict(env, cfg, g, w', started);
      }
    }
  }

  lemma NoTimeLeft(cfg: GateConfig, w: World, started: nat)
    requires Remaining(cfg, w, started) == 0
    ensures Elapsed(w, started) >= cfg.Deadline()
  {
  }

  lemma BaseNap(w: World, w': World)
    requires w'.trace == w.trace
    ensures NapTotal(w'.trace) == NapTotal(w.trace) && NapCount(w'.trace) == NapCount(w.trace)
  {
  }

  /** One call of the gate, for every environment: its sleeps add up to at most the configured
      wait and number at most ceil(wait / poll); a skip verdict and a recorded skip come
      together; the gate is switched off for good exactly on an empty or unreadable view; and
      maintenance proceeds only with the gate off, in a dry run, or on a latest reading
      within the threshold. */
  lemma WaitForLagVerdict(env: Env, cfg: GateConfig, dryRun: bool, g: Gate, w: World)
    ensures var r := WaitForLag(env, cfg, dryRun, g, w);
            && NapTotal(r.world.trace) <= NapTotal(w.trace) + cfg.Deadline()
            && NapCount(w.trace) <= NapCount(r.world.trace)
            && (NapCount(r.world.trace) - NapCount(w.trace)) * cfg.Poll() < cfg.Deadline() + cfg.Poll()
            && r.gate.skipped == g.skipped + (if r.verdict == Ok(SkipTable) then 1 else 0)
            && (r.gate.disabled <==> g.disabled || (env.lag(w.step).Ok? && !env.lag(w.step).value.Observed?))
            && (r.verdict == Ok(Proceed) ==>
                  r.gate.disabled || dryRun
                  || (r.world.step > w.step && env.lag(r.world.step - 1).Ok?
                      && !Exceeds(env.lag(r.world.step - 1).value, cfg.thresholdSeconds)))
            && (dryRun ==> r.world.trace == w.trace && (r.verdict.Err? || r.verdict.value.Proceed?))
            && (r.verdict == Ok(ShutdownVerdict) && env.Valid() ==> r.world.Flag(env))
  {
    hide WaitLoop, NapTotal, NapCount, GateConfig.Poll, GateConfig.Deadline, Exceeds;
    if !g.disabled {
      var w' := w.Next(env);
      BaseNap(w, w');
      var o := env.lag(w.step);
      if o.Ok? && o.value.Observed? && Exceeds(o.value, cfg.thresholdSeconds) && !dryRun && cfg.maxWaitSeconds > 0 {
        WaitLoopBounded(env, cfg, g, w', w'.clock);
        WaitLoopVerdict(env, cfg, g, w', w'.clock);
      }
    }
  }

  /** Lag within the threshold at once means no wait, and a table is skipped only after the
      whole configured wait. */
  lemma WaitForLagPatience(env: Env, cfg: GateConfig, dryRun: bool, g: Gate, w: World)
    ensures var r := WaitForLag(env, cfg, dryRun, g, w);
            && (r.verdict == Ok(SkipTable) ==> r.world.clock >= w.clock + cfg.Deadline())
            && (var o := env.lag(w.step);
                g.disabled || (o.Ok? && !(o.value.Observed? && Exceeds(o.value, cfg.thresholdSeconds)))
                ==> r.verdict == Ok(Proceed) && r.world.trace == w.trace)
  {
    hide WaitLoop, GateConfig.Deadline, Exceeds;
    var w' := w.Next(env);
    DeadlineSign(cfg);
    if cfg.maxWaitSeconds > 0 {
      WaitLoopVerdict(env, cfg, g, w', w'.clock);
    }
  }

  lemma DeadlineSign(cfg: GateConfig)
    ensures cfg.Deadline() > 0 <==> cfg.maxWaitSeconds > 0
  {
  }
}
