/** `with_lock_timeout_retry` of src/operations.rs and the operations it retries. */
module Retry {
  import opened Text
  import opened Merge
  import opened World

  /** The part of `RunPolicy` the retry reads. */
  datatype RetryPolicy = RetryPolicy(retries: nat, delayMs: nat)

  const U64_MAX: nat := 0xFFFF_FFFF_FFFF_FFFF

  /** `saturating_mul(2)`. */
  function Doubled(delay: nat): nat { if 2 * delay > U64_MAX then U64_MAX else 2 * delay }

  /** Plain vacuums and VACUUM (ANALYZE) count dead tuples before and after. */
  predicate CountsTuples(phase: Phase) { !(phase.NeverAnalyzed? || phase.AnalyzeOverdue? || phase.Wraparound?) }

  // ------------------------------------------------------------------------ as functions

  /** `vacuum_table`, `vacuum_analyze_table`, `analyze_table` and `freeze_table`. */
  function Operate(env: Env, phase: Phase, t: Name, w: World): (Option<PgError>, World) {
    var ready := if CountsTuples(phase) then w.Next(env) else w;
    if CountsTuples(phase) && env.answer(w.step).Some? then (env.answer(w.step), ready) else
      var done := ready.Emit(Statement(phase, t, ready.step)).Next(env);
      if env.answer(ready.step).Some? || !CountsTuples(phase) then (env.answer(ready.step), done)
      else (env.answer(done.step), done.Next(env))
  }

  function Call(env: Env, phase: Phase, t: Name, w: World): (Option<PgError>, World) {
    var (outcome, w') := Operate(env, phase, t, w);
    (outcome, w'.Emit(Called(outcome)))
  }

  function RetryLoop(env: Env, policy: RetryPolicy, phase: Phase, t: Name, w: World, attempt: nat,
        delay: nat): (Option<PgError>, World)
    decreases policy.retries - attempt
  {
    var (outcome, w') := Call(env, phase, t, w);
    if outcome.None? || !IsLockTimeout(outcome.value) || attempt >= policy.retries then (outcome, w')
    else
      var checked := w'.Next(env);
      if w'.Flag(env) then (outcome, checked) else
        var waiting := checked.Emit(RetrySleep(delay));
        if waiting.Interrupted(env, delay * MILLISECOND) then (outcome, waiting.Wait(env, delay * MILLISECOND))
        else RetryLoop(env, policy, phase, t, waiting.Wait(env, delay * MILLISECOND), attempt + 1, Doubled(delay))
  }

  function WithRetry(env: Env, policy: RetryPolicy, phase: Phase, t: Name, w: World): (Option<PgError>, World) {
    RetryLoop(env, policy, phase, t, w, 0, policy.delayMs)
  }

  // ----------------------------------------------------------------------- as the code runs

  method OperateTable(session: Session, phase: Phase, t: Name) returns (outcome: Option<PgError>)
    modifies session
    ensures (outcome, session.Now()) == Operate(session.env, phase, t, old(session.Now()))
  {
    if CountsTuples(phase) {
      outcome := session.Execute();
      if outcome.Some? { return; }
    }
    session.Emit(Statement(phase, t, session.step));
    outcome := session.Execute();
    if outcome.None? && CountsTuples(phase) {
      outcome := session.Execute();
    }
  }

  /** `with_lock_timeout_retry`. */
  method WithLockTimeoutRetry(session: Session, policy: RetryPolicy, phase: Phase,
        t: Name)
  returns (outcome: Option<PgError>)
    modifies session
    ensures (outcome, session.Now()) == WithRetry(session.env, policy, phase, t, old(session.Now()))
  {
    hide Operate, World.Interrupted, World.Wait;
    var delay: nat, attempt: nat := policy.delayMs, 0;
    ghost var w0 := session.Now();
    while true
      invariant attempt <= policy.retries
      invariant WithRetry(session.env, policy, phase, t, w0)
          == RetryLoop(session.env, policy, phase, t, session.Now(), attempt, delay)
      decreases policy.retries - attempt
    {
      outcome := OperateTable(session, phase, t);
      session.Emit(Called(outcome));
      if outcome.None? { return; }
      if !IsLockTimeout(outcome.value) || attempt >= policy.retries { return; }
      var flag := session.ShutdownRequested();
      if flag { return; }
      session.Emit(RetrySleep(delay));
      var interrupted := session.Sleep(delay * MILLISECOND);
      if interrupted { return; }
      attempt, delay := attempt + 1, Doubled(delay);
    }
  }

  // -------------------------------------------------------------------------------- laws

  function Pow2(k: nat): (p: nat)
    ensures p >= 1
  {
    if k == 0 then 1 else 2 * Pow2(k - 1)
  }

  function Min(a: nat, b: nat): nat { if a <= b then a else b }

  /** Delays of the back-off sleeps in a trace. */
  function Delays(t: seq<Event>): seq<nat> {
    if t == [] then [] else Delays(t[..|t| - 1]) + match t[|t| - 1] case RetrySleep(ms) => [ms] case _ => []
  }

  /** Outcomes of the calls in a trace. */
  function Outcomes(t: seq<Event>): seq<Option<PgError>> {
    if t == [] then [] else Outcomes(t[..|t| - 1]) + match t[|t| - 1] case Called(o) => [o] case _ => []
  }

  function Sum(ms: seq<nat>): nat {
    if ms == [] then 0 else Sum(ms[..|ms| - 1]) + ms[|ms| - 1]
  }

  lemma TraceSnoc(t: seq<Event>, e: Event)
    ensures Delays(t + [e]) == Delays(t) + match e case RetrySleep(ms) => [ms] case _ => []
    ensures Outcomes(t + [e]) == Outcomes(t) + match e case Called(o) => [o] case _ => []
  {
    assert (t + [e])[..|t|] == t;
  }

  /** The operation may send its statement, and that is all that it records. */
  lemma OperateTrace(env: Env, phase: Phase, t: Name, w: World)
    ensures var (o, done) := Operate(env, phase, t, w);
            done.trace == w.trace || exists at: nat :: done.trace == w.trace + [Statement(phase, t, at)]
  {
  }

  lemma CallTrace(env: Env, phase: Phase, t: Name, w: World)
    ensures var (o, w') := Call(env, phase, t, w);
            Delays(w'.trace) == Delays(w.trace) && Outcomes(w'.trace) == Outcomes(w.trace) + [o]
  {
    hide Operate, Delays, Outcomes;
    var (o, done) := Operate(env, phase, t, w);
    OperateTrace(env, phase, t, w);
    if done.trace != w.trace {
      var at: nat :| done.trace == w.trace + [Statement(phase, t, at)];
      TraceSnoc(w.trace, Statement(phase, t, at));
    }
    TraceSnoc(done.trace, Called(o));
    assert Delays(w.trace) + [] == Delays(w.trace) && Outcomes(w.trace) + [] == Outcomes(w.trace);
  }

  /** The back-off schedule: delay k is the start delay doubled k times, saturating. */
  ghost predicate Schedule(delays: seq<nat>, start: nat) {
    forall k :: 0 <= k < |delays| ==> delays[k] == Min(start * Pow2(k), U64_MAX)
  }

  lemma DoubledSchedule(start: nat, k: nat)
    requires start <= U64_MAX
    ensures Min(Doubled(start) * Pow2(k), U64_MAX) == Min(start * Pow2(k + 1), U64_MAX)
  {
    var p := Pow2(k);
    assert start * (2 * p) == 2 * start * p;
    if 2 * start > U64_MAX {
      assert U64_MAX * p >= U64_MAX by { Grows(U64_MAX, p); }
      assert 2 * start * p >= 2 * start by { Grows(2 * start, p); }
    }
  }

  lemma Grows(a: nat, p: nat)
    requires p >= 1
    ensures a * p >= a
  {
  }

  /** Every call but the last ended in a lock timeout. */
  ghost predicate LockTimeoutsBut(outcomes: seq<Option<PgError>>) {
    forall i :: 0 <= i < |outcomes| - 1 ==> outcomes[i] == Some(Db(LockNotAvailable))
  }

  /** What the loop adds from some attempt on: at most `retries - attempt` sleeps on the
      schedule, one call more (or as many, when the last sleep was interrupted), of which all
      but the last ended in a lock timeout, and the last is the result. */
  lemma {:induction false} RetryLoopTrace(env: Env, policy: RetryPolicy, phase: Phase, t: Name, w: World,
        attempt: nat, delay: nat)
    returns (delays: seq<nat>, outcomes: seq<Option<PgError>>)
    requires attempt <= policy.retries && delay <= U64_MAX
    ensures var (o, w') := RetryLoop(env, policy, phase, t, w, attempt, delay);
            && Delays(w'.trace) == Delays(w.trace) + delays && Outcomes(w'.trace) == Outcomes(w.trace) + outcomes
            && |delays| <= |outcomes| <= |delays| + 1 && 1 <= |outcomes| <= policy.retries - attempt + 1
            && |delays| <= policy.retries - attempt
            && Schedule(delays, delay) && LockTimeoutsBut(outcomes) && outcomes[|outcomes| - 1] == o
            && (env.Valid() && o == Some(Db(LockNotAvailable)) ==>
               |outcomes| == policy.retries - attempt + 1 || w'.Flag(env))
    decreases policy.retries - attempt
  {
    hide Call, World.Interrupted, World.Wait, World.Flag, Delays, Outcomes, Doubled, Schedule, LockTimeoutsBut;
    CallTrace(env, phase, t, w);
    var (o, w') := Call(env, phase, t, w);
    delays, outcomes := [], [o];
    ScheduleStart(delay);
    OneOutcome(o);
    assert Delays(w.trace) + [] == Delays(w.trace);
    if o.Some? && IsLockTimeout(o.value) && attempt < policy.retries && !w'.Flag(env) {
      var waiting := w'.Next(env).Emit(RetrySleep(delay));
      SleepTrace(env, w', delay);
      delays := [delay];
      if !waiting.Interrupted(env, delay * MILLISECOND) {
        DoubledFits(delay);
        var woken := waiting.Wait(env, delay * MILLISECOND);
        var ds, os := RetryLoopTrace(env, policy, phase, t, woken, attempt + 1, Doubled(delay));
        ScheduleStep(delay, ds);
        OutcomesStep(os);
        delays, outcomes := [delay] + ds, [o] + os;
        assert Delays(w.trace) + [delay] + ds == Delays(w.trace) + delays;
        assert Outcomes(w.trace) + [o] + os == Outcomes(w.trace) + outcomes;
      }
    } else if o.Some? && IsLockTimeout(o.value) && attempt < policy.retries {
      FlagStays(env, w');
    }
  }

  lemma ScheduleStart(delay: nat)
    requires delay <= U64_MAX
    ensures Schedule([], delay) && Schedule([delay], delay)
  {
    assert Pow2(0) == 1 && Min(delay * 1, U64_MAX) == delay;
  }

  lemma OneOutcome(o: Option<PgError>)
    ensures LockTimeoutsBut([o])
  {
  }

  lemma OutcomesStep(rest: seq<Option<PgError>>)
    requires LockTimeoutsBut(rest)
    ensures LockTimeoutsBut([Some(Db(LockNotAvailable))] + rest)
  {
  }

  lemma FlagStays(env: Env, w: World)
    ensures env.Valid() && w.Flag(env) ==> w.Next(env).Flag(env)
  {
  }

  /** The back-off sleep adds its delay to the trace; a shutdown that ends it stays visible. */
  lemma SleepTrace(env: Env, w: World, delay: nat)
    ensures var waiting := w.Next(env).Emit(RetrySleep(delay)); var woken := waiting.Wait(env, delay * MILLISECOND);
            && Delays(woken.trace) == Delays(w.trace) + [delay] && Outcomes(woken.trace) == Outcomes(w.trace)
            && (env.Valid() && waiting.Interrupted(env, delay * MILLISECOND) ==> woken.Flag(env))
  {
    hide World.Interrupted, World.Wait, World.Flag, Delays, Outcomes;
    TraceSnoc(w.trace, RetrySleep(delay));
    assert Outcomes(w.trace) + [] == Outcomes(w.trace);
    WaitFacts(env, w.Next(env).Emit(RetrySleep(delay)), delay * MILLISECOND);
  }

  lemma WaitFacts(env: Env, w: World, duration: nat)
    ensures w.Wait(env, duration).trace == w.trace
    ensures env.Valid() && w.Interrupted(env, duration) ==> w.Wait(env, duration).Flag(env)
  {
  }

  lemma DoubledFits(delay: nat)
    ensures Doubled(delay) <= U64_MAX
  {
  }

  lemma ScheduleStep(start: nat, rest: seq<nat>)
    requires start <= U64_MAX && Schedule(rest, Doubled(start))
    ensures Schedule([start] + rest, start)
  {
    hide Doubled;
    forall k | 0 <= k < |rest| + 1 ensures ([start] + rest)[k] == Min(start * Pow2(k), U64_MAX) {
      if k == 0 {
        assert Pow2(0) == 1 && start * 1 == start;
      } else {
        DoubledSchedule(start, k - 1);
      }
    }
  }

  lemma SumStep(start: nat, p: nat, sum: nat, last: nat)
    requires p >= 1 && sum <= start * (p - 1) && last <= start * p
    ensures sum + last <= start * (2 * p - 1)
  {
    assert start * (p - 1) + start * p == start * (2 * p - 1);
  }

  /** Sleeps on a schedule add up to at most start * (2^n - 1). */
  lemma {:induction false} ScheduleSum(delays: seq<nat>, start: nat)
    requires Schedule(delays, start)
    ensures Sum(delays) <= start * (Pow2(|delays|) - 1)
  {
    if delays == [] {
      assert Pow2(0) == 1;
    } else {
      var n := |delays| - 1;
      ScheduleSum(delays[..n], start);
      assert delays[n] == Min(start * Pow2(n), U64_MAX);
      SumStep(start, Pow2(n), Sum(delays[..n]), delays[n]);
    }
  }

  lemma {:induction false} Pow2Monotone(a: nat, b: nat)
    requires a <= b
    ensures Pow2(a) <= Pow2(b)
    decreases b - a
  {
    if a < b {
      Pow2Monotone(a, b - 1);
    }
  }

  lemma Scale(start: nat, a: nat, b: nat)
    requires a <= b
    ensures start * a <= start * b
  {
  }

  /** One retried operation, for every environment: at most retries + 1 calls and `retries`
      sleeps; the k-th sleep lasts min(d * 2^k, 2^64 - 1); all sleeps together at most
      d * (2^retries - 1); every call but the last timed out on the lock; and the result is
      the outcome of the last call. A lock timeout is returned only when all retries are
      used up or a shutdown was requested. */
  lemma RetryBound(env: Env, policy: RetryPolicy, phase: Phase, t: Name, w: World)
    requires policy.delayMs <= U64_MAX
    ensures var (o, w') := WithRetry(env, policy, phase, t, w);
            && Delays(w.trace) <= Delays(w'.trace) && Outcomes(w.trace) <= Outcomes(w'.trace)
            && var delays, outcomes := Delays(w'.trace)[|Delays(w.trace)|..], Outcomes(w'.trace)[|Outcomes(w.trace)|..];
            && 1 <= |outcomes| <= policy.retries + 1 && |delays| <= |outcomes| <= |delays| + 1
               && |delays| <= policy.retries
            && Schedule(delays, policy.delayMs) && Sum(delays) <= policy.delayMs * (Pow2(policy.retries) - 1)
            && LockTimeoutsBut(outcomes) && outcomes[|outcomes| - 1] == o
            && (env.Valid() && o == Some(Db(LockNotAvailable)) ==> |outcomes| == policy.retries + 1 || w'.Flag(env))
  {
    hide Pow2, RetryLoop, Delays, Outcomes, Sum, LockTimeoutsBut;
    var delays, outcomes := RetryLoopTrace(env, policy, phase, t, w, 0, policy.delayMs);
    var w' := WithRetry(env, policy, phase, t, w).1;
    assert Delays(w'.trace)[|Delays(w.trace)|..] == delays && Outcomes(w'.trace)[|Outcomes(w.trace)|..] == outcomes;
    ScheduleSum(delays, policy.delayMs);
    Pow2Monotone(|delays|, policy.retries);
    Scale(policy.delayMs, Pow2(|delays|) - 1, Pow2(policy.retries) - 1);
  }

  lemma Pow2Twenty()
    ensures Pow2(20) == 1_048_576
  {
    assert Pow2(5) == 32;
    assert Pow2(10) == 1024;
    assert Pow2(15) == 32_768;
  }

  /** Within the ranges the command line accepts (20 retries, 60000 ms) nothing saturates. */
  lemma NoSaturation(delays: seq<nat>, start: nat)
    requires Schedule(delays, start) && |delays| <= 20 && start <= 60_000
    ensures forall k :: 0 <= k < |delays| ==> delays[k] == start * Pow2(k)
  {
    hide Pow2;
    Pow2Twenty();
    forall k | 0 <= k < |delays| ensures delays[k] == start * Pow2(k) {
      Pow2Monotone(k, 20);
      Scale(start, Pow2(k), 1_048_576);
    }
  }
}
