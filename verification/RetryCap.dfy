/** src/config.rs:82-88 bounds the wait for one table by the greatest number of retries, each at
    up to the greatest start delay. The delay doubles, so this is a bound for some settings
    only: which ones, exactly. */
module RetryCap {
  import opened Text
  import opened Merge
  import opened World
  import opened Retry

  const MAX_RETRIES: nat := 20
  const MAX_DELAY_MS: nat := 60_000

  /** A table whose lock is never free, and no shutdown. */
  function Stubborn(): Env {
    Env(_ => 0, _ => false, _ => false, _ => Some(Db(LockNotAvailable)), _ => Ok(NoReplicas), _ => Ok([]), _ => Ok([]),
        _ => Ok([]), _ => Ok([]), _ => 0, _ => false)
  }

  /** The delays that one retried operation adds to the trace. */
  ghost predicate NewDelays(env: Env, policy: RetryPolicy, phase: Phase, t: Name, w: World, delays: seq<nat>) {
    Delays(WithRetry(env, policy, phase, t, w).1.trace) == Delays(w.trace) + delays
  }

  ghost predicate EachWithin(env: Env, policy: RetryPolicy, phase: Phase, t: Name, w: World, cap: nat) {
    forall delays, k :: NewDelays(env, policy, phase, t, w, delays) && 0 <= k < |delays| ==> delays[k] <= cap
  }

  ghost predicate TotalWithin(env: Env, policy: RetryPolicy, phase: Phase, t: Name, w: World, cap: nat) {
    forall delays :: NewDelays(env, policy, phase, t, w, delays) ==> Sum(delays) <= cap
  }

  /** On every tape the new delays are the schedule's, and no more than the retries. */
  lemma DelaysAre(env: Env, policy: RetryPolicy, phase: Phase, t: Name, w: World, delays: seq<nat>)
    requires policy.delayMs <= U64_MAX && NewDelays(env, policy, phase, t, w, delays)
    ensures Schedule(delays, policy.delayMs) && |delays| <= policy.retries
    ensures Sum(delays) <= policy.delayMs * (Pow2(policy.retries) - 1)
  {
    hide WithRetry, Delays, Outcomes, Sum, LockTimeoutsBut, Schedule, Pow2;
    RetryBound(env, policy, phase, t, w);
    var all := Delays(WithRetry(env, policy, phase, t, w).1.trace);
    assert all[|Delays(w.trace)|..] == delays;
  }

  lemma {:induction false} StubbornTimesOut(policy: RetryPolicy, phase: Phase, t: Name, w: World, attempt: nat,
        delay: nat)
    ensures RetryLoop(Stubborn(), policy, phase, t, w, attempt, delay).0 == Some(Db(LockNotAvailable))
    decreases policy.retries - attempt
  {
    hide World.Interrupted, World.Wait, Doubled;
    if attempt < policy.retries {
      var waiting := Call(Stubborn(), phase, t, w).1.Next(Stubborn()).Emit(RetrySleep(delay));
      StubbornTimesOut(policy, phase, t, waiting.Wait(Stubborn(), delay * MILLISECOND), attempt + 1, Doubled(delay));
    }
  }

  /** On the stubborn table all retries are used, each after its full delay. */
  lemma StubbornDelays(policy: RetryPolicy, phase: Phase, t: Name, w: World) returns (delays: seq<nat>)
    requires policy.delayMs <= U64_MAX
    ensures Stubborn().Valid() && NewDelays(Stubborn(), policy, phase, t, w, delays)
    ensures |delays| == policy.retries && Schedule(delays, policy.delayMs)
  {
    hide RetryLoop, Delays, Outcomes, Sum, LockTimeoutsBut, Schedule, Pow2;
    StubbornTimesOut(policy, phase, t, w, 0, policy.delayMs);
    RetryBound(Stubborn(), policy, phase, t, w);
    delays := Delays(WithRetry(Stubborn(), policy, phase, t, w).1.trace)[|Delays(w.trace)|..];
  }

  lemma LongestLast(start: nat, k: nat, n: nat)
    requires k < n
    ensures Min(start * Pow2(k), U64_MAX) <= Min(start * Pow2(n - 1), U64_MAX)
  {
    Pow2Monotone(k, n - 1);
    Scale(start, Pow2(k), Pow2(n - 1));
  }

  /** Each delay stays within a cap on every tape exactly when the last scheduled one does. */
  lemma EachWithinExactly(policy: RetryPolicy, phase: Phase, t: Name, cap: nat)
    requires policy.delayMs <= U64_MAX
    ensures (forall env: Env, w: World :: env.Valid() ==> EachWithin(env, policy, phase, t, w, cap))
       <==> policy.retries == 0 || Min(policy.delayMs * Pow2(policy.retries - 1), U64_MAX) <= cap
  {
    hide NewDelays, Pow2, Env.Valid;
    if policy.retries == 0 || Min(policy.delayMs * Pow2(policy.retries - 1), U64_MAX) <= cap {
      forall env: Env, w: World | env.Valid() ensures EachWithin(env, policy, phase, t, w, cap) {
        forall delays, k | NewDelays(env, policy, phase, t, w, delays) && 0 <= k < |delays| ensures delays[k] <= cap {
          DelaysAre(env, policy, phase, t, w, delays);
          LongestLast(policy.delayMs, k, policy.retries);
        }
      }
    } else {
      var w := World(0, 0, 0, []);
      var delays := StubbornDelays(policy, phase, t, w);
      assert delays[policy.retries - 1] > cap;
      assert !EachWithin(Stubborn(), policy, phase, t, w, cap);
    }
  }

  lemma ExactStep(start: nat, p: nat)
    requires p >= 1
    ensures start * (p - 1) + start * p == start * (2 * p - 1)
  {
  }

  /** Without saturation the schedule of n delays adds up to start * (2^n - 1) exactly. */
  lemma {:induction false} ExactSum(delays: seq<nat>, start: nat)
    requires forall k :: 0 <= k < |delays| ==> delays[k] == start * Pow2(k)
    ensures Sum(delays) == start * (Pow2(|delays|) - 1)
  {
    if delays == [] {
      assert Pow2(0) == 1;
    } else {
      var n := |delays| - 1;
      ExactSum(delays[..n], start);
      ExactStep(start, Pow2(n));
    }
  }

  /** Within the accepted settings, the whole wait stays within a cap on every tape exactly when
      the start delay times 2^retries - 1 does. */
  lemma TotalWithinExactly(policy: RetryPolicy, phase: Phase, t: Name, cap: nat)
    requires policy.retries <= MAX_RETRIES && policy.delayMs <= MAX_DELAY_MS
    ensures (forall env: Env, w: World :: env.Valid() ==> TotalWithin(env, policy, phase, t, w, cap))
       <==> policy.delayMs * (Pow2(policy.retries) - 1) <= cap
  {
    hide NewDelays, Pow2, Sum, Schedule, Env.Valid;
    if policy.delayMs * (Pow2(policy.retries) - 1) <= cap {
      forall env: Env, w: World | env.Valid() ensures TotalWithin(env, policy, phase, t, w, cap) {
        forall delays | NewDelays(env, policy, phase, t, w, delays) ensures Sum(delays) <= cap {
          DelaysAre(env, policy, phase, t, w, delays);
        }
      }
    } else {
      var w := World(0, 0, 0, []);
      var delays := StubbornDelays(policy, phase, t, w);
      NoSaturation(delays, policy.delayMs);
      ExactSum(delays, policy.delayMs);
      assert !TotalWithin(Stubborn(), policy, phase, t, w, cap);
    }
  }

  lemma {:induction false} DelayInTrace(t: seq<Event>, ms: nat)
    requires ms in Delays(t)
    ensures RetrySleep(ms) in t
  {
    var front, last := t[..|t| - 1], t[|t| - 1];
    assert t == front + [last];
    if ms in Delays(front) {
      DelayInTrace(front, ms);
    }
  }

  /** With two retries and the greatest start delay, a sleep of twice the documented cap; with
      all twenty retries, a total of more than fifty thousand times the documented one. */
  lemma DocumentedBoundsFail(phase: Phase, t: Name, w: World)
    ensures RetrySleep(2 * MAX_DELAY_MS) in WithRetry(Stubborn(), RetryPolicy(2, MAX_DELAY_MS), phase, t, w).1.trace
    ensures !TotalWithin(Stubborn(), RetryPolicy(MAX_RETRIES, MAX_DELAY_MS), phase, t, w,
        50_000 * (MAX_RETRIES * MAX_DELAY_MS))
  {
    hide WithRetry, Delays, Sum, Pow2;
    var delays := StubbornDelays(RetryPolicy(2, MAX_DELAY_MS), phase, t, w);
    assert Pow2(1) == 2 by { PowerOfOne(); }
    assert delays[1] == 2 * MAX_DELAY_MS;
    assert delays[1] == (Delays(w.trace) + delays)[|Delays(w.trace)| + 1];
    DelayInTrace(WithRetry(Stubborn(), RetryPolicy(2, MAX_DELAY_MS), phase, t, w).1.trace, 2 * MAX_DELAY_MS);
    var all := StubbornDelays(RetryPolicy(MAX_RETRIES, MAX_DELAY_MS), phase, t, w);
    NoSaturation(all, MAX_DELAY_MS);
    ExactSum(all, MAX_DELAY_MS);
    Pow2Twenty();
  }

  lemma PowerOfOne()
    ensures Pow2(1) == 2
  {
  }
}
