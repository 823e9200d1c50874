/** The retried operation told by the answers, the signals and the clock. */
module RetryStory {
  import opened Text
  import opened Merge
  import opened World
  import opened Retry
  import opened LagStory

  /** Which operations count dead tuples, and what they answer: an operation succeeds if and only
      if all it asks succeeds, it returns its first failure, and its statement is sent unless the
      count in front of it fails. */
  lemma OperateExactly(env: Env, phase: Phase, t: Name, w: World)
    ensures var (o, w') := Operate(env, phase, t, w); var s := w.step;
            if phase in {NeverAnalyzed, AnalyzeOverdue, Wraparound} then
              o == env.answer(s) && w'.trace == w.trace + [Statement(phase, t, s)] && w'.step == s + 1
            else
              && (o.None? <==> env.answer(s).None? && env.answer(s + 1).None? && env.answer(s + 2).None?)
              && (o.Some? ==>
                    && o == env.answer(w'.step - 1) && s < w'.step
                    && forall k :: s <= k < w'.step - 1 ==> env.answer(k).None?)
              && w'.trace == (if env.answer(s).Some? then w.trace else w.trace + [Statement(phase, t, s + 1)])
  {
  }

  lemma OperateClock(env: Env, phase: Phase, t: Name, w: World)
    ensures var w' := Operate(env, phase, t, w).1;
            w.step < w'.step && w'.seen == w.seen && w'.clock == w.clock + Took(env, w.step, w'.step)
  {
    hide Took;
    TookOne(env, w.step);
    TookOne(env, w.step + 1);
    TookOne(env, w.step + 2);
    TookJoin(env, w.step, w.step + 1, w.step + 2);
    TookJoin(env, w.step, w.step + 2, w.step + 3);
  }

  /** One uninterrupted back-off: the flag is read, and then the delay passes in full. */
  lemma BackOffClock(env: Env, w: World, delay: nat)
    ensures var waiting := w.Next(env).Emit(RetrySleep(delay)); var woken := waiting.Wait(env, delay * MILLISECOND);
            && woken.step == w.step + 2
            && (waiting.Interrupted(env, delay * MILLISECOND) ==>
               woken.clock == w.clock + Took(env, w.step, woken.step))
            && (!waiting.Interrupted(env, delay * MILLISECOND) ==>
                  woken.seen == w.seen && woken.clock == w.clock + Took(env, w.step, woken.step) + delay * 1_000_000)
  {
    hide Took;
    TookOne(env, w.step);
    TookOne(env, w.step + 1);
    TookJoin(env, w.step, w.step + 1, w.step + 2);
  }

  /** The clock moves on by the time of the steps and by every delay, in milliseconds, that was not
      cut short. Only the last can be: then no call follows it. */
  lemma {:induction false} RetryClock(env: Env, policy: RetryPolicy, phase: Phase, t: Name, w: World, attempt: nat,
        delay: nat)
    returns (delays: seq<nat>, slept: seq<nat>, calls: seq<Option<PgError>>)
    ensures var (o, w') := RetryLoop(env, policy, phase, t, w, attempt, delay);
            && w.step < w'.step && Delays(w'.trace) == Delays(w.trace) + delays
            && Outcomes(w'.trace) == Outcomes(w.trace) + calls && calls != []
            && (slept == delays || (delays != [] && slept == delays[..|delays| - 1]))
            && |calls| == |slept| + 1
            && w'.clock == w.clock + Took(env, w.step, w'.step) + Sum(slept) * 1_000_000
    decreases policy.retries - attempt
  {
    hide Operate, World.Interrupted, World.Wait, World.Flag, Delays, Outcomes, Doubled, Took, Sum;
    var (o, w') := Call(env, phase, t, w);
    CallTrace(env, phase, t, w);
    OperateClock(env, phase, t, w);
    NothingSlept();
    delays, slept, calls := [], [], [o];
    assert Delays(w.trace) + [] == Delays(w.trace);
    if o.Some? && IsLockTimeout(o.value) && attempt < policy.retries {
      TookOne(env, w'.step);
      TookJoin(env, w.step, w'.step, w'.step + 1);
      if !w'.Flag(env) {
        var waiting := w'.Next(env).Emit(RetrySleep(delay));
        var woken := waiting.Wait(env, delay * MILLISECOND);
        SleepTrace(env, w', delay);
        BackOffClock(env, w', delay);
        TookJoin(env, w.step, w'.step, woken.step);
        delays := [delay];
        if !waiting.Interrupted(env, delay * MILLISECOND) {
          var ds, ss, cs := RetryClock(env, policy, phase, t, woken, attempt + 1, Doubled(delay));
          var end := RetryLoop(env, policy, phase, t, woken, attempt + 1, Doubled(delay)).1;
          TookJoin(env, w.step, woken.step, end.step);
          SumCons(delay, ss);
          delays, slept, calls := [delay] + ds, [delay] + ss, [o] + cs;
          Lengthened(delay, ds, ss);
          assert Delays(w.trace) + [delay] + ds == Delays(w.trace) + delays;
          assert Outcomes(w.trace) + [o] + cs == Outcomes(w.trace) + calls;
        } else {
          assert [delay][..0] == [];
        }
      }
    }
  }

  lemma Lengthened(delay: nat, ds: seq<nat>, ss: seq<nat>)
    requires ss == ds || (ds != [] && ss == ds[..|ds| - 1])
    ensures [delay] + ss == [delay] + ds || [delay] + ss == ([delay] + ds)[..|[delay] + ds| - 1]
  {
    if ds != [] && ss == ds[..|ds| - 1] {
      assert ([delay] + ds)[..|ds|] == [delay] + ds[..|ds| - 1];
    }
  }

  /** A timer that never beats a signal. */
  ghost predicate Attentive(env: Env) { forall k: nat :: env.wakes(k) }

  /** The call to which a statement belongs was begun before any signal. */
  predicate BegunQuietly(env: Env, phase: Phase, at: nat) {
    var counts := if phase in {NeverAnalyzed, AnalyzeOverdue, Wraparound} then 0 else 1;
    at >= counts && env.published(at - counts) == 0
  }

  ghost predicate Heeds(env: Env, phase: Phase, t: seq<Event>, from: nat) {
    forall k :: from <= k < |t| && t[k].Statement? ==> BegunQuietly(env, phase, t[k].at)
  }

  /** A call and the back-off after it send no statement but the first event. */
  lemma CallEvents(env: Env, phase: Phase, t: Name, w: World, delay: nat)
    ensures var w' := Call(env, phase, t, w).1;
            var woken := w'.Next(env).Emit(RetrySleep(delay)).Wait(env, delay * MILLISECOND);
            && w.trace <= w'.trace <= woken.trace && |w.trace| < |w'.trace|
            && forall k :: |w.trace| < k < |woken.trace| ==> !woken.trace[k].Statement?
  {
    hide Operate, World.Wait;
    OperateExactly(env, phase, t, w);
    WaitFacts(env, Call(env, phase, t, w).1.Next(env).Emit(RetrySleep(delay)), delay * MILLISECOND);
  }

  lemma HeedsOn(env: Env, phase: Phase, a: seq<Event>, b: seq<Event>, c: seq<Event>)
    requires a <= b && b < c && (forall k :: |a| < k < |b| ==> !b[k].Statement?) && Heeds(env, phase, c, |b| + 1)
    requires c[|b|].Statement? ==> BegunQuietly(env, phase, c[|b|].at)
    ensures Heeds(env, phase, c, |a| + 1)
  {
    hide BegunQuietly;
    assert forall k :: 0 <= k < |b| ==> c[k] == b[k];
  }

  /** Where signals beat timers, a back-off that runs its time leaves no signal unnoticed. */
  lemma QuietBackOff(env: Env, w: World, delay: nat)
    requires Attentive(env) && w.seen == 0
    ensures var waiting := w.Next(env).Emit(RetrySleep(delay)); var woken := waiting.Wait(env, delay * MILLISECOND);
            !waiting.Interrupted(env, delay * MILLISECOND) ==> woken.seen == 0 && env.published(woken.step) == 0
  {
  }

  /** If signals beat timers, no call is begun once a signal has been sent, except the first: a
      statement of a repeated call belongs to a call that started before. */
  lemma {:induction false} RetryHeedsSignals(env: Env, policy: RetryPolicy, phase: Phase, t: Name, w: World,
        attempt: nat, delay: nat)
    requires Attentive(env) && w.seen == 0
    ensures var t' := RetryLoop(env, policy, phase, t, w, attempt, delay).1.trace;
            w.trace <= t' && Heeds(env, phase, t', |w.trace| + 1)
    decreases policy.retries - attempt
  {
    hide Call, Doubled, World.Wait, World.Interrupted, World.Flag, BegunQuietly, Attentive;
    var (o, w') := Call(env, phase, t, w);
    CallEvents(env, phase, t, w, delay);
    CallClock(env, phase, t, w);
    if o.Some? && IsLockTimeout(o.value) && attempt < policy.retries && !w'.Flag(env) {
      var waiting := w'.Next(env).Emit(RetrySleep(delay));
      var woken := waiting.Wait(env, delay * MILLISECOND);
      QuietBackOff(env, w', delay);
      if !waiting.Interrupted(env, delay * MILLISECOND) {
        RetryHeedsSignals(env, policy, phase, t, woken, attempt + 1, Doubled(delay));
        FirstStatement(env, policy, phase, t, woken, attempt + 1, Doubled(delay));
        BeginsHere(env, phase, woken);
        var end := RetryLoop(env, policy, phase, t, woken, attempt + 1, Doubled(delay)).1.trace;
        HeedsOn(env, phase, w.trace, woken.trace, end);
      }
    }
  }

  lemma CallClock(env: Env, phase: Phase, t: Name, w: World)
    ensures Call(env, phase, t, w).1.seen == w.seen
  {
    hide Operate;
    OperateClock(env, phase, t, w);
  }

  lemma BeginsHere(env: Env, phase: Phase, w: World)
    requires env.published(w.step) == 0
    ensures BegunQuietly(env, phase, w.step + if phase in {NeverAnalyzed, AnalyzeOverdue, Wraparound} then 0 else 1)
  {
  }

  /** The first statement of a call is sent in its first step, or after the count. */
  lemma FirstStatement(env: Env, policy: RetryPolicy, phase: Phase, t: Name, w: World, attempt: nat, delay: nat)
    ensures var t' := RetryLoop(env, policy, phase, t, w, attempt, delay).1.trace;
            |w.trace| < |t'| && (t'[|w.trace|].Statement? ==>
              t'[|w.trace|].at == w.step + if phase in {NeverAnalyzed, AnalyzeOverdue, Wraparound} then 0 else 1)
  {
    hide Doubled, Operate, World.Wait, World.Interrupted;
    OperateExactly(env, phase, t, w);
    RetryGrows(env, policy, phase, t, w, attempt, delay);
  }

  lemma {:induction false} RetryGrows(env: Env, policy: RetryPolicy, phase: Phase, t: Name, w: World, attempt: nat,
        delay: nat)
    ensures Call(env, phase, t, w).1.trace <= RetryLoop(env, policy, phase, t, w, attempt, delay).1.trace
    decreases policy.retries - attempt
  {
    hide Doubled, Operate, World.Wait, World.Interrupted, World.Flag;
    var (o, w') := Call(env, phase, t, w);
    if o.Some? && IsLockTimeout(o.value) && attempt < policy.retries && !w'.Flag(env) {
      var waiting := w'.Next(env).Emit(RetrySleep(delay));
      WaitFacts(env, waiting, delay * MILLISECOND);
      if !waiting.Interrupted(env, delay * MILLISECOND) {
        var woken := waiting.Wait(env, delay * MILLISECOND);
        OperateExactly(env, phase, t, woken);
        RetryGrows(env, policy, phase, t, woken, attempt + 1, Doubled(delay));
      }
    }
  }
}
