/** "Only a running VACUUM or ANALYZE is acted on" (README.md:114 of the repository): when the
    shutdown watcher keeps this promise, and runs on which it does not. */
module ActedOn {
  import opened Text
  import opened Watcher

  /** The read just before shows a running statement, and some read up to then showed that this
      statement, known by its start time, is maintenance. */
  ghost predicate SeenAsMaintenance(t: seq<Event>, i: nat)
    requires i <= |t|
  {
    && i > 0 && ReadsActive(t[i - 1])
    && exists j ::
         0 <= j < i && ReadsMaintenance(t[j]) && t[j].state.value.queryStart == t[i - 1].state.value.queryStart
  }

  /** The promise: every cancel and every terminate hits a statement seen as maintenance. */
  ghost predicate ActsOnMaintenance(t: seq<Event>) {
    forall i :: 0 <= i < |t| && (t[i].CancelSent? || t[i].TerminateSent?) ==> SeenAsMaintenance(t, i)
  }

  function Start(queued: nat): Watch { Watch(0, queued, 0, false, []) }

  lemma {:induction false} SignalsPrefix(t: seq<Event>, n: nat)
    requires n <= |t|
    ensures Signals(t[..n]) <= Signals(t)
    decreases |t|
  {
    if n < |t| {
      SignalsPrefix(t[..|t| - 1], n);
      assert t[..|t| - 1][..n] == t[..n];
    } else {
      assert t[..n] == t;
    }
  }

  /** What one signal can justify. */
  lemma AllowedOnce(mode: ShutdownMode, t: seq<Event>, e: Event)
    requires Allowed(mode, t, e) && (e.CancelSent? || e.TerminateSent?) && Signals(t) <= 1
    ensures SeenAsMaintenance(t + [e], |t|)
  {
    hide Signals;
    var t' := t + [e];
    if e.TerminateSent? && TerminatesAfterGrace(mode, t) {
      assert t[..|t| - 2][|t| - 4] == t[|t| - 4];
      assert ReadsMaintenance(t'[|t| - 4]);
    } else {
      assert ReadsMaintenance(t'[|t| - 1]);
    }
  }

  /** One signal at most, or finish mode: the promise is kept by every safe trace. */
  lemma OneSignalKeepsIt(mode: ShutdownMode, t: seq<Event>)
    requires Safe(mode, t) && (mode.Finish? || Signals(t) <= 1)
    ensures ActsOnMaintenance(t)
  {
    hide SeenAsMaintenance, Allowed, Signals;
    SafeTrace(mode, t);
    forall i | 0 <= i < |t| && (t[i].CancelSent? || t[i].TerminateSent?) ensures SeenAsMaintenance(t, i) {
      assert Allowed(mode, t[..i], t[i]);
      SignalsPrefix(t, i);
      AllowedOnce(mode, t[..i], t[i]);
      SeenInPrefix(t, i);
    }
  }

  lemma SeenInPrefix(t: seq<Event>, i: nat)
    requires i < |t| && SeenAsMaintenance(t[..i] + [t[i]], i)
    ensures SeenAsMaintenance(t, i)
  {
    assert t[..i] + [t[i]] == t[..i + 1];
    assert forall k :: 0 <= k < i ==> t[..i + 1][k] == t[k];
  }

  // ------------------------------------------------------------------- traces only grow

  lemma {:induction false} FindTargetExtends(env: Env, w: Watch, attempt: nat)
    requires attempt <= POLL_ATTEMPTS
    ensures w.trace <= FindTarget(env, w, attempt).0.trace
    decreases POLL_ATTEMPTS - attempt
  {
    hide WorthActing;
    if attempt + 1 < POLL_ATTEMPTS {
      FindTargetExtends(env, Select(env, w.Do(Read(env.state(w.step))), Polled), attempt + 1);
    }
  }

  lemma HandleExtends(env: Env, mode: ShutdownMode, w: Watch)
    ensures w.trace <= Handle(env, mode, w).trace
  {
    hide FindTarget;
    FindTargetExtends(env, w, 0);
  }

  lemma {:induction false} RunExtends(env: Env, mode: ShutdownMode, w: Watch)
    ensures w.trace <= Run(env, mode, w).trace
    decreases w.queued
  {
    hide Handle;
    if w.queued > 0 {
      var r := w.Receive();
      ReactQueue(env, mode, r);
      HandleExtends(env, mode, r);
      HandleExtends(env, mode, r.Do(Connected(env.connect(r.step))).(connected := true));
      RunExtends(env, mode, React(env, mode, r));
    }
  }

  // -------------------------------------------------------------------- two signals break it

  /** The control connection opens, the session always shows the same state, and a queued
      signal is always delivered before the timer. */
  function Steady(s: BackendState): Env { Env(_ => true, _ => Some(s), _ => true) }

  const OTHER_STATEMENT: BackendState := BackendRow(true, false, None)
  const MAINTENANCE: BackendState := BackendRow(true, true, None)

  lemma FirstReaction(mode: ShutdownMode, queued: nat, s: BackendState)
    requires !mode.Finish? && queued > 0
    ensures var c := Watch(2, queued - 1, 1, true, [Received, Connected(true)]);
            Handle(Steady(s), mode, c).trace <= Run(Steady(s), mode, Start(queued)).trace
  {
    hide Handle;
    var r := Start(queued).Receive();
    assert [] + [Received] == [Received] && [Received] + [Connected(true)] == [Received, Connected(true)];
    ReactQueue(Steady(s), mode, r);
    RunExtends(Steady(s), mode, React(Steady(s), mode, r));
  }

  /** A second signal during the polls, in cancel or terminate mode: a statement that no read
      ever showed to be maintenance is terminated. */
  lemma OtherStatementTerminated(mode: ShutdownMode, queued: nat)
    requires !mode.Finish? && queued >= 2
    ensures var s := Read(Some(OTHER_STATEMENT));
            [Received, Connected(true), s, Received, s, TerminateSent]
                <= Run(Steady(OTHER_STATEMENT), mode, Start(queued)).trace
  {
    var env, s := Steady(OTHER_STATEMENT), OTHER_STATEMENT;
    var c := Watch(2, queued - 1, 1, true, [Received, Connected(true)]);
    FirstReaction(mode, queued, s);
    var again := c.Do(Read(Some(s))).Receive();
    assert FindTarget(env, c, 0) == FindTarget(env, again, 1);
    assert FindTarget(env, again, 1) == (again.Do(Read(Some(s))), Target(s));
    assert Handle(env, mode, c) == again.Do(Read(Some(s))).Do(TerminateSent);
  }

  /** A second signal during the grace period: the session is terminated at once, without
      another look at what it runs by then. */
  lemma TerminatedUnread(queued: nat)
    requires queued >= 2
    ensures var m := Read(Some(MAINTENANCE));
            [Received, Connected(true), m, CancelSent, Received, TerminateSent]
                <= Run(Steady(MAINTENANCE), Cancel, Start(queued)).trace
  {
    var env, s := Steady(MAINTENANCE), MAINTENANCE;
    var c := Watch(2, queued - 1, 1, true, [Received, Connected(true)]);
    FirstReaction(Cancel, queued, s);
    var found := c.Do(Read(Some(s)));
    assert FindTarget(env, c, 0) == (found, Target(s));
    assert Handle(env, Cancel, c) == found.Do(CancelSent).Receive().Do(TerminateSent);
  }

  /** The promise holds on every tape exactly in finish mode or with a single signal. */
  lemma ActsOnMaintenanceExactly(mode: ShutdownMode, queued: nat)
    ensures (forall env :: ActsOnMaintenance(Run(env, mode, Start(queued)).trace)) <==> mode.Finish? || queued <= 1
  {
    hide Run, ActsOnMaintenance, Safe;
    if mode.Finish? || queued <= 1 {
      forall env ensures ActsOnMaintenance(Run(env, mode, Start(queued)).trace) {
        NothingDone(mode);
        RunSafe(env, mode, Start(queued));
        RunCounts(env, mode, queued);
        OneSignalKeepsIt(mode, Run(env, mode, Start(queued)).trace);
      }
    } else {
      var t := Run(Steady(OTHER_STATEMENT), mode, Start(queued)).trace;
      OtherStatementTerminated(mode, queued);
      NotSeen(t);
    }
  }

  lemma NothingDone(mode: ShutdownMode)
    ensures Safe(mode, []) && Signals([]) == 0
  {
  }

  lemma NotSeen(t: seq<Event>)
    requires var s := Read(Some(OTHER_STATEMENT)); [Received, Connected(true), s, Received, s, TerminateSent] <= t
    ensures !ActsOnMaintenance(t)
  {
    var s := Read(Some(OTHER_STATEMENT));
    var front := [Received, Connected(true), s, Received, s, TerminateSent];
    assert forall k :: 0 <= k < 6 ==> t[k] == front[k];
    assert !SeenAsMaintenance(t, 5);
  }
}
