/** That the shutdown watcher acts: what a signal leads to in a run, for every tape. */
module WatcherActs {
  import opened Text
  import opened Watcher
  import opened ActedOn

  /** The trace of a run goes through the reaction to the next signal. */
  lemma RunReacts(env: Env, mode: ShutdownMode, w: Watch)
    requires w.queued > 0
    ensures React(env, mode, w.Receive()).trace <= Run(env, mode, w).trace
  {
    hide React;
    ReactQueue(env, mode, w.Receive());
    RunExtends(env, mode, React(env, mode, w.Receive()));
  }

  lemma Longer(t: seq<Event>, a: seq<Event>, b: seq<Event>, u: seq<Event>)
    requires t + a + b <= u
    ensures t + (a + b) <= u
  {
    assert t + a + b == t + (a + b);
  }

  /** Each signal that the loop takes while it is connected leads to a look at the session. */
  lemma SignalLooks(env: Env, mode: ShutdownMode, w: Watch)
    requires !mode.Finish? && w.queued > 0 && w.connected
    ensures w.trace + [Received, Read(env.state(w.step + 1))] <= Run(env, mode, w).trace
  {
    hide Run, Escalate;
    var r := w.Receive();
    RunReacts(env, mode, w);
    HandleLooks(env, mode, r);
    Longer(w.trace, [Received], [Read(env.state(w.step + 1))], Run(env, mode, w).trace);
  }

  lemma HandleLooks(env: Env, mode: ShutdownMode, w: Watch)
    ensures w.trace + [Read(env.state(w.step))] <= Handle(env, mode, w).trace
  {
    hide Escalate, WorthActing;
    var read := w.Do(Read(env.state(w.step)));
    FindTargetExtends(env, Select(env, read, Polled), 1);
    var (found, f) := FindTarget(env, w, 0);
    assert read.trace <= found.trace;
    if f.Target? {
      EscalateExtends(env, found, f.state);
    }
  }

  lemma EscalateExtends(env: Env, w: Watch, target: BackendState)
    ensures w.trace <= Escalate(env, w, target).trace
  {
  }

  /** From the second signal on, a signal taken while connected terminates whatever is active. */
  lemma LaterSignalTerminates(env: Env, mode: ShutdownMode, w: Watch)
    requires !mode.Finish? && w.queued > 0 && w.connected && w.count >= 1
    requires env.state(w.step + 1).Some? && env.state(w.step + 1).value.active
    ensures w.trace + [Received, Read(env.state(w.step + 1)), TerminateSent] <= Run(env, mode, w).trace
  {
    hide Run, Handle;
    var r := w.Receive();
    RunReacts(env, mode, w);
    SecondSignalActsAtOnce(env, mode, r);
    Longer(w.trace, [Received], [Read(env.state(w.step + 1)), TerminateSent], Run(env, mode, w).trace);
    assert [Received] + [Read(env.state(w.step + 1)), TerminateSent]
        == [Received, Read(env.state(w.step + 1)), TerminateSent];
  }

  /** A signal taken without a connection tries to open one; if that succeeds it is handled. */
  lemma LaterSignalConnects(env: Env, mode: ShutdownMode, w: Watch)
    requires !mode.Finish? && w.queued > 0 && !w.connected && w.count >= 1
    requires env.connect(w.step + 1) && env.state(w.step + 2).Some? && env.state(w.step + 2).value.active
    ensures w.trace + [Received, Connected(true), Read(env.state(w.step + 2)), TerminateSent] <= Run(env, mode, w).trace
  {
    hide Run, Handle;
    var r := w.Receive();
    RunReacts(env, mode, w);
    ReactConnects(env, mode, r);
    var c := r.Do(Connected(true)).(connected := true);
    SecondSignalActsAtOnce(env, mode, c);
    var rest := [Read(env.state(w.step + 2)), TerminateSent];
    assert c.trace + rest == w.trace + [Received, Connected(true), Read(env.state(w.step + 2)), TerminateSent];
  }

  /** If the connection cannot be opened the signal is only counted, and the next one tries again. */
  lemma FailedConnect(env: Env, mode: ShutdownMode, w: Watch)
    requires !mode.Finish? && w.queued > 0 && !w.connected && !env.connect(w.step + 1)
    ensures var t := Run(env, mode, w).trace;
            && w.trace + [Received, Connected(false)] <= t
            && (w.queued == 1 ==> t == w.trace + [Received, Connected(false)])
            && (w.queued > 1 ==>
               w.trace + [Received, Connected(false), Received, Connected(env.connect(w.step + 3))] <= t)
  {
    hide Run, Handle;
    var r := w.Receive();
    var tried := r.Do(Connected(false));
    RunReacts(env, mode, w);
    assert React(env, mode, r) == tried;
    assert tried.trace == w.trace + [Received, Connected(false)];
    RunOnce(env, mode, w);
    if w.queued > 1 {
      var again := tried.Receive();
      RunReacts(env, mode, tried);
      var second := again.Do(Connected(env.connect(w.step + 3)));
      HandleExtends(env, mode, second.(connected := true));
      assert second.trace == w.trace + [Received, Connected(false), Received, Connected(env.connect(w.step + 3))];
      assert second.trace <= React(env, mode, again).trace;
    } else {
      RunEnds(env, mode, tried);
    }
  }

  lemma RunOnce(env: Env, mode: ShutdownMode, w: Watch)
    requires w.queued > 0
    ensures Run(env, mode, w) == Run(env, mode, React(env, mode, w.Receive()))
  {
    hide React;
    ReactQueue(env, mode, w.Receive());
  }

  lemma RunEnds(env: Env, mode: ShutdownMode, w: Watch)
    requires w.queued == 0
    ensures Run(env, mode, w) == w
  {
  }

  /** The first signal, on a session that runs maintenance: terminate mode terminates, cancel mode
      cancels first. */
  lemma FirstSignalActs(env: Env, mode: ShutdownMode, w: Watch)
    requires !mode.Finish? && w.queued > 0 && w.count == 0 && (w.connected || env.connect(w.step + 1))
    requires var s := env.state(if w.connected then w.step + 1 else w.step + 2); s.Some? && s.value.maintenanceRunning
    ensures var s := env.state(if w.connected then w.step + 1 else w.step + 2);
            var opening := if w.connected then [Received] else [Received, Connected(true)];
            w.trace + (opening + [Read(s), if mode.Terminate? then TerminateSent else CancelSent])
                <= Run(env, mode, w).trace
  {
    hide Run;
    var r := w.Receive();
    RunReacts(env, mode, w);
    var c := if w.connected then r else r.Do(Connected(true)).(connected := true);
    var s := env.state(c.step);
    if !w.connected {
      ReactConnects(env, mode, r);
    }
    assert React(env, mode, r) == Handle(env, mode, c);
    assert FindTarget(env, c, 0) == (c.Do(Read(s)), Target(s.value));
    var action := if mode.Terminate? then TerminateSent else CancelSent;
    var opening := if w.connected then [Received] else [Received, Connected(true)];
    assert c.trace + [Read(s)] + [action] <= Handle(env, mode, c).trace;
    assert c.trace + [Read(s)] + [action] == w.trace + (opening + [Read(s), action]);
  }

  // ------------------------------------------------------------------------ the escalation

  lemma Joined<T>(t: seq<T>, a: T, b: T, c: T, d: T)
    ensures t + [a] + [b] + [c] == t + [a, b, c] && t + [a] + [b] + [c] + [d] == t + [a, b, c, d]
  {
  }

  /** After a cancel: a second signal during the grace terminates at once; otherwise the session is
      read once more, and terminated if and only if the same statement is still active. */
  lemma EscalateExactly(env: Env, w: Watch, target: BackendState)
    ensures var t := Escalate(env, w, target).trace; var s := env.state(w.step + 2);
            if w.queued > 0 && env.signalWins(w.step + 1) then t == w.trace + [CancelSent, Received, TerminateSent]
            else if s.Some? && s.value.active && s.value.queryStart == target.queryStart then
              t == w.trace + [CancelSent, GraceOver, Read(s), TerminateSent]
            else t == w.trace + [CancelSent, GraceOver, Read(s)]
  {
    var s := env.state(w.step + 2);
    Joined(w.trace, CancelSent, Received, TerminateSent, TerminateSent);
    Joined(w.trace, CancelSent, GraceOver, Read(s), TerminateSent);
  }

  // ---------------------------------------------------------------------------- the search

  /** The j-th look of a search shows an idle session. */
  predicate IdleAt(env: Env, from: nat, j: nat) {
    env.state(from + 2 * j).Some? && !env.state(from + 2 * j).value.active
  }

  /** The j-th look of a search shows no maintenance. */
  predicate NoMaintenanceAt(env: Env, from: nat, j: nat) {
    env.state(from + 2 * j).Some? && !env.state(from + 2 * j).value.maintenanceRunning
  }

  /** A search meets a read that fails before any that is worth acting on. */
  ghost predicate FailsAtPoll(env: Env, from: nat, k: nat) {
    IdleFor(env, from, k) && env.state(from + 2 * k).None?
  }

  /** An idle session, as far as a search looks. */
  ghost predicate IdleFor(env: Env, from: nat, n: nat) { forall j: nat :: j < n ==> IdleAt(env, from, j) }

  /** Without a further signal only maintenance counts. */
  ghost predicate NoMaintenanceFor(env: Env, from: nat, n: nat) {
    forall j: nat :: j < n ==> NoMaintenanceAt(env, from, j)
  }

  lemma LaterLooks(env: Env, from: nat, later: nat, n: nat)
    requires n > 0 && later == from + 2
    ensures IdleFor(env, from, n) ==> IdleFor(env, later, n - 1) && IdleAt(env, from, 0)
    ensures NoMaintenanceFor(env, from, n) ==> NoMaintenanceFor(env, later, n - 1) && NoMaintenanceAt(env, from, 0)
  {
    if IdleFor(env, from, n) {
      forall j: nat | j < n - 1 ensures IdleAt(env, later, j) { LaterLook(env, from, j); }
    }
    if NoMaintenanceFor(env, from, n) {
      forall j: nat | j < n - 1 ensures NoMaintenanceAt(env, later, j) { LaterLook(env, from, j); }
    }
  }

  lemma LaterLook(env: Env, from: nat, j: nat)
    ensures IdleAt(env, from + 2, j) <==> IdleAt(env, from, j + 1)
    ensures NoMaintenanceAt(env, from + 2, j) <==> NoMaintenanceAt(env, from, j + 1)
  {
    assert from + 2 + 2 * j == from + 2 * (j + 1);
  }

  /** One poll that finds nothing worth acting on. */
  lemma PollOn(env: Env, w: Watch, attempt: nat)
    requires attempt + 1 < POLL_ATTEMPTS && env.state(w.step).Some? && !SearchEnds(env, w)
    ensures var w' := Select(env, w.Do(Read(env.state(w.step))), Polled);
            FindTarget(env, w, attempt) == FindTarget(env, w', attempt + 1) && w'.step == w.step + 2
  {
  }

  /** A failed read ends the search, and nothing is done. */
  lemma {:induction false} FailedReadStops(env: Env, w: Watch, attempt: nat, k: nat)
    requires attempt + k < POLL_ATTEMPTS && FailsAtPoll(env, w.step, k)
    ensures FindTarget(env, w, attempt).1 == Failed
    decreases k
  {
    hide IdleFor;
    if k > 0 {
      LaterLooks(env, w.step, w.step + 2, k);
      assert w.step + 2 + 2 * (k - 1) == w.step + 2 * k;
      PollOn(env, w, attempt);
      FailedReadStops(env, Select(env, w.Do(Read(env.state(w.step))), Polled), attempt + 1, k - 1);
    }
  }

  /** Eight looks at an idle session, or, at the first signal and without a further one, eight looks
      that show no maintenance: nothing is done. */
  lemma {:induction false} NothingFound(env: Env, w: Watch, attempt: nat)
    requires attempt < POLL_ATTEMPTS
    requires var n := POLL_ATTEMPTS - attempt;
             IdleFor(env, w.step, n) || (w.queued == 0 && w.count <= 1 && NoMaintenanceFor(env, w.step, n))
    ensures var (w', f) := FindTarget(env, w, attempt);
            f == Nothing && w'.step == w.step + 2 * (POLL_ATTEMPTS - attempt) - 1
    decreases POLL_ATTEMPTS - attempt
  {
    hide IdleFor, NoMaintenanceFor;
    LaterLooks(env, w.step, w.step + 2, POLL_ATTEMPTS - attempt);
    if attempt + 1 < POLL_ATTEMPTS {
      PollOn(env, w, attempt);
      NothingFound(env, Select(env, w.Do(Read(env.state(w.step))), Polled), attempt + 1);
    }
  }

  /** A signal that finds nothing worth acting on, or cannot read, does nothing but look. */
  lemma HandleDoesNothing(env: Env, mode: ShutdownMode, w: Watch)
    requires (exists k :: 0 <= k < POLL_ATTEMPTS && FailsAtPoll(env, w.step, k))
          || IdleFor(env, w.step, POLL_ATTEMPTS)
          || (w.queued == 0 && w.count <= 1 && NoMaintenanceFor(env, w.step, POLL_ATTEMPTS))
    ensures Handle(env, mode, w) == FindTarget(env, w, 0).0
    ensures OnlyLooks(w.trace, Handle(env, mode, w).trace)
  {
    hide FindTarget, Escalate, FailsAtPoll, IdleFor, NoMaintenanceFor;
    LooksOnly(env, w, 0);
    if exists k :: 0 <= k < POLL_ATTEMPTS && FailsAtPoll(env, w.step, k) {
      var k :| 0 <= k < POLL_ATTEMPTS && FailsAtPoll(env, w.step, k);
      FailedReadStops(env, w, 0, k);
    } else {
      NothingFound(env, w, 0);
    }
  }

  ghost predicate OnlyLooks(a: seq<Event>, b: seq<Event>) {
    a <= b && forall i :: |a| <= i < |b| ==> b[i].Read? || b[i].Polled? || b[i].Received?
  }

  lemma {:induction false} LooksOnly(env: Env, w: Watch, attempt: nat)
    requires attempt <= POLL_ATTEMPTS
    ensures OnlyLooks(w.trace, FindTarget(env, w, attempt).0.trace)
    decreases POLL_ATTEMPTS - attempt
  {
    hide WorthActing;
    if attempt < POLL_ATTEMPTS {
      var read := w.Do(Read(env.state(w.step)));
      if attempt + 1 < POLL_ATTEMPTS {
        LooksOnly(env, Select(env, read, Polled), attempt + 1);
      }
    }
  }
}
