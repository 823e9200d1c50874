/** The shutdown watcher of src/shutdown.rs: signals are counted, the maintenance backend is
    sampled, and a running statement is cancelled, given grace, and terminated.

    The world is a tape: the answer to the n-th interaction is a function of n, so a theorem
    about every tape is a theorem about every behaviour of the server and of the sender. */
module Watcher {
  import opened Text

  datatype ShutdownMode = Finish | Cancel | Terminate
  datatype ShutdownAction = NoAction | CancelAction | TerminateAction

  /** A row of `pg_stat_activity`. The query computes `maintenanceRunning` as a conjunction
      with `active`; a backend that is gone reads as all false. */
  datatype BackendRow = BackendRow(active: bool, maintenanceRunning: bool, queryStart: Option<int>)
  type BackendState = r: BackendRow | r.maintenanceRunning ==> r.active witness BackendRow(false, false, None)

  datatype Event =
    | Received                          // a signal taken from the channel
    | Connected(ok: bool)               // an attempt to open the control connection
    | Read(state: Option<BackendState>) // a state read; None when it failed
    | Polled                            // 250 ms went by between two reads
    | CancelSent                        // pg_cancel_backend
    | GraceOver                         // the whole grace period went by
    | TerminateSent                     // pg_terminate_backend

  datatype Env = Env(
    connect: nat -> bool,
    state: nat -> Option<BackendState>,
    signalWins: nat -> bool) // in a select, whether a queued signal comes before the timer

  const POLL_ATTEMPTS: nat := 8

  /** The watcher's variables; `queued` signals are still to be delivered. */
  datatype Watch = Watch(step: nat, queued: nat, count: nat, connected: bool, trace: seq<Event>) {
    function Do(e: Event): Watch { this.(step := step + 1, trace := trace + [e]) }
    function Receive(): Watch
      requires queued > 0
    {
      this.(step := step + 1, queued := queued - 1, count := count + 1, trace := trace + [Received])
    }
  }

  /** `plan_action`. */
  function PlanAction(mode: ShutdownMode, signalCount: nat, backendActive: bool): ShutdownAction {
    if mode.Finish? || !backendActive then NoAction
    else if mode.Terminate? || signalCount >= 2 then TerminateAction
    else CancelAction
  }

  /** `tokio::select!` over a timer and the channel. */
  function Select(env: Env, w: Watch, timer: Event): Watch {
    if w.queued > 0 && env.signalWins(w.step) then w.Receive() else w.Do(timer)
  }

  datatype Found = Target(state: BackendState) | Nothing | Failed

  function WorthActing(count: nat, s: BackendState): bool {
    if count >= 2 then s.active else s.maintenanceRunning
  }

  function FindTarget(env: Env, w: Watch, attempt: nat): (Watch, Found)
    requires attempt <= POLL_ATTEMPTS
    decreases POLL_ATTEMPTS - attempt
  {
    if attempt == POLL_ATTEMPTS then (w, Nothing) else
      var s := env.state(w.step);
      var w' := w.Do(Read(s));
      if s.None? then (w', Failed)
      else if WorthActing(w'.count, s.value) then (w', Target(s.value))
      else if attempt + 1 < POLL_ATTEMPTS then FindTarget(env, Select(env, w', Polled), attempt + 1)
      else (w', Nothing)
  }

  function Escalate(env: Env, w: Watch, target: BackendState): Watch {
    var waited := Select(env, w.Do(CancelSent), GraceOver);
    if waited.count > w.count then waited.Do(TerminateSent) else
      var s := env.state(waited.step);
      var again := waited.Do(Read(s));
      if s.Some? && s.value.active && s.value.queryStart == target.queryStart then again.Do(TerminateSent) else again
  }

  function Handle(env: Env, mode: ShutdownMode, w: Watch): Watch {
    match FindTarget(env, w, 0)
    case (w', Target(target)) =>
      (match PlanAction(mode, w'.count, true)
       case NoAction => w'
       case TerminateAction => w'.Do(TerminateSent)
       case CancelAction => Escalate(env, w', target))
    case (w', _) => w'
  }

  /** One turn of the watcher's loop, after a signal was received. */
  function React(env: Env, mode: ShutdownMode, w: Watch): Watch {
    if mode.Finish? then w
    else if w.connected then Handle(env, mode, w)
    else
      var tried := w.Do(Connected(env.connect(w.step)));
      if env.connect(w.step) then Handle(env, mode, tried.(connected := true)) else tried
  }

  lemma {:induction false} FindTargetQueue(env: Env, w: Watch, attempt: nat)
    requires attempt <= POLL_ATTEMPTS
    ensures var w' := FindTarget(env, w, attempt).0; w'.queued + w'.count == w.queued + w.count && w.count <= w'.count
    decreases POLL_ATTEMPTS - attempt
  {
    if attempt + 1 < POLL_ATTEMPTS {
      FindTargetQueue(env, Select(env, w.Do(Read(env.state(w.step))), Polled), attempt + 1);
    }
  }

  lemma HandleQueue(env: Env, mode: ShutdownMode, w: Watch)
    ensures var w' := Handle(env, mode, w); w'.queued + w'.count == w.queued + w.count && w.count <= w'.count
  {
    hide FindTarget, WorthActing;
    FindTargetQueue(env, w, 0);
  }

  /** Signals are neither lost nor invented: what leaves the queue is counted. */
  lemma ReactQueue(env: Env, mode: ShutdownMode, w: Watch)
    ensures var w' := React(env, mode, w); w'.queued + w'.count == w.queued + w.count && w.count <= w'.count
  {
    hide Handle;
    HandleQueue(env, mode, w);
    HandleQueue(env, mode, w.Do(Connected(env.connect(w.step))).(connected := true));
  }

  /** The whole run of the watcher over the signals that will ever be sent. */
  function Run(env: Env, mode: ShutdownMode, w: Watch): Watch
    decreases w.queued
  {
    if w.queued == 0 then w else
      ReactQueue(env, mode, w.Receive());
      Run(env, mode, React(env, mode, w.Receive()))
  }

  // --------------------------------------------------------------- the code, as it runs

  class ShutdownWatcher {
    const env: Env
    const mode: ShutdownMode
    var step: nat
    var queued: nat
    var count: nat
    var connected: bool
    var trace: seq<Event>

    function Now(): Watch
      reads this
    {
      Watch(step, queued, count, connected, trace)
    }

    constructor (env: Env, mode: ShutdownMode, queued: nat)
      ensures this.env == env && this.mode == mode && Now() == Watch(0, queued, 0, false, [])
    {
      this.env, this.mode, this.queued := env, mode, queued;
      step, count, connected, trace := 0, 0, false, [];
    }

    method Emit(e: Event)
      modifies this
      ensures Now() == old(Now()).Do(e)
    {
      step, trace := step + 1, trace + [e];
    }

    method Recv()
      requires queued > 0
      modifies this
      ensures Now() == old(Now()).Receive()
    {
      step, queued, count, trace := step + 1, queued - 1, count + 1, trace + [Received];
    }

    method SleepOrSignal(timer: Event) returns (signalled: bool)
      modifies this
      ensures Now() == Select(env, old(Now()), timer) && (signalled <==> count > old(count))
    {
      signalled := queued > 0 && env.signalWins(step);
      if signalled { Recv(); } else { Emit(timer); }
    }

    method ReadState() returns (s: Option<BackendState>)
      modifies this
      ensures s == env.state(old(step)) && Now() == old(Now()).Do(Read(s))
    {
      s := env.state(step);
      Emit(Read(s));
    }

    /** `handle_signal`. */
    method HandleSignal()
      modifies this
      ensures Now() == Handle(env, mode, old(Now()))
    {
      ghost var start := Now();
      var target: Option<BackendState> := None;
      var attempt: nat := 0;
      while attempt < POLL_ATTEMPTS
        invariant attempt <= POLL_ATTEMPTS && target.None?
        invariant FindTarget(env, start, 0) == FindTarget(env, Now(), attempt)
      {
        var s := ReadState();
        if s.None? { return; }
        if if count >= 2 then s.value.active else s.value.maintenanceRunning {
          target := s;
          break;
        }
        if attempt + 1 < POLL_ATTEMPTS {
          var _ := SleepOrSignal(Polled);
        }
        attempt := attempt + 1;
      }
      if target.None? { return; }
      match PlanAction(mode, count, true)
      case NoAction =>
      case TerminateAction => Emit(TerminateSent);
      case CancelAction =>
        Emit(CancelSent);
        var signalled := SleepOrSignal(GraceOver);
        if signalled {
          Emit(TerminateSent);
          return;
        }
        var s := ReadState();
        if s.Some? && s.value.active && s.value.queryStart == target.value.queryStart {
          Emit(TerminateSent);
        }
    }

    /** `run_watcher`. */
    method RunWatcher()
      modifies this
      ensures Now() == Run(env, mode, old(Now()))
    {
      ghost var start := Now();
      while queued > 0
        invariant Run(env, mode, start) == Run(env, mode, Now())
        decreases queued
      {
        ghost var before := Now();
        Recv();
        ReactQueue(env, mode, Now());
        if mode.Finish? { continue; }
        if !connected {
          var ok := env.connect(step);
          Emit(Connected(ok));
          if !ok { continue; }
          connected := true;
        }
        HandleSignal();
      }
    }
  }

  // ------------------------------------------------------------------------------ safety

  function Signals(t: seq<Event>): nat {
    if t == [] then 0 else Signals(t[..|t| - 1]) + if t[|t| - 1].Received? then 1 else 0
  }

  predicate ReadsActive(e: Event) { e.Read? && e.state.Some? && e.state.value.active }
  predicate ReadsMaintenance(e: Event) { e.Read? && e.state.Some? && e.state.value.maintenanceRunning }

  /** The trace ends with a cancel of the statement seen just before. */
  predicate EndsWithCancel(t: seq<Event>) {
    |t| >= 2 && t[|t| - 1].CancelSent? && ReadsMaintenance(t[|t| - 2])
  }

  /** A terminate on the state just read: in terminate mode, or from the second signal on. */
  predicate TerminatesAtOnce(mode: ShutdownMode, t: seq<Event>) {
    && t != [] && ReadsActive(t[|t| - 1])
    && (Signals(t) >= 2 || (mode.Terminate? && ReadsMaintenance(t[|t| - 1])))
  }

  /** A terminate after a cancel, the full grace period, and a read that still shows the same
      statement running. */
  predicate TerminatesAfterGrace(mode: ShutdownMode, t: seq<Event>) {
    && mode.Cancel? && |t| >= 4 && EndsWithCancel(t[..|t| - 2]) && t[|t| - 2].GraceOver?
    && ReadsActive(t[|t| - 1]) && t[|t| - 1].state.value.queryStart == t[|t| - 4].state.value.queryStart
  }

  /** The one terminate that re-reads nothing: a second signal during the grace period. */
  predicate TerminatesOnSecondSignal(mode: ShutdownMode, t: seq<Event>) {
    mode.Cancel? && |t| >= 3 && EndsWithCancel(t[..|t| - 1]) && t[|t| - 1].Received? && Signals(t) >= 2
  }

  /** Whether an event may follow a trace. */
  predicate Allowed(mode: ShutdownMode, t: seq<Event>, e: Event) {
    match e
    case CancelSent => mode.Cancel? && Signals(t) == 1 && t != [] && ReadsMaintenance(t[|t| - 1]) && CancelSent !in t
    case TerminateSent => TerminatesAtOnce(mode, t) || TerminatesAfterGrace(mode, t)
        || TerminatesOnSecondSignal(mode, t)
    case _ => e.Received? || !mode.Finish?
  }

  ghost predicate Safe(mode: ShutdownMode, t: seq<Event>) {
    forall i :: 0 <= i < |t| ==> Allowed(mode, t[..i], t[i])
  }

  ghost predicate Inv(mode: ShutdownMode, w: Watch) { Safe(mode, w.trace) && w.count == Signals(w.trace) }

  lemma SafeSnoc(mode: ShutdownMode, t: seq<Event>, e: Event)
    requires Safe(mode, t) && Allowed(mode, t, e)
    ensures Safe(mode, t + [e]) && Signals(t + [e]) == Signals(t) + if e.Received? then 1 else 0
  {
    var t' := t + [e];
    assert t'[..|t|] == t;
    assert forall i :: 0 <= i < |t| ==> t'[..i] == t[..i] && t'[i] == t[i];
  }

  lemma DoSafe(mode: ShutdownMode, w: Watch, e: Event)
    requires Inv(mode, w) && Allowed(mode, w.trace, e) && !e.Received?
    ensures Inv(mode, w.Do(e))
  {
    SafeSnoc(mode, w.trace, e);
  }

  /** Reads and waits are always allowed, outside finish mode. */
  lemma QuietSafe(mode: ShutdownMode, w: Watch, e: Event)
    requires Inv(mode, w) && !mode.Finish? && (e.Read? || e.Connected? || e.Polled? || e.GraceOver?)
    ensures Inv(mode, w.Do(e))
  {
    DoSafe(mode, w, e);
  }

  lemma ReceiveSafe(mode: ShutdownMode, w: Watch)
    requires Inv(mode, w) && w.queued > 0
    ensures Inv(mode, w.Receive())
  {
    SafeSnoc(mode, w.trace, Received);
  }

  lemma SelectSafe(env: Env, mode: ShutdownMode, w: Watch, timer: Event)
    requires Inv(mode, w) && !mode.Finish? && (timer.Polled? || timer.GraceOver?)
    ensures Inv(mode, Select(env, w, timer))
  {
    hide Inv;
    if w.queued > 0 {
      ReceiveSafe(mode, w);
    }
    QuietSafe(mode, w, timer);
  }

  ghost predicate SeenLast(w: Watch, s: BackendState) { w.trace != [] && w.trace[|w.trace| - 1] == Read(Some(s)) }

  lemma {:induction false} FindTargetSafe(env: Env, mode: ShutdownMode, w: Watch, attempt: nat)
    requires Inv(mode, w) && !mode.Finish? && attempt <= POLL_ATTEMPTS
    ensures var (w', f) := FindTarget(env, w, attempt);
            && Inv(mode, w') && (CancelSent in w'.trace ==> CancelSent in w.trace) && w.count <= w'.count
            && (f.Target? ==> SeenLast(w', f.state) && WorthActing(w'.count, f.state))
    decreases POLL_ATTEMPTS - attempt
  {
    hide Inv, WorthActing;
    if attempt < POLL_ATTEMPTS {
      var s := env.state(w.step);
      QuietSafe(mode, w, Read(s));
      var w' := w.Do(Read(s));
      if s.Some? && !WorthActing(w'.count, s.value) && attempt + 1 < POLL_ATTEMPTS {
        SelectSafe(env, mode, w', Polled);
        FindTargetSafe(env, mode, Select(env, w', Polled), attempt + 1);
      }
    }
  }

  lemma EscalateSafe(env: Env, w: Watch, target: BackendState)
    requires Inv(Cancel, w) && w.count == 1 && CancelSent !in w.trace
    requires SeenLast(w, target) && target.maintenanceRunning
    ensures Inv(Cancel, Escalate(env, w, target))
  {
    hide Safe, Signals;
    DoSafe(Cancel, w, CancelSent);
    var c := w.Do(CancelSent);
    assert EndsWithCancel(c.trace);
    SelectSafe(env, Cancel, c, GraceOver);
    if c.queued > 0 && env.signalWins(c.step) {
      var r := c.Receive();
      assert r.trace[..|r.trace| - 1] == c.trace;
      DoSafe(Cancel, r, TerminateSent);
    } else {
      var g := c.Do(GraceOver);
      var s := env.state(g.step);
      QuietSafe(Cancel, g, Read(s));
      var again := g.Do(Read(s));
      if s.Some? && s.value.active && s.value.queryStart == target.queryStart {
        assert again.trace == c.trace + [GraceOver, Read(s)];
        assert again.trace[..|again.trace| - 2] == c.trace;
        DoSafe(Cancel, again, TerminateSent);
      }
    }
  }

  lemma HandleSafe(env: Env, mode: ShutdownMode, w: Watch)
    requires Inv(mode, w) && !mode.Finish? && w.count >= 1 && (w.count == 1 ==> CancelSent !in w.trace)
    ensures Inv(mode, Handle(env, mode, w))
  {
    FindTargetSafe(env, mode, w, 0);
    var (w', f) := FindTarget(env, w, 0);
    if f.Target? {
      if PlanAction(mode, w'.count, true).TerminateAction? {
        DoSafe(mode, w', TerminateSent);
      } else {
        EscalateSafe(env, w', f.state);
      }
    }
  }

  lemma ReactSafe(env: Env, mode: ShutdownMode, w: Watch)
    requires Inv(mode, w) && w.count >= 1 && (w.count == 1 ==> CancelSent !in w.trace)
    ensures Inv(mode, React(env, mode, w))
  {
    hide Handle, Inv;
    if !mode.Finish? {
      if w.connected {
        HandleSafe(env, mode, w);
      } else {
        var e := Connected(env.connect(w.step));
        QuietSafe(mode, w, e);
        if env.connect(w.step) {
          HandleSafe(env, mode, w.Do(e).(connected := true));
        }
      }
    }
  }

  /** For every tape, mode and number of signals: cancel and terminate are sent only where
      `Allowed` justifies them, and the counter is the number of signals received. */
  lemma {:induction false} RunSafe(env: Env, mode: ShutdownMode, w: Watch)
    requires Inv(mode, w) && (w.count == 0 ==> CancelSent !in w.trace)
    ensures Inv(mode, Run(env, mode, w)) && Run(env, mode, w).queued == 0
    decreases w.queued
  {
    hide React, Inv;
    if w.queued > 0 {
      var r := w.Receive();
      ReceiveSafe(mode, w);
      ReactQueue(env, mode, r);
      ReactSafe(env, mode, r);
      RunSafe(env, mode, React(env, mode, r));
    }
  }

  /** Every signal sent is received and counted. */
  lemma RunCounts(env: Env, mode: ShutdownMode, queued: nat)
    ensures Run(env, mode, Watch(0, queued, 0, false, [])).count == queued
  {
    RunConserves(env, mode, Watch(0, queued, 0, false, []));
  }

  lemma {:induction false} RunConserves(env: Env, mode: ShutdownMode, w: Watch)
    ensures Run(env, mode, w).count == w.count + w.queued
    decreases w.queued
  {
    if w.queued > 0 {
      ReactQueue(env, mode, w.Receive());
      RunConserves(env, mode, React(env, mode, w.Receive()));
    }
  }

  /** What a safe trace means: one cancel at most, and in finish mode nothing but signals. */
  lemma SafeTrace(mode: ShutdownMode, t: seq<Event>)
    requires Safe(mode, t)
    ensures forall i, j :: 0 <= i < j < |t| && t[i].CancelSent? ==> !t[j].CancelSent?
    ensures mode.Finish? ==> TerminateSent !in t && CancelSent !in t && forall i :: 0 <= i < |t| ==> t[i].Received?
  {
    forall i, j | 0 <= i < j < |t| && t[i].CancelSent? ensures !t[j].CancelSent? {
      assert Allowed(mode, t[..j], t[j]) && t[..j][i].CancelSent?;
    }
    if mode.Finish? {
      FinishOnlyReceives(t, |t|);
    }
  }

  lemma {:induction false} FinishOnlyReceives(t: seq<Event>, n: nat)
    requires Safe(Finish, t) && n <= |t|
    ensures forall i :: 0 <= i < n ==> t[i].Received?
  {
    if n > 0 {
      FinishOnlyReceives(t, n - 1);
      assert Allowed(Finish, t[..n - 1], t[n - 1]);
      assert forall i :: 0 <= i < n - 1 ==> t[..n - 1][i] == t[i];
    }
  }

  /** A session in which no read shows an active statement is left alone. */
  lemma IdleLeftAlone(mode: ShutdownMode, t: seq<Event>)
    requires Safe(mode, t) && forall i :: 0 <= i < |t| ==> !ReadsActive(t[i])
    ensures CancelSent !in t && TerminateSent !in t
  {
    forall i | 0 <= i < |t| ensures !t[i].CancelSent? && !t[i].TerminateSent? {
      assert Allowed(mode, t[..i], t[i]);
      assert forall k :: 0 <= k < i ==> t[..i][k] == t[k];
      assert i >= 2 ==> t[..i][..i - 1] == t[..i - 1] && t[..i][..i - 2] == t[..i - 2];
      assert forall k :: 0 <= k < i - 1 ==> t[..i - 1][k] == t[k];
      assert forall k :: 0 <= k < i - 2 ==> t[..i - 2][k] == t[k];
    }
  }

  // -------------------------------------------------------------------- bounded response

  datatype Cost = Cost(samples: nat, polls: nat, cancels: nat, graces: nat, terminates: nat) {
    function Plus(c: Cost): Cost {
      Cost(samples + c.samples, polls + c.polls, cancels + c.cancels, graces + c.graces, terminates + c.terminates)
    }
    predicate AtMost(c: Cost) {
      samples <= c.samples && polls <= c.polls && cancels <= c.cancels && graces <= c.graces
          && terminates <= c.terminates
    }
  }

  const FREE := Cost(0, 0, 0, 0, 0)

  function CostOf(e: Event): Cost {
    match e
    case Read(_) => FREE.(samples := 1)
    case Polled => FREE.(polls := 1)
    case CancelSent => FREE.(cancels := 1)
    case GraceOver => FREE.(graces := 1)
    case TerminateSent => FREE.(terminates := 1)
    case _ => FREE
  }

  function Total(t: seq<Event>): Cost {
    if t == [] then FREE else Total(t[..|t| - 1]).Plus(CostOf(t[|t| - 1]))
  }

  lemma TotalSnoc(t: seq<Event>, e: Event)
    ensures Total(t + [e]) == Total(t).Plus(CostOf(e))
  {
    assert (t + [e])[..|t|] == t;
  }

  lemma {:induction false} FindTargetCost(env: Env, w: Watch, attempt: nat)
    requires attempt < POLL_ATTEMPTS
    ensures Total(FindTarget(env, w, attempt).0.trace).AtMost(
              Total(w.trace).Plus(FREE.(samples := POLL_ATTEMPTS - attempt, polls := POLL_ATTEMPTS - 1 - attempt)))
    decreases POLL_ATTEMPTS - attempt
  {
    hide Total, WorthActing;
    var s := env.state(w.step);
    TotalSnoc(w.trace, Read(s));
    if attempt + 1 < POLL_ATTEMPTS {
      var w' := w.Do(Read(s));
      TotalSnoc(w'.trace, Polled);
      TotalSnoc(w'.trace, Received);
      FindTargetCost(env, Select(env, w', Polled), attempt + 1);
    }
  }

  lemma EscalateCost(env: Env, w: Watch, target: BackendState)
    ensures Total(Escalate(env, w, target).trace).AtMost(Total(w.trace).Plus(Cost(1, 0, 1, 1, 1)))
  {
    hide Total;
    TotalSnoc(w.trace, CancelSent);
    var c := w.Do(CancelSent);
    TotalSnoc(c.trace, Received);
    TotalSnoc(c.trace, GraceOver);
    var waited := Select(env, c, GraceOver);
    var again := waited.Do(Read(env.state(waited.step)));
    TotalSnoc(waited.trace, TerminateSent);
    TotalSnoc(waited.trace, Read(env.state(waited.step)));
    TotalSnoc(again.trace, TerminateSent);
  }

  /** Handling one signal takes at most nine reads, seven polls, one cancel, one grace period
      and one terminate, and then it is over. */
  lemma HandleBounded(env: Env, mode: ShutdownMode, w: Watch)
    ensures Total(Handle(env, mode, w).trace).AtMost(Total(w.trace).Plus(Cost(9, 7, 1, 1, 1)))
  {
    hide Total, FindTarget, Escalate;
    FindTargetCost(env, w, 0);
    var (w', f) := FindTarget(env, w, 0);
    TotalSnoc(w'.trace, TerminateSent);
    if f.Target? {
      EscalateCost(env, w', f.state);
    }
  }

  /** A maintenance statement that stays active under one start time from some step on. */
  ghost predicate StaysActive(env: Env, from: nat, queryStart: Option<int>) {
    forall n: nat :: n >= from ==> env.state(n) == Some(BackendRow(true, true, queryStart))
  }

  /** The first signal in cancel or terminate mode ends in a terminate of such a statement,
      after at most two reads, no poll and at most one grace period. */
  lemma FirstSignalTerminates(env: Env, mode: ShutdownMode, queued: nat, queryStart: Option<int>)
    requires !mode.Finish? && queued > 0 && env.connect(1) && StaysActive(env, 2, queryStart)
    ensures var t := React(env, mode, Watch(0, queued, 0, false, []).Receive()).trace;
            t != [] && t[|t| - 1] == TerminateSent && Total(t).AtMost(Cost(2, 0, 1, 1, 1))
  {
    hide Total, Handle, StaysActive;
    var r := Watch(0, queued, 0, false, []).Receive();
    var c := r.Do(Connected(true)).(connected := true);
    ReactConnects(env, mode, r);
    ConnectingIsFree(c.trace);
    StaysActiveHandled(env, mode, c, queryStart);
  }

  lemma ReactConnects(env: Env, mode: ShutdownMode, w: Watch)
    requires !mode.Finish? && !w.connected && env.connect(w.step)
    ensures React(env, mode, w) == Handle(env, mode, w.Do(Connected(true)).(connected := true))
  {
    hide Handle;
  }

  /** Receiving a signal and connecting take nothing off the budget. */
  lemma {:induction false} ConnectingIsFree(t: seq<Event>)
    requires |t| == 2 && t[0].Received? && t[1].Connected?
    ensures Total(t) == FREE
  {
    hide Total, CostOf, Cost.Plus;
    TotalLast(t);
    TotalLast(t[..1]);
    CostsNothing(t[0], Total(t[..1][..0]));
    CostsNothing(t[1], Total(t[..1]));
    NothingIsFree(t[..1][..0]);
  }

  lemma CostsNothing(e: Event, c: Cost)
    requires e.Received? || e.Connected?
    ensures c.Plus(CostOf(e)) == c
  {
  }

  lemma TotalLast(t: seq<Event>)
    requires t != []
    ensures Total(t) == Total(t[..|t| - 1]).Plus(CostOf(t[|t| - 1]))
  {
  }

  lemma NothingIsFree(t: seq<Event>)
    requires |t| == 0
    ensures Total(t) == FREE
  {
  }

  lemma StaysActiveHandled(env: Env, mode: ShutdownMode, w: Watch, queryStart: Option<int>)
    requires !mode.Finish? && w.count == 1 && StaysActive(env, w.step, queryStart)
    ensures var t := Handle(env, mode, w).trace;
            t != [] && t[|t| - 1] == TerminateSent && Total(t).AtMost(Total(w.trace).Plus(Cost(2, 0, 1, 1, 1)))
  {
    hide Total;
    var s := env.state(w.step);
    var w' := w.Do(Read(s));
    assert FindTarget(env, w, 0) == (w', Target(s.value));
    TotalSnoc(w.trace, Read(s));
    TotalSnoc(w'.trace, TerminateSent);
    EscalateCost(env, w', s.value);
  }

  /** From the second signal on the first read that shows anything active is followed by a
      terminate, with no grace. */
  lemma SecondSignalActsAtOnce(env: Env, mode: ShutdownMode, w: Watch)
    requires !mode.Finish? && w.count >= 2 && env.state(w.step).Some? && env.state(w.step).value.active
    ensures Handle(env, mode, w).trace == w.trace + [Read(env.state(w.step)), TerminateSent]
  {
    var s := env.state(w.step);
    assert FindTarget(env, w, 0) == (w.Do(Read(s)), Target(s.value));
    assert w.trace + [Read(s)] + [TerminateSent] == w.trace + [Read(s), TerminateSent];
  }

  /** The j-th read happens 2 * j steps after the first, whether a signal or the timer ends the
      wait between two reads; the k-th is the first to show maintenance. */
  ghost predicate StartsAtPoll(env: Env, from: nat, k: nat) {
    && (forall j: nat :: j < k ==> env.state(from + 2 * j).Some? && !env.state(from + 2 * j).value.maintenanceRunning)
    && env.state(from + 2 * k).Some? && env.state(from + 2 * k).value.maintenanceRunning
  }

  /** A statement that starts during any of the eight polls is found, even if the signal lands
      between two statements, unless a further signal widened the search to an earlier read. */
  lemma {:induction false} PollingFinds(env: Env, w: Watch, attempt: nat, k: nat)
    requires attempt + k < POLL_ATTEMPTS && StartsAtPoll(env, w.step, k)
    ensures exists j: nat :: j <= k && FoundAt(env, w, attempt, j) && (w.queued == 0 && w.count <= 1 ==> j == k)
    decreases k
  {
    hide FindTarget, WorthActing, StartsAtPoll;
    if SearchEnds(env, w) {
      FoundNow(env, w, attempt, k);
    } else {
      PollGoesOn(env, w, attempt, k);
      var w' := Select(env, w.Do(Read(env.state(w.step))), Polled);
      PollingFinds(env, w', attempt + 1, k - 1);
      var j: nat :| j <= k - 1 && FoundAt(env, w', attempt + 1, j) && (w'.queued == 0 && w'.count <= 1 ==> j == k - 1);
      assert w'.step + 2 * j == w.step + 2 * (j + 1);
      assert FoundAt(env, w, attempt, j + 1);
    }
  }

  predicate SearchEnds(env: Env, w: Watch) { env.state(w.step).Some? && WorthActing(w.count, env.state(w.step).value) }

  lemma FoundNow(env: Env, w: Watch, attempt: nat, k: nat)
    requires attempt < POLL_ATTEMPTS && StartsAtPoll(env, w.step, k) && SearchEnds(env, w)
    ensures FoundAt(env, w, attempt, 0) && (w.count <= 1 ==> k == 0)
  {
    assert w.step + 2 * 0 == w.step;
  }

  lemma PollGoesOn(env: Env, w: Watch, attempt: nat, k: nat)
    requires attempt + k < POLL_ATTEMPTS && StartsAtPoll(env, w.step, k) && !SearchEnds(env, w)
    ensures k > 0 && StartsAtPoll(env, w.step + 2, k - 1)
    ensures FindTarget(env, w, attempt)
        == FindTarget(env, Select(env, w.Do(Read(env.state(w.step))), Polled), attempt + 1)
  {
    assert w.step + 2 * 0 == w.step;
    forall j: nat | j < k - 1
      ensures env.state(w.step + 2 + 2 * j).Some? && !env.state(w.step + 2 + 2 * j).value.maintenanceRunning
    {
      assert w.step + 2 + 2 * j == w.step + 2 * (j + 1);
    }
    assert w.step + 2 + 2 * (k - 1) == w.step + 2 * k;
  }

  /** The search ends with the state of its j-th read from here on. */
  predicate FoundAt(env: Env, w: Watch, attempt: nat, j: nat)
    requires attempt <= POLL_ATTEMPTS
  {
    env.state(w.step + 2 * j).Some? && FindTarget(env, w, attempt).1 == Target(env.state(w.step + 2 * j).value)
  }
}
