/** The environment of a maintenance run: the server, the clock and the signal handlers, as a
    tape of answers indexed by step, and the session that reads it. A statement about every
    tape is a statement about every behaviour of the server and every arrival of a signal. */
module World {
  import opened Text
  import opened Merge

  // ------------------------------------------------------------- errors (src/db_error.rs)

  /** SQLSTATEs the code tells apart; `ConnectionException` is all of class 08. */
  datatype SqlState =
    | ConnectionException                                                    // 08xxx
    | AdminShutdown | CrashShutdown | CannotConnectNow | IdleSessionTimeout // 57P01, 57P02, 57P03, 57P05
    | QueryCanceled | LockNotAvailable | OtherState                          // 57014, 55P03, the rest

  /** A `tokio_postgres::Error`: the client is closed, the server reported an error, or the
      transport failed (with or without an I/O source that means a dead socket). */
  datatype PgError = Closed | Db(code: SqlState) | Transport(deadSocket: bool)

  predicate SqlstateIsConnectionLoss(c: SqlState) {
    c.ConnectionException? || c.AdminShutdown? || c.CrashShutdown? || c.CannotConnectNow? || c.IdleSessionTimeout?
  }

  predicate IsConnectionLost(e: PgError) {
    match e
    case Closed => true
    case Db(code) => SqlstateIsConnectionLoss(code)
    case Transport(dead) => dead
  }

  predicate IsLockTimeout(e: PgError) { e == Db(LockNotAvailable) }

  /** Which errors mean a lost connection: a closed client, a dead socket, class 08, and the four
      states with which a server ends a session. */
  lemma ErrorClasses(e: PgError)
    ensures IsConnectionLost(e) <==>
              e in {Closed, Transport(true), Db(ConnectionException), Db(AdminShutdown), Db(CrashShutdown),
                    Db(CannotConnectNow), Db(IdleSessionTimeout)}
    ensures IsLockTimeout(e) <==> e == Db(LockNotAvailable)
  {
  }

  datatype OpErrorKind = LockTimeout | LostConnection | ShutdownInterrupted | OtherFailure

  /** `classify_op_error`. */
  function ClassifyOpError(e: PgError, shutdownRequested: bool): OpErrorKind {
    var lost := IsConnectionLost(e);
    if shutdownRequested && (lost || e == Db(QueryCanceled)) then ShutdownInterrupted
    else if lost then LostConnection
    else if IsLockTimeout(e) then LockTimeout
    else OtherFailure
  }

  /** The error a run ends with: the typed connection loss, a server error with its type
      intact in the chain, or a message only. */
  datatype RunError = ConnectionLost | Server(cause: PgError) | Message

  // --------------------------------------------------------------------------- the tape

  datatype Phase =
    | NeverVacuumed | NeverAnalyzed | Wraparound | Bloat | NeedsVacuum | VacuumOverdue | AnalyzeOverdue | AlsoTables

  datatype LagObservation = NoReplicas | Unobservable | Observed(lags: seq<Option<real>>)

  datatype Backend = Backend(pid: int, autovacuum: bool)

  datatype LogStatus = Success | Failure | Cancelled

  datatype Event =
    | Found(phase: Phase, tables: seq<Name>)             // candidates matched by a phase
    | ClientClosed                                       // the client is found closed before a table
    | Begin(phase: Phase, table: Name)                   // a table is taken up for maintenance
    | Statement(phase: Phase, table: Name, at: nat)      // VACUUM or ANALYZE sent, at a step
    | Called(outcome: Option<PgError>)                   // one call of the retried operation
    | RetrySleep(ms: nat)                                // back-off before the next call
    | LagSleep(ns: nat)                                  // wait inside the lag gate
    | KilledBackend(pid: int)                            // pg_terminate_backend on a conflicting vacuum
    | Logbook(phase: Phase, table: Name, status: LogStatus)

  datatype Env = Env(
    published: nat -> nat,                              // values sent into the shutdown watch channel so far
    marked: nat -> bool,                                // the process-wide shutdown flag
    closed: nat -> bool,                                // client.is_closed()
    answer: nat -> Option<PgError>,                     // outcome of a statement or single-row query
    lag: nat -> Result<LagObservation, PgError>,
    sessions: nat -> Result<seq<Backend>, PgError>,
    candidates: nat -> Result<seq<Name>, PgError>,
    classic: nat -> Result<seq<Candidate>, PgError>,
    extra: nat -> Result<seq<Candidate>, PgError>,
    took: nat -> nat,                                   // nanoseconds that a step takes
    wakes: nat -> bool)                                 // whether a signal during a wait beats the timer
  {
    /** A signal handler sets the process flag first, then sends; neither is undone. */
    ghost predicate Valid() {
      && (forall m: nat, n: nat :: m <= n ==> published(m) <= published(n))
      && (forall m: nat, n: nat :: m <= n && marked(m) ==> marked(n))
      && (forall n: nat :: published(n) > 0 ==> marked(n))
    }
  }

  const SECOND: nat := 1_000_000_000
  const MILLISECOND: nat := 1_000_000
  const U64: nat := 0x1_0000_0000_0000_0000

  /** The main session: its position on the tape, the channel version it has seen, the clock,
      and what it has done. */
  datatype World = World(step: nat, seen: nat, clock: nat, trace: seq<Event>) {
    function Next(env: Env): World { this.(step := step + 1, clock := clock + env.took(step)) }

    function Emit(e: Event): World { this.(trace := trace + [e]) }

    /** `*shutdown_rx.borrow()`. */
    predicate Flag(env: Env) { env.published(step) > 0 }

    /** Whether `shutdown_rx.changed()` ends a wait: a version not yet seen is already there,
        or one arrives during the wait and beats the timer. */
    predicate Interrupted(env: Env, duration: nat) {
      || (env.published(step) > seen && (duration > 0 || env.wakes(step)))
      || (env.published(step + 1) > seen && env.wakes(step))
    }

    /** The select over a timer and the channel; `changed()` marks the version as seen. */
    function Wait(env: Env, duration: nat): World {
      if Interrupted(env, duration) then
        this.(step := step + 1, clock := clock + env.took(step), seen := env.published(step + 1))
      else this.(step := step + 1, clock := clock + duration + env.took(step))
    }
  }

  /** A wait is cut short only by news: then both shutdown flags are set, the news counts as
      seen, and the same signal cannot cut another wait short, however many follow. A wait that
      is not cut short lasts its full time, and cannot follow news it had not seen. */
  lemma WaitEndsOnNews(env: Env, w: World, duration: nat)
    requires env.Valid()
    ensures var w' := w.Wait(env, duration);
            if w.Interrupted(env, duration) then
              && w'.Flag(env) && env.marked(w'.step) && w.seen < w'.seen
              && forall later: nat, d: nat :: w'.step <= later && env.published(later + 1) == w'.seen ==>
                   !w'.(step := later).Interrupted(env, d)
            else
              w'.clock >= w.clock + duration && (duration > 0 ==> env.published(w.step) <= w.seen)
  {
    var w' := w.Wait(env, duration);
    forall later: nat, d: nat | w'.step <= later && env.published(later + 1) == w'.seen
      ensures !w'.(step := later).Interrupted(env, d)
    {
      assert env.published(later) <= env.published(later + 1);
    }
  }

  /** The session object the runners share. */
  class Session {
    const env: Env
    var step: nat
    var seen: nat
    var clock: nat
    var trace: seq<Event>

    constructor (env: Env)
      ensures this.env == env && Now() == World(0, 0, 0, [])
    {
      this.env := env;
      step, seen, clock, trace := 0, 0, 0, [];
    }

    function Now(): World
      reads this
    {
      World(step, seen, clock, trace)
    }

    method Emit(e: Event)
      modifies this
      ensures Now() == old(Now()).Emit(e)
    {
      trace := trace + [e];
    }

    method Advance()
      modifies this
      ensures Now() == old(Now()).Next(env)
    {
      step, clock := step + 1, clock + env.took(step);
    }

    method IsClosed() returns (closed: bool)
      modifies this
      ensures closed == env.closed(old(step)) && Now() == old(Now()).Next(env)
    {
      closed := env.closed(step);
      Advance();
    }

    method ShutdownRequested() returns (flag: bool)
      modifies this
      ensures flag == old(Now()).Flag(env) && Now() == old(Now()).Next(env)
    {
      flag := env.published(step) > 0;
      Advance();
    }

    /** Runs a query or statement of which only success or failure matters. */
    method Execute() returns (failure: Option<PgError>)
      modifies this
      ensures failure == env.answer(old(step)) && Now() == old(Now()).Next(env)
    {
      failure := env.answer(step);
      Advance();
    }

    method Sleep(duration: nat) returns (interrupted: bool)
      modifies this
      ensures interrupted == old(Now()).Interrupted(env, duration) && Now() == old(Now()).Wait(env, duration)
    {
      interrupted := || (env.published(step) > seen && (duration > 0 || env.wakes(step)))
                     || (env.published(step + 1) > seen && env.wakes(step));
      if interrupted {
        step, clock, seen := step + 1, clock + env.took(step), env.published(step + 1);
      } else {
        step, clock := step + 1, clock + duration + env.took(step);
      }
    }
  }
}
