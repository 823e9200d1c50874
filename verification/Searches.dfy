/** The searches of a run: which phases search, in which order, what they find, and what becomes
    of a search that fails. */
module Searches {
  import opened Text
  import opened Merge
  import opened World
  import opened LagGate
  import opened Retry
  import opened Runner
  import opened RunnerLaws
  import opened Run
  import opened RunLaws

  // -------------------------------------------------------------------- what a search finds

  /** The entry with which a list first mentions its table. */
  ghost predicate FirstOf(cs: seq<Candidate>, c: Candidate) {
    exists i :: 0 <= i < |cs| && cs[i] == c && forall j :: 0 <= j < i ==> cs[j].name != c.name
  }

  lemma {:induction false} UniqueFirst(cs: seq<Candidate>)
    ensures forall c :: c in Unique(cs) <==> FirstOf(cs, c)
  {
    if cs != [] {
      var front, last := cs[..|cs| - 1], cs[|cs| - 1];
      assert cs == front + [last];
      UniqueFirst(front);
      forall c ensures FirstOf(cs, c) <==> FirstOf(front, c) || (c == last && last.name !in Names(front)) {
        FirstOfSnoc(front, last, c);
      }
    }
  }

  lemma FirstOfSnoc(front: seq<Candidate>, last: Candidate, c: Candidate)
    ensures FirstOf(front + [last], c) <==> FirstOf(front, c) || (c == last && last.name !in Names(front))
  {
    var cs := front + [last];
    assert forall i :: 0 <= i < |front| ==> cs[i] == front[i];
    if FirstOf(front, c) {
      var i :| 0 <= i < |front| && front[i] == c && forall j :: 0 <= j < i ==> front[j].name != c.name;
      assert cs[i] == c;
    }
    if c == last && last.name !in Names(front) {
      assert cs[|front|] == c;
      assert forall j :: 0 <= j < |front| ==> front[j].name in Names(front);
    }
    if FirstOf(cs, c) {
      var i :| 0 <= i < |cs| && cs[i] == c && forall j :: 0 <= j < i ==> cs[j].name != c.name;
      if i < |front| {
        assert front[i] == c;
      }
    }
  }

  lemma {:induction false} NamesSize(cs: seq<Candidate>)
    requires Distinct(cs)
    ensures |Names(cs)| == |cs|
  {
    if cs == [] {
      assert Names(cs) == {};
    } else {
      var front, last := cs[..|cs| - 1], cs[|cs| - 1];
      assert cs == front + [last];
      NamesSize(front);
      NamesSnoc(front, last);
      assert last.name !in Names(front) by {
        forall i | 0 <= i < |front| ensures front[i].name != last.name { assert cs[i].name != cs[|cs| - 1].name; }
      }
    }
  }

  /** The choice of the needs-vacuum phase from its two lists: one entry a table, the first that the
      lists hold, classic list before second list; in the order asked for; as many as there are
      tables, or as the limit allows; and none left out that would have come before one kept. */
  ghost predicate Chosen(list: seq<Candidate>, classic: seq<Candidate>, extra: seq<Candidate>, order: OrderBy,
        limit: int) {
    var all := classic + extra;
    && Distinct(list) && (forall c :: c in list ==> FirstOf(all, c))
    && (forall i, j :: 0 <= i < j < |list| ==> Precedes(order, list[i], list[j]))
    && |list| == (if 0 <= limit < |Names(all)| then limit else |Names(all)|)
    && forall c, d :: c in list && FirstOf(all, d) && d !in list ==> Precedes(order, c, d)
  }

  lemma MergedIsChosen(classic: seq<Candidate>, extra: seq<Candidate>, order: OrderBy, limit: int)
    ensures Chosen(Merged(classic, extra, order, limit), classic, extra, order, limit)
  {
    hide StableSort, FirstOf, Precedes, Distinct, Names;
    var sorted := StableSort(order, Unique(classic + extra));
    MergeCorrect(classic, extra, order, limit);
    SortedFirsts(order, classic + extra);
    CutOffLast(order, sorted, Merged(classic, extra, order, limit));
  }

  /** Sorted are the first entries of all tables, each once. */
  lemma SortedFirsts(order: OrderBy, cs: seq<Candidate>)
    ensures var sorted := StableSort(order, Unique(cs));
            && (forall c :: c in sorted <==> FirstOf(cs, c)) && |sorted| == |Names(cs)|
            && forall i, j :: 0 <= i < j < |sorted| ==> Precedes(order, sorted[i], sorted[j])
  {
    hide StableSort, Unique, FirstOf, Precedes;
    var all := Unique(cs);
    var sorted := StableSort(order, all);
    UniqueNames(cs);
    UniqueFirst(cs);
    NamesSize(all);
    SortSorts(order, all);
    SortedMeans(order, sorted);
    forall c ensures c in sorted <==> c in all {
      assert c in sorted <==> c in multiset(sorted);
      assert c in all <==> c in multiset(all);
    }
  }

  lemma CutOffLast(order: OrderBy, sorted: seq<Candidate>, front: seq<Candidate>)
    requires front <= sorted && forall i, j :: 0 <= i < j < |sorted| ==> Precedes(order, sorted[i], sorted[j])
    ensures forall c, d :: c in front && d in sorted && d !in front ==> Precedes(order, c, d)
  {
    hide Precedes;
    forall c, d | c in front && d in sorted && d !in front ensures Precedes(order, c, d) {
      var i :| 0 <= i < |front| && front[i] == c;
      var j :| 0 <= j < |sorted| && sorted[j] == d;
      assert j >= |front| && sorted[i] == c;
    }
  }

  /** Where the candidates of a phase come from, and which failures end the search: explicit tables
      from the command line, needs-vacuum from its two lists with the second one optional, every
      other phase from its one query. */
  lemma DiscoverExactly(env: Env, cfg: Config, p: Phase, w: World)
    ensures var (found, w') := Discover(env, cfg, p, w); var s := w.step;
            if p.AlsoTables? then found == Ok(cfg.alsoTables) && w' == w
            else if !p.NeedsVacuum? then found == env.candidates(s) && w'.step == s + 1
            else
              match env.classic(s + 1)
              case Err(e) => found == Err(e)
              case Ok(classic) =>
                var extra := match env.extra(s + 4) case Ok(cs) => cs case Err(_) => [];
                found.Ok? && exists list ::
                  Chosen(list, classic, extra, cfg.order, cfg.limit) && found.value == NamesOf(list)
  {
    hide Merged, Chosen;
    if p.NeedsVacuum? && env.classic(w.step + 1).Ok? {
      var extra := match env.extra(w.step + 4) case Ok(cs) => cs case Err(_) => [];
      MergedIsChosen(env.classic(w.step + 1).value, extra, cfg.order, cfg.limit);
    }
  }

  // ------------------------------------------------------------- which phases search, and when

  /** The phases in the order in which a run goes through them. */
  const ORDER: seq<Phase> := [NeverVacuumed, NeverAnalyzed, Wraparound, Bloat, NeedsVacuum, VacuumOverdue,
      AnalyzeOverdue, AlsoTables]

  lemma NumbersAreOrder(p: Phase)
    ensures ORDER[Number(p) - 1] == p
  {
  }

  /** Asked for on the command line: by --mode, or by a list of explicit tables. */
  predicate AskedFor(cfg: Config, p: Phase) { if p == AlsoTables then |cfg.alsoTables| > 0 else p in cfg.modes }

  ghost predicate Searched(t: seq<Event>, p: Phase) { exists k :: 0 <= k < |t| && t[k].Found? && t[k].phase == p }

  /** Every phase searches at most once, only if asked for, and in the order of the phases. */
  ghost predicate InOrder(cfg: Config, t: seq<Event>) {
    && (forall k :: 0 <= k < |t| && t[k].Found? ==> AskedFor(cfg, t[k].phase))
    && forall i, j :: 0 <= i < j < |t| && t[i].Found? && t[j].Found? ==>
         exists a, b :: 0 <= a < b < 8 && ORDER[a] == t[i].phase && ORDER[b] == t[j].phase
  }

  /** No phase from the n-th on has searched. */
  ghost predicate Before(t: seq<Event>, n: nat) { forall k :: 0 <= k < |t| && t[k].Found? ==> Number(t[k].phase) < n }

  lemma PhaseSearches(env: Env, cfg: Config, p: Phase, rs: RunState)
    ensures var (e, rs') := RunPhase(env, cfg, p, rs); var a, b := rs.world.trace, rs'.world.trace;
            && a <= b && rs.world.step <= rs'.world.step
            && (forall k :: |a| <= k < |b| && b[k].Found? ==> k == |a| && b[k].phase == p && AskedFor(cfg, p))
            && (e.None? && AskedFor(cfg, p) && !rs.world.Flag(env) ==> Searched(b, p))
            && (!AskedFor(cfg, p) ==> rs' == rs && e.None?)
  {
    hide RunTables, Discover, Already, Remember, World.Flag;
    var checked := rs.world.Next(env);
    if Selected(cfg, p) && !rs.world.Flag(env) {
      DiscoverQuiet(env, cfg, p, checked);
      var (found, w) := Discover(env, cfg, p, checked);
      if found.Ok? {
        var m := w.Emit(Found(p, found.value));
        var st := State(m, rs.gate, Summary(|found.value|, 0, 0, 0));
        TablesFindNothing(env, cfg.policy, p, Already(p, rs), found.value, 0, st);
        RememberKeepsWorld(p, found.value, rs);
        var b := RunTables(env, cfg.policy, p, Already(p, rs), found.value, 0, st).1.world.trace;
        assert b[|w.trace|] == m.trace[|w.trace|] == Found(p, found.value);
      }
    }
  }

  lemma OrderStep(cfg: Config, a: seq<Event>, b: seq<Event>, n: nat)
    requires 1 <= n <= 8 && a <= b && InOrder(cfg, a) && Before(a, n)
    requires forall k :: |a| <= k < |b| && b[k].Found? ==>
        k == |a| && b[k].phase == PhaseAt(n) && AskedFor(cfg, PhaseAt(n))
    ensures InOrder(cfg, b) && Before(b, n + 1)
  {
    hide Number, AskedFor;
    assert forall k :: 0 <= k < |a| ==> b[k] == a[k];
    forall i, j | 0 <= i < j < |b| && b[i].Found? && b[j].Found?
      ensures exists x, y :: 0 <= x < y < 8 && ORDER[x] == b[i].phase && ORDER[y] == b[j].phase
    {
      if j >= |a| {
        NumbersAreOrder(b[i].phase);
        NumbersAreOrder(b[j].phase);
        assert Number(b[i].phase) < n == Number(b[j].phase);
        assert ORDER[Number(b[i].phase) - 1] == b[i].phase && ORDER[n - 1] == b[j].phase;
      }
    }
  }

  lemma {:induction false} RunFromSearches(env: Env, cfg: Config, n: nat, rs: RunState)
    requires env.Valid() && 1 <= n <= 9 && InOrder(cfg, rs.world.trace) && Before(rs.world.trace, n)
    ensures var (e, rs') := RunFrom(env, cfg, n, rs); var t := rs'.world.trace;
            && rs.world.trace <= t && rs.world.step <= rs'.world.step && InOrder(cfg, t)
            && (e.None? && !rs'.world.Flag(env) ==> forall p :: Number(p) >= n && AskedFor(cfg, p) ==> Searched(t, p))
    decreases 9 - n
  {
    hide RunPhase, AskedFor, InOrder, Before, Searched;
    if n < 9 {
      var p := PhaseAt(n);
      PhaseSearches(env, cfg, p, rs);
      var (e, rs1) := RunPhase(env, cfg, p, rs);
      OrderStep(cfg, rs.world.trace, rs1.world.trace, n);
      if e.None? {
        RunFromSearches(env, cfg, n + 1, rs1);
        SearchedStays(rs1.world.trace, RunFrom(env, cfg, n + 1, rs1).1.world.trace, p);
        NumbersApart(p, n);
      }
    }
  }

  lemma SearchedStays(a: seq<Event>, b: seq<Event>, p: Phase)
    requires a <= b
    ensures Searched(a, p) ==> Searched(b, p)
  {
  }

  lemma NumbersApart(p: Phase, n: nat)
    requires Number(p) == n
    ensures forall q :: Number(q) >= n ==> q == p || Number(q) >= n + 1
  {
  }

  /** In every run each phase searches at most once, only if it was asked for, and in the fixed
      order; and a run that exits with 0 has searched in every phase that was asked for. */
  lemma ZeroMeansSearched(env: Env, cfg: Config, w: World, gate: Gate)
    requires env.Valid() && w.trace == []
    ensures var (code, rs) := Main(env, cfg, w, gate);
            InOrder(cfg, rs.world.trace) && (code == 0 ==> forall p :: AskedFor(cfg, p) ==> Searched(rs.world.trace, p))
  {
    hide RunFrom, AskedFor, Searched;
    RunFromSearches(env, cfg, 1, Start(w, gate));
  }

  /** Once a shutdown is visible between two phases, the run does nothing more. */
  lemma {:induction false} NothingAfterShutdown(env: Env, cfg: Config, n: nat, rs: RunState)
    requires env.Valid() && 1 <= n <= 9 && rs.world.Flag(env)
    ensures var (e, rs') := RunFrom(env, cfg, n, rs);
            e.None? && rs'.world.trace == rs.world.trace && rs'.failed == rs.failed
    decreases 9 - n
  {
    if n < 9 {
      NothingAfterShutdown(env, cfg, n + 1, RunPhase(env, cfg, PhaseAt(n), rs).1);
    }
  }

  // ---------------------------------------------------------------------- a search that fails

  /** Every query that lists candidates fails with one error, and no signal is sent. */
  ghost predicate SearchFails(env: Env, e: PgError) {
    forall k: nat :: env.candidates(k) == Err(e) && env.classic(k) == Err(e) && env.published(k) == 0 && !env.marked(k)
  }

  lemma {:induction false} FirstSearchFails(env: Env, e: PgError, cfg: Config, n: nat, rs: RunState)
    requires SearchFails(env, e) && 1 <= n <= 9 && exists p :: Number(p) >= n && p != AlsoTables && AskedFor(cfg, p)
    ensures RunFrom(env, cfg, n, rs).0 == Some(Server(e))
    decreases 9 - n
  {
    hide RunTables;
    var p := PhaseAt(n);
    RunStep(env, cfg, n, rs);
    var q :| Number(q) >= n && q != AlsoTables && AskedFor(cfg, q);
    if !Selected(cfg, p) {
      NumbersApart(p, n);
      FirstSearchFails(env, e, cfg, n + 1, rs);
    }
  }

  /** A run whose searches fail exits with 3 if the error means a lost connection, else with 1. */
  lemma FailedSearchExits(env: Env, e: PgError, cfg: Config, w: World, gate: Gate)
    requires SearchFails(env, e) && exists p :: p != AlsoTables && AskedFor(cfg, p)
    ensures Main(env, cfg, w, gate).0 ==
            if e in {Closed, Transport(true), Db(ConnectionException), Db(AdminShutdown), Db(CrashShutdown),
                     Db(CannotConnectNow), Db(IdleSessionTimeout)} then 3 else 1
  {
    hide RunFrom, AskedFor, IsConnectionLost;
    var p :| p != AlsoTables && AskedFor(cfg, p);
    assert Number(p) >= 1;
    FirstSearchFails(env, e, cfg, 1, Start(w, gate));
    ErrorClasses(e);
  }
}
