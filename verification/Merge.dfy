/** `merge_needs_vacuum_candidates` (src/operations.rs): two discovery lists are united,
    deduplicated, stably sorted by a selectable key and cut to a limit. */
module Merge {
  import opened Text

  datatype Name = Name(schema: string, table: string)

  datatype Candidate = Candidate(
    name: Name, deadTuples: int, sizeBytes: int, lastMaintained: Option<int>, viaMaxThreshold: bool)

  datatype OrderBy = DeadTuples | Size | LastMaintained

  /** Sort keys: `Reverse` of a count, or an optional time whose absence sorts first. */
  datatype SortKey = Never | At(rank: int)

  predicate KeyLe(a: SortKey, b: SortKey) { a.Never? || (b.At? && a.rank <= b.rank) }

  function Key(order: OrderBy, c: Candidate): SortKey {
    match order
    case DeadTuples => At(-c.deadTuples)
    case Size => At(-c.sizeBytes)
    case LastMaintained => match c.lastMaintained case None => Never case Some(t) => At(t)
  }

  function Keys(order: OrderBy, cs: seq<Candidate>): (r: seq<SortKey>)
    ensures |r| == |cs| && forall i :: 0 <= i < |r| ==> r[i] == Key(order, cs[i])
  {
    seq(|cs|, i requires 0 <= i < |cs| => Key(order, cs[i]))
  }

  // ------------------------------------------------------------------ union without duplicates

  function Names(cs: seq<Candidate>): set<Name> { set i | 0 <= i < |cs| :: cs[i].name }

  /** The filter on `seen.insert`: the first entry of each name stays. */
  function Unique(cs: seq<Candidate>): (r: seq<Candidate>) {
    if cs == [] then [] else
      var front, last := Unique(cs[..|cs| - 1]), cs[|cs| - 1];
      if last.name in Names(cs[..|cs| - 1]) then front else front + [last]
  }

  ghost predicate Distinct(cs: seq<Candidate>) {
    forall i, j :: 0 <= i < j < |cs| ==> cs[i].name != cs[j].name
  }

  // ------------------------------------------------------------------------------- sorting

  /** Where a stable sort puts a new last element: behind every key that is not greater. */
  function Insert(order: OrderBy, sorted: seq<Candidate>, c: Candidate): seq<Candidate> {
    if sorted != [] && !KeyLe(Key(order, sorted[|sorted| - 1]), Key(order, c))
    then Insert(order, sorted[..|sorted| - 1], c) + [sorted[|sorted| - 1]]
    else sorted + [c]
  }

  function StableSort(order: OrderBy, cs: seq<Candidate>): seq<Candidate> {
    if cs == [] then [] else Insert(order, StableSort(order, cs[..|cs| - 1]), cs[|cs| - 1])
  }

  ghost predicate Sorted(order: OrderBy, cs: seq<Candidate>) {
    forall i, j :: 0 <= i < j < |cs| ==> KeyLe(Key(order, cs[i]), Key(order, cs[j]))
  }

  /** The entries of one key, in order: what a stable sort must not permute. */
  function WithKey(order: OrderBy, cs: seq<Candidate>, k: SortKey): seq<Candidate> {
    if cs == [] then [] else
      var last := cs[|cs| - 1];
      WithKey(order, cs[..|cs| - 1], k) + if Key(order, last) == k then [last] else []
  }

  /** `truncate(usize::try_from(limit).unwrap_or(MAX))`: a negative limit cuts nothing. */
  function Truncate(cs: seq<Candidate>, limit: int): seq<Candidate> {
    if limit < 0 || |cs| <= limit then cs else cs[..limit]
  }

  function Merged(classic: seq<Candidate>, extra: seq<Candidate>, order: OrderBy, limit: int): seq<Candidate> {
    Truncate(StableSort(order, Unique(classic + extra)), limit)
  }

  /** `merge_needs_vacuum_candidates`. */
  method MergeCandidates(classic: seq<Candidate>, extra: seq<Candidate>, order: OrderBy,
        limit: int)
  returns (merged: seq<Candidate>)
    ensures merged == Merged(classic, extra, order, limit)
  {
    hide Names, Unique, StableSort;
    var seen: set<Name> := {};
    var chain := classic + extra;
    NothingSeen(chain[..0]);
    merged := [];
    for i := 0 to |chain|
      invariant seen == Names(chain[..i]) && merged == Unique(chain[..i])
    {
      UnionStep(chain, i);
      if chain[i].name !in seen {
        seen := seen + {chain[i].name};
        merged := merged + [chain[i]];
      }
    }
    assert chain[..|chain|] == chain;
    merged := SortByKey(order, merged);
    if 0 <= limit < |merged| { merged := merged[..limit]; }
  }

  lemma NothingSeen(cs: seq<Candidate>)
    requires |cs| == 0
    ensures Names(cs) == {} && Unique(cs) == []
  {
  }

  /** One turn of the filter. */
  lemma UnionStep(chain: seq<Candidate>, i: nat)
    requires i < |chain|
    ensures Names(chain[..i + 1]) == Names(chain[..i]) + {chain[i].name}
    ensures Unique(chain[..i + 1]) == Unique(chain[..i]) + if chain[i].name in Names(chain[..i]) then [] else [chain[i]]
  {
    assert chain[..i + 1] == chain[..i] + [chain[i]] && chain[..i + 1][..i] == chain[..i];
    NamesSnoc(chain[..i], chain[i]);
  }

  lemma NamesSnoc(cs: seq<Candidate>, c: Candidate)
    ensures cs + [c] == (cs + [c])[..|cs|] + [c] && Names(cs + [c]) == Names(cs) + {c.name}
  {
    var all := cs + [c];
    assert forall n :: n in Names(cs) ==> n in Names(all) by {
      forall i | 0 <= i < |cs| ensures cs[i].name in Names(all) { assert all[i] == cs[i]; }
    }
    assert all[|cs|].name in Names(all);
  }

  /** `sort_by_key`: an in-order insertion sort stands for the library's stable sort. */
  method SortByKey(order: OrderBy, cs: seq<Candidate>) returns (sorted: seq<Candidate>)
    ensures sorted == StableSort(order, cs)
  {
    sorted := [];
    for i := 0 to |cs|
      invariant sorted == StableSort(order, cs[..i])
    {
      assert cs[..i + 1][..i] == cs[..i];
      sorted := Insert(order, sorted, cs[i]);
    }
    assert cs[..|cs|] == cs;
  }

  // ------------------------------------------------------------------------ laws of the union

  lemma {:induction false} UniqueNames(cs: seq<Candidate>)
    ensures Names(Unique(cs)) == Names(cs) && Distinct(Unique(cs))
  {
    if cs != [] {
      var front, last := cs[..|cs| - 1], cs[|cs| - 1];
      assert cs == front + [last];
      UniqueNames(front);
      NamesSnoc(front, last);
      NamesSnoc(Unique(front), last);
      assert forall i :: 0 <= i < |Unique(front)| ==> Unique(front)[i].name in Names(Unique(front));
    }
  }

  lemma {:induction false} UniqueKeepsPrefix(a: seq<Candidate>, b: seq<Candidate>)
    ensures Unique(a) <= Unique(a + b)
  {
    if b == [] {
      assert a + b == a;
    } else {
      assert (a + b)[..|a + b| - 1] == a + b[..|b| - 1];
      UniqueKeepsPrefix(a, b[..|b| - 1]);
    }
  }

  lemma {:induction false} UniqueFixed(cs: seq<Candidate>)
    requires Distinct(cs)
    ensures Unique(cs) == cs
  {
    if cs != [] {
      var front, last := cs[..|cs| - 1], cs[|cs| - 1];
      UniqueFixed(front);
      assert last.name !in Names(front) by {
        forall i | 0 <= i < |front| ensures front[i].name != last.name { assert cs[i].name != cs[|cs| - 1].name; }
      }
      assert front + [last] == cs;
    }
  }

  // ------------------------------------------------------------------------- laws of the sort

  lemma {:induction false} InsertBag(order: OrderBy, s: seq<Candidate>, c: Candidate)
    ensures multiset(Insert(order, s, c)) == multiset(s) + multiset{c} && |Insert(order, s, c)| == |s| + 1
  {
    hide Key, KeyLe;
    if s != [] && !KeyLe(Key(order, s[|s| - 1]), Key(order, c)) {
      assert s == s[..|s| - 1] + [s[|s| - 1]];
      InsertBag(order, s[..|s| - 1], c);
    }
  }

  lemma {:induction false} InsertSorts(order: OrderBy, s: seq<Candidate>, c: Candidate)
    requires Sorted(order, s)
    ensures Sorted(order, Insert(order, s, c)) && multiset(Insert(order, s, c)) == multiset(s) + multiset{c}
    ensures |Insert(order, s, c)| == |s| + 1
  {
    hide Key, KeyLe, Sorted;
    InsertBag(order, s, c);
    if s != [] && !KeyLe(Key(order, s[|s| - 1]), Key(order, c)) {
      var front, last := s[..|s| - 1], s[|s| - 1];
      SortedFront(order, s);
      InsertSorts(order, front, c);
      KeyTotal(Key(order, last), Key(order, c));
      var r := Insert(order, front, c);
      forall i | 0 <= i < |r| ensures KeyLe(Key(order, r[i]), Key(order, last)) {
        assert r[i] in multiset(r);
        assert r[i] == c || r[i] in front;
      }
      SortedSnoc(order, r, last);
    } else {
      SortedAppend(order, s, c);
    }
  }

  lemma KeyTotal(a: SortKey, b: SortKey)
    requires !KeyLe(a, b)
    ensures KeyLe(b, a)
  {
  }

  lemma SortedFront(order: OrderBy, s: seq<Candidate>)
    requires s != [] && Sorted(order, s)
    ensures Sorted(order, s[..|s| - 1])
    ensures forall x :: x in s[..|s| - 1] ==> KeyLe(Key(order, x), Key(order, s[|s| - 1]))
  {
  }

  lemma SortedSnoc(order: OrderBy, s: seq<Candidate>, c: Candidate)
    requires Sorted(order, s) && forall i :: 0 <= i < |s| ==> KeyLe(Key(order, s[i]), Key(order, c))
    ensures Sorted(order, s + [c])
  {
  }

  lemma SortedAppend(order: OrderBy, s: seq<Candidate>, c: Candidate)
    requires Sorted(order, s) && (s == [] || KeyLe(Key(order, s[|s| - 1]), Key(order, c)))
    ensures Sorted(order, s + [c])
  {
    forall i | 0 <= i < |s| ensures KeyLe(Key(order, s[i]), Key(order, c)) {
      assert KeyLe(Key(order, s[i]), Key(order, s[|s| - 1])) || i == |s| - 1;
    }
    SortedSnoc(order, s, c);
  }

  lemma {:induction false} SortSorts(order: OrderBy, cs: seq<Candidate>)
    ensures Sorted(order, StableSort(order, cs)) && multiset(StableSort(order, cs)) == multiset(cs)
    ensures |StableSort(order, cs)| == |cs|
  {
    if cs != [] {
      var front := cs[..|cs| - 1];
      assert cs == front + [cs[|cs| - 1]];
      SortSorts(order, front);
      InsertSorts(order, StableSort(order, front), cs[|cs| - 1]);
    }
  }

  lemma {:induction false} InsertStable(order: OrderBy, s: seq<Candidate>, c: Candidate, k: SortKey)
    requires Sorted(order, s)
    ensures WithKey(order, Insert(order, s, c), k) == WithKey(order, s, k) + if Key(order, c) == k then [c] else []
  {
    hide Key, KeyLe, WithKey;
    if s != [] && !KeyLe(Key(order, s[|s| - 1]), Key(order, c)) {
      var front, last := s[..|s| - 1], s[|s| - 1];
      assert s == front + [last];
      assert Sorted(order, front);
      InsertStable(order, front, c, k);
      WithKeySnoc(order, front, last, k);
      WithKeySnoc(order, Insert(order, front, c), last, k);
      KeyDiffers(Key(order, last), Key(order, c));
    } else {
      WithKeySnoc(order, s, c, k);
    }
  }

  lemma WithKeySnoc(order: OrderBy, s: seq<Candidate>, c: Candidate, k: SortKey)
    ensures WithKey(order, s + [c], k) == WithKey(order, s, k) + if Key(order, c) == k then [c] else []
  {
    assert (s + [c])[..|s|] == s;
  }

  lemma KeyDiffers(a: SortKey, b: SortKey)
    requires !KeyLe(a, b)
    ensures a != b
  {
  }

  lemma {:induction false} SortStable(order: OrderBy, cs: seq<Candidate>, k: SortKey)
    ensures WithKey(order, StableSort(order, cs), k) == WithKey(order, cs, k)
  {
    if cs != [] {
      var front := cs[..|cs| - 1];
      SortStable(order, front, k);
      SortSorts(order, front);
      InsertStable(order, StableSort(order, front), cs[|cs| - 1], k);
    }
  }

  /** What the keys mean: most dead tuples first, largest first, or never maintained first and
      then longest ago first. */
  predicate Precedes(order: OrderBy, a: Candidate, b: Candidate) {
    match order
    case DeadTuples => a.deadTuples >= b.deadTuples
    case Size => a.sizeBytes >= b.sizeBytes
    case LastMaintained =>
      a.lastMaintained.None? || (b.lastMaintained.Some? && a.lastMaintained.value <= b.lastMaintained.value)
  }

  /** One entry per table, in the order asked for; without a limit every table of both inputs;
      the first classic entry of a table wins; the result is a prefix of the stable sort, so equal
      keys keep the order classic before added. */
  lemma MergeCorrect(classic: seq<Candidate>, extra: seq<Candidate>, order: OrderBy, limit: int)
    ensures var all := Unique(classic + extra); var sorted := StableSort(order, all);
            var merged := Merged(classic, extra, order, limit);
            && Distinct(merged) && (forall i, j :: 0 <= i < j < |merged| ==> Precedes(order, merged[i], merged[j]))
            && Names(all) == Names(classic + extra) && multiset(sorted) == multiset(all) && Unique(classic) <= all
            && merged == (if 0 <= limit < |sorted| then sorted[..limit] else sorted)
            && forall k :: WithKey(order, sorted, k) == WithKey(order, all, k)
  {
    var all := Unique(classic + extra);
    UniqueNames(classic + extra);
    UniqueKeepsPrefix(classic, extra);
    SortSorts(order, all);
    forall k ensures WithKey(order, StableSort(order, all), k) == WithKey(order, all, k) { SortStable(order, all, k); }
    DistinctPermuted(all, StableSort(order, all));
    SortedMeans(order, StableSort(order, all));
  }

  lemma SortedMeans(order: OrderBy, cs: seq<Candidate>)
    requires Sorted(order, cs)
    ensures forall i, j :: 0 <= i < j < |cs| ==> Precedes(order, cs[i], cs[j])
  {
    forall i, j | 0 <= i < j < |cs| ensures Precedes(order, cs[i], cs[j]) {
      assert KeyLe(Key(order, cs[i]), Key(order, cs[j]));
    }
  }

  lemma DistinctPermuted(a: seq<Candidate>, b: seq<Candidate>)
    requires Distinct(a) && multiset(a) == multiset(b)
    ensures Distinct(b)
  {
    forall i, j | 0 <= i < j < |b| ensures b[i].name != b[j].name {
      assert b[i] in multiset(b) && b[j] in multiset(b);
      assert b[i] in a && b[j] in a;
      if b[i] == b[j] {
        TwiceInMultiset(b, i, j);
        OnceInMultiset(a, b[i]);
      }
    }
  }

  lemma TwiceInMultiset<T>(s: seq<T>, i: nat, j: nat)
    requires i < j < |s| && s[i] == s[j]
    ensures multiset(s)[s[i]] >= 2
  {
    assert s == s[..i] + [s[i]] + s[i + 1..j] + [s[j]] + s[j + 1..];
  }

  lemma {:induction false} OnceInMultiset(s: seq<Candidate>, c: Candidate)
    requires Distinct(s)
    ensures multiset(s)[c] <= 1
  {
    if s != [] {
      var front, last := s[..|s| - 1], s[|s| - 1];
      assert s == front + [last];
      OnceInMultiset(front, c);
      if last == c {
        assert c !in front;
      }
    }
  }
}
