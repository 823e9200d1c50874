/** Limit pushdown for the needs-vacuum discovery: the classic query may sort and cut its
    rows before the merge, and the merged result still has the same sequence of sort keys. */
module MergePushdown {
  import opened Text
  import opened Merge

  function KeyBag(order: OrderBy, cs: seq<Candidate>): multiset<SortKey> { multiset(Keys(order, cs)) }

  lemma KeyBagConcat(order: OrderBy, a: seq<Candidate>, b: seq<Candidate>)
    ensures KeyBag(order, a + b) == KeyBag(order, a) + KeyBag(order, b)
  {
    assert Keys(order, a + b) == Keys(order, a) + Keys(order, b);
  }

  lemma KeyBagSnoc(order: OrderBy, a: seq<Candidate>, c: Candidate)
    ensures KeyBag(order, a + [c]) == KeyBag(order, a) + multiset{Key(order, c)}
  {
    KeyBagConcat(order, a, [c]);
    assert Keys(order, [c]) == [Key(order, c)];
  }

  /** Taking one occurrence out of a list, on entries and on keys. */
  lemma TakeOut(order: OrderBy, s: seq<Candidate>, i: nat)
    requires i < |s|
    ensures multiset(s[..i] + s[i + 1..]) == multiset(s) - multiset{s[i]}
    ensures KeyBag(order, s) == KeyBag(order, s[..i] + s[i + 1..]) + multiset{Key(order, s[i])}
  {
    hide KeyBag;
    assert s == s[..i] + [s[i]] + s[i + 1..];
    KeyBagSnoc(order, s[..i], s[i]);
    KeyBagConcat(order, s[..i], s[i + 1..]);
    KeyBagConcat(order, s[..i] + [s[i]], s[i + 1..]);
  }

  lemma IndexOfEntry(a: seq<Candidate>, b: seq<Candidate>) returns (i: nat)
    requires a != [] && multiset(a) == multiset(b)
    ensures i < |b| && b[i] == a[0]
  {
    assert a[0] in multiset(b);
    i :| 0 <= i < |b| && b[i] == a[0];
  }

  lemma SameSize(a: seq<Candidate>, b: seq<Candidate>)
    requires multiset(a) == multiset(b)
    ensures |a| == |b|
  {
    assert |a| == |multiset(a)| == |multiset(b)| == |b|;
  }

  /** Taking the first entry of one list out of both. */
  lemma TakeOutBoth(order: OrderBy, a: seq<Candidate>, b: seq<Candidate>, i: nat)
    requires a != [] && multiset(a) == multiset(b) && i < |b| && b[i] == a[0]
    ensures multiset(a[1..]) == multiset(b[..i] + b[i + 1..])
    ensures KeyBag(order, a) == KeyBag(order, a[1..]) + multiset{Key(order, a[0])}
    ensures KeyBag(order, b) == KeyBag(order, b[..i] + b[i + 1..]) + multiset{Key(order, a[0])}
  {
    hide KeyBag, Key;
    TakeOut(order, a, 0);
    TakeOut(order, b, i);
    assert a[..0] + a[1..] == a[1..];
  }

  /** The bag of keys depends only on the bag of entries. */
  lemma {:induction false} KeyBagPermuted(order: OrderBy, a: seq<Candidate>, b: seq<Candidate>)
    requires multiset(a) == multiset(b)
    ensures KeyBag(order, a) == KeyBag(order, b)
  {
    hide KeyBag, Key;
    SameSize(a, b);
    if a != [] {
      var i := IndexOfEntry(a, b);
      var b' := b[..i] + b[i + 1..];
      TakeOutBoth(order, a, b, i);
      KeyBagPermuted(order, a[1..], b');
    }
  }

  ghost predicate SortedKeys(ks: seq<SortKey>) { forall i, j :: 0 <= i < j < |ks| ==> KeyLe(ks[i], ks[j]) }

  /** A bag of keys has one sorted arrangement. */
  lemma {:induction false} SortedUnique(a: seq<SortKey>, b: seq<SortKey>)
    requires SortedKeys(a) && SortedKeys(b) && multiset(a) == multiset(b)
    ensures a == b
  {
    hide KeyLe, SortedKeys;
    assert |a| == |multiset(a)| == |multiset(b)| == |b|;
    if a != [] {
      SameHead(a, b);
      TailBag(a);
      TailBag(b);
      SortedTail(a);
      SortedTail(b);
      SortedUnique(a[1..], b[1..]);
      assert a == [a[0]] + a[1..] && b == [b[0]] + b[1..];
    }
  }

  lemma SameHead(a: seq<SortKey>, b: seq<SortKey>)
    requires a != [] && b != [] && SortedKeys(a) && SortedKeys(b) && multiset(a) == multiset(b)
    ensures a[0] == b[0]
  {
    assert a[0] in multiset(b) && b[0] in multiset(a);
    assert KeyLe(b[0], a[0]) && KeyLe(a[0], b[0]);
  }

  lemma SortedTail(a: seq<SortKey>)
    requires a != [] && SortedKeys(a)
    ensures SortedKeys(a[1..])
  {
  }

  lemma TailBag<T>(a: seq<T>)
    requires a != []
    ensures multiset(a[1..]) == multiset(a) - multiset{a[0]}
  {
    assert a == [a[0]] + a[1..];
  }

  /** Adding entries to a list never raises the key found at a given place after sorting. */
  lemma {:induction false} SortLowers(order: OrderBy, a: seq<Candidate>, b: seq<Candidate>, i: nat)
    requires i < |a|
    ensures |StableSort(order, a)| == |a| && |StableSort(order, a + b)| == |a| + |b|
    ensures KeyLe(Key(order, StableSort(order, a + b)[i]), Key(order, StableSort(order, a)[i]))
  {
    SortSorts(order, a);
    SortSorts(order, a + b);
    if b == [] {
      assert a + b == a;
    } else {
      var front, last := b[..|b| - 1], b[|b| - 1];
      assert (a + b)[..|a + b| - 1] == a + front;
      SortLowers(order, a, front, i);
      SortSorts(order, a + front);
      InsertLowers(order, StableSort(order, a + front), last, i);
    }
  }

  lemma {:induction false} InsertLowers(order: OrderBy, s: seq<Candidate>, c: Candidate, i: nat)
    requires Sorted(order, s) && i < |s|
    ensures |Insert(order, s, c)| == |s| + 1
    ensures KeyLe(Key(order, Insert(order, s, c)[i]), Key(order, s[i]))
  {
    InsertSorts(order, s, c);
    var front, last := s[..|s| - 1], s[|s| - 1];
    if !KeyLe(Key(order, last), Key(order, c)) {
      InsertSorts(order, front, c);
      if i < |front| {
        InsertLowers(order, front, c, i);
      } else {
        var r := Insert(order, front, c);
        assert r[i] in multiset(r) && (r[i] == c || r[i] in front);
      }
    }
  }

  /** The entries whose table does not occur in a set of names. */
  function Missing(cs: seq<Candidate>, names: set<Name>): (r: seq<Candidate>)
    ensures forall i :: 0 <= i < |r| ==> r[i] in cs
  {
    if cs == [] then [] else
      Missing(cs[..|cs| - 1], names) + if cs[|cs| - 1].name in names then [] else [cs[|cs| - 1]]
  }

  lemma {:induction false} MissingSame(cs: seq<Candidate>, names: set<Name>, n: Name)
    requires n in names || n !in Names(cs)
    ensures Missing(cs, names + {n}) == Missing(cs, names)
  {
    if cs != [] {
      var front := cs[..|cs| - 1];
      NamesSnoc(front, cs[|cs| - 1]);
      assert cs == front + [cs[|cs| - 1]];
      MissingSame(front, names, n);
    }
  }

  /** Naming one more table removes exactly that table's key. */
  lemma {:induction false} MissingLess(order: OrderBy, cs: seq<Candidate>, names: set<Name>, c: Candidate)
    requires Distinct(cs) && c.name !in names && c.name in Names(cs)
    requires forall i :: 0 <= i < |cs| && cs[i].name == c.name ==> Key(order, cs[i]) == Key(order, c)
    ensures KeyBag(order, Missing(cs, names)) == KeyBag(order, Missing(cs, names + {c.name})) + multiset{Key(order, c)}
  {
    var front, last := cs[..|cs| - 1], cs[|cs| - 1];
    assert cs == front + [last];
    NamesSnoc(front, last);
    if last.name == c.name {
      assert c.name !in Names(front) by {
        forall i | 0 <= i < |front| ensures front[i].name != c.name { assert cs[i].name != last.name; }
      }
      MissingSame(front, names, c.name);
      KeyBagSnoc(order, Missing(front, names), last);
      assert Missing(front, names) + [] == Missing(front, names);
    } else {
      MissingLess(order, front, names, c);
      if last.name in names {
        assert Missing(cs, names) == Missing(front, names)
            && Missing(cs, names + {c.name}) == Missing(front, names + {c.name});
      } else {
        KeyBagSnoc(order, Missing(front, names), last);
        KeyBagSnoc(order, Missing(front, names + {c.name}), last);
      }
    }
  }

  /** A classic list cut in two, and a second list that agrees with it on shared tables. */
  ghost predicate CutOf(order: OrderBy, full: seq<Candidate>, cut: seq<Candidate>, rest: seq<Candidate>,
        extra: seq<Candidate>)
  {
    && Distinct(full) && multiset(full) == multiset(cut + rest)
    && (forall i, j :: 0 <= i < |full| && 0 <= j < |extra| && full[i].name == extra[j].name ==>
       Key(order, full[i]) == Key(order, extra[j]))
  }

  lemma CutParts(order: OrderBy, full: seq<Candidate>, cut: seq<Candidate>, rest: seq<Candidate>, extra: seq<Candidate>)
    requires CutOf(order, full, cut, rest, extra)
    ensures Distinct(cut + rest) && Distinct(cut) && Distinct(rest) && Names(full) == Names(cut) + Names(rest)
    ensures forall i, j :: 0 <= i < |rest| && 0 <= j < |extra| && rest[i].name == extra[j].name ==>
        Key(order, rest[i]) == Key(order, extra[j])
  {
    hide Key;
    var all := cut + rest;
    DistinctPermuted(full, all);
    assert forall i :: 0 <= i < |cut| ==> cut[i] == all[i];
    assert forall i :: 0 <= i < |rest| ==> rest[i] == all[|cut| + i];
    SameMembers(full, all);
    NamesConcat(cut, rest);
    forall i, j | 0 <= i < |rest| && 0 <= j < |extra| && rest[i].name == extra[j].name
      ensures Key(order, rest[i]) == Key(order, extra[j])
    {
      assert all[|cut| + i] in full;
    }
  }

  lemma SameMembers(a: seq<Candidate>, b: seq<Candidate>)
    requires multiset(a) == multiset(b)
    ensures Names(a) == Names(b) && forall c :: c in a <==> c in b
  {
    assert forall c :: c in a <==> c in multiset(a);
    assert forall c :: c in b <==> c in multiset(b);
    assert forall i :: 0 <= i < |a| ==> a[i] in b;
    assert forall i :: 0 <= i < |b| ==> b[i] in a;
  }

  /** Merging the cut list loses exactly the keys of the cut-off tables that the second
      list does not bring back. */
  lemma {:induction false} UniqueOfCut(order: OrderBy, full: seq<Candidate>, cut: seq<Candidate>,
        rest: seq<Candidate>, extra: seq<Candidate>)
    requires CutOf(order, full, cut, rest, extra)
    ensures KeyBag(order, Unique(full + extra))
        == KeyBag(order, Unique(cut + extra)) + KeyBag(order, Missing(rest, Names(extra)))
    decreases |extra|
  {
    hide KeyBag, Key, Unique, Missing;
    CutParts(order, full, cut, rest, extra);
    if extra == [] {
      assert Names(extra) == {};
      assert full + extra == full && cut + extra == cut;
      UniqueFixed(full);
      UniqueFixed(cut);
      MissingNone(rest);
      KeyBagPermuted(order, full, cut + rest);
      KeyBagConcat(order, cut, rest);
    } else {
      var front, e := extra[..|extra| - 1], extra[|extra| - 1];
      assert extra == front + [e];
      assert forall j :: 0 <= j < |front| ==> front[j] == extra[j];
      UniqueOfCut(order, full, cut, rest, front);
      assert forall i :: 0 <= i < |rest| && rest[i].name == e.name ==>
          Key(order, rest[i]) == Key(order, extra[|extra| - 1]);
      MissingStep(order, cut, rest, front, e);
      UniqueBag(order, full, front, e);
      UniqueBag(order, cut, front, e);
    }
  }

  function Once(order: OrderBy, c: Candidate, occurs: bool): multiset<SortKey> {
    if occurs then multiset{} else multiset{Key(order, c)}
  }

  lemma UniqueBag(order: OrderBy, cs: seq<Candidate>, front: seq<Candidate>, e: Candidate)
    ensures KeyBag(order, Unique(cs + (front + [e])))
         == KeyBag(order, Unique(cs + front)) + Once(order, e, e.name in Names(cs) || e.name in Names(front))
  {
    assert cs + (front + [e]) == cs + front + [e];
    NamesConcat(cs, front);
    UniqueSnoc(cs + front, e);
    KeyBagSnoc(order, Unique(cs + front), e);
    assert Unique(cs + front) + [] == Unique(cs + front);
  }

  lemma MissingStep(order: OrderBy, cut: seq<Candidate>, rest: seq<Candidate>, front: seq<Candidate>, e: Candidate)
    requires Distinct(cut + rest) && Distinct(rest)
    requires forall i :: 0 <= i < |rest| && rest[i].name == e.name ==> Key(order, rest[i]) == Key(order, e)
    ensures KeyBag(order, Missing(rest, Names(front)))
         == KeyBag(order, Missing(rest, Names(front + [e])))
             + Once(order, e, e.name in Names(front) || e.name !in Names(rest))
    ensures !(e.name in Names(cut) && e.name in Names(rest))
  {
    NamesSnoc(front, e);
    DisjointParts(cut, rest, e.name);
    if e.name in Names(front) || e.name !in Names(rest) {
      MissingSame(rest, Names(front), e.name);
    } else {
      MissingLess(order, rest, Names(front), e);
    }
  }

  lemma {:induction false} MissingNone(cs: seq<Candidate>)
    ensures Missing(cs, {}) == cs
  {
    if cs != [] {
      MissingNone(cs[..|cs| - 1]);
    }
  }

  lemma NamesConcat(a: seq<Candidate>, b: seq<Candidate>)
    ensures Names(a + b) == Names(a) + Names(b)
  {
    assert forall i :: 0 <= i < |a| ==> (a + b)[i] == a[i];
    assert forall i :: 0 <= i < |b| ==> (a + b)[|a| + i] == b[i];
  }

  lemma UniqueSnoc(cs: seq<Candidate>, c: Candidate)
    ensures Unique(cs + [c]) == Unique(cs) + if c.name in Names(cs) then [] else [c]
  {
    assert (cs + [c])[..|cs|] == cs;
  }

  lemma DisjointParts(a: seq<Candidate>, b: seq<Candidate>, n: Name)
    requires Distinct(a + b)
    ensures !(n in Names(a) && n in Names(b))
  {
    if n in Names(a) {
      var i :| 0 <= i < |a| && a[i].name == n;
      forall j | 0 <= j < |b| ensures b[j].name != n {
        assert (a + b)[i].name != (a + b)[|a| + j].name;
      }
    }
  }

  /** If the query keeps the `limit` rows with the least keys (in whatever order it breaks
      ties), merging them gives the same keys in the same places as merging all rows. */
  lemma LimitPushdown(order: OrderBy, full: seq<Candidate>, cut: seq<Candidate>, rest: seq<Candidate>,
        extra: seq<Candidate>, limit: nat)
    requires CutOf(order, full, cut, rest, extra)
    requires rest != [] ==> |cut| == limit
    requires forall i, j :: 0 <= i < |cut| && 0 <= j < |rest| ==> KeyLe(Key(order, cut[i]), Key(order, rest[j]))
    ensures Keys(order, Merged(cut, extra, order, limit)) == Keys(order, Merged(full, extra, order, limit))
  {
    hide KeyBag, Key, KeyLe, StableSort, Unique, Missing;
    var a, b := Unique(full + extra), Unique(cut + extra);
    var lost := Missing(rest, Names(extra));
    UniqueOfCut(order, full, cut, rest, extra);
    SortSorts(order, a);
    SortSorts(order, b);
    var sorted := StableSort(order, b);
    if lost == [] {
      KeyBagPermuted(order, StableSort(order, a), a);
      KeyBagPermuted(order, sorted, b);
      EmptyBag(order);
      SameKeys(order, sorted, StableSort(order, a));
      TruncatedKeys(order, sorted, StableSort(order, a), limit);
    } else {
      assert rest != [] by { assert lost[0] in rest; }
      CutParts(order, full, cut, rest, extra);
      LeastStayInFront(order, cut, rest, extra);
      SortAround(order, a, b, lost, limit);
    }
  }

  lemma EmptyBag(order: OrderBy)
    ensures KeyBag(order, []) == multiset{}
  {
  }

  lemma TruncatedKeys(order: OrderBy, a: seq<Candidate>, b: seq<Candidate>, limit: nat)
    requires Keys(order, a) == Keys(order, b)
    ensures Keys(order, Truncate(a, limit)) == Keys(order, Truncate(b, limit))
  {
    assert |a| == |Keys(order, a)| == |b|;
    if limit < |a| {
      assert Keys(order, a[..limit]) == Keys(order, a)[..limit];
      assert Keys(order, b[..limit]) == Keys(order, b)[..limit];
    }
  }

  /** After merging, the first `|cut|` places hold keys no greater than any cut-off key. */
  lemma LeastStayInFront(order: OrderBy, cut: seq<Candidate>, rest: seq<Candidate>, extra: seq<Candidate>)
    requires Distinct(cut)
    requires forall i, j :: 0 <= i < |cut| && 0 <= j < |rest| ==> KeyLe(Key(order, cut[i]), Key(order, rest[j]))
    ensures var sorted := StableSort(order, Unique(cut + extra));
            && |sorted| >= |cut|
            && forall i, d :: 0 <= i < |cut| && d in rest ==> KeyLe(Key(order, sorted[i]), Key(order, d))
  {
    UniqueFixed(cut);
    UniqueKeepsPrefix(cut, extra);
    var b := Unique(cut + extra);
    var added := b[|cut|..];
    assert b == cut + added;
    SortSorts(order, b);
    SortSorts(order, cut);
    forall i, d | 0 <= i < |cut| && d in rest ensures KeyLe(Key(order, StableSort(order, b)[i]), Key(order, d)) {
      SortLowers(order, cut, added, i);
      var low := StableSort(order, cut)[i];
      assert low in multiset(StableSort(order, cut)) && low in cut;
    }
  }

  /** Entries no less than the first `n` sorted ones do not change those `n` keys. */
  lemma SortAround(order: OrderBy, a: seq<Candidate>, b: seq<Candidate>, lost: seq<Candidate>, n: nat)
    requires KeyBag(order, a) == KeyBag(order, b) + KeyBag(order, lost)
    requires |StableSort(order, b)| >= n
    requires forall i, d :: 0 <= i < n && d in lost ==> KeyLe(Key(order, StableSort(order, b)[i]), Key(order, d))
    ensures Keys(order, Truncate(StableSort(order, b), n)) == Keys(order, Truncate(StableSort(order, a), n))
  {
    hide KeyBag, Key, StableSort;
    SortSorts(order, a);
    SortSorts(order, b);
    var sorted := StableSort(order, b);
    var behind := StableSort(order, sorted[n..] + lost);
    SortSorts(order, sorted[n..] + lost);
    SortedJoin(order, sorted, lost, behind, n);
    JoinBag(order, sorted, lost, behind, n);
    KeyBagPermuted(order, sorted, b);
    KeyBagPermuted(order, StableSort(order, a), a);
    var r := sorted[..n] + behind;
    SameKeys(order, r, StableSort(order, a));
    assert Keys(order, sorted[..n]) == Keys(order, r)[..n];
    assert Keys(order, StableSort(order, a))[..n] == Keys(order, StableSort(order, a)[..n]);
  }

  lemma SameKeys(order: OrderBy, a: seq<Candidate>, b: seq<Candidate>)
    requires Sorted(order, a) && Sorted(order, b) && KeyBag(order, a) == KeyBag(order, b)
    ensures Keys(order, a) == Keys(order, b)
  {
    SortedUnique(Keys(order, a), Keys(order, b));
  }

  lemma JoinBag(order: OrderBy, sorted: seq<Candidate>, lost: seq<Candidate>, behind: seq<Candidate>, n: nat)
    requires n <= |sorted| && multiset(behind) == multiset(sorted[n..] + lost)
    ensures KeyBag(order, sorted[..n] + behind) == KeyBag(order, sorted) + KeyBag(order, lost)
  {
    hide KeyBag;
    KeyBagConcat(order, sorted[..n], behind);
    KeyBagPermuted(order, behind, sorted[n..] + lost);
    KeyBagConcat(order, sorted[n..], lost);
    KeyBagConcat(order, sorted[..n], sorted[n..]);
    assert sorted[..n] + sorted[n..] == sorted;
  }

  lemma SortedJoin(order: OrderBy, sorted: seq<Candidate>, lost: seq<Candidate>, behind: seq<Candidate>, n: nat)
    requires n <= |sorted| && Sorted(order, sorted) && Sorted(order, behind)
        && multiset(behind) == multiset(sorted[n..] + lost)
    requires forall i, d :: 0 <= i < n && d in lost ==> KeyLe(Key(order, sorted[i]), Key(order, d))
    ensures Sorted(order, sorted[..n] + behind)
  {
    hide Key, KeyLe;
    forall i, j | 0 <= i < n && 0 <= j < |behind| ensures KeyLe(Key(order, sorted[i]), Key(order, behind[j])) {
      assert behind[j] in multiset(behind);
      assert behind[j] in sorted[n..] + lost;
      if behind[j] in sorted[n..] {
        var k :| 0 <= k < |sorted| - n && sorted[n..][k] == behind[j];
        assert sorted[n + k] == behind[j];
      }
    }
  }
}
