/** The explicit table list: `ExplicitTable::parse_list` (src/types.rs) and
    `resolve_explicit_tables` (src/operations.rs). It feeds phase 8, whose at-most-once law
    needs the list to be free of duplicates. */
module ExplicitTables {
  import opened Text
  import opened Merge
  import RunnerLaws

  datatype ListError = Unqualified(entry: string) | Incomplete(entry: string) | TooManyDots(entry: string)

  /** One entry: nothing when blank, otherwise `schema.table`. */
  function ParseEntry(raw: string): Result<Option<Name>, ListError> {
    var entry := Trim(raw);
    if entry == "" then Ok(None) else
      var dot := IndexOf(entry, '.');
      if dot == |entry| then Err(Unqualified(entry))
      else
        var schema, table := entry[..dot], entry[dot + 1..];
        if schema == "" || table == "" then Err(Incomplete(entry))
        else if '.' in table then Err(TooManyDots(entry))
        else Ok(Some(Name(schema, table)))
  }

  /** The accepted entries are exactly the trimmed texts with one dot inside. */
  lemma ParseEntryAccepts(schema: string, table: string, raw: string)
    requires Trim(raw) == schema + "." + table && '.' !in schema
    ensures ParseEntry(raw) == Ok(Some(Name(schema, table))) <==> schema != "" && table != "" && '.' !in table
  {
    var entry := schema + "." + table;
    assert forall i :: 0 <= i < |schema| ==> schema[i] in schema;
    IndexOfUnique(entry, '.', |schema|);
    assert entry[..|schema|] == schema && entry[|schema| + 1..] == table;
  }

  /** What becomes of every other entry: a blank one names nothing; and one without a dot, with an
      empty part, or with a second dot is refused, in this order. */
  lemma ParseEntryRefuses(raw: string)
    ensures var entry := Trim(raw);
            && (entry == "" ==> ParseEntry(raw) == Ok(None))
            && (entry != "" && '.' !in entry ==> ParseEntry(raw) == Err(Unqualified(entry)))
            && (forall schema, table :: entry == schema + "." + table && '.' !in schema ==>
                  && (schema == "" || table == "" ==> ParseEntry(raw) == Err(Incomplete(entry)))
                  && (schema != "" && table != "" && '.' in table ==> ParseEntry(raw) == Err(TooManyDots(entry))))
  {
    var entry := Trim(raw);
    if '.' !in entry {
      IndexOfUnique(entry, '.', |entry|);
    }
    forall schema, table | entry == schema + "." + table && '.' !in schema
      ensures IndexOf(entry, '.') == |schema| && entry[..|schema|] == schema && entry[|schema| + 1..] == table
    {
      assert forall i :: 0 <= i < |schema| ==> schema[i] in schema;
      IndexOfUnique(entry, '.', |schema|);
    }
  }

  /** The names in the order in which they first occur. */
  function FirstOccurrences(names: seq<Name>): seq<Name> {
    if names == [] then [] else
      var front := FirstOccurrences(names[..|names| - 1]);
      if names[|names| - 1] in front then front else front + [names[|names| - 1]]
  }

  lemma {:induction false} FirstOccurrencesLaws(names: seq<Name>)
    ensures RunnerLaws.NoDup(FirstOccurrences(names)) && forall n :: n in FirstOccurrences(names) <==> n in names
  {
    if names != [] {
      assert names == names[..|names| - 1] + [names[|names| - 1]];
      FirstOccurrencesLaws(names[..|names| - 1]);
    }
  }

  /** The names of the entries that are not blank. */
  function Parsed(entries: seq<string>): seq<Name> {
    if entries == [] then [] else
      Parsed(entries[..|entries| - 1])
      + match ParseEntry(entries[|entries| - 1]) case Ok(Some(n)) => [n] case _ => []
  }

  lemma NothingParsed()
    ensures FirstOccurrences(Parsed([])) == []
  {
  }

  lemma ParsedStep(entries: seq<string>, i: nat)
    requires i < |entries|
    ensures match ParseEntry(entries[i])
            case Ok(Some(n)) =>
              && Parsed(entries[..i + 1]) == Parsed(entries[..i]) + [n]
              && var out := FirstOccurrences(Parsed(entries[..i]));
                 FirstOccurrences(Parsed(entries[..i + 1])) == if n in out then out else out + [n]
            case _ => Parsed(entries[..i + 1]) == Parsed(entries[..i])
  {
    hide ParseEntry;
    assert entries[..i + 1][..i] == entries[..i];
    match ParseEntry(entries[i])
    case Ok(Some(n)) =>
      var names := Parsed(entries[..i]);
      assert (names + [n])[..|names|] == names;
    case _ =>
  }

  /** `parse_list`: the first malformed entry decides; otherwise duplicates collapse onto
      their first occurrence and the order is kept. */
  method ParseList(entries: seq<string>) returns (r: Result<seq<Name>, ListError>)
    ensures r.Ok? ==> r.value == FirstOccurrences(Parsed(entries))
                      && forall i :: 0 <= i < |entries| ==> ParseEntry(entries[i]).Ok?
    ensures r.Err? ==> exists i :: 0 <= i < |entries| && ParseEntry(entries[i]) == Err(r.error)
                                   && forall j :: 0 <= j < i ==> ParseEntry(entries[j]).Ok?
  {
    hide Parsed, FirstOccurrences, Trim;
    var out: seq<Name> := [];
    NothingParsed();
    for i := 0 to |entries|
      invariant out == FirstOccurrences(Parsed(entries[..i]))
      invariant forall j :: 0 <= j < i ==> ParseEntry(entries[j]).Ok?
    {
      ParsedStep(entries, i);
      var entry := Trim(entries[i]);
      if entry == "" { continue; }
      var dot := IndexOf(entry, '.');
      if dot == |entry| { return Err(Unqualified(entry)); }
      var schema, table := entry[..dot], entry[dot + 1..];
      if schema == "" || table == "" { return Err(Incomplete(entry)); }
      if '.' in table { return Err(TooManyDots(entry)); }
      var candidate := Name(schema, table);
      if candidate !in out { out := out + [candidate]; }
    }
    assert entries[..|entries|] == entries;
    return Ok(out);
  }

  predicate InScope(n: Name, schemas: seq<string>, logbook: string, existing: set<Name>) {
    n.schema != logbook && n.schema in schemas && n in existing
  }

  function Kept(names: seq<Name>, schemas: seq<string>, logbook: string, existing: set<Name>): seq<Name> {
    if names == [] then [] else
      Kept(names[..|names| - 1], schemas, logbook, existing)
      + if InScope(names[|names| - 1], schemas, logbook, existing) then [names[|names| - 1]] else []
  }

  /** `resolve_explicit_tables`, given which of the tables in scope the catalog knows. */
  method Resolve(requested: seq<Name>, schemas: seq<string>, logbook: string,
        existing: set<Name>)
  returns (resolved: seq<Name>)
    ensures resolved == Kept(requested, schemas, logbook, existing)
  {
    resolved := [];
    for i := 0 to |requested|
      invariant resolved == Kept(requested[..i], schemas, logbook, existing)
    {
      assert requested[..i + 1][..i] == requested[..i];
      if requested[i].schema == logbook { continue; }
      if requested[i].schema !in schemas { continue; }
      if requested[i] in existing { resolved := resolved + [requested[i]]; }
    }
    assert requested[..|requested|] == requested;
  }

  /** Resolution keeps exactly the tables in scope and never introduces a duplicate. */
  lemma {:induction false} KeptLaws(names: seq<Name>, schemas: seq<string>, logbook: string, existing: set<Name>)
    requires RunnerLaws.NoDup(names)
    ensures RunnerLaws.NoDup(Kept(names, schemas, logbook, existing))
    ensures forall n :: n in Kept(names, schemas, logbook, existing) <==>
        n in names && n.schema != logbook && n.schema in schemas && n in existing
  {
    if names != [] {
      var front, last := names[..|names| - 1], names[|names| - 1];
      assert names == front + [last];
      KeptLaws(front, schemas, logbook, existing);
      assert last !in front;
    }
  }
}
