/** The password file of src/credentials.rs (section 34.16 of the PostgreSQL 16
    documentation): the field splitter and the first-match lookup. */
module PgPass {
  import opened Text
  import KeywordString
  import TrimLaw

  // ------------------------------------------------------------------------- splitting

  /** The fields of a line, given the part of the current field already read. */
  function SplitFrom(current: string, s: string): (r: seq<string>)
    ensures |r| >= 1
    decreases |s|
  {
    if s == "" then [current]
    else if s[0] == '\\' then
      if |s| > 1 && (s[1] == ':' || s[1] == '\\') then SplitFrom(current + [s[1]], s[2..])
      else SplitFrom(current + ['\\'], s[1..])
    else if s[0] == ':' then [current] + SplitFrom("", s[1..])
    else SplitFrom(current + [s[0]], s[1..])
  }

  /** `split_pgpass_line`: `line[i..]` is what the peekable iterator has left. */
  method SplitPgpassLine(line: string) returns (parts: seq<string>)
    ensures parts == SplitFrom("", line)
  {
    parts := [];
    var current, i := "", 0;
    assert line[0..] == line;
    while i < |line|
      invariant 0 <= i <= |line| && SplitFrom("", line) == parts + SplitFrom(current, line[i..])
    {
      var tail := line[i..];
      assert tail[1..] == line[i + 1..];
      var ch := line[i];
      i := i + 1;
      if ch == '\\' {
        if i < |line| && (line[i] == ':' || line[i] == '\\') {
          assert tail[2..] == line[i + 1..];
          current, i := current + [line[i]], i + 1;
        } else {
          current := current + ['\\'];
        }
      } else if ch == ':' {
        assert parts + ([current] + SplitFrom("", line[i..])) == parts + [current] + SplitFrom("", line[i..]);
        parts, current := parts + [current], "";
      } else {
        current := current + [ch];
      }
    }
    parts := parts + [current];
  }

  /** How a field is written: `:` and `\` get a backslash. */
  function EscapeChar(c: char): string { if c == ':' || c == '\\' then ['\\', c] else [c] }

  function EscapeField(f: string): string { if f == "" then "" else EscapeChar(f[0]) + EscapeField(f[1..]) }

  function EscapeFields(fields: seq<string>): (r: seq<string>)
    ensures |r| == |fields|
  {
    if fields == [] then [] else [EscapeField(fields[0])] + EscapeFields(fields[1..])
  }

  function Line(fields: seq<string>): string { Join(EscapeFields(fields), ":") }

  /** A backslash in front of any character that needs none is kept. */
  lemma StrayBackslash(current: string, rest: string)
    requires rest == "" || (rest[0] != ':' && rest[0] != '\\')
    ensures SplitFrom(current, "\\" + rest) == SplitFrom(current + "\\", rest)
  {
    assert ("\\" + rest)[1..] == rest;
  }

  lemma SplitOneEscaped(current: string, c: char, rest: string)
    ensures SplitFrom(current, EscapeChar(c) + rest) == SplitFrom(current + [c], rest)
  {
    if c == ':' || c == '\\' {
      var s := ['\\', c] + rest;
      assert s[1] == c && s[2..] == rest;
    } else {
      assert ([c] + rest)[1..] == rest;
    }
  }

  lemma {:induction false} SplitEscaped(current: string, f: string, tail: string)
    ensures SplitFrom(current, EscapeField(f) + tail) == SplitFrom(current + f, tail)
    decreases |f|
  {
    hide SplitFrom, EscapeChar;
    if f == "" {
      assert EscapeField(f) + tail == tail && current + f == current;
    } else {
      var rest := EscapeField(f[1..]) + tail;
      SplitOneEscaped(current, f[0], rest);
      assert EscapeField(f) + tail == EscapeChar(f[0]) + rest;
      SplitEscaped(current + [f[0]], f[1..], tail);
      assert current + [f[0]] + f[1..] == current + f;
    }
  }

  /** Splitting inverts escaping and joining, for every non-empty list of fields. */
  lemma {:induction false} SplitLine(fields: seq<string>)
    requires fields != []
    ensures SplitFrom("", Line(fields)) == fields
  {
    var f, rest := fields[0], fields[1..];
    assert EscapeFields(fields)[1..] == EscapeFields(rest);
    var tail := if rest == [] then "" else ":" + Line(rest);
    assert Line(fields) == EscapeField(f) + tail;
    SplitEscaped("", f, tail);
    assert "" + f == f;
    if rest != [] {
      assert tail[1..] == Line(rest);
      SplitLine(rest);
    }
    assert fields == [f] + rest;
  }

  // --------------------------------------------------------------------------- lookup

  datatype Query = Query(host: string, port: nat, database: string, username: string)

  predicate FieldMatches(field: string, value: string) { field == "" || field == "*" || field == value }

  predicate EntryMatches(fields: seq<string>, q: Query) {
    && |fields| == 5
    && FieldMatches(fields[0], q.host) && FieldMatches(fields[1], KeywordString.Decimal(q.port))
    && FieldMatches(fields[2], q.database) && FieldMatches(fields[3], q.username)
  }

  /** Host, port, database and user, in this order: each column is empty, a star, or the value
      asked for. */
  lemma EntryMatchesByColumn(host: string, port: string, database: string, user: string, password: string, q: Query)
    ensures EntryMatches([host, port, database, user, password], q) <==>
              && host in {"", "*", q.host} && port in {"", "*", KeywordString.Decimal(q.port)}
              && database in {"", "*", q.database} && user in {"", "*", q.username}
  {
  }

  predicate IsEntry(line: string) { line != "" && line[0] != '#' }

  predicate LineMatches(line: string, q: Query) {
    IsEntry(Trim(line)) && EntryMatches(SplitFrom("", Trim(line)), q)
  }

  /** A line without the carriage return that stood before its newline. */
  function ChopReturn(line: string): string {
    if line != "" && line[|line| - 1] == '\r' then line[..|line| - 1] else line
  }

  /** `str::lines`: what follows the last newline is a line only if it is not empty, and keeps
      its carriage return. */
  function FileLines(content: string): seq<string> {
    var k := IndexOf(content, '\n');
    if k < |content| then [ChopReturn(content[..k])] + FileLines(content[k + 1..])
    else if content == "" then []
    else [content]
  }

  /** What a lookup must return: the password of the first matching line, if there is one. */
  ghost predicate FirstMatch(lines: seq<string>, q: Query, r: Option<string>) {
    match r
    case None => forall i :: 0 <= i < |lines| ==> !LineMatches(lines[i], q)
    case Some(pw) =>
      exists i :: 0 <= i < |lines| && LineMatches(lines[i], q) && pw == SplitFrom("", Trim(lines[i]))[4]
                  && forall j :: 0 <= j < i ==> !LineMatches(lines[j], q)
  }

  /** The loop of `get_password_from_pgpass` over the lines of the file. */
  method GetPassword(content: string, q: Query) returns (r: Option<string>)
    ensures FirstMatch(FileLines(content), q, r)
  {
    var lines := FileLines(content);
    for i := 0 to |lines|
      invariant forall j :: 0 <= j < i ==> !LineMatches(lines[j], q)
    {
      var line := Trim(lines[i]);
      if line == "" || line[0] == '#' { continue; }
      var parts := SplitPgpassLine(line);
      if |parts| != 5 { continue; }
      var hostMatches := parts[0] == "" || parts[0] == "*" || parts[0] == q.host;
      var portMatches := parts[1] == "" || parts[1] == "*" || parts[1] == KeywordString.Decimal(q.port);
      var dbMatches := parts[2] == "" || parts[2] == "*" || parts[2] == q.database;
      var userMatches := parts[3] == "" || parts[3] == "*" || parts[3] == q.username;
      if hostMatches && portMatches && dbMatches && userMatches { return Some(parts[4]); }
    }
    return None;
  }

  /** An entry as a file may hold it: five fields and no newline. */
  ghost predicate Written(e: seq<string>) { |e| == 5 && '\n' !in Line(e) }

  /** What the reader makes of an entry, because it trims the line: blanks in front of the host
      and behind the password are lost. */
  function Seen(e: seq<string>): (r: seq<string>)
    requires |e| == 5
    ensures |r| == 5
  {
    e[0 := TrimStart(e[0])][4 := TrimEnd(e[4])]
  }

  /** The line is read as a comment, and not as an entry. */
  predicate Comment(e: seq<string>)
    requires |e| == 5
  {
    Seen(e)[0] != "" && Seen(e)[0][0] == '#'
  }

  datatype Ending = Unix | Windows {
    function Text(): string { if Unix? then "\n" else "\r\n" }
  }

  /** A file written from entries, with either line ending, after the last entry too or not. */
  function FileText(entries: seq<seq<string>>, ending: Ending, endsLast: bool): string {
    if entries == [] then "" else
      Line(entries[0])
          + ((if |entries| == 1 && !endsLast then "" else ending.Text()) + FileText(entries[1..], ending, endsLast))
  }

  lemma CutLine(front: string, rest: string)
    requires '\n' !in front
    ensures FileLines(front + ("\n" + rest)) == [ChopReturn(front)] + FileLines(rest)
  {
    hide ChopReturn;
    var content := front + ("\n" + rest);
    IndexOfUnique(content, '\n', |front|);
    assert content[..|front|] == front && content[|front| + 1..] == rest;
  }

  lemma ChopReturns(line: string)
    requires line == "" || line[|line| - 1] != '\r'
    ensures ChopReturn(line) == line && ChopReturn(line + ['\r']) == line
  {
  }

  /** One terminated line at the front of a file. */
  lemma FirstLine(line: string, ending: Ending, rest: string)
    requires '\n' !in line && (line == "" || line[|line| - 1] != '\r')
    ensures FileLines(line + (ending.Text() + rest)) == [line] + FileLines(rest)
  {
    hide FileLines, ChopReturn;
    ChopReturns(line);
    if ending.Unix? {
      CutLine(line, rest);
    } else {
      CutLine(line + ['\r'], rest);
      assert line + ("\r\n" + rest) == line + ['\r'] + ("\n" + rest);
    }
  }

  lemma LastLine(line: string)
    requires '\n' !in line && line != ""
    ensures FileLines(line) == [line]
  {
    IndexOfUnique(line, '\n', |line|);
  }

  /** The line of an entry, except that the carriage return behind its password may be lost. */
  predicate LineOf(line: string, e: seq<string>) { line == Line(e) || line + ['\r'] == Line(e) }

  lemma FirstLineOf(e: seq<string>, ending: Ending, rest: string)
    requires Written(e)
    ensures var lines := FileLines(Line(e) + (ending.Text() + rest));
            lines != [] && LineOf(lines[0], e) && lines[1..] == FileLines(rest)
  {
    hide FileLines, Line;
    var line := Line(e);
    if line != "" && line[|line| - 1] == '\r' {
      var cut := line[..|line| - 1];
      assert line == cut + ['\r'];
      if ending.Unix? {
        CutLine(line, rest);
      } else {
        CutLine(line + ['\r'], rest);
        assert line + ("\r\n" + rest) == line + ['\r'] + ("\n" + rest);
      }
    } else {
      FirstLine(line, ending, rest);
    }
  }

  /** Splitting a written file into lines gives the lines that were written. */
  lemma {:induction false} LinesOfFile(entries: seq<seq<string>>, ending: Ending, endsLast: bool)
    requires forall i :: 0 <= i < |entries| ==> Written(entries[i])
    ensures var lines := FileLines(FileText(entries, ending, endsLast));
            |lines| == |entries| && forall i :: 0 <= i < |lines| ==> LineOf(lines[i], entries[i])
  {
    hide FileLines, LineOf, Line;
    if entries == [] {
      NoLines();
    } else {
      var e, rest := entries[0], entries[1..];
      LinesOfFile(rest, ending, endsLast);
      if |entries| == 1 && !endsLast {
        assert rest == [] && Line(e) + ("" + "") == Line(e);
        NoLines();
        LineNotEmpty(e);
        LastLine(Line(e));
        SameLine(e);
      } else {
        FirstLineOf(e, ending, FileText(rest, ending, endsLast));
      }
    }
  }

  lemma SameLine(e: seq<string>)
    ensures LineOf(Line(e), e)
  {
  }

  lemma LineNotEmpty(e: seq<string>)
    requires |e| >= 2
    ensures Line(e) != ""
  {
  }

  lemma NoLines()
    ensures FileLines("") == []
  {
  }

  // ---------------------------------------------------------------- what trimming takes away

  lemma LineCons(f: string, rest: seq<string>)
    requires rest != []
    ensures Line([f] + rest) == EscapeField(f) + (":" + Line(rest))
  {
    assert ([f] + rest)[1..] == rest && EscapeFields([f] + rest)[1..] == EscapeFields(rest);
  }

  lemma {:induction false} LineSnoc(front: seq<string>, f: string)
    requires front != []
    ensures Line(front + [f]) == Line(front) + (":" + EscapeField(f))
  {
    hide Line;
    if |front| == 1 {
      OneField(front[0]);
      OneField(f);
      assert front == [front[0]];
      LineCons(front[0], [f]);
    } else {
      var rest := front[1..];
      assert front == [front[0]] + rest && front + [f] == [front[0]] + (rest + [f]);
      LineCons(front[0], rest);
      LineCons(front[0], rest + [f]);
      LineSnoc(rest, f);
    }
  }

  lemma OneField(f: string)
    ensures Line([f]) == EscapeField(f)
  {
  }

  lemma {:induction false} EscapeSnoc(f: string, c: char)
    ensures EscapeField(f + [c]) == EscapeField(f) + EscapeChar(c)
  {
    hide EscapeChar;
    if f == "" {
      assert f + [c] == [c] && EscapeField([c][1..]) == "";
    } else {
      assert (f + [c])[1..] == f[1..] + [c];
      EscapeSnoc(f[1..], c);
    }
  }

  /** Blanks in front of the first field, which are never escaped. */
  lemma {:induction false} TrimHost(f: string, rest: string)
    ensures TrimStart(EscapeField(f) + (":" + rest)) == EscapeField(TrimStart(f)) + (":" + rest)
  {
    hide IsWhitespace;
    var s := EscapeField(f) + (":" + rest);
    NoBlanks();
    if f != "" && IsWhitespace(f[0]) {
      assert s[0] == f[0] && s[1..] == EscapeField(f[1..]) + (":" + rest);
      TrimHost(f[1..], rest);
    }
  }

  lemma NoBlanks()
    ensures !IsWhitespace(':') && !IsWhitespace('\\')
  {
  }

  lemma {:induction false} TrimPassword(front: string, f: string)
    ensures TrimEnd(front + (":" + EscapeField(f))) == front + (":" + EscapeField(TrimEnd(f)))
    decreases |f|
  {
    hide IsWhitespace, EscapeField;
    NoBlanks();
    var s := front + (":" + EscapeField(f));
    if f == "" {
      EmptyField();
      assert s[|s| - 1] == ':';
    } else {
      var most, last := f[..|f| - 1], f[|f| - 1];
      assert f == most + [last];
      EscapeSnoc(most, last);
      assert s[|s| - 1] == last;
      if IsWhitespace(last) {
        assert s[..|s| - 1] == front + (":" + EscapeField(most));
        TrimPassword(front, most);
      }
    }
  }

  lemma EmptyField()
    ensures EscapeField("") == "" && TrimEnd("") == ""
  {
  }

  /** Trimming the line of an entry gives the line of what the reader sees. */
  lemma TrimLine(e: seq<string>)
    requires |e| == 5
    ensures Trim(Line(e)) == Line(Seen(e))
  {
    hide Line, TrimStart, TrimEnd;
    var e1 := e[0 := TrimStart(e[0])];
    assert e == [e[0]] + e[1..] && e1 == [e1[0]] + e[1..];
    LineCons(e[0], e[1..]);
    LineCons(e1[0], e[1..]);
    TrimHost(e[0], Line(e[1..]));
    assert e1 == e1[..4] + [e1[4]] && Seen(e) == e1[..4] + [TrimEnd(e[4])];
    LineSnoc(e1[..4], e1[4]);
    LineSnoc(e1[..4], TrimEnd(e[4]));
    TrimPassword(Line(e1[..4]), e[4]);
  }

  /** A lost carriage return makes no difference, because the line is trimmed. */
  lemma TrimReturn(line: string)
    ensures Trim(line + ['\r']) == Trim(line)
  {
    TrimLaw.TrimStartTail(line, ['\r']);
    var s := TrimStart(line);
    assert (s + ['\r'])[..|s|] == s;
  }

  lemma CommentLine(e: seq<string>)
    requires |e| == 5
    ensures IsEntry(Line(Seen(e))) <==> !Comment(e)
  {
    hide Line, TrimStart, TrimEnd;
    var seen := Seen(e);
    assert seen == [seen[0]] + seen[1..];
    LineCons(seen[0], seen[1..]);
  }

  /** The reader takes a line for the entry it was written from, as far as trimming leaves it. */
  lemma LineRead(line: string, e: seq<string>, q: Query)
    requires Written(e) && LineOf(line, e)
    ensures LineMatches(line, q) <==> !Comment(e) && EntryMatches(Seen(e), q)
    ensures SplitFrom("", Trim(line)) == Seen(e)
  {
    hide Line, Trim, EntryMatches, IsEntry, SplitFrom;
    TrimReturn(line);
    TrimLine(e);
    CommentLine(e);
    SplitLine(Seen(e));
  }

  predicate Answers(e: seq<string>, q: Query) { |e| == 5 && !Comment(e) && EntryMatches(Seen(e), q) }

  /** When an entry answers, told by its columns as they were written. */
  lemma AnswersByColumn(host: string, port: string, database: string, user: string, password: string, q: Query)
    ensures Answers([host, port, database, user, password], q) <==>
              && !(TrimStart(host) != "" && TrimStart(host)[0] == '#')
              && TrimStart(host) in {"", "*", q.host} && port in {"", "*", KeywordString.Decimal(q.port)}
              && database in {"", "*", q.database} && user in {"", "*", q.username}
  {
    hide TrimStart, TrimEnd, EntryMatches;
    var e := [host, port, database, user, password];
    assert Seen(e) == [TrimStart(host), port, database, user, TrimEnd(password)];
    EntryMatchesByColumn(TrimStart(host), port, database, user, TrimEnd(password), q);
  }

  /** In a file written from entries without newlines the lookup finds the first entry that is
      no comment and matches as the reader sees it, and returns its password without the blanks
      at its end. */
  lemma LookupEntries(entries: seq<seq<string>>, ending: Ending, endsLast: bool, q: Query, r: Option<string>)
    requires forall i :: 0 <= i < |entries| ==> Written(entries[i])
    requires FirstMatch(FileLines(FileText(entries, ending, endsLast)), q, r)
    ensures match r
            case None => forall i :: 0 <= i < |entries| ==> !Answers(entries[i], q)
            case Some(pw) =>
              exists i :: 0 <= i < |entries| && Answers(entries[i], q) && pw == TrimEnd(entries[i][4])
                          && forall j :: 0 <= j < i ==> !Answers(entries[j], q)
  {
    hide SplitFrom, FileLines, FileText, Trim, TrimStart, TrimEnd, EntryMatches, IsEntry, LineOf, Comment, LineMatches;
    LinesOfFile(entries, ending, endsLast);
    var lines := FileLines(FileText(entries, ending, endsLast));
    forall i | 0 <= i < |entries|
      ensures LineMatches(lines[i], q) <==> Answers(entries[i], q)
      ensures SplitFrom("", Trim(lines[i])) == Seen(entries[i])
    {
      LineRead(lines[i], entries[i], q);
    }
    if r.Some? {
      var i :| 0 <= i < |lines| && LineMatches(lines[i], q) && r.value == SplitFrom("", Trim(lines[i]))[4]
               && forall j :: 0 <= j < i ==> !LineMatches(lines[j], q);
      assert Answers(entries[i], q) && r.value == TrimEnd(entries[i][4]);
      assert forall j :: 0 <= j < i ==> !Answers(entries[j], q);
    }
  }

  /** The stored password comes back exactly if its entry answers and it does not end in a blank. */
  lemma StoredPassword(e: seq<string>, ending: Ending, endsLast: bool, q: Query, r: Option<string>)
    requires Written(e) && FirstMatch(FileLines(FileText([e], ending, endsLast)), q, r)
    ensures r == Some(e[4]) <==> Answers(e, q) && (e[4] == "" || !IsWhitespace(e[4][|e[4]| - 1]))
  {
    hide FileLines, FileText, FirstMatch, Answers, IsWhitespace;
    LookupEntries([e], ending, endsLast, q, r);
    assert [e][0] == e;
  }

  /** The first match is unique, so the lookup is a function of the file and the query. */
  lemma FirstMatchUnique(lines: seq<string>, q: Query, r: Option<string>, r': Option<string>)
    requires FirstMatch(lines, q, r) && FirstMatch(lines, q, r')
    ensures r == r'
  {
  }
}
