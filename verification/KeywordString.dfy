/** libpq keyword/value strings (section 34.1.1.1 of the PostgreSQL 16 documentation): the
    index-driven parser of src/dsn.rs, its two printers, and the laws that connect them. */
module KeywordString {
  import opened Text

  datatype Pair = Pair(key: string, value: string)
  datatype ParseError = EmptyName | NoValue(key: string) | Unterminated(key: string)

  // ---------------------------------------------------------------- parsing, as a function

  predicate IsKeyChar(c: char) { c != '=' && !IsWhitespace(c) }

  function KeyLength(s: string): (k: nat)
    ensures k <= |s| && (k < |s| ==> !IsKeyChar(s[k]))
    ensures forall i :: 0 <= i < k ==> IsKeyChar(s[i])
  {
    if s == "" || !IsKeyChar(s[0]) then 0 else 1 + KeyLength(s[1..])
  }

  /** Text after an opening quote: the value and what follows the closing quote. */
  function Quoted(s: string): (r: Option<(string, string)>)
    ensures r.Some? ==> |r.value.1| < |s|
  {
    if s == "" then None
    else if s[0] == '\\' && |s| > 1 then
      match Quoted(s[2..]) case None => None case Some((v, rest)) => Some(([s[1]] + v, rest))
    else if s[0] == '\'' then Some(("", s[1..]))
    else
      match Quoted(s[1..]) case None => None case Some((v, rest)) => Some(([s[0]] + v, rest))
  }

  /** An unquoted value and what follows it. */
  function Bare(s: string): (r: (string, string))
    ensures |r.1| <= |s|
  {
    if s == "" || IsWhitespace(s[0]) then ("", s)
    else if s[0] == '\\' && |s| > 1 then var (v, rest) := Bare(s[2..]); ([s[1]] + v, rest)
    else var (v, rest) := Bare(s[1..]); ([s[0]] + v, rest)
  }

  function Value(s: string): (r: Option<(string, string)>)
    ensures r.Some? ==> |r.value.1| <= |s|
  {
    if s != "" && s[0] == '\'' then Quoted(s[1..]) else Some(Bare(s))
  }

  datatype Token = Fail(error: ParseError) | Got(pair: Pair, rest: string)

  /** The pair at the head of a text that starts with a visible character. */
  function Head(s: string): (t: Token)
    ensures t.Got? && s != "" ==> |t.rest| < |s|
  {
    var k := KeyLength(s);
    var after := TrimStart(s[k..]);
    if k == 0 then Fail(EmptyName)
    else if after == "" || after[0] != '=' then Fail(NoValue(s[..k]))
    else
      match Value(TrimStart(after[1..]))
      case None => Fail(Unterminated(s[..k]))
      case Some((v, rest)) => Got(Pair(s[..k], v), rest)
  }

  function Prepend(front: seq<Pair>, r: Result<seq<Pair>, ParseError>): Result<seq<Pair>, ParseError> {
    match r case Ok(back) => Ok(front + back) case Err(e) => Err(e)
  }

  function Parse(s: string): Result<seq<Pair>, ParseError>
    decreases |s|
  {
    var visible := TrimStart(s);
    if visible == "" then Ok([]) else
      match Head(visible)
      case Fail(e) => Err(e)
      case Got(p, rest) => Prepend([p], Parse(rest))
  }

  // -------------------------------------------------------------- parsing, as the code does it

  /** `while i < len && chars[i].is_whitespace() { i += 1 }`. */
  method SkipWhitespace(chars: string, from: nat) returns (i: nat)
    requires from <= |chars|
    ensures from <= i <= |chars| && chars[i..] == TrimStart(chars[from..])
  {
    i := from;
    while i < |chars| && IsWhitespace(chars[i])
      invariant from <= i <= |chars| && TrimStart(chars[i..]) == TrimStart(chars[from..])
    {
      assert chars[i..][1..] == chars[i + 1..];
      i := i + 1;
    }
  }

  method ScanKey(chars: string, from: nat) returns (i: nat)
    requires from <= |chars|
    ensures from <= i <= |chars| && i - from == KeyLength(chars[from..])
  {
    i := from;
    while i < |chars| && chars[i] != '=' && !IsWhitespace(chars[i])
      invariant from <= i <= |chars| && KeyLength(chars[from..]) == i - from + KeyLength(chars[i..])
    {
      assert chars[i..][1..] == chars[i + 1..];
      i := i + 1;
    }
  }

  function WithPrefix(v: string, r: Option<(string, string)>): Option<(string, string)> {
    match r case None => None case Some((w, rest)) => Some((v + w, rest))
  }

  lemma WithPrefixLaws(a: string, b: string, r: Option<(string, string)>)
    ensures WithPrefix("", r) == r
    ensures WithPrefix(a, WithPrefix(b, r)) == WithPrefix(a + b, r)
  {
    if r.Some? {
      assert "" + r.value.0 == r.value.0;
      assert a + (b + r.value.0) == a + b + r.value.0;
    }
  }

  lemma PrependLaws(a: seq<Pair>, b: seq<Pair>, r: Result<seq<Pair>, ParseError>)
    ensures Prepend([], r) == r
    ensures Prepend(a, Prepend(b, r)) == Prepend(a + b, r)
  {
    if r.Ok? {
      assert [] + r.value == r.value;
      assert a + (b + r.value) == a + b + r.value;
    }
  }

  method ScanQuoted(chars: string, from: nat) returns (i: nat, value: string, closed: bool)
    requires from <= |chars|
    ensures from <= i <= |chars|
    ensures Quoted(chars[from..]) == if closed then Some((value, chars[i..])) else None
  {
    i, value, closed := from, "", false;
    WithPrefixLaws("", "", Quoted(chars[i..]));
    while i < |chars|
      invariant from <= i <= |chars| && !closed
      invariant Quoted(chars[from..]) == WithPrefix(value, Quoted(chars[i..]))
    {
      var tail := chars[i..];
      assert tail[1..] == chars[i + 1..];
      if chars[i] == '\\' && i + 1 < |chars| {
        assert tail[2..] == chars[i + 2..];
        WithPrefixLaws(value, [chars[i + 1]], Quoted(chars[i + 2..]));
        value, i := value + [chars[i + 1]], i + 2;
      } else if chars[i] == '\'' {
        assert value + "" == value;
        i, closed := i + 1, true;
        break;
      } else {
        WithPrefixLaws(value, [chars[i]], Quoted(chars[i + 1..]));
        value, i := value + [chars[i]], i + 1;
      }
    }
  }

  method ScanBare(chars: string, from: nat) returns (i: nat, value: string)
    requires from <= |chars|
    ensures from <= i <= |chars| && Bare(chars[from..]) == (value, chars[i..])
  {
    i, value := from, "";
    WithPrefixLaws("", "", Some(Bare(chars[i..])));
    while i < |chars| && !IsWhitespace(chars[i])
      invariant from <= i <= |chars|
      invariant Some(Bare(chars[from..])) == WithPrefix(value, Some(Bare(chars[i..])))
    {
      var tail := chars[i..];
      assert tail[1..] == chars[i + 1..];
      if chars[i] == '\\' && i + 1 < |chars| {
        assert tail[2..] == chars[i + 2..];
        WithPrefixLaws(value, [chars[i + 1]], Some(Bare(chars[i + 2..])));
        value, i := value + [chars[i + 1]], i + 2;
      } else {
        WithPrefixLaws(value, [chars[i]], Some(Bare(chars[i + 1..])));
        value, i := value + [chars[i]], i + 1;
      }
    }
    assert value + "" == value;
  }

  method ScanValue(chars: string, from: nat) returns (i: nat, value: string, closed: bool)
    requires from <= |chars|
    ensures from <= i <= |chars|
    ensures Value(chars[from..]) == if closed then Some((value, chars[i..])) else None
  {
    if from < |chars| && chars[from] == '\'' {
      assert chars[from..][1..] == chars[from + 1..];
      i, value, closed := ScanQuoted(chars, from + 1);
    } else {
      i, value := ScanBare(chars, from);
      closed := true;
    }
  }

  /** One turn of the parser's loop, from the first character of a key. */
  method ScanPair(chars: string, from: nat) returns (i: nat, r: Result<Pair, ParseError>)
    requires from < |chars|
    ensures r.Ok? ==> from < i <= |chars| && Head(chars[from..]) == Got(r.value, chars[i..])
    ensures r.Err? ==> Head(chars[from..]) == Fail(r.error)
  {
    hide IsWhitespace, TrimStart, KeyLength, Value;
    i := ScanKey(chars, from);
    var key := chars[from..i];
    assert chars[from..][..i - from] == key && chars[from..][i - from..] == chars[i..];
    if key == "" { return i, Err(EmptyName); }
    i := SkipWhitespace(chars, i);
    if i >= |chars| || chars[i] != '=' { return i, Err(NoValue(key)); }
    assert chars[i..][1..] == chars[i + 1..];
    i := SkipWhitespace(chars, i + 1);
    var value, closed;
    i, value, closed := ScanValue(chars, i);
    r := if closed then Ok(Pair(key, value)) else Err(Unterminated(key));
  }

  /** `split_keyword_pairs`. */
  method SplitKeywordPairs(chars: string) returns (r: Result<seq<Pair>, ParseError>)
    ensures r == Parse(chars)
  {
    var pairs, i := [], 0;
    PrependLaws([], [], Parse(chars));
    assert chars[0..] == chars;
    while i < |chars|
      invariant 0 <= i <= |chars| && Parse(chars) == Prepend(pairs, Parse(chars[i..]))
    {
      var start := SkipWhitespace(chars, i);
      if start >= |chars| {
        assert pairs + [] == pairs;
        return Ok(pairs);
      }
      var end, found := ScanPair(chars, start);
      if found.Err? { return Err(found.error); }
      PrependLaws(pairs, [found.value], Parse(chars[end..]));
      pairs, i := pairs + [found.value], end;
    }
    assert pairs + [] == pairs;
    return Ok(pairs);
  }

  // ---------------------------------------------------------------------------- printing

  predicate NeedsQuotes(s: string) { exists i :: 0 <= i < |s| && (IsWhitespace(s[i]) || s[i] == '\'' || s[i] == '\\') }

  function QuoteInner(s: string): string { Replace(Replace(s, '\\', "\\\\"), '\'', "\\'") }

  /** `escape_keyword_value` (src/dsn.rs). */
  function EscapeKeywordValue(s: string): string {
    if s == "" || NeedsQuotes(s) then "'" + QuoteInner(s) + "'" else s
  }

  /** `escape_libpq_value` (src/connection.rs), which leaves the empty string unquoted. */
  function EscapeLibpqValue(s: string): string {
    if NeedsQuotes(s) then "'" + QuoteInner(s) + "'" else s
  }

  function PrintPair(p: Pair): string { p.key + "=" + EscapeKeywordValue(p.value) }

  function PrintAll(ps: seq<Pair>): (r: seq<string>)
    ensures |r| == |ps|
  {
    if ps == [] then [] else [PrintPair(ps[0])] + PrintAll(ps[1..])
  }

  /** The space-joined text both `extract_ssl_params` and `redact` produce. */
  function Print(ps: seq<Pair>): string { Join(PrintAll(ps), " ") }

  predicate ValidKey(k: string) { k != "" && forall i :: 0 <= i < |k| ==> IsKeyChar(k[i]) }

  ghost predicate ValidKeys(ps: seq<Pair>) { forall i :: 0 <= i < |ps| ==> ValidKey(ps[i].key) }

  // -------------------------------------------------------------------- the round trip

  lemma TrimStartFixed(s: string)
    requires s == "" || !IsWhitespace(s[0])
    ensures TrimStart(s) == s
  {
  }

  lemma {:induction false} KeyLengthOf(k: string, tail: string)
    requires forall i :: 0 <= i < |k| ==> IsKeyChar(k[i])
    requires tail == "" || !IsKeyChar(tail[0])
    ensures KeyLength(k + tail) == |k|
  {
    if k == "" {
      assert k + tail == tail;
    } else {
      assert (k + tail)[1..] == k[1..] + tail;
      KeyLengthOf(k[1..], tail);
    }
  }

  /** The two `replace` calls escape every character on its own: the second does not
      disturb the backslashes the first one wrote. */
  lemma QuoteInnerStep(c: char, s: string)
    ensures QuoteInner([c] + s) == (if c == '\\' then "\\\\" else if c == '\'' then "\\'" else [c]) + QuoteInner(s)
  {
    assert ([c] + s)[1..] == s;
    var first := if c == '\\' then "\\\\" else [c];
    ReplaceConcat(first, Replace(s, '\\', "\\\\"), '\'', "\\'");
    assert Replace("\\\\", '\'', "\\'") == "\\\\" by {
      assert "\\\\"[1..] == "\\";
    }
  }

  predicate MustEscape(c: char, quoted: bool) { c == '\\' || (if quoted then c == '\'' else IsWhitespace(c)) }

  /** Every libpq spelling of a value: a backslash before each character that needs one, and
      before any other the writer chooses. */
  function Spell(value: string, quoted: bool, escaped: seq<bool>): string
    requires |escaped| == |value|
  {
    if value == "" then "" else
      (if escaped[0] || MustEscape(value[0], quoted) then ['\\', value[0]] else [value[0]])
          + Spell(value[1..], quoted, escaped[1..])
  }

  function Plainly(n: nat): (r: seq<bool>)
    ensures |r| == n && forall i :: 0 <= i < n ==> !r[i]
  {
    seq(n, _ => false)
  }

  lemma {:induction false} SpelledQuoted(s: string, escaped: seq<bool>, tail: string)
    requires |escaped| == |s|
    ensures Quoted(Spell(s, true, escaped) + "'" + tail) == Some((s, tail))
  {
    var rest := "'" + tail;
    assert Spell(s, true, escaped) + "'" + tail == Spell(s, true, escaped) + rest;
    if s == "" {
      assert "" + rest == rest && rest[1..] == tail;
    } else {
      SpelledQuoted(s[1..], escaped[1..], tail);
      var front := if escaped[0] || MustEscape(s[0], true) then ['\\', s[0]] else [s[0]];
      var back := Spell(s[1..], true, escaped[1..]) + "'" + tail;
      assert Spell(s, true, escaped) + rest == front + back;
      assert (front + back)[|front|..] == back;
      assert s == [s[0]] + s[1..];
    }
  }

  lemma {:induction false} SpelledBare(s: string, escaped: seq<bool>, tail: string)
    requires |escaped| == |s| && (tail == "" || IsWhitespace(tail[0]))
    ensures Bare(Spell(s, false, escaped) + tail) == (s, tail)
  {
    if s == "" {
      assert "" + tail == tail;
    } else {
      SpelledBare(s[1..], escaped[1..], tail);
      var front := if escaped[0] || MustEscape(s[0], false) then ['\\', s[0]] else [s[0]];
      var back := Spell(s[1..], false, escaped[1..]) + tail;
      assert Spell(s, false, escaped) + tail == front + back;
      assert (front + back)[|front|..] == back;
      assert s == [s[0]] + s[1..];
    }
  }

  lemma {:induction false} QuoteInnerSpells(s: string)
    ensures QuoteInner(s) == Spell(s, true, Plainly(|s|))
  {
    if s != "" {
      assert s == [s[0]] + s[1..];
      QuoteInnerStep(s[0], s[1..]);
      QuoteInnerSpells(s[1..]);
      assert Plainly(|s|)[1..] == Plainly(|s| - 1);
    }
  }

  lemma {:induction false} BareSpells(s: string)
    requires !NeedsQuotes(s)
    ensures s == Spell(s, false, Plainly(|s|))
  {
    if s != "" {
      assert !NeedsQuotes(s[1..]);
      BareSpells(s[1..]);
      assert Plainly(|s|)[1..] == Plainly(|s| - 1) && s == [s[0]] + s[1..];
    }
  }

  lemma QuotedInverts(s: string, tail: string)
    ensures Quoted(QuoteInner(s) + "'" + tail) == Some((s, tail))
  {
    QuoteInnerSpells(s);
    SpelledQuoted(s, Plainly(|s|), tail);
  }

  lemma BareInverts(s: string, tail: string)
    requires !NeedsQuotes(s)
    requires tail == "" || IsWhitespace(tail[0])
    ensures Bare(s + tail) == (s, tail)
  {
    BareSpells(s);
    SpelledBare(s, Plainly(|s|), tail);
  }

  /** A printed value is read back, up to the blank that ends it. */
  lemma ValueInverts(value: string, tail: string)
    requires tail == "" || IsWhitespace(tail[0])
    ensures Value(EscapeKeywordValue(value) + tail) == Some((value, tail))
  {
    if value == "" || NeedsQuotes(value) {
      var s := QuoteInner(value) + "'" + tail;
      assert EscapeKeywordValue(value) + tail == "'" + s;
      assert ("'" + s)[1..] == s;
      QuotedInverts(value, tail);
    } else {
      assert (value + tail)[0] == value[0];
      BareInverts(value, tail);
    }
  }

  lemma HeadOf(key: string, after: string)
    requires ValidKey(key)
    ensures Head(key + ("=" + after)) ==
            match Value(TrimStart(after))
            case None => Fail(Unterminated(key))
            case Some((v, rest)) => Got(Pair(key, v), rest)
  {
    var s1 := "=" + after;
    var s := key + s1;
    KeyLengthOf(key, s1);
    assert s[..|key|] == key && s[|key|..] == s1 && s1[1..] == after;
  }

  /** Any text for a value: quoted, or bare if it is not empty and starts with no quote. */
  ghost predicate Spells(text: string, value: string) {
    || (exists es: seq<bool> :: |es| == |value| && text == "'" + Spell(value, true, es) + "'")
    || (exists es: seq<bool> :: |es| == |value| && text == Spell(value, false, es) && text != "" && text[0] != '\'')
  }

  lemma ValueOfSpelling(text: string, value: string, tail: string)
    requires Spells(text, value) && (tail == "" || IsWhitespace(tail[0]))
    ensures Value(text + tail) == Some((value, tail))
  {
    if text[0] == '\'' {
      var es: seq<bool> :| |es| == |value| && text == "'" + Spell(value, true, es) + "'";
      assert (text + tail)[1..] == Spell(value, true, es) + "'" + tail;
      SpelledQuoted(value, es, tail);
    } else {
      var es: seq<bool> :| |es| == |value| && text == Spell(value, false, es);
      SpelledBare(value, es, tail);
    }
  }

  predicate Blank(s: string) { forall i :: 0 <= i < |s| ==> IsWhitespace(s[i]) }

  lemma {:induction false} SkipBlank(b: string, s: string)
    requires Blank(b)
    ensures TrimStart(b + s) == TrimStart(s)
  {
    if b == "" {
      assert b + s == s;
    } else {
      assert (b + s)[1..] == b[1..] + s;
      SkipBlank(b[1..], s);
    }
  }

  lemma SpellingIsVisible(text: string, value: string)
    requires Spells(text, value)
    ensures text != "" && !IsWhitespace(text[0])
  {
    if text[0] != '\'' {
      var es: seq<bool> :| |es| == |value| && text == Spell(value, false, es);
      assert value != "" && text[0] == (if es[0] || MustEscape(value[0], false) then '\\' else value[0]);
    }
  }

  /** libpq's rule in full: blanks may stand before the key and around the `=`, and the value
      may be spelled in any way; one pair is read and the rest is left. */
  lemma ParseAnySpelling(b0: string, key: string, b1: string, b2: string, text: string, value: string, tail: string)
    requires Blank(b0) && Blank(b1) && Blank(b2) && ValidKey(key) && Spells(text, value)
    requires tail == "" || IsWhitespace(tail[0])
    ensures Parse(b0 + (key + (b1 + ("=" + (b2 + (text + tail)))))) == Prepend([Pair(key, value)], Parse(tail))
  {
    hide IsWhitespace, Spells;
    var after := "=" + (b2 + (text + tail));
    var s := key + (b1 + after);
    SkipBlank(b0, s);
    TrimStartFixed(s);
    assert Parse(b0 + s) == Parse(s);
    EqualsSign();
    assert b1 + after != "" && !IsKeyChar((b1 + after)[0]);
    KeyLengthOf(key, b1 + after);
    assert s[..|key|] == key && s[|key|..] == b1 + after;
    SkipBlank(b1, after);
    TrimStartFixed(after);
    assert after[1..] == b2 + (text + tail);
    SkipBlank(b2, text + tail);
    SpellingIsVisible(text, value);
    TrimStartFixed(text + tail);
    ValueOfSpelling(text, value, tail);
  }

  lemma EqualsSign()
    ensures !IsWhitespace('=')
  {
  }

  /** One printed `key=value` is read back, whatever follows the blank after it. */
  lemma ParseOne(key: string, value: string, tail: string)
    requires ValidKey(key)
    requires tail == "" || IsWhitespace(tail[0])
    ensures Parse(key + ("=" + (EscapeKeywordValue(value) + tail))) == Prepend([Pair(key, value)], Parse(tail))
  {
    HeadOf(key, EscapeKeywordValue(value) + tail);
    ValueInverts(value, tail);
  }

  lemma ParseSkipsBlank(tail: string)
    ensures Parse(" " + tail) == Parse(tail)
  {
    assert (" " + tail)[1..] == tail;
  }

  lemma JoinFirst(first: string, rest: seq<string>)
    ensures Join([first] + rest, " ") == first + if rest == [] then "" else " " + Join(rest, " ")
  {
    assert ([first] + rest)[1..] == rest;
  }

  lemma ToTheRight(a: string, b: string, c: string, d: string)
    ensures a + b + c + d == a + (b + (c + d))
  {
  }

  lemma PrintStep(p: Pair, rest: seq<Pair>)
    ensures Print([p] + rest)
        == p.key + ("=" + (EscapeKeywordValue(p.value) + if rest == [] then "" else " " + Print(rest)))
  {
    hide Join, EscapeKeywordValue;
    assert ([p] + rest)[1..] == rest;
    JoinFirst(PrintPair(p), PrintAll(rest));
    ToTheRight(p.key, "=", EscapeKeywordValue(p.value), if rest == [] then "" else " " + Print(rest));
  }

  /** Parser and printer invert, for every sequence of pairs with well-formed keys. */
  lemma {:induction false} ParsePrint(ps: seq<Pair>)
    requires ValidKeys(ps)
    ensures Parse(Print(ps)) == Ok(ps)
  {
    if ps != [] {
      var p, rest := ps[0], ps[1..];
      assert ps == [p] + rest;
      ParsePrint(rest);
      PrintStep(p, rest);
      ParseOne(p.key, p.value, if rest == [] then "" else " " + Print(rest));
      ParseSkipsBlank(Print(rest));
    }
  }

  /** The hypothesis of `ParsePrint` is met by everything the parser returns. */
  lemma {:induction false} ParsedKeysValid(s: string)
    requires Parse(s).Ok?
    ensures ValidKeys(Parse(s).value)
    decreases |s|
  {
    var s0 := TrimStart(s);
    if s0 != "" {
      var k := KeyLength(s0);
      var s2 := TrimStart(TrimStart(s0[k..])[1..]);
      ParsedKeysValid(if s2 != "" && s2[0] == '\'' then Quoted(s2[1..]).value.1 else Bare(s2).1);
    }
  }

  /** Printing a parsed string gives a normal form: parsing it again changes nothing. */
  lemma NormalForm(s: string)
    requires Parse(s).Ok?
    ensures Parse(Print(Parse(s).value)) == Parse(s)
  {
    ParsedKeysValid(s);
    ParsePrint(Parse(s).value);
  }

  // ------------------------------------------------------- the connection string builder

  function DigitChar(d: nat): char
    requires d < 10
  {
    (d + '0' as int) as char
  }

  function Decimal(n: nat): (s: string)
    ensures s != "" && forall i :: 0 <= i < |s| ==> '0' <= s[i] <= '9'
  {
    if n < 10 then [DigitChar(n)] else Decimal(n / 10) + [DigitChar(n % 10)]
  }

  /** The fields of `ConnectionConfig` that reach the connection string. */
  datatype ConnectionConfig = ConnectionConfig(
    host: string, port: nat, database: string, username: string, timeoutSeconds: nat, password: Option<string>)

  /** The fields as a reader of the string should see them. */
  function Fields(c: ConnectionConfig): seq<Pair> {
    [Pair("host", c.host), Pair("port", Decimal(c.port)), Pair("dbname", c.database), Pair("user", c.username),
     Pair("connect_timeout", Decimal(c.timeoutSeconds))]
    + match c.password case None => [] case Some(pw) => [Pair("password", pw)]
  }

  function FieldText(p: Pair): string { p.key + "=" + EscapeLibpqValue(p.value) }

  function FieldTexts(ps: seq<Pair>): (r: seq<string>)
    ensures |r| == |ps|
  {
    if ps == [] then [] else [FieldText(ps[0])] + FieldTexts(ps[1..])
  }

  /** Text of a list of fields under the escaper that leaves the empty value bare. */
  function Render(ps: seq<Pair>): string { Join(FieldTexts(ps), " ") }

  lemma DecimalIsBare(n: nat)
    ensures EscapeLibpqValue(Decimal(n)) == Decimal(n)
  {
  }

  lemma {:induction false} JoinSnoc(parts: seq<string>, last: string, sep: string)
    requires parts != []
    ensures Join(parts + [last], sep) == Join(parts, sep) + (sep + last)
  {
    assert (parts + [last])[1..] == parts[1..] + [last];
    if |parts| > 1 {
      JoinSnoc(parts[1..], last, sep);
      assert Join(parts + [last], sep) == parts[0] + sep + (Join(parts[1..], sep) + (sep + last));
    }
  }

  lemma {:induction false} FieldTextsSnoc(ps: seq<Pair>, p: Pair)
    ensures FieldTexts(ps + [p]) == FieldTexts(ps) + [FieldText(p)]
  {
    if ps != [] {
      assert (ps + [p])[1..] == ps[1..] + [p];
      FieldTextsSnoc(ps[1..], p);
    }
  }

  /** `ConnectionConfig::build_connection_string`. */
  method BuildConnectionString(c: ConnectionConfig) returns (s: string)
    ensures s == Render(Fields(c))
  {
    s := Join([FieldText(Pair("host", c.host)), "port" + "=" + Decimal(c.port), FieldText(Pair("dbname", c.database)),
               FieldText(Pair("user", c.username)), "connect_timeout" + "=" + Decimal(c.timeoutSeconds)], " ");
    ghost var always := Fields(c.(password := None));
    DecimalIsBare(c.port);
    DecimalIsBare(c.timeoutSeconds);
    assert FieldTexts(always) == [FieldText(always[0]), FieldText(always[1]), FieldText(always[2]),
                                  FieldText(always[3]), FieldText(always[4])] by {
      assert always[1..][1..] == always[2..] && always[2..][1..] == always[3..] && always[3..][1..] == always[4..];
      assert FieldTexts(always[4..]) == [FieldText(always[4])];
      assert FieldTexts(always[2..]) == [FieldText(always[2]), FieldText(always[3]), FieldText(always[4])];
    }
    if c.password.Some? {
      ghost var p := Pair("password", c.password.value);
      FieldTextsSnoc(always, p);
      JoinSnoc(FieldTexts(always), FieldText(p), " ");
      assert Fields(c) == always + [p];
      s := s + (" " + FieldText(Pair("password", c.password.value)));
    }
  }

  lemma RenderStep(p: Pair, rest: seq<Pair>)
    ensures Render([p] + rest)
        == p.key + ("=" + (EscapeLibpqValue(p.value) + if rest == [] then "" else " " + Render(rest)))
  {
    hide Join, EscapeLibpqValue;
    assert ([p] + rest)[1..] == rest;
    JoinFirst(FieldText(p), FieldTexts(rest));
    ToTheRight(p.key, "=", EscapeLibpqValue(p.value), if rest == [] then "" else " " + Render(rest));
  }

  /** A field whose value is not empty, or that ends the text, is read back. */
  lemma ParseField(key: string, value: string, next: string)
    requires ValidKey(key) && (value != "" || next == "")
    requires next == "" || IsWhitespace(next[0])
    ensures Parse(key + ("=" + (EscapeLibpqValue(value) + next))) == Prepend([Pair(key, value)], Parse(next))
  {
    HeadOf(key, EscapeLibpqValue(value) + next);
    if value != "" {
      ValueInverts(value, next);
    } else {
      assert EscapeLibpqValue(value) + next == "";
    }
  }

  /** An empty unquoted value swallows the word that follows it. */
  lemma EmptyFieldSwallows(key: string, next: string)
    requires ValidKey(key) && next != "" && IsKeyChar(next[0]) && next[0] != '\''
    ensures var r := Parse(key + ("=" + (EscapeLibpqValue("") + (" " + next))));
            r.Ok? ==> |r.value| > 0 && r.value[0].value != ""
  {
    HeadOf(key, EscapeLibpqValue("") + (" " + next));
    assert EscapeLibpqValue("") + (" " + next) == " " + next && (" " + next)[1..] == next;
  }

  lemma PrependOk(p: Pair, r: Result<seq<Pair>, ParseError>, rest: seq<Pair>)
    ensures Prepend([p], r) == Ok([p] + rest) <==> r == Ok(rest)
  {
    if r.Ok? {
      assert ([p] + r.value)[1..] == r.value && ([p] + rest)[1..] == rest;
    }
  }

  /** Reading a rendered list back gives the list exactly when no value but the last is empty. */
  lemma {:induction false} ParseRender(ps: seq<Pair>)
    requires ValidKeys(ps) && forall i :: 0 <= i < |ps| ==> ps[i].key[0] != '\''
    ensures Parse(Render(ps)) == Ok(ps) <==> forall i :: 0 <= i < |ps| - 1 ==> ps[i].value != ""
  {
    if ps != [] {
      var p, rest := ps[0], ps[1..];
      assert ps == [p] + rest;
      ParseRender(rest);
      RenderStep(p, rest);
      ParseSkipsBlank(Render(rest));
      if rest == [] {
        ParseField(p.key, p.value, "");
      } else {
        RenderStep(rest[0], rest[1..]);
        assert rest == [rest[0]] + rest[1..];
        if p.value == "" {
          EmptyFieldSwallows(p.key, Render(rest));
          assert ps[0].value == "";
        } else {
          ParseField(p.key, p.value, " " + Render(rest));
          PrependOk(p, Parse(Render(rest)), rest);
          assert (forall i :: 0 <= i < |ps| - 1 ==> ps[i].value != "") <==>
              (forall i :: 0 <= i < |rest| - 1 ==> rest[i].value != "") by {
            assert forall i :: 0 < i < |ps| ==> ps[i] == rest[i - 1];
            assert forall i :: 0 <= i < |rest| ==> rest[i] == ps[i + 1];
          }
        }
      }
    }
  }

  lemma LowerCaseKey(k: string)
    requires k != "" && forall c :: c in k ==> 'a' <= c <= 'z' || c == '_'
    ensures ValidKey(k) && k[0] != '\''
  {
    assert forall i :: 0 <= i < |k| ==> k[i] in k;
  }

  lemma FieldKeysValid(c: ConnectionConfig)
    ensures ValidKeys(Fields(c)) && forall i :: 0 <= i < |Fields(c)| ==> Fields(c)[i].key[0] != '\''
  {
    LowerCaseKey("host");
    LowerCaseKey("port");
    LowerCaseKey("dbname");
    LowerCaseKey("user");
    LowerCaseKey("connect_timeout");
    LowerCaseKey("password");
  }

  /** A built connection string reads back as the configured fields exactly when host,
      database and user are not empty; an empty password is harmless because it is last. */
  lemma BuiltStringReparses(c: ConnectionConfig)
    ensures Parse(Render(Fields(c))) == Ok(Fields(c)) <==> c.host != "" && c.database != "" && c.username != ""
  {
    var f := Fields(c);
    FieldKeysValid(c);
    ParseRender(f);
    assert f[0].value == c.host && f[2].value == c.database && f[3].value == c.username;
  }

  /** The number that a text of digits denotes. */
  function Denotes(s: string): int {
    if s == "" then 0 else 10 * Denotes(s[..|s| - 1]) + (s[|s| - 1] as int - '0' as int)
  }

  lemma {:induction false} DecimalDenotes(n: nat)
    ensures Denotes(Decimal(n)) == n
  {
    if n < 10 {
      assert Decimal(n)[..0] == "" && Denotes("") == 0;
    } else {
      DecimalDenotes(n / 10);
      var front, last := Decimal(n / 10), DigitChar(n % 10);
      assert (front + [last])[..|front|] == front;
    }
  }

  /** The value under a key that stands alone in a list. */
  ghost predicate HasValue(ps: seq<Pair>, key: string, value: string) {
    exists i :: 0 <= i < |ps| && ps[i] == Pair(key, value) && forall j :: 0 <= j < |ps| && ps[j].key == key ==> j == i
  }

  /** What a reader of a built connection string finds under each name, host, database and user not
      being empty: the configured values, and numbers that denote the port and the timeout. */
  lemma BuiltStringValues(c: ConnectionConfig)
    requires c.host != "" && c.database != "" && c.username != ""
    ensures var r := Parse(Render(Fields(c)));
            && r.Ok? && |r.value| == (if c.password.Some? then 6 else 5)
            && HasValue(r.value, "host", c.host) && HasValue(r.value, "dbname", c.database)
            && HasValue(r.value, "user", c.username)
               && (c.password.Some? ==> HasValue(r.value, "password", c.password.value))
            && (exists port :: HasValue(r.value, "port", port) && Denotes(port) == c.port)
            && (exists timeout :: HasValue(r.value, "connect_timeout", timeout) && Denotes(timeout) == c.timeoutSeconds)
  {
    hide Parse, Render, Decimal;
    BuiltStringReparses(c);
    DecimalDenotes(c.port);
    DecimalDenotes(c.timeoutSeconds);
    var f := Fields(c);
    assert HasValue(f, "host", c.host) by { assert f[0] == Pair("host", c.host); }
    assert HasValue(f, "port", Decimal(c.port)) by { assert f[1] == Pair("port", Decimal(c.port)); }
    assert HasValue(f, "dbname", c.database) by { assert f[2] == Pair("dbname", c.database); }
    assert HasValue(f, "user", c.username) by { assert f[3] == Pair("user", c.username); }
    assert HasValue(f, "connect_timeout", Decimal(c.timeoutSeconds)) by {
      assert f[4] == Pair("connect_timeout", Decimal(c.timeoutSeconds));
    }
    if c.password.Some? {
      assert f[5] == Pair("password", c.password.value);
    }
  }
}
