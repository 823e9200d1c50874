/** The keyword/value syntax of libpq as a grammar on texts, without positions and without a parser,
    and the proof that the parser of src/dsn.rs accepts exactly this grammar and reports the first
    place at which a text leaves it. */
module KeywordGrammar {
  import opened Text
  import opened KeywordString

  // ---------------------------------------------------------------------------- the grammar

  /** An unquoted value ends at a blank or with the text. */
  predicate Ended(tail: string) { tail == "" || IsWhitespace(tail[0]) }

  /** A value between quotes; whatever comes next, even without a blank. */
  ghost predicate InQuotes(text: string, value: string) {
    exists es: seq<bool> :: |es| == |value| && text == "'" + (Spell(value, true, es) + "'")
  }

  /** An unquoted value, up to a blank or the end. */
  ghost predicate Unquoted(text: string, value: string, tail: string) {
    && text != "" && text[0] != '\'' && Ended(tail)
    && exists es: seq<bool> :: |es| == |value| && text == Spell(value, false, es)
  }

  /** An unquoted value at the very end whose last backslash has nothing to escape: it stands for
      itself. */
  ghost predicate EndsInBackslash(text: string, value: string, tail: string) {
    && text != "" && text[0] != '\'' && tail == "" && value != "" && value[|value| - 1] == '\\'
    && exists es: seq<bool> :: |es| == |value| - 1 && text == Spell(value[..|value| - 1], false, es) + ['\\']
  }

  /** Every way to write a value in front of the rest of a text; nothing at all is the empty value,
      but only at the very end. */
  ghost predicate Written(text: string, value: string, tail: string) {
    || InQuotes(text, value) || Unquoted(text, value, tail) || EndsInBackslash(text, value, tail)
    || (text == "" && value == "" && tail == "")
  }

  /** A key, an equals sign with blanks around it, and a value, in front of the rest. */
  ghost predicate Item(s: string, p: Pair, tail: string) {
    exists b1, b2, text ::
      && s == p.key + (b1 + ("=" + (b2 + (text + tail))))
      && Blank(b1) && Blank(b2) && ValidKey(p.key) && Written(text, p.value, tail)
  }

  /** Blanks, and then a text that starts with no blank. */
  ghost predicate Indented(s: string, visible: string) {
    visible != "" && !IsWhitespace(visible[0]) && exists b :: Blank(b) && s == b + visible
  }

  /** A text that starts with the given pairs and goes on with `rest`. */
  ghost predicate Reads(s: string, ps: seq<Pair>, rest: string)
    decreases |ps|
  {
    if ps == [] then s == rest else
      exists visible, tail :: Indented(s, visible) && Item(visible, ps[0], tail) && Reads(tail, ps[1..], rest)
  }

  /** No name in front of an equals sign. */
  predicate Nameless(s: string) { s != "" && s[0] == '=' }

  /** A name, and no equals sign behind it. */
  ghost predicate Valueless(s: string, key: string) {
    ValidKey(key) && exists b, y :: s == key + (b + y) && Blank(b) && (y == "" || (b != "" && IsKeyChar(y[0])))
  }

  /** A value that starts with a quote and never closes it. */
  ghost predicate Unclosed(s: string, key: string) {
    ValidKey(key) && exists b1, b2, body ::
      s == key + (b1 + ("=" + (b2 + ("'" + body)))) && Blank(b1) && Blank(b2) && Open(body)
  }

  /** What stands behind a value whose last backslash is left over. */
  function Dangling(dangling: bool): string { if dangling then "\\" else "" }

  /** A text between quotes that lacks the closing one. */
  ghost predicate OpenAs(body: string, v: string, es: seq<bool>, dangling: bool) {
    |es| == |v| && body == Spell(v, true, es) + Dangling(dangling)
  }

  /** A text without a closing quote: every quote in it is escaped. */
  ghost predicate Open(body: string) { exists v, es, dangling :: OpenAs(body, v, es, dangling) }

  /** Where a text leaves the grammar, and how. */
  ghost predicate Fails(s: string, e: ParseError) {
    match e
    case EmptyName => Nameless(s)
    case NoValue(key) => Valueless(s, key)
    case Unterminated(key) => Unclosed(s, key)
  }

  // ------------------------------------------------------------------------------- the values

  lemma SpellCons(c: char, v: string, quoted: bool, e: bool, es: seq<bool>)
    requires |es| == |v|
    ensures Spell([c] + v, quoted, [e] + es)
         == (if e || MustEscape(c, quoted) then ['\\', c] else [c]) + Spell(v, quoted, es)
  {
    assert ([c] + v)[1..] == v && ([e] + es)[1..] == es;
  }

  /** The first character a scanner reads, whether a backslash stands before it, and the text behind. */
  function Cut(s: string): (bool, char, string)
    requires s != ""
  {
    if s[0] == '\\' && |s| > 1 then (true, s[1], s[2..]) else (false, s[0], s[1..])
  }

  /** A backslash with nothing behind it. */
  predicate Lone(s: string) { |s| == 1 && s[0] == '\\' }

  lemma CutGlue(s: string, quoted: bool)
    requires s != "" && !Lone(s) && !(if quoted then s[0] == '\'' else IsWhitespace(s[0]))
    ensures var (e, c, tail) := Cut(s);
            |tail| < |s| && s == (if e || MustEscape(c, quoted) then ['\\', c] else [c]) + tail
  {
    if s[0] == '\\' {
      assert s == ['\\', s[1]] + s[2..];
    } else {
      assert s == [s[0]] + s[1..];
    }
  }

  lemma BareCut(s: string)
    requires s != "" && !IsWhitespace(s[0])
    ensures var (e, c, tail) := Cut(s); Bare(s) == ([c] + Bare(tail).0, Bare(tail).1)
  {
  }

  lemma QuotedCut(s: string)
    requires s != "" && s[0] != '\''
    ensures var (e, c, tail) := Cut(s); Quoted(s) == WithPrefix([c], Quoted(tail))
  {
  }

  /** One more character in front of a spelled value. */
  lemma SpellFront(s: string, v: string, es: seq<bool>, end: string, quoted: bool)
    requires s != "" && !Lone(s) && !(if quoted then s[0] == '\'' else IsWhitespace(s[0]))
    requires |es| == |v| && Cut(s).2 == Spell(v, quoted, es) + end
    ensures s == Spell([Cut(s).1] + v, quoted, [Cut(s).0] + es) + end
  {
    hide Cut, Spell, MustEscape, IsWhitespace;
    CutGlue(s, quoted);
    var (e, c, tail) := Cut(s);
    SpellCons(c, v, quoted, e, es);
    var front := if e || MustEscape(c, quoted) then ['\\', c] else [c];
    assert front + (Spell(v, quoted, es) + end) == front + Spell(v, quoted, es) + end;
  }

  /** What an unquoted value consists of: characters it spells, and perhaps a backslash at the end
      of the text. */
  ghost predicate BareAs(s: string, v: string, rest: string, front: string, es: seq<bool>, dangling: bool) {
    && |es| == |front| && v == front + Dangling(dangling) && Ended(rest) && (dangling ==> rest == "")
    && s == Spell(front, false, es) + (Dangling(dangling) + rest)
  }

  lemma {:induction false} BareSound(s: string) returns (front: string, es: seq<bool>, dangling: bool)
    ensures BareAs(s, Bare(s).0, Bare(s).1, front, es, dangling)
    decreases |s|
  {
    hide IsWhitespace, Cut, MustEscape;
    front, es, dangling := "", [], false;
    if s == "" || IsWhitespace(s[0]) {
      assert "" + ("" + s) == s;
    } else if Lone(s) {
      dangling := true;
      assert s == "\\";
      LoneBackslash();
      assert "" + ("\\" + "") == s && "" + "\\" == "\\";
    } else {
      hide Bare, Spell;
      CutGlue(s, false);
      BareCut(s);
      var (e, c, tail) := Cut(s);
      front, es, dangling := BareSound(tail);
      SpellFront(s, front, es, Dangling(dangling) + Bare(tail).1, false);
      assert [c] + (front + Dangling(dangling)) == [c] + front + Dangling(dangling);
      front, es := [c] + front, [e] + es;
    }
  }

  lemma LoneBackslash()
    ensures Bare("\\") == ("\\", "") && Quoted("\\") == None
  {
    assert "\\"[1..] == "" && Bare("") == ("", "") && ['\\'] + "" == "\\";
  }

  lemma {:induction false} QuotedSound(s: string) returns (v: string, es: seq<bool>, dangling: bool)
    ensures |es| == |v|
    ensures match Quoted(s)
            case Some((value, rest)) => v == value && s == Spell(v, true, es) + ("'" + rest)
            case None => OpenAs(s, v, es, dangling)
    decreases |s|
  {
    hide Cut, MustEscape;
    v, es, dangling := "", [], false;
    if s == "" {
      assert "" + "" == s;
    } else if Lone(s) {
      dangling := true;
      assert s == "\\";
      LoneBackslash();
      assert "" + "\\" == s;
    } else if s[0] == '\'' {
      assert s == "" + ("'" + s[1..]);
    } else {
      hide Quoted, Spell;
      CutGlue(s, true);
      QuotedCut(s);
      var (e, c, tail) := Cut(s);
      v, es, dangling := QuotedSound(tail);
      var end := match Quoted(tail) case Some((_, rest)) => "'" + rest case None => Dangling(dangling);
      SpellFront(s, v, es, end, true);
      v, es := [c] + v, [e] + es;
    }
  }

  lemma {:induction false} OpenStaysOpen(v: string, es: seq<bool>, dangling: bool)
    requires |es| == |v|
    ensures Quoted(Spell(v, true, es) + Dangling(dangling)) == None
  {
    var end := Dangling(dangling);
    if v == "" {
      assert "" + end == end && (dangling ==> end[1..] == "");
    } else {
      var front := if es[0] || MustEscape(v[0], true) then ['\\', v[0]] else [v[0]];
      var back := Spell(v[1..], true, es[1..]) + end;
      assert Spell(v, true, es) + end == front + back;
      assert (front + back)[|front|..] == back;
      OpenStaysOpen(v[1..], es[1..], dangling);
    }
  }

  lemma {:induction false} DanglingRead(v: string, es: seq<bool>)
    requires |es| == |v|
    ensures Bare(Spell(v, false, es) + ['\\']) == (v + ['\\'], "")
  {
    if v == "" {
      assert "" + ['\\'] == "\\" && "\\"[1..] == "" && Bare("") == ("", "");
      assert ['\\'] + "" == ['\\'];
    } else {
      var front := if es[0] || MustEscape(v[0], false) then ['\\', v[0]] else [v[0]];
      var back := Spell(v[1..], false, es[1..]) + ['\\'];
      assert Spell(v, false, es) + ['\\'] == front + back;
      assert (front + back)[|front|..] == back;
      DanglingRead(v[1..], es[1..]);
      assert [v[0]] + (v[1..] + ['\\']) == v + ['\\'];
    }
  }

  /** The value scanner reads exactly the written values. */
  lemma ValueComplete(text: string, value: string, tail: string)
    requires Written(text, value, tail)
    ensures Value(text + tail) == Some((value, tail))
  {
    if InQuotes(text, value) {
      var es: seq<bool> :| |es| == |value| && text == "'" + (Spell(value, true, es) + "'");
      assert (text + tail)[1..] == Spell(value, true, es) + "'" + tail;
      SpelledQuoted(value, es, tail);
    } else if Unquoted(text, value, tail) {
      var es: seq<bool> :| |es| == |value| && text == Spell(value, false, es);
      SpelledBare(value, es, tail);
    } else if EndsInBackslash(text, value, tail) {
      var front := value[..|value| - 1];
      var es: seq<bool> :| |es| == |value| - 1 && text == Spell(front, false, es) + ['\\'];
      DanglingRead(front, es);
      assert text + tail == text && front + ['\\'] == value;
    } else {
      assert text + tail == "";
    }
  }

  lemma ValueSound(s: string) returns (text: string)
    requires Ended(s) ==> s == ""
    requires Value(s).Some?
    ensures var (v, tail) := Value(s).value; s == text + tail && Written(text, v, tail)
  {
    hide Spell, Bare, Quoted, IsWhitespace;
    var (v, tail) := Value(s).value;
    if s != "" && s[0] == '\'' {
      var w, es, _ := QuotedSound(s[1..]);
      text := "'" + (Spell(v, true, es) + "'");
      assert s == "'" + s[1..];
      assert InQuotes(text, v);
    } else {
      var front, es, dangling := BareSound(s);
      text := Spell(front, false, es) + Dangling(dangling);
      BareWritten(s, v, tail, front, es, dangling);
    }
  }

  lemma BareWritten(s: string, v: string, tail: string, front: string, es: seq<bool>, dangling: bool)
    requires Ended(s) ==> s == ""
    requires (s == "" || s[0] != '\'') && BareAs(s, v, tail, front, es, dangling)
    ensures var text := Spell(front, false, es) + Dangling(dangling); s == text + tail && Written(text, v, tail)
  {
    hide IsWhitespace;
    var text := Spell(front, false, es) + Dangling(dangling);
    assert s == text + tail;
    if dangling {
      hide Spell;
      assert v[..|v| - 1] == front;
      assert text == Spell(v[..|v| - 1], false, es) + ['\\'];
      assert EndsInBackslash(text, v, tail);
    } else if front == "" {
      assert text == "" && s == tail;
    } else {
      assert v == front && text == Spell(v, false, es);
      assert text != "";
      assert text[0] == s[0];
      assert Unquoted(text, v, tail);
    }
  }

  // --------------------------------------------------------------------------------- one item

  lemma HeadShape(s: string) returns (k: nat, b1: string, after: string)
    requires s != "" && !IsWhitespace(s[0])
    ensures k == KeyLength(s) && s == s[..k] + (b1 + after) && Blank(b1) && after == TrimStart(s[k..])
    ensures k > 0 ==> ValidKey(s[..k])
    ensures after != "" ==> !IsWhitespace(after[0])
    ensures k < |s| ==> !IsKeyChar(s[k])
  {
    k := KeyLength(s);
    b1, after := SplitBlank(s[k..]);
  }

  lemma {:induction false} SplitBlank(s: string) returns (b: string, visible: string)
    ensures s == b + visible && Blank(b) && visible == TrimStart(s)
  {
    if s != "" && IsWhitespace(s[0]) {
      b, visible := SplitBlank(s[1..]);
      b := [s[0]] + b;
    } else {
      b, visible := "", s;
    }
  }

  lemma HeadSound(s: string)
    requires s != "" && !IsWhitespace(s[0])
    ensures match Head(s)
            case Got(p, tail) => Item(s, p, tail)
            case Fail(e) => Fails(s, e)
  {
    hide IsWhitespace, TrimStart, Value, KeyLength, Written;
    var k, b1, after := HeadShape(s);
    var key := s[..k];
    if k == 0 {
      FirstIsEquals(s);
    } else if after == "" || after[0] != '=' {
      NoEquals(s, k, b1, after);
    } else {
      var b2, visible := SplitBlank(after[1..]);
      assert after == "=" + (b2 + visible);
      if Value(visible).Some? {
        VisibleNotEnded(visible);
        var text := ValueSound(visible);
      } else {
        UnclosedValue(s, key, b1, b2, visible);
      }
    }
  }

  lemma VisibleNotEnded(s: string)
    requires s == "" || !IsWhitespace(s[0])
    ensures Ended(s) ==> s == ""
  {
  }

  lemma FirstIsEquals(s: string)
    requires s != "" && !IsWhitespace(s[0]) && KeyLength(s) == 0
    ensures Nameless(s)
  {
  }

  lemma NoEquals(s: string, k: nat, b: string, y: string)
    requires 0 < k <= |s| && s == s[..k] + (b + y) && Blank(b) && ValidKey(s[..k])
    requires y == "" || (y[0] != '=' && !IsWhitespace(y[0]))
    requires k < |s| ==> !IsKeyChar(s[k])
    ensures Valueless(s, s[..k])
  {
    hide IsWhitespace;
    BehindKey(s, k, b, y);
  }

  lemma BehindKey(s: string, k: nat, b: string, y: string)
    requires k <= |s| && s == s[..k] + (b + y)
    ensures b == "" && y != "" ==> k < |s| && s[k] == y[0]
  {
    assert b == "" ==> b + y == y;
  }

  lemma UnclosedValue(s: string, key: string, b1: string, b2: string, visible: string)
    requires s == key + (b1 + ("=" + (b2 + visible))) && Blank(b1) && Blank(b2) && ValidKey(key)
    requires Value(visible).None?
    ensures Unclosed(s, key)
  {
    hide Quoted, Spell, IsWhitespace;
    var body := visible[1..];
    var v, es, dangling := QuotedSound(body);
    assert Open(body);
    assert visible == "'" + body;
  }

  lemma KeyCutOff(key: string, b1: string, after: string)
    requires ValidKey(key) && Blank(b1) && (after == "" || !IsWhitespace(after[0]))
    requires b1 + after == "" || !IsKeyChar((b1 + after)[0])
    ensures var s := key + (b1 + after); KeyLength(s) == |key| && s[..|key|] == key && TrimStart(s[|key|..]) == after
  {
    KeyLengthOf(key, b1 + after);
    var s := key + (b1 + after);
    assert s[|key|..] == b1 + after;
    SkipBlank(b1, after);
    TrimStartFixed(after);
  }

  lemma EqualsAfterBlank(b: string, rest: string)
    requires Blank(b)
    ensures !IsKeyChar((b + ("=" + rest))[0])
  {
  }

  lemma HeadCompleteItem(s: string, p: Pair, tail: string)
    requires Item(s, p, tail)
    ensures Head(s) == Got(p, tail)
  {
    hide IsWhitespace, TrimStart, Value, KeyLength, Written;
    var b1, b2, text :| s == p.key + (b1 + ("=" + (b2 + (text + tail))))
                        && Blank(b1) && Blank(b2) && ValidKey(p.key) && Written(text, p.value, tail);
    var after := "=" + (b2 + (text + tail));
    EqualsSign();
    EqualsAfterBlank(b1, b2 + (text + tail));
    KeyCutOff(p.key, b1, after);
    assert after[1..] == b2 + (text + tail);
    SkipBlank(b2, text + tail);
    WrittenVisible(text, p.value, tail);
    TrimStartFixed(text + tail);
    ValueComplete(text, p.value, tail);
  }

  lemma WrittenVisible(text: string, value: string, tail: string)
    requires Written(text, value, tail)
    ensures text + tail == "" || !IsWhitespace((text + tail)[0])
  {
    if Unquoted(text, value, tail) {
      var es: seq<bool> :| |es| == |value| && text == Spell(value, false, es);
      assert value != "" && text[0] == (if es[0] || MustEscape(value[0], false) then '\\' else value[0]);
    } else if EndsInBackslash(text, value, tail) {
      var front := value[..|value| - 1];
      var es: seq<bool> :| |es| == |value| - 1 && text == Spell(front, false, es) + ['\\'];
      assert front != "" ==> text[0] == (if es[0] || MustEscape(front[0], false) then '\\' else front[0]);
    }
  }

  lemma HeadCompleteFail(s: string, e: ParseError)
    requires s != "" && !IsWhitespace(s[0]) && Fails(s, e)
    ensures Head(s) == Fail(e)
  {
    hide IsWhitespace, TrimStart, Value, KeyLength, Open;
    match e
    case EmptyName =>
      NoKey(s);
    case NoValue(key) =>
      var b, y :| s == key + (b + y) && Blank(b) && (y == "" || (b != "" && IsKeyChar(y[0])));
      BlankThenVisible(b, y);
      KeyCutOff(key, b, y);
    case Unterminated(key) =>
      var b1, b2, body :| s == key + (b1 + ("=" + (b2 + ("'" + body)))) && Blank(b1) && Blank(b2) && Open(body);
      var after := "=" + (b2 + ("'" + body));
      EqualsSign();
      EqualsAfterBlank(b1, b2 + ("'" + body));
      KeyCutOff(key, b1, after);
      assert after[1..] == b2 + ("'" + body);
      SkipBlank(b2, "'" + body);
      QuoteIsVisible();
      TrimStartFixed("'" + body);
      OpenNone(body);
  }

  lemma NoKey(s: string)
    requires Nameless(s)
    ensures KeyLength(s) == 0
  {
  }

  lemma BlankThenVisible(b: string, y: string)
    requires Blank(b) && (y == "" || (b != "" && IsKeyChar(y[0])))
    ensures (y == "" || !IsWhitespace(y[0])) && (b + y == "" || !IsKeyChar((b + y)[0]))
  {
  }

  lemma QuoteIsVisible()
    ensures !IsWhitespace('\'')
  {
  }

  lemma OpenNone(body: string)
    requires Open(body)
    ensures Value("'" + body) == None
  {
    hide Quoted, Spell;
    var v, es, dangling :| OpenAs(body, v, es, dangling);
    OpenStaysOpen(v, es, dangling);
    assert ("'" + body)[1..] == body;
  }

  // -------------------------------------------------------------------------------- the texts

  lemma ParseIndented(s: string, visible: string)
    requires Indented(s, visible)
    ensures TrimStart(s) == visible
  {
    var b :| Blank(b) && s == b + visible;
    SkipBlank(b, visible);
    TrimStartFixed(visible);
  }

  lemma BlankParse(s: string)
    requires Blank(s)
    ensures Parse(s) == Ok([])
  {
    SkipBlank(s, "");
    assert s + "" == s;
  }

  /** Reading on from the front: pairs that are read come first, and the rest decides. */
  lemma {:induction false} ReadsThenParses(s: string, ps: seq<Pair>, rest: string)
    requires Reads(s, ps, rest)
    ensures Parse(s) == Prepend(ps, Parse(rest))
    decreases |ps|
  {
    hide Head, TrimStart, Item, Indented;
    if ps == [] {
      PrependLaws([], [], Parse(rest));
    } else {
      var visible, tail :| Indented(s, visible) && Item(visible, ps[0], tail) && Reads(tail, ps[1..], rest);
      ParseIndented(s, visible);
      assert visible != "" by { VisibleText(s, visible); }
      HeadCompleteItem(visible, ps[0], tail);
      ReadsThenParses(tail, ps[1..], rest);
      PrependLaws([ps[0]], ps[1..], Parse(rest));
      assert ps == [ps[0]] + ps[1..];
    }
  }

  lemma VisibleText(s: string, visible: string)
    requires Indented(s, visible)
    ensures visible != "" && !IsWhitespace(visible[0])
  {
  }

  /** How far the parser gets, and what stops it. */
  lemma {:induction false} ParseSound(s: string) returns (ps: seq<Pair>, rest: string)
    ensures Reads(s, ps, rest)
    ensures match Parse(s)
            case Ok(all) => ps == all && Blank(rest)
            case Err(e) => exists visible :: Indented(rest, visible) && Fails(visible, e)
    decreases |s|
  {
    hide Head, TrimStart, Item, Fails, IsWhitespace;
    var b, visible := SplitBlank(s);
    if visible == "" {
      ps, rest := [], s;
      assert s == b + "" == b;
    } else {
      TrimStartVisible(s);
      assert Indented(s, visible);
      HeadSound(visible);
      match Head(visible)
      case Fail(e) =>
        ps, rest := [], s;
      case Got(p, tail) =>
        HeadShorter(s, visible);
        ps, rest := ParseSound(tail);
        var more := ps;
        ps := [p] + ps;
        assert ps[1..] == more;
        PrependLaws([p], more, Parse(tail));
    }
  }

  lemma TrimStartVisible(s: string)
    ensures TrimStart(s) == "" || !IsWhitespace(TrimStart(s)[0])
  {
  }

  lemma HeadShorter(s: string, visible: string)
    requires visible == TrimStart(s) && visible != "" && Head(visible).Got?
    ensures |Head(visible).rest| < |s|
  {
  }

  /** The parser accepts exactly the grammar: it returns pairs if and only if the text is these
      pairs, in order, with nothing but blanks behind them. */
  lemma ParsesExactly(s: string, ps: seq<Pair>)
    ensures Parse(s) == Ok(ps) <==> exists rest :: Reads(s, ps, rest) && Blank(rest)
  {
    hide Reads, Parse;
    if Parse(s) == Ok(ps) {
      var all, rest := ParseSound(s);
    }
    if exists rest :: Reads(s, ps, rest) && Blank(rest) {
      var rest :| Reads(s, ps, rest) && Blank(rest);
      ReadsThenParses(s, ps, rest);
      BlankParse(rest);
      assert ps + [] == ps;
    }
  }

  /** And it reports an error if and only if, behind some pairs that it can read, the text leaves
      the grammar in the way that the error names. */
  lemma FailsExactly(s: string, e: ParseError)
    ensures Parse(s) == Err(e) <==>
            exists ps, rest, visible :: Reads(s, ps, rest) && Indented(rest, visible) && Fails(visible, e)
  {
    hide Reads, Parse, Fails, Indented;
    if Parse(s) == Err(e) {
      var ps, rest := ParseSound(s);
    }
    if exists ps, rest, visible :: Reads(s, ps, rest) && Indented(rest, visible) && Fails(visible, e) {
      var ps, rest, visible :| Reads(s, ps, rest) && Indented(rest, visible) && Fails(visible, e);
      ReadsThenParses(s, ps, rest);
      FailsNow(rest, visible, e);
    }
  }

  lemma FailsNow(rest: string, visible: string, e: ParseError)
    requires Indented(rest, visible) && Fails(visible, e)
    ensures Parse(rest) == Err(e)
  {
    hide Head, TrimStart, Fails, IsWhitespace;
    ParseIndented(rest, visible);
    HeadCompleteFail(visible, e);
  }
}
