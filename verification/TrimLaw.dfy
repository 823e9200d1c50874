/** `redact` and `parse` of src/dsn.rs trim a keyword string before reading it. Trimming is
    harmless except after a dangling backslash, which would have escaped the first blank. */
module TrimLaw {
  import opened Text
  import opened KeywordString

  function TrailingBackslashes(s: string): (n: nat)
    ensures n <= |s| && (forall i :: |s| - n <= i < |s| ==> s[i] == '\\') && (n < |s| ==> s[|s| - n - 1] != '\\')
  {
    if s != "" && s[|s| - 1] == '\\' then 1 + TrailingBackslashes(s[..|s| - 1]) else 0
  }

  /** The text ends in an odd run of backslashes: the last one escapes nothing yet. */
  predicate Dangling(s: string) { TrailingBackslashes(s) % 2 == 1 }

  predicate AllBlank(w: string) { forall i :: 0 <= i < |w| ==> IsWhitespace(w[i]) }

  predicate EndsVisibly(s: string) { s == "" || !IsWhitespace(s[|s| - 1]) }

  /** The run of trailing backslashes does not see past another character. */
  lemma DanglingSuffix(s: string, k: nat)
    requires k <= |s|
    requires (0 < k && s[k - 1] != '\\') || (k < |s| && s[k] != '\\')
    ensures Dangling(s[k..]) <==> Dangling(s)
  {
    var n, m := TrailingBackslashes(s), TrailingBackslashes(s[k..]);
    assert forall i :: 0 <= i < |s| - k ==> s[k..][i] == s[k + i];
    assert m < |s| - k ==> s[k..][|s| - k - m - 1] != '\\';
    assert n == m;
  }

  /** An escape pair at the front does not change the parity of the run at the end. */
  lemma DanglingPair(s: string)
    requires |s| >= 2 && s[0] == '\\'
    ensures Dangling(s[2..]) <==> Dangling(s)
  {
    if exists k :: 1 <= k < |s| && s[k] != '\\' {
      var k :| 1 <= k < |s| && s[k] != '\\';
      DanglingSuffix(s, k);
      if k == 1 {
        DanglingSuffix(s, 2);
      } else {
        assert s[2..][k - 2..] == s[k..] && s[2..][k - 2] == s[k];
        DanglingSuffix(s[2..], k - 2);
      }
    } else {
      assert TrailingBackslashes(s) == |s| && TrailingBackslashes(s[2..]) == |s| - 2;
    }
  }

  lemma {:induction false} BlankTexts(w: string)
    requires AllBlank(w)
    ensures TrimStart(w) == "" && Quoted(w).None?
  {
    if w != "" {
      BlankTexts(w[1..]);
    }
  }

  lemma {:induction false} TrimStartTail(s: string, w: string)
    requires AllBlank(w)
    ensures TrimStart(s + w) == if TrimStart(s) == "" then "" else TrimStart(s) + w
  {
    if s == "" {
      assert s + w == w;
      BlankTexts(w);
    } else {
      assert (s + w)[1..] == s[1..] + w;
      TrimStartTail(s[1..], w);
    }
  }

  lemma {:induction false} TrimStartSuffix(s: string)
    ensures TrimStart(s) == s[|s| - |TrimStart(s)|..]
    ensures forall i :: 0 <= i < |s| - |TrimStart(s)| ==> IsWhitespace(s[i])
  {
    if s != "" && IsWhitespace(s[0]) {
      TrimStartSuffix(s[1..]);
    }
  }

  lemma VisibleStart(s: string, k: nat)
    requires EndsVisibly(s) && k <= |s|
    ensures EndsVisibly(TrimStart(s[k..])) && (TrimStart(s[k..]) == "" ==> k == |s|)
  {
    TrimStartSuffix(s[k..]);
    if k < |s| {
      assert s[k..][|s| - k - 1] == s[|s| - 1];
    }
  }

  lemma {:induction false} QuotedTail(s: string, w: string)
    requires AllBlank(w)
    ensures Quoted(s + w) == match Quoted(s) case None => None case Some((v, rest)) => Some((v, rest + w))
  {
    if s == "" {
      assert s + w == w;
      BlankTexts(w);
    } else {
      assert (s + w)[1..] == s[1..] + w;
      if s[0] == '\\' && |s| > 1 {
        assert (s + w)[2..] == s[2..] + w;
        QuotedTail(s[2..], w);
      } else if s[0] == '\\' && w != "" {
        assert (s + w)[2..] == w[1..];
        BlankTexts(w[1..]);
      } else if s[0] != '\'' {
        QuotedTail(s[1..], w);
      }
    }
  }

  /** Where a quoted value ends, its quote is the last character consumed. */
  lemma {:induction false} QuotedSuffix(s: string)
    requires Quoted(s).Some?
    ensures var rest := Quoted(s).value.1; s[|s| - |rest| - 1] == '\'' && rest == s[|s| - |rest|..]
  {
    if s[0] == '\\' && |s| > 1 {
      QuotedSuffix(s[2..]);
    } else if s[0] != '\'' {
      QuotedSuffix(s[1..]);
    }
  }

  lemma {:induction false} BareSuffix(s: string)
    ensures var rest := Bare(s).1; rest == s[|s| - |rest|..] && (rest != "" ==> IsWhitespace(rest[0]))
  {
    if s != "" && !IsWhitespace(s[0]) {
      BareSuffix(if s[0] == '\\' && |s| > 1 then s[2..] else s[1..]);
    }
  }

  lemma BareDangling(w: string)
    requires AllBlank(w) && w != ""
    ensures Dangling("\\") && Bare("\\").0 == "\\"
    ensures Bare("\\" + w).0 == [w[0]] != "\\" && Bare("\\" + w).1 == w[1..]
  {
    var s := "\\" + w;
    assert s[1] == w[0] && s[2..] == w[1..];
    assert Bare(w[1..]) == ("", w[1..]);
    assert "\\"[1..] == "" && Bare("") == ("", "");
    assert [w[0]] + "" == [w[0]];
  }

  /** Blanks after an unquoted value end it, or are swallowed by a dangling backslash. */
  lemma {:induction false} BareTail(s: string, w: string)
    requires EndsVisibly(s) && AllBlank(w) && w != ""
    ensures var (v, rest) := Bare(s);
            if rest != "" || !Dangling(s) then Bare(s + w) == (v, rest + w)
            else Bare(s + w).0 != v && AllBlank(Bare(s + w).1)
  {
    hide IsWhitespace, TrailingBackslashes;
    if s == "" {
      assert s + w == w;
    } else if !IsWhitespace(s[0]) {
      assert (s + w)[1..] == s[1..] + w;
      if s[0] == '\\' && |s| > 1 {
        assert (s + w)[2..] == s[2..] + w;
        DanglingPair(s);
        BareTail(s[2..], w);
        assert forall a: string :: ([s[1]] + a)[1..] == a;
      } else if s[0] == '\\' {
        assert s == "\\";
        BareDangling(w);
      } else {
        DanglingSuffix(s, 1);
        BareTail(s[1..], w);
        assert forall a: string :: ([s[0]] + a)[1..] == a;
      }
    }
  }

  lemma ValueTail(s: string, w: string)
    requires EndsVisibly(s) && AllBlank(w) && w != "" && s != ""
    ensures match Value(s)
            case None => Value(s + w).None?
            case Some((v, rest)) =>
              && EndsVisibly(rest) && (rest != "" ==> (Dangling(rest) <==> Dangling(s)))
              && if rest != "" || !Dangling(s) then Value(s + w) == Some((v, rest + w))
                 else Value(s + w).Some? && Value(s + w).value.0 != v && AllBlank(Value(s + w).value.1)
  {
    if s[0] == '\'' {
      assert (s + w)[1..] == s[1..] + w;
      QuotedTail(s[1..], w);
      if Value(s).Some? {
        QuotedSuffix(s[1..]);
        var rest := Value(s).value.1;
        var k := |s| - |rest|;
        assert rest == s[k..] && s[k - 1] == '\'';
        DanglingSuffix(s, k);
      }
    } else {
      BareTail(s, w);
      BareSuffix(s);
      var rest := Bare(s).1;
      if rest != "" {
        assert s[|s| - |rest|] == rest[0];
        DanglingSuffix(s, |s| - |rest|);
      }
    }
  }

  /** The text after the key and the blanks behind it. */
  function AfterKey(s: string): string { TrimStart(s[KeyLength(s)..]) }

  /** The key is cut off the same way, and blanks stay at the end of what is left. */
  lemma AfterKeyTail(s: string, w: string)
    requires AllBlank(w)
    ensures KeyLength(s + w) == KeyLength(s) && (s + w)[..KeyLength(s)] == s[..KeyLength(s)]
    ensures AfterKey(s + w) == if AfterKey(s) == "" then "" else AfterKey(s) + w
    ensures AfterKey(s) == s[|s| - |AfterKey(s)|..]
  {
    hide IsWhitespace, TrimStart, KeyLength;
    var k := KeyLength(s);
    assert s + w == s[..k] + (s[k..] + w);
    KeyLengthOf(s[..k], s[k..] + w);
    assert (s + w)[k..] == s[k..] + w;
    TrimStartTail(s[k..], w);
    TrimStartSuffix(s[k..]);
  }

  /** What a token looks like when blanks follow the text it was read from. */
  predicate TokenTail(s: string, w: string, before: Token, after: Token) {
    match before
    case Fail(e) => after == before
    case Got(p, rest) =>
      && EndsVisibly(rest) && (rest != "" ==> (Dangling(rest) <==> Dangling(s)))
      && (if rest != "" then after == Got(p, rest + w)
          else after.Got? && AllBlank(after.rest) && after.pair.key == p.key && (after.pair == p <==> !Dangling(s)))
  }

  lemma BlankValue(w: string)
    requires AllBlank(w)
    ensures Value("") == Some(("", ""))
  {
  }

  /** No value at all after the `=`: the blanks cannot matter. */
  lemma AssignNothing(s: string, key: string, after: string, w: string)
    requires after != "" && after[0] == '=' && |after| <= |s| && after == s[|s| - |after|..]
    requires EndsVisibly(s) && AllBlank(w) && TrimStart(after[1..]) == ""
    ensures !Dangling(s) && TrimStart((after + w)[1..]) == ""
  {
    hide IsWhitespace, TrimStart;
    assert (after + w)[1..] == after[1..] + w;
    TrimStartTail(after[1..], w);
    assert after[1..] == s[|s| - |after| + 1..];
    VisibleStart(s, |s| - |after| + 1);
    assert s[|s| - 1] == '=';
  }

  lemma AssignText(s: string, after: string, w: string)
    requires after != "" && after[0] == '=' && |after| <= |s| && after == s[|s| - |after|..]
    requires AllBlank(w) && TrimStart(after[1..]) != ""
    ensures var text := TrimStart(after[1..]);
            TrimStart((after + w)[1..]) == text + w && |text| <= |s| && text == s[|s| - |text|..]
                && (Dangling(text) <==> Dangling(s))
  {
    hide IsWhitespace, TrimStart, Dangling;
    assert (after + w)[1..] == after[1..] + w;
    TrimStartTail(after[1..], w);
    TrimStartSuffix(after[1..]);
    var text := TrimStart(after[1..]);
    var j := |s| - |text|;
    assert s[j - 1] == after[|after| - |text| - 1];
    assert s[j - 1] != '\\' by {
      if |text| < |after| - 1 {
        assert after[1..][|after| - |text| - 2] == s[j - 1];
        BackslashVisible();
      }
    }
    assert text == s[j..];
    DanglingSuffix(s, j);
  }

  lemma BackslashVisible()
    ensures !IsWhitespace('\\')
  {
  }

  lemma AssignTail(s: string, key: string, after: string, w: string)
    requires after != "" && after[0] == '=' && |after| <= |s| && after == s[|s| - |after|..]
    requires EndsVisibly(s) && AllBlank(w) && w != ""
    ensures TokenTail(s, w, Assign(key, after), Assign(key, after + w))
  {
    hide IsWhitespace, TrimStart, Value, Dangling;
    var text := TrimStart(after[1..]);
    if text == "" {
      BlankValue(w);
      AssignNothing(s, key, after, w);
    } else {
      AssignText(s, after, w);
      assert EndsVisibly(text) by { assert text[|text| - 1] == s[|s| - 1]; }
      ValueTail(text, w);
      assert "" + w == w;
    }
  }

  /** The token for a key whose `=` has been found. */
  function Assign(key: string, after: string): Token
    requires after != ""
  {
    match Value(TrimStart(after[1..]))
    case None => Fail(Unterminated(key))
    case Some((v, rest)) => Got(Pair(key, v), rest)
  }

  lemma HeadTail(s: string, w: string)
    requires s != "" && EndsVisibly(s) && AllBlank(w) && w != ""
    ensures TokenTail(s, w, Head(s), Head(s + w))
  {
    AfterKeyTail(s, w);
    var after := AfterKey(s);
    if KeyLength(s) > 0 && after != "" && after[0] == '=' {
      AssignTail(s, s[..KeyLength(s)], after, w);
    }
  }

  lemma ParseVisible(s: string)
    requires s != "" && !IsWhitespace(s[0])
    ensures Parse(s) == match Head(s) case Fail(e) => Err(e) case Got(p, rest) => Prepend([p], Parse(rest))
  {
  }

  /** The same pairs up to the value of the last one, which is different. */
  predicate LastDiffers(a: seq<Pair>, b: seq<Pair>) {
    && |a| == |b| > 0 && a[..|a| - 1] == b[..|b| - 1]
    && a[|a| - 1].key == b[|b| - 1].key && a[|a| - 1].value != b[|b| - 1].value
  }

  lemma LastDiffersCons(p: Pair, a: seq<Pair>, b: seq<Pair>)
    requires LastDiffers(a, b)
    ensures LastDiffers([p] + a, [p] + b)
  {
    assert ([p] + a)[..|a|] == [p] + a[..|a| - 1] && ([p] + b)[..|b|] == [p] + b[..|b| - 1];
  }

  lemma LastDiffersOne(p: Pair, q: Pair)
    requires p.key == q.key && p != q
    ensures LastDiffers([p], [q])
  {
  }

  /** Blanks after a text change how it parses exactly when they follow a dangling backslash
      in a text that parses; then the last value changes, and nothing else. */
  lemma {:induction false} ParseTail(s: string, w: string)
    requires s != "" && !IsWhitespace(s[0]) && EndsVisibly(s) && AllBlank(w) && w != ""
    ensures Parse(s + w) == Parse(s) <==> !(Dangling(s) && Parse(s).Ok?)
    ensures Dangling(s) && Parse(s).Ok? ==> Parse(s + w).Ok? && LastDiffers(Parse(s).value, Parse(s + w).value)
    decreases |s|
  {
    hide IsWhitespace, Head, TrimStart, TrailingBackslashes, LastDiffers, Parse;
    ParseVisible(s);
    ParseVisible(s + w);
    HeadTail(s, w);
    match Head(s)
    case Fail(_) =>
    case Got(p, rest) =>
      var q := Head(s + w).pair;
      PrependOnce(p, q, Parse(Head(s + w).rest), Parse(rest));
      if rest == "" {
        ParseBlank(Head(s + w).rest);
        ParseBlank(rest);
        assert [p] + [] == [p] && [q] + [] == [q];
        if p != q {
          LastDiffersOne(p, q);
        }
      } else {
        var visible := TrimStart(rest);
        VisibleStart(rest, 0);
        TrimStartTail(rest, w);
        DanglingVisible(rest);
        ParseTail(visible, w);
        ParseTrimStart(rest);
        ParseTrimStart(rest + w);
        if Dangling(s) && Parse(rest).Ok? {
          LastDiffersCons(p, Parse(rest).value, Parse(rest + w).value);
        }
      }
  }

  lemma ParseBlank(w: string)
    requires AllBlank(w)
    ensures Parse(w) == Ok([])
  {
    BlankTexts(w);
  }

  lemma ParseTrimStart(s: string)
    ensures Parse(TrimStart(s)) == Parse(s)
  {
    TrimStartFixed(TrimStart(s));
  }

  lemma DanglingVisible(s: string)
    ensures Dangling(TrimStart(s)) <==> Dangling(s)
  {
    TrimStartSuffix(s);
    var k := |s| - |TrimStart(s)|;
    if k > 0 {
      assert IsWhitespace(s[k - 1]);
      DanglingSuffix(s, k);
    }
  }

  lemma PrependOnce(p: Pair, q: Pair, a: Result<seq<Pair>, ParseError>, b: Result<seq<Pair>, ParseError>)
    ensures a.Ok? || b.Ok? ==> (Prepend([q], a) == Prepend([p], b) <==> p == q && a == b)
    ensures a.Err? && b.Err? ==> (Prepend([q], a) == Prepend([p], b) <==> a == b)
  {
    if a.Ok? && b.Ok? {
      assert ([q] + a.value)[0] == q && ([p] + b.value)[0] == p;
      assert ([q] + a.value)[1..] == a.value && ([p] + b.value)[1..] == b.value;
    }
  }

  lemma EmptyText()
    ensures TrimEnd("") == "" && !Dangling("")
  {
  }

  predicate EndsBlank(s: string) { s != "" && IsWhitespace(s[|s| - 1]) }

  lemma ParseTrimEnd(u: string)
    requires u != "" && !IsWhitespace(u[0])
    ensures Parse(TrimEnd(u)) == Parse(u) <==> !(EndsBlank(u) && Dangling(TrimEnd(u)) && Parse(TrimEnd(u)).Ok?)
    ensures Parse(TrimEnd(u)) != Parse(u) ==>
              Parse(TrimEnd(u)).Ok? && Parse(u).Ok? && LastDiffers(Parse(TrimEnd(u)).value, Parse(u).value)
  {
    hide IsWhitespace, TrimEnd, Parse, Dangling, LastDiffers;
    var t := TrimEnd(u);
    var w := u[|t|..];
    assert u == t + w;
    if w == "" {
      assert t == u;
    } else {
      assert w[|w| - 1] == u[|u| - 1];
      assert t != "";
      ParseTail(t, w);
    }
  }

  /** Trimming keeps the reading of a keyword string, except that of a text which parses
      after trimming but had blanks after a dangling backslash: its last value changes. */
  lemma ParseTrimmed(s: string)
    ensures Parse(Trim(s)) == Parse(s) <==> !(EndsBlank(s) && Dangling(Trim(s)) && Parse(Trim(s)).Ok?)
    ensures Parse(Trim(s)) != Parse(s) ==>
        Parse(Trim(s)).Ok? && Parse(s).Ok? && LastDiffers(Parse(Trim(s)).value, Parse(s).value)
  {
    hide IsWhitespace, TrimStart, TrimEnd, Parse, Dangling, LastDiffers;
    var u := TrimStart(s);
    ParseTrimStart(s);
    TrimStartSuffix(s);
    if u == "" {
      EmptyText();
    } else {
      assert u[|u| - 1] == s[|s| - 1];
      ParseTrimEnd(u);
    }
  }

  const ESCAPED_BLANK := "\\ "
  const BACKSLASH := "\\"

  lemma BareValues()
    ensures Value(TrimStart(ESCAPED_BLANK)) == Some((" ", "")) && Value(TrimStart(BACKSLASH)) == Some(("\\", ""))
  {
    BareDangling(" ");
    assert BACKSLASH + " " == ESCAPED_BLANK;
    assert BACKSLASH[1..] == "" && Bare("") == ("", "") && Bare(BACKSLASH).1 == "";
  }

  lemma ParsePair(key: string, text: string, value: string)
    requires ValidKey(key) && Value(TrimStart(text)) == Some((value, ""))
    ensures Parse(key + ("=" + text)) == Ok([Pair(key, value)])
  {
    hide Head, Value, TrimStart;
    HeadOf(key, text);
    var s := key + ("=" + text);
    assert s[0] == key[0];
    ParseVisible(s);
    ParseBlank("");
    assert [Pair(key, value)] + [] == [Pair(key, value)];
  }

  lemma TrimPair(key: string)
    requires ValidKey(key)
    ensures Trim(key + ("=" + ESCAPED_BLANK)) == key + ("=" + BACKSLASH)
  {
    var raw, trimmed := key + ("=" + ESCAPED_BLANK), key + ("=" + BACKSLASH);
    assert raw[0] == key[0] && raw[|raw| - 1] == ' ' && raw[..|raw| - 1] == trimmed;
    assert trimmed[|trimmed| - 1] == '\\';
  }

  /** Trimming changes a value: `key=\` with a blank behind it reads as a blank, and as a
      backslash once it is trimmed. */
  lemma TrimmingChangesAValue(key: string)
    requires ValidKey(key)
    ensures var raw := key + ("=" + ESCAPED_BLANK);
            && Parse(raw) == Ok([Pair(key, " ")])
            && Trim(raw) == key + ("=" + BACKSLASH) && Parse(Trim(raw)) == Ok([Pair(key, "\\")])
  {
    hide Parse, Trim, Value, TrimStart;
    BareValues();
    ParsePair(key, ESCAPED_BLANK, " ");
    ParsePair(key, BACKSLASH, "\\");
    TrimPair(key);
  }
}
