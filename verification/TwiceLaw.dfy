/** Extracting the SSL parameters twice (src/dsn.rs): what is left of a keyword string may read
    as a URI. When a second extraction changes nothing, told from the pairs that were parsed. */
module TwiceLaw {
  import opened Text
  import opened KeywordString
  import opened Uri
  import opened Dsn

  // ---------------------------------------------------- a query spread over printed words

  /** The words of a text from its first question mark on. */
  function QueryWords(words: seq<string>): (r: Option<seq<string>>)
    ensures r.Some? ==> r.value != []
  {
    if words == [] then None else
      match SplitOnce(words[0], '?').1
      case Some(q) => Some([q] + words[1..])
      case None => QueryWords(words[1..])
  }

  /** A piece between two `&` of a word may stay. If the word ends before the piece does, the
      piece runs on over the blank, which no SSL parameter has in its name. */
  predicate CleanPiece(piece: string, runsOn: bool) {
    if runsOn then !('=' in piece && IsSslKey(SegmentKey(piece))) else IsKept(piece)
  }

  /** The pieces that start in a word; its first one only if a segment starts there. */
  ghost predicate CleanWord(word: string, opening: bool, runsOn: bool) {
    var pieces := Split(word, '&');
    forall j :: (if opening then 0 else 1) <= j < |pieces| ==> CleanPiece(pieces[j], runsOn && j == |pieces| - 1)
  }

  ghost predicate CleanWords(words: seq<string>, opening: bool) {
    words != [] ==> CleanWord(words[0], opening, |words| > 1) && CleanWords(words[1..], false)
  }

  /** Of the pairs left, in printed form, no piece of a query is empty or an SSL parameter. */
  ghost predicate CleanPairs(kept: seq<Pair>) {
    match QueryWords(PrintAll(kept)) case None => true case Some(words) => CleanWords(words, true)
  }

  lemma SplitOnceAt(front: string, back: string, c: char)
    requires c !in front
    ensures SplitOnce(front, c) == (front, None) && SplitOnce(front + ([c] + back), c) == (front, Some(back))
  {
    var s := front + ([c] + back);
    assert forall i :: 0 <= i < |front| ==> front[i] in front;
    IndexOfUnique(front, c, |front|);
    IndexOfUnique(s, c, |front|);
    assert front[..|front|] == front && s[..|front|] == front && s[|front| + 1..] == back;
  }

  lemma CutAtFirst(s: string, c: char) returns (front: string, back: string)
    ensures c !in front && (if c in s then s == front + ([c] + back) && |back| < |s| else s == front)
  {
    var k := IndexOf(s, c);
    front, back := s[..k], if k < |s| then s[k + 1..] else "";
  }

  lemma SplitOnceFirst(a: string, b: string, c: char)
    ensures SplitOnce(a, c).1.Some? <==> c in a
    ensures SplitOnce(a, c).1.Some? ==> SplitOnce(a + b, c) == (SplitOnce(a, c).0, Some(SplitOnce(a, c).1.value + b))
    ensures SplitOnce(a, c).1.None? ==> SplitOnce(a + b, c) == (a + SplitOnce(b, c).0, SplitOnce(b, c).1)
  {
    hide SplitOnce;
    var front, back := CutAtFirst(a, c);
    SplitOnceAt(front, back, c);
    if c in a {
      SplitOnceAt(front, back + b, c);
      assert a + b == front + ([c] + (back + b));
    } else {
      var front', back' := CutAtFirst(b, c);
      SplitOnceAt(front', back', c);
      SplitOnceAt(a + front', back', c);
      assert c in b ==> a + b == a + front' + ([c] + back');
    }
  }

  lemma JoinCons(word: string, rest: seq<string>)
    requires rest != []
    ensures Join([word] + rest, " ") == word + (" " + Join(rest, " "))
  {
    assert ([word] + rest)[1..] == rest;
  }

  lemma SplitOnceBlank(s: string)
    ensures SplitOnce(" " + s, '?').1 == SplitOnce(s, '?').1
  {
    SplitOnceFirst(" ", s, '?');
  }

  /** The query of a printed text is the print of its query words. */
  lemma {:induction false} QueryOfWords(words: seq<string>)
    ensures SplitOnce(Join(words, " "), '?').1
         == match QueryWords(words) case None => None case Some(ws) => Some(Join(ws, " "))
  {
    hide SplitOnce;
    if words == [] {
      NoQuery();
    } else if |words| == 1 {
      var q := SplitOnce(words[0], '?').1;
      assert q.Some? ==> [q.value] + words[1..] == [q.value];
    } else {
      var rest := words[1..];
      assert words == [words[0]] + rest;
      JoinCons(words[0], rest);
      SplitOnceFirst(words[0], " " + Join(rest, " "), '?');
      SplitOnceBlank(Join(rest, " "));
      var q := SplitOnce(words[0], '?').1;
      if q.Some? {
        JoinCons(q.value, rest);
      } else {
        QueryOfWords(rest);
      }
    }
  }

  lemma NoQuery()
    ensures SplitOnce("", '?').1.None?
  {
  }

  // ------------------------------------------------------- segments that span a blank

  lemma {:induction false} DecodeKeepsBlank(s: string)
    requires ' ' in s
    ensures ' ' in PercentDecode(s)
  {
    hide HexByte;
    if s[0] == '%' && |s| > 2 && HexByte(s[1], s[2]).Some? {
      BlankIsNoHex(s[1], s[2]);
      assert s == s[..3] + s[3..];
      DecodeKeepsBlank(s[3..]);
    } else if s[0] != ' ' {
      assert s == [s[0]] + s[1..];
      DecodeKeepsBlank(s[1..]);
    }
  }

  lemma BlankIsNoHex(hi: char, lo: char)
    requires HexByte(hi, lo).Some?
    ensures hi != ' ' && lo != ' '
  {
  }

  lemma BlankInName(k: string)
    requires ' ' in k
    ensures !IsSslKey(Lower(PercentDecode(k)))
  {
    DecodeKeepsBlank(k);
    var d := PercentDecode(k);
    var i :| 0 <= i < |d| && d[i] == ' ';
    assert Lower(d)[i] == ' ';
    NoBlankNames();
  }

  lemma NoBlankNames()
    ensures forall k :: IsSslKey(k) ==> ' ' !in k
  {
  }

  /** A segment that runs on over a blank is kept unless its name ended before and is SSL. */
  lemma RunningOn(piece: string, rest: string)
    ensures IsKept(piece + (" " + rest)) <==> CleanPiece(piece, true)
  {
    hide PercentDecode, IsSslKey, Lower;
    var s := piece + (" " + rest);
    SplitOnceFirst(piece, " " + rest, '=');
    if '=' !in piece {
      SplitOnceFirst(" ", rest, '=');
      var k := SplitOnce(s, '=').0;
      assert k[|piece|] == ' ';
      BlankInName(k);
    }
  }

  lemma SplitHead(front: string, back: string)
    requires '&' !in front
    ensures Split(front, '&') == [front] && Split(front + ("&" + back), '&') == [front] + Split(back, '&')
  {
    var s := front + ("&" + back);
    IndexOfUnique(front, '&', |front|);
    IndexOfUnique(s, '&', |front|);
    assert s[..|front|] == front && s[|front| + 1..] == back;
  }

  lemma {:induction false} SplitFusedLast(front: string, b: string)
    requires '&' !in front
    ensures var q := Split(b, '&'); Split(front + (" " + b), '&') == [front + (" " + q[0])] + q[1..]
  {
    hide Split;
    var head, back := CutAtFirst(b, '&');
    SplitHead(head, back);
    SplitHead(front + (" " + head), back);
    if '&' in b {
      assert front + (" " + b) == front + (" " + head) + ("&" + back);
      assert ([head] + Split(back, '&'))[1..] == Split(back, '&');
    }
  }

  /** Joining two texts by a blank fuses the last piece of the one and the first of the other. */
  lemma {:induction false} SplitFused(a: string, b: string)
    ensures var p, q := Split(a, '&'), Split(b, '&');
            Split(a + (" " + b), '&') == p[..|p| - 1] + [p[|p| - 1] + (" " + q[0])] + q[1..]
    decreases |a|
  {
    hide Split;
    var head, back := CutAtFirst(a, '&');
    SplitHead(head, back);
    var q := Split(b, '&');
    if '&' in a {
      SplitHead(head, back + (" " + b));
      assert a + (" " + b) == head + ("&" + (back + (" " + b)));
      SplitFused(back, b);
      var p, r := Split(a, '&'), Split(back, '&');
      assert p[..|p| - 1] == [head] + r[..|r| - 1];
    } else {
      SplitFusedLast(a, b);
      assert [a][..0] + [a + (" " + q[0])] + q[1..] == [a + (" " + q[0])] + q[1..];
    }
  }

  ghost predicate KeptFrom(segments: seq<string>, opening: bool) {
    forall i :: (if opening then 0 else 1) <= i < |segments| ==> IsKept(segments[i])
  }

  lemma KeptFused(front: seq<string>, middle: string, back: seq<string>, opening: bool)
    ensures KeptFrom(front + [middle] + back, opening)
       <==> KeptFrom(front, opening) && (front != [] || opening ==> IsKept(middle))
            && forall i :: 0 <= i < |back| ==> IsKept(back[i])
  {
    hide IsKept;
    var all := front + [middle] + back;
    assert all[|front|] == middle;
    assert forall i :: 0 <= i < |front| ==> all[i] == front[i];
    assert forall i :: 0 <= i < |back| ==> all[|front| + 1 + i] == back[i];
  }

  /** Split at `&`, the words hold only segments to keep exactly when their pieces are clean. */
  lemma {:induction false} CleanSegments(words: seq<string>, opening: bool)
    requires words != []
    ensures KeptFrom(Split(Join(words, " "), '&'), opening) <==> CleanWords(words, opening)
  {
    hide IsKept, CleanPiece, Split;
    var pieces := Split(words[0], '&');
    if |words| == 1 {
      assert Join(words, " ") == words[0];
      forall j | 0 <= j < |pieces|
        ensures CleanPiece(pieces[j], false) <==> IsKept(pieces[j])
      {
        StandsAlone(pieces[j]);
      }
    } else {
      var rest := words[1..];
      assert words == [words[0]] + rest;
      JoinCons(words[0], rest);
      var b := Join(rest, " ");
      SplitFused(words[0], b);
      CleanSegments(rest, false);
      var last, next := |pieces| - 1, Split(b, '&');
      RunningOn(pieces[last], next[0]);
      KeptFused(pieces[..last], pieces[last] + (" " + next[0]), next[1..], opening);
      assert KeptFrom(next, false) <==> forall i :: 0 <= i < |next| - 1 ==> IsKept(next[1..][i]) by {
        assert forall i :: 1 <= i < |next| ==> next[i] == next[1..][i - 1];
      }
      WordPieces(words[0], opening);
    }
  }

  lemma StandsAlone(piece: string)
    ensures CleanPiece(piece, false) <==> IsKept(piece)
  {
  }

  lemma WordPieces(word: string, opening: bool)
    ensures var pieces := Split(word, '&'); var last := |pieces| - 1;
            (CleanWord(word, opening, true)
             <==> KeptFrom(pieces[..last], opening) && (last > 0 || opening ==> CleanPiece(pieces[last], true)))
  {
    hide IsKept, CleanPiece, Split;
    var pieces := Split(word, '&');
    forall j | 0 <= j < |pieces| ensures CleanPiece(pieces[j], false) <==> IsKept(pieces[j]) { StandsAlone(pieces[j]); }
    assert forall j :: 0 <= j < |pieces| - 1 ==> pieces[..|pieces| - 1][j] == pieces[j];
  }

  /** The condition on the pairs says that their print has a clean query. */
  lemma CleanPairsMeaning(kept: seq<Pair>)
    ensures CleanPairs(kept) <==> CleanQuery(Print(kept))
  {
    hide CleanWords, Split, SplitOnce, IsKept;
    var words := QueryWords(PrintAll(kept));
    QueryOfWords(PrintAll(kept));
    if words.Some? {
      CleanSegments(words.value, true);
      assert KeptFrom(Split(Join(words.value, " "), '&'), true)
        <==> forall i :: 0 <= i < |Split(Join(words.value, " "), '&')| ==>
            IsKept(Split(Join(words.value, " "), '&')[i]);
    }
  }

  // ------------------------------------------------------------------- extracting twice

  /** Extracting again yields no SSL parameter and the same remainder, for every string that
      can be extracted, exactly when it is a URI, or its first kept key does not read like one,
      or the pairs that are kept hold no SSL parameter or empty piece behind a question mark. */
  lemma ExtractTwice(raw: string)
    requires Extract(raw).Ok?
    ensures var rest := Extract(raw).value.rest;
            Extract(rest).Ok? && Extract(rest).value.ssl == [] && Extract(rest).value.rest == rest
            <==>
            IsUri(raw)
            || (var kept := OtherPairs(Parse(raw).value); kept == [] || !IsUri(kept[0].key) || CleanPairs(kept))
  {
    hide IsUri, ExtractUri, Parse, Print, OtherPairs, SslPairs, CleanPairs, CleanQuery;
    var rest := Extract(raw).value.rest;
    if IsUri(raw) {
      ExtractUriTwice(raw);
    } else {
      RestStaysKeyword(raw);
      if IsUri(rest) {
        ExtractUriIdentity(rest);
        CleanPairsMeaning(OtherPairs(Parse(raw).value));
      } else {
        ExtractKeywordTwice(raw);
      }
    }
  }

  lemma {:induction false} DecodePlain(s: string)
    requires '%' !in s
    ensures PercentDecode(s) == s
  {
    if s != "" {
      assert forall c :: c in s[1..] ==> c in s;
      DecodePlain(s[1..]);
      assert s[0] in s && s == [s[0]] + s[1..];
    }
  }

  /** `mode` names an SSL parameter and `base?mode` reads as a URI, as in
      `postgres://h?sslmode`. */
  ghost predicate UriLike(base: string, mode: string, value: string) {
    && IsUri(base) && ValidKey(base) && '?' !in base
    && IsSslKey(Lower(mode)) && ValidKey(mode) && '%' !in mode && '&' !in mode
    && value != "" && !NeedsQuotes(value) && '&' !in value
  }

  lemma QueryHasSsl(mode: string, value: string)
    requires '&' !in value && IsSslKey(Lower(mode)) && ValidKey(mode) && '%' !in mode && '&' !in mode
    ensures SslSegments(Split(mode + ("=" + value), '&')) != []
  {
    hide IsWhitespace, Lower, IsSslKey;
    var query := mode + ("=" + value);
    forall i | 0 <= i < |query| ensures query[i] != '&' {
      assert query[i] == '=' || query[i] in mode || query[i] in value;
    }
    IndexOfUnique(query, '&', |query|);
    assert query[..|query|] == query && Split(query, '&') == [query];
    IndexOfUnique(query, '=', |mode|);
    assert query[..|mode|] == mode;
    DecodePlain(mode);
    assert SegmentKey(query) == Lower(mode) && !IsKept(query);
  }

  /** The printed text of such a pair is a URI with an SSL parameter. */
  lemma PairReadsAsUri(base: string, mode: string, value: string)
    requires UriLike(base, mode, value)
    ensures var rest := Print([Pair(base + "?" + mode, value)]); IsUri(rest) && ExtractUri(rest).ssl != []
  {
    var query := mode + ("=" + value);
    var p := Pair(base + "?" + mode, value);
    var rest := Print([p]);
    PrintStep(p, []);
    assert [p] + [] == [p] && value + "" == value;
    assert rest == base + "?" + query;
    assert forall i :: 0 <= i < |base| ==> rest[i] == base[i];
    SplitOnceConcat(base, query);
    QueryHasSsl(mode, value);
  }

  lemma UriKey(base: string, mode: string, value: string)
    requires UriLike(base, mode, value)
    ensures ValidKey(base + "?" + mode) && !IsSslKey(Lower(base + "?" + mode)) && !IsUri(mode)
  {
    assert LowerChar(base[0]) == 'p' && Lower(base + "?" + mode)[0] == LowerChar(base[0]);
    assert Lower(mode)[0] == 's' == LowerChar(mode[0]);
  }

  /** Keyword strings on which extracting twice is not extracting once, such as
      `sslmode=require postgres://h?sslmode=disable`: after the SSL parameter in front is
      gone, the rest reads as a URI with an SSL parameter of its own. */
  lemma ExtractTwiceFails(base: string, mode: string, value: string)
    requires UriLike(base, mode, value)
    ensures var raw := Print([Pair(mode, "require"), Pair(base + "?" + mode, value)]);
            Extract(raw).Ok? && IsUri(Extract(raw).value.rest) && ExtractUri(Extract(raw).value.rest).ssl != []
  {
    hide IsUri, ExtractUri, Print, ValidKey, IsSslKey, Lower, IsWhitespace;
    var p, u := Pair(mode, "require"), Pair(base + "?" + mode, value);
    UriKey(base, mode, value);
    PrintStep(p, [u]);
    assert [p] + [u] == [p, u] && [p, u][1..] == [u] && [u][1..] == [];
    assert OtherPairs([]) == [] && OtherPairs([u]) == [u] && OtherPairs([p, u]) == [u];
    var raw := Print([p, u]);
    assert forall i :: 0 <= i < |mode| ==> raw[i] == mode[i];
    UriPrefix(raw, mode);
    ParsePrint([p, u]);
    PairReadsAsUri(base, mode, value);
  }
}
