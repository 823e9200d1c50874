/** The transformers of src/dsn.rs: taking the SSL parameters out of a connection string in
    either syntax, and masking its password. */
module Dsn {
  import opened Text
  import opened KeywordString
  import opened Uri

  predicate IsSslKey(k: string) { k == "sslmode" || k == "sslrootcert" || k == "sslcert" || k == "sslkey" }

  datatype SplitDsn = SplitDsn(ssl: seq<Pair>, rest: string, otherKeys: seq<string>)

  // -------------------------------------------------------------- keyword strings, as functions

  /** What one pair contributes: an SSL parameter under its lower-case name, or itself. */
  function SslPart(p: Pair): seq<Pair> { if IsSslKey(Lower(p.key)) then [Pair(Lower(p.key), p.value)] else [] }

  function OtherPart(p: Pair): seq<Pair> { if IsSslKey(Lower(p.key)) then [] else [p] }

  function SslPairs(ps: seq<Pair>): (r: seq<Pair>)
    ensures forall i :: 0 <= i < |r| ==> IsSslKey(r[i].key)
  {
    if ps == [] then [] else SslPart(ps[0]) + SslPairs(ps[1..])
  }

  function OtherPairs(ps: seq<Pair>): (r: seq<Pair>)
    ensures forall i :: 0 <= i < |r| ==> r[i] in ps && !IsSslKey(Lower(r[i].key))
  {
    if ps == [] then [] else OtherPart(ps[0]) + OtherPairs(ps[1..])
  }

  function LowerKeys(ps: seq<Pair>): (r: seq<string>)
    ensures |r| == |ps| && forall i :: 0 <= i < |ps| ==> r[i] == Lower(ps[i].key)
  {
    seq(|ps|, i requires 0 <= i < |ps| => Lower(ps[i].key))
  }

  function ExtractKeyword(raw: string): Result<SplitDsn, ParseError> {
    match Parse(raw)
    case Err(e) => Err(e)
    case Ok(ps) => Ok(SplitDsn(SslPairs(ps), Print(OtherPairs(ps)), LowerKeys(OtherPairs(ps))))
  }

  // ---------------------------------------------------------------------- URIs, as functions

  /** `split_once(c)`, with the part after the separator when there is one. */
  function SplitOnce(s: string, c: char): (r: (string, Option<string>))
  {
    var k := IndexOf(s, c);
    (s[..k], if k < |s| then Some(s[k + 1..]) else None)
  }

  function SegmentKey(segment: string): string { Lower(PercentDecode(SplitOnce(segment, '=').0)) }

  function SegmentValue(segment: string): string {
    match SplitOnce(segment, '=').1 case Some(v) => PercentDecode(v) case None => ""
  }

  predicate IsKept(segment: string) { segment != "" && !IsSslKey(SegmentKey(segment)) }

  /** What one segment contributes: itself, or an SSL parameter, or nothing if it is empty. */
  function KeptOf(s: string): seq<string> { if IsKept(s) then [s] else [] }

  function SslOf(s: string): seq<Pair> {
    if s != "" && !IsKept(s) then [Pair(SegmentKey(s), SegmentValue(s))] else []
  }

  function KeptSegments(segments: seq<string>): (r: seq<string>)
    ensures forall i :: 0 <= i < |r| ==> r[i] in segments && IsKept(r[i])
  {
    if segments == [] then [] else KeptOf(segments[0]) + KeptSegments(segments[1..])
  }

  function SslSegments(segments: seq<string>): (r: seq<Pair>)
    ensures forall i :: 0 <= i < |r| ==> IsSslKey(r[i].key)
  {
    if segments == [] then [] else SslOf(segments[0]) + SslSegments(segments[1..])
  }

  function SegmentKeys(segments: seq<string>): (r: seq<string>)
    ensures |r| == |segments|
  {
    seq(|segments|, i requires 0 <= i < |segments| => SegmentKey(segments[i]))
  }

  function WithQuery(base: string, segments: seq<string>): string {
    if segments == [] then base else base + "?" + Join(segments, "&")
  }

  function ExtractUri(raw: string): SplitDsn {
    var (base, query) := SplitOnce(raw, '?');
    match query
    case None => SplitDsn([], raw, [])
    case Some(q) =>
      var kept := KeptSegments(Split(q, '&'));
      SplitDsn(SslSegments(Split(q, '&')), WithQuery(base, kept), SegmentKeys(kept))
  }

  function Extract(raw: string): Result<SplitDsn, ParseError> {
    if IsUri(raw) then Ok(ExtractUri(raw)) else ExtractKeyword(raw)
  }

  // ------------------------------------------------------------------- the code, as it runs

  lemma PrintAllSnoc(ps: seq<Pair>, p: Pair)
    ensures PrintAll(ps + [p]) == PrintAll(ps) + [PrintPair(p)]
  {
    if ps != [] {
      assert (ps + [p])[1..] == ps[1..] + [p];
      PrintAllSnoc(ps[1..], p);
    }
  }

  lemma {:induction false} PairsSnoc(ps: seq<Pair>, p: Pair)
    ensures SslPairs(ps + [p]) == SslPairs(ps) + SslPart(p) && OtherPairs(ps + [p]) == OtherPairs(ps) + OtherPart(p)
  {
    hide SslPart, OtherPart, Lower, IsSslKey;
    if ps == [] {
      assert ps + [p] == [p];
    } else {
      assert (ps + [p])[1..] == ps[1..] + [p];
      PairsSnoc(ps[1..], p);
      assert SslPart(ps[0]) + (SslPairs(ps[1..]) + SslPart(p)) == SslPairs(ps) + SslPart(p);
      assert OtherPart(ps[0]) + (OtherPairs(ps[1..]) + OtherPart(p)) == OtherPairs(ps) + OtherPart(p);
    }
  }

  lemma KeywordStep(pairs: seq<Pair>, i: nat)
    requires i < |pairs|
    ensures var p, done, next := pairs[i], pairs[..i], pairs[..i + 1];
            if IsSslKey(Lower(p.key)) then
              && SslPairs(next) == SslPairs(done) + [Pair(Lower(p.key), p.value)]
              && OtherPairs(next) == OtherPairs(done)
            else
              && SslPairs(next) == SslPairs(done)
              && LowerKeys(OtherPairs(next)) == LowerKeys(OtherPairs(done)) + [Lower(p.key)]
              && PrintAll(OtherPairs(next)) == PrintAll(OtherPairs(done)) + [PrintPair(p)]
  {
    hide Lower, IsSslKey, SslPairs, OtherPairs, PrintAll, PrintPair;
    assert pairs[..i + 1] == pairs[..i] + [pairs[i]];
    PairsSnoc(pairs[..i], pairs[i]);
    assert SslPairs(pairs[..i]) + [] == SslPairs(pairs[..i]) && OtherPairs(pairs[..i]) + [] == OtherPairs(pairs[..i]);
    PrintAllSnoc(OtherPairs(pairs[..i]), pairs[i]);
  }

  lemma {:induction false} SegmentsSnoc(ss: seq<string>, s: string)
    ensures KeptSegments(ss + [s]) == KeptSegments(ss) + KeptOf(s)
        && SslSegments(ss + [s]) == SslSegments(ss) + SslOf(s)
  {
    hide KeptOf, SslOf, IsKept, IsSslKey;
    if ss == [] {
      assert ss + [s] == [s];
    } else {
      assert (ss + [s])[1..] == ss[1..] + [s];
      SegmentsSnoc(ss[1..], s);
      assert KeptOf(ss[0]) + (KeptSegments(ss[1..]) + KeptOf(s)) == KeptSegments(ss) + KeptOf(s);
      assert SslOf(ss[0]) + (SslSegments(ss[1..]) + SslOf(s)) == SslSegments(ss) + SslOf(s);
    }
  }

  lemma SegmentStep(segments: seq<string>, i: nat)
    requires i < |segments|
    ensures var s, done, next := segments[i], segments[..i], segments[..i + 1];
            if IsKept(s) then
              && SslSegments(next) == SslSegments(done)
              && KeptSegments(next) == KeptSegments(done) + [s]
              && SegmentKeys(KeptSegments(next)) == SegmentKeys(KeptSegments(done)) + [SegmentKey(s)]
            else
              && SslSegments(next)
                 == SslSegments(done) + (if s == "" then [] else [Pair(SegmentKey(s), SegmentValue(s))])
              && KeptSegments(next) == KeptSegments(done)
  {
    hide IsKept, SegmentKey, SegmentValue, KeptSegments, SslSegments;
    assert segments[..i + 1] == segments[..i] + [segments[i]];
    SegmentsSnoc(segments[..i], segments[i]);
    assert SslSegments(segments[..i]) + [] == SslSegments(segments[..i]);
    assert KeptSegments(segments[..i]) + [] == KeptSegments(segments[..i]);
  }

  method ExtractKeywordParams(raw: string) returns (r: Result<SplitDsn, ParseError>)
    ensures r == ExtractKeyword(raw)
  {
    var parsed := SplitKeywordPairs(raw);
    if parsed.Err? { return Err(parsed.error); }
    var pairs, ssl, otherKeys, kept := parsed.value, [], [], [];
    for i := 0 to |pairs|
      invariant ssl == SslPairs(pairs[..i]) && otherKeys == LowerKeys(OtherPairs(pairs[..i]))
      invariant kept == PrintAll(OtherPairs(pairs[..i]))
    {
      KeywordStep(pairs, i);
      var lower := Lower(pairs[i].key);
      if IsSslKey(lower) {
        ssl := ssl + [Pair(lower, pairs[i].value)];
      } else {
        otherKeys, kept := otherKeys + [lower], kept + [PrintPair(pairs[i])];
      }
    }
    assert pairs[..|pairs|] == pairs;
    return Ok(SplitDsn(ssl, Join(kept, " "), otherKeys));
  }

  method ExtractUriParams(raw: string) returns (r: SplitDsn)
    ensures r == ExtractUri(raw)
  {
    var (base, query) := SplitOnce(raw, '?');
    if query.None? { return SplitDsn([], raw, []); }
    var segments := Split(query.value, '&');
    var ssl, otherKeys, kept := [], [], [];
    for i := 0 to |segments|
      invariant ssl == SslSegments(segments[..i]) && kept == KeptSegments(segments[..i])
          && otherKeys == SegmentKeys(kept)
    {
      SegmentStep(segments, i);
      if segments[i] == "" { continue; }
      var (rawKey, rawValue) := SplitOnce(segments[i], '=');
      var decoded := PercentDecodeBytes(rawKey);
      var key := Lower(decoded);
      if IsSslKey(key) {
        var value := PercentDecodeBytes(if rawValue.Some? then rawValue.value else "");
        ssl := ssl + [Pair(key, value)];
      } else {
        otherKeys, kept := otherKeys + [key], kept + [segments[i]];
      }
    }
    assert segments[..|segments|] == segments;
    return SplitDsn(ssl, if kept == [] then base else base + "?" + Join(kept, "&"), otherKeys);
  }

  /** `extract_ssl_params`. */
  method ExtractSslParams(raw: string) returns (r: Result<SplitDsn, ParseError>)
    ensures r == Extract(raw)
  {
    if IsUri(raw) {
      var split := ExtractUriParams(raw);
      r := Ok(split);
    } else {
      r := ExtractKeywordParams(raw);
    }
  }

  // ------------------------------------------------------------------ keyword strings, laws

  /** The names of the SSL parameters. */
  lemma SslNames(k: string)
    ensures IsSslKey(k) <==> k in {"sslmode", "sslrootcert", "sslcert", "sslkey"}
  {
  }

  /** What extraction makes of the pairs: one named like an SSL parameter, in any case, is listed
      under its lower-case name with its value, every other one stays, and none is invented. */
  lemma {:induction false} ExtractedPairs(ps: seq<Pair>)
    ensures |SslPairs(ps)| + |OtherPairs(ps)| == |ps|
    ensures forall p :: p in ps ==>
              if Lower(p.key) in {"sslmode", "sslrootcert", "sslcert", "sslkey"}
              then Pair(Lower(p.key), p.value) in SslPairs(ps) else p in OtherPairs(ps)
    ensures forall q :: q in SslPairs(ps) ==> exists p :: p in ps && q == Pair(Lower(p.key), p.value)
  {
    hide Lower, IsSslKey;
    if ps != [] {
      ExtractedPairs(ps[1..]);
      SslNames(Lower(ps[0].key));
      assert ps == [ps[0]] + ps[1..];
      forall q | q in SslPairs(ps) ensures exists p :: p in ps && q == Pair(Lower(p.key), p.value) {
        if q in SslPairs(ps[1..]) {
          var p :| p in ps[1..] && q == Pair(Lower(p.key), p.value);
          assert p in ps;
        } else {
          assert ps[0] in ps && q == Pair(Lower(ps[0].key), ps[0].value);
        }
      }
    }
  }

  /** The same for the segments of a query; an empty segment is dropped. */
  lemma {:induction false} ExtractedSegments(segments: seq<string>)
    ensures forall s :: s in segments && s != "" ==>
              if SegmentKey(s) in {"sslmode", "sslrootcert", "sslcert", "sslkey"}
              then Pair(SegmentKey(s), SegmentValue(s)) in SslSegments(segments) else s in KeptSegments(segments)
    ensures forall s :: s in KeptSegments(segments) ==> s in segments && s != ""
    ensures |SslSegments(segments)| + |KeptSegments(segments)| <= |segments|
  {
    hide SegmentKey, SegmentValue, IsSslKey;
    if segments != [] {
      ExtractedSegments(segments[1..]);
      SslNames(SegmentKey(segments[0]));
      assert segments == [segments[0]] + segments[1..];
    }
  }

  /** How a segment is read: its name up to the first equals sign and its value behind it, both
      decoded, the name in lower case; without an equals sign the value is empty. */
  lemma SegmentRead(key: string, value: string)
    requires '=' !in key
    ensures SegmentKey(key + "=" + value) == Lower(PercentDecode(key)) == SegmentKey(key)
    ensures SegmentValue(key + "=" + value) == PercentDecode(value) && SegmentValue(key) == ""
  {
    var s := key + "=" + value;
    assert forall i :: 0 <= i < |key| ==> key[i] in key && s[i] == key[i];
    IndexOfUnique(s, '=', |key|);
    IndexOfUnique(key, '=', |key|);
    assert s[..|key|] == key && s[|key| + 1..] == value && key[..|key|] == key;
  }

  /** The names reported beside the SSL parameters are in lower case and none of the four. */
  lemma OtherNames(raw: string)
    requires Extract(raw).Ok?
    ensures forall k :: k in Extract(raw).value.otherKeys ==>
              Lower(k) == k && k !in {"sslmode", "sslrootcert", "sslcert", "sslkey"}
  {
    hide Parse, IsUri, SegmentKey, IsSslKey, Lower;
    forall k
      ensures Lower(Lower(k)) == Lower(k) && (IsSslKey(k) <==> k in {"sslmode", "sslrootcert", "sslcert", "sslkey"})
    {
      LowerTwice(k);
      SslNames(k);
    }
    forall s ensures exists d :: SegmentKey(s) == Lower(d) { SegmentKeyLowered(s); }
  }

  lemma SegmentKeyLowered(s: string)
    ensures SegmentKey(s) == Lower(PercentDecode(SplitOnce(s, '=').0))
  {
  }

  lemma LowerTwice(k: string)
    ensures Lower(Lower(k)) == Lower(k)
  {
  }

  lemma {:induction false} OtherPairsFixed(ps: seq<Pair>)
    requires forall i :: 0 <= i < |ps| ==> !IsSslKey(Lower(ps[i].key))
    ensures OtherPairs(ps) == ps && SslPairs(ps) == []
  {
    if ps != [] {
      OtherPairsFixed(ps[1..]);
    }
  }

  lemma OtherPairsValid(ps: seq<Pair>)
    requires ValidKeys(ps)
    ensures ValidKeys(OtherPairs(ps))
  {
  }

  /** Extraction preserves meaning: the remainder reads as the non-SSL pairs, in order and
      with their exact values. */
  lemma ExtractKeywordMeaning(raw: string)
    requires Parse(raw).Ok?
    ensures Parse(ExtractKeyword(raw).value.rest) == Ok(OtherPairs(Parse(raw).value))
  {
    ParsedKeysValid(raw);
    OtherPairsValid(Parse(raw).value);
    ParsePrint(OtherPairs(Parse(raw).value));
  }

  /** Read as a keyword string, the remainder yields no SSL parameter and itself again. */
  lemma ExtractKeywordTwice(raw: string)
    requires Parse(raw).Ok?
    ensures var once := ExtractKeyword(raw).value;
            ExtractKeyword(once.rest) == Ok(SplitDsn([], once.rest, once.otherKeys))
  {
    ExtractKeywordMeaning(raw);
    OtherPairsFixed(OtherPairs(Parse(raw).value));
  }

  /** The remainder of a keyword string is itself a keyword string exactly when its first
      kept key does not read like a URI. */
  lemma RestStaysKeyword(raw: string)
    requires Parse(raw).Ok?
    ensures var kept := OtherPairs(Parse(raw).value);
            IsUri(ExtractKeyword(raw).value.rest) <==> kept != [] && IsUri(kept[0].key)
  {
    var kept := OtherPairs(Parse(raw).value);
    if kept != [] {
      var p := kept[0];
      assert kept == [p] + kept[1..];
      PrintStep(p, kept[1..]);
      var text := Print(kept);
      assert text[..|p.key|] == p.key && text[|p.key|] == '=';
      assert forall i :: 0 <= i < |p.key| ==> text[i] == p.key[i];
      UriPrefix(text, p.key);
    }
  }

  lemma UriPrefix(text: string, key: string)
    requires |key| < |text| && text[|key|] == '=' && forall i :: 0 <= i < |key| ==> text[i] == key[i]
    ensures IsUri(text) <==> IsUri(key)
  {
    assert '=' !in SCHEME && '=' !in LONG_SCHEME;
    assert forall i :: 0 <= i < |SCHEME| ==> SCHEME[i] in SCHEME;
    assert forall i :: 0 <= i < |LONG_SCHEME| ==> LONG_SCHEME[i] in LONG_SCHEME;
  }

  // -------------------------------------------------------------------------- URIs, laws

  lemma {:induction false} KeptFixed(ss: seq<string>)
    requires forall i :: 0 <= i < |ss| ==> IsKept(ss[i])
    ensures KeptSegments(ss) == ss && SslSegments(ss) == []
  {
    if ss != [] {
      KeptFixed(ss[1..]);
    }
  }

  /** A query none of whose segments is empty or an SSL parameter. */
  ghost predicate CleanQuery(s: string) {
    match SplitOnce(s, '?').1
    case None => true
    case Some(q) => forall i :: 0 <= i < |Split(q, '&')| ==> IsKept(Split(q, '&')[i])
  }

  lemma SplitOnceConcat(base: string, query: string)
    requires '?' !in base
    ensures SplitOnce(base, '?') == (base, None)
    ensures SplitOnce(base + "?" + query, '?') == (base, Some(query))
  {
    assert forall i :: 0 <= i < |base| ==> base[i] in base;
    IndexOfUnique(base, '?', |base|);
    assert base[..|base|] == base;
    var s := base + "?" + query;
    IndexOfUnique(s, '?', |base|);
    assert s[..|base|] == base && s[|base| + 1..] == query;
  }

  lemma SplitOnceParts(s: string)
    ensures var (base, query) := SplitOnce(s, '?');
            '?' !in base && s == match query case None => base case Some(q) => base + "?" + q
  {
  }

  /** The base is copied, and the query of the remainder is the kept segments, each copied
      verbatim and in order: splitting the remainder gives them back. */
  lemma ExtractUriVerbatim(raw: string)
    requires SplitOnce(raw, '?').1.Some?
    ensures var (base, query) := SplitOnce(raw, '?');
            var kept := KeptSegments(Split(query.value, '&'));
            var again := SplitOnce(ExtractUri(raw).rest, '?');
            && again.0 == base
            && again.1 == (if kept == [] then None else Some(Join(kept, "&")))
            && (kept != [] ==> Split(again.1.value, '&') == kept)
  {
    var (base, query) := SplitOnce(raw, '?');
    var kept := KeptSegments(Split(query.value, '&'));
    SplitOnceParts(raw);
    SplitOnceConcat(base, Join(kept, "&"));
    if kept != [] {
      SplitJoin(kept, '&');
    }
  }

  /** Dropping the query keeps the text a URI: the scheme holds no question mark. */
  lemma ExtractUriStaysUri(raw: string)
    requires IsUri(raw)
    ensures IsUri(ExtractUri(raw).rest)
  {
    hide IsUri, SplitOnce, KeptSegments, SslSegments;
    var base := SplitOnce(raw, '?').0;
    SchemeInBase(raw);
    assert forall more :: base <= base + "?" + more;
    SchemeKept(raw, ExtractUri(raw).rest, |base|);
  }

  /** The question mark, if there is one, stands behind the scheme. */
  lemma SchemeInBase(raw: string)
    requires IsUri(raw)
    ensures var base := SplitOnce(raw, '?').0; base <= raw && AuthorityStart(raw) <= |base|
  {
    SchemeChars(raw);
  }

  lemma SchemeKept(raw: string, rest: string, n: nat)
    requires IsUri(raw) && AuthorityStart(raw) <= n <= |raw| && n <= |rest| && rest[..n] == raw[..n]
    ensures IsUri(rest)
  {
    assert forall i :: 0 <= i < n ==> rest[i] == rest[..n][i] && raw[i] == raw[..n][i];
  }

  /** URI extraction is the identity, with nothing extracted, exactly on clean queries. */
  lemma ExtractUriIdentity(s: string)
    ensures ExtractUri(s).ssl == [] && ExtractUri(s).rest == s <==> CleanQuery(s)
  {
    var (base, query) := SplitOnce(s, '?');
    SplitOnceParts(s);
    if query.Some? {
      var segments := Split(query.value, '&');
      if CleanQuery(s) {
        KeptFixed(segments);
      }
      ExtractUriVerbatim(s);
    }
  }

  // Writing a query: every parameter as `key=value`, percent-encoded.

  /** An encoder that escapes the characters with a meaning of their own in a query. */
  ghost predicate QuerySafe(literal: char -> bool) { !literal('=') && !literal('&') }

  predicate Bytes(s: string) { forall c :: c in s ==> c as int < 256 }

  predicate AllBytes(ps: seq<Pair>) { forall i :: 0 <= i < |ps| ==> Bytes(ps[i].key) && Bytes(ps[i].value) }

  function Segment(p: Pair, literal: char -> bool): string
    requires Bytes(p.key) && Bytes(p.value)
  {
    PercentEncode(p.key, literal) + ("=" + PercentEncode(p.value, literal))
  }

  function Segments(ps: seq<Pair>, literal: char -> bool): (r: seq<string>)
    requires AllBytes(ps)
    ensures |r| == |ps|
  {
    if ps == [] then [] else [Segment(ps[0], literal)] + Segments(ps[1..], literal)
  }

  lemma SegmentReads(p: Pair, literal: char -> bool)
    requires Bytes(p.key) && Bytes(p.value) && QuerySafe(literal)
    ensures var s := Segment(p, literal);
            s != "" && '&' !in s && SegmentKey(s) == Lower(p.key) && SegmentValue(s) == p.value
  {
    hide Lower, PercentDecode, PercentEncode;
    var k, v := PercentEncode(p.key, literal), PercentEncode(p.value, literal);
    EncodeAvoids(p.key, literal, '=');
    EncodeAvoids(p.key, literal, '&');
    EncodeAvoids(p.value, literal, '&');
    var s := k + ("=" + v);
    assert forall i :: 0 <= i < |k| ==> s[i] == k[i] && k[i] in k;
    IndexOfUnique(s, '=', |k|);
    assert s[..|k|] == k && s[|k| + 1..] == v;
    DecodeEncode(p.key, literal);
    DecodeEncode(p.value, literal);
    forall i | 0 <= i < |s| ensures s[i] != '&' {
      assert s[i] == '=' || s[i] in k || s[i] in v;
    }
  }

  lemma {:induction false} SegmentsRead(ps: seq<Pair>, literal: char -> bool)
    requires AllBytes(ps) && QuerySafe(literal)
    ensures AllBytes(OtherPairs(ps))
    ensures SslSegments(Segments(ps, literal)) == SslPairs(ps)
    ensures KeptSegments(Segments(ps, literal)) == Segments(OtherPairs(ps), literal)
  {
    hide Segment, IsSslKey, Lower, SegmentKey, SegmentValue, AllBytes, IsKept, SslSegments, KeptSegments, SslPairs,
        OtherPairs, Segments, QuerySafe;
    if ps == [] {
      NothingToRead(literal);
    } else {
      var p, rest := ps[0], ps[1..];
      AllBytesFront(ps);
      SegmentsRead(rest, literal);
      SegmentReads(p, literal);
      KeptByKey(Segment(p, literal));
      PairsFront(ps);
      assert ps == [p] + rest;
      SegmentsCons(p, rest, literal);
      SegmentListFront(Segment(p, literal), Segments(rest, literal));
      if !IsSslKey(Lower(p.key)) {
        AllBytesCons(p, OtherPairs(rest));
        SegmentsCons(p, OtherPairs(rest), literal);
      }
    }
  }

  lemma AllBytesFront(ps: seq<Pair>)
    requires ps != [] && AllBytes(ps)
    ensures Bytes(ps[0].key) && Bytes(ps[0].value) && AllBytes(ps[1..])
  {
  }

  lemma AllBytesCons(p: Pair, ps: seq<Pair>)
    requires Bytes(p.key) && Bytes(p.value) && AllBytes(ps)
    ensures AllBytes([p] + ps)
  {
  }

  /** The keys of the segments are the keys written, and no segment holds a separator. */
  lemma {:induction false} SegmentsKeys(ps: seq<Pair>, literal: char -> bool)
    requires AllBytes(ps) && QuerySafe(literal)
    ensures SegmentKeys(Segments(ps, literal)) == LowerKeys(ps)
    ensures forall i :: 0 <= i < |ps| ==> '&' !in Segments(ps, literal)[i]
  {
    hide Segment, Lower, SegmentKey, AllBytes, QuerySafe;
    if ps != [] {
      AllBytesFront(ps);
      SegmentReads(ps[0], literal);
      SegmentsKeys(ps[1..], literal);
      assert ps == [ps[0]] + ps[1..];
      assert forall i :: 0 < i < |ps| ==>
          SegmentKeys(Segments(ps, literal))[i] == SegmentKeys(Segments(ps[1..], literal))[i - 1];
      assert forall i :: 0 < i < |ps| ==> LowerKeys(ps)[i] == LowerKeys(ps[1..])[i - 1];
    }
  }

  lemma KeptByKey(s: string)
    ensures IsKept(s) <==> s != "" && !IsSslKey(SegmentKey(s))
  {
  }

  lemma NothingToRead(literal: char -> bool)
    ensures AllBytes([]) && Segments([], literal) == [] && SslSegments([]) == SslPairs([]) == []
        && OtherPairs([]) == [] && KeptSegments([]) == []
  {
  }

  lemma SegmentsCons(p: Pair, ps: seq<Pair>, literal: char -> bool)
    requires AllBytes(ps) && AllBytes([p] + ps)
    requires Bytes(p.key) && Bytes(p.value)
    ensures Segments([p] + ps, literal) == [Segment(p, literal)] + Segments(ps, literal)
  {
    assert ([p] + ps)[0] == p && ([p] + ps)[1..] == ps;
  }

  lemma PairsFront(ps: seq<Pair>)
    requires ps != []
    ensures var p, rest := ps[0], ps[1..];
            if IsSslKey(Lower(p.key)) then
              SslPairs(ps) == [Pair(Lower(p.key), p.value)] + SslPairs(rest) && OtherPairs(ps) == OtherPairs(rest)
            else
              SslPairs(ps) == SslPairs(rest) && OtherPairs(ps) == [p] + OtherPairs(rest)
  {
  }

  lemma SegmentListFront(s: string, ss: seq<string>)
    requires s != ""
    ensures if IsKept(s) then
              KeptSegments([s] + ss) == [s] + KeptSegments(ss) && SslSegments([s] + ss) == SslSegments(ss)
            else
              KeptSegments([s] + ss) == KeptSegments(ss)
                  && SslSegments([s] + ss) == [Pair(SegmentKey(s), SegmentValue(s))] + SslSegments(ss)
  {
    hide IsKept;
    assert ([s] + ss)[0] == s && ([s] + ss)[1..] == ss;
  }

  /** Extraction reads what a query was written from: the SSL parameters with their decoded
      values, and a remainder that is the query of the other parameters, byte for byte. */
  lemma ExtractUriReads(base: string, ps: seq<Pair>, literal: char -> bool)
    requires '?' !in base && ps != [] && QuerySafe(literal) && AllBytes(ps)
    ensures AllBytes(OtherPairs(ps))
    ensures ExtractUri(WithQuery(base, Segments(ps, literal)))
         == SplitDsn(SslPairs(ps), WithQuery(base, Segments(OtherPairs(ps), literal)), LowerKeys(OtherPairs(ps)))
  {
    hide AllBytes, QuerySafe, SslSegments, KeptSegments, SslPairs, OtherPairs;
    var ss := Segments(ps, literal);
    SplitOnceConcat(base, Join(ss, "&"));
    SegmentsRead(ps, literal);
    SegmentsKeys(ps, literal);
    SegmentsKeys(OtherPairs(ps), literal);
    SplitJoin(ss, '&');
  }

  /** URI extraction is idempotent. */
  lemma ExtractUriTwice(raw: string)
    requires IsUri(raw)
    ensures IsUri(ExtractUri(raw).rest)
    ensures ExtractUri(ExtractUri(raw).rest).ssl == [] && ExtractUri(ExtractUri(raw).rest).rest == ExtractUri(raw).rest
  {
    ExtractUriStaysUri(raw);
    if SplitOnce(raw, '?').1.Some? {
      ExtractUriVerbatim(raw);
    }
    ExtractUriIdentity(ExtractUri(raw).rest);
  }

  // ------------------------------------------------------------------------------- redact

  predicate IsPasswordKey(k: string) { Lower(k) == "password" }

  function MaskPairs(ps: seq<Pair>): (r: seq<Pair>)
    ensures |r| == |ps| && forall i :: 0 <= i < |ps| ==>
              r[i] == if IsPasswordKey(ps[i].key) then Pair(ps[i].key, MASK) else ps[i]
  {
    seq(|ps|, i requires 0 <= i < |ps| => if IsPasswordKey(ps[i].key) then Pair(ps[i].key, MASK) else ps[i])
  }

  function RedactedTexts(ps: seq<Pair>): seq<string> {
    if ps == [] then [] else
      [if IsPasswordKey(ps[0].key) then ps[0].key + "=" + MASK else PrintPair(ps[0])] + RedactedTexts(ps[1..])
  }

  /** `redact`. */
  function Redact(raw: string): string {
    var trimmed := Trim(raw);
    if IsUri(trimmed) then RedactUri(trimmed) else
      match Parse(trimmed)
      case Ok(ps) => Join(RedactedTexts(ps), " ")
      case Err(_) => "[REDACTED]"
  }

  lemma {:induction false} RedactedTextsPrint(ps: seq<Pair>)
    ensures RedactedTexts(ps) == PrintAll(MaskPairs(ps))
  {
    if ps != [] {
      assert MaskPairs(ps)[1..] == MaskPairs(ps[1..]);
      RedactedTextsPrint(ps[1..]);
      assert EscapeKeywordValue(MASK) == MASK;
    }
  }

  /** A masked keyword string still parses, to the same pairs with only the password values
      replaced, so it reveals nothing of them but their number. */
  lemma RedactKeywordMeaning(raw: string)
    requires !IsUri(Trim(raw)) && Parse(Trim(raw)).Ok?
    ensures Parse(Redact(raw)) == Ok(MaskPairs(Parse(Trim(raw)).value))
  {
    var ps := Parse(Trim(raw)).value;
    ParsedKeysValid(Trim(raw));
    RedactedTextsPrint(ps);
    ParsePrint(MaskPairs(ps));
  }
}
