/** The URI half of src/dsn.rs: percent-decoding (section 2.1 of RFC 3986), the authority
    (section 3.2), and masking of the userinfo password. Characters stand for bytes. */
module Uri {
  import opened Text

  const SCHEME := "postgres://"
  const LONG_SCHEME := "postgresql://"

  /** `to_ascii_lowercase` followed by `starts_with`. */
  predicate HasScheme(s: string, scheme: string) {
    |scheme| <= |s| && forall i :: 0 <= i < |scheme| ==> LowerChar(s[i]) == scheme[i]
  }

  predicate IsUri(s: string) { HasScheme(s, SCHEME) || HasScheme(s, LONG_SCHEME) }

  /** Which texts are URIs: one of two schemes, in any case. */
  lemma IsUriExactly(s: string)
    ensures IsUri(s) <==>
        (|s| >= 11 && Lower(s[..11]) == "postgres://") || (|s| >= 13 && Lower(s[..13]) == "postgresql://")
  {
    SchemeInAnyCase(s, "postgres://");
    SchemeInAnyCase(s, "postgresql://");
  }

  lemma SchemeInAnyCase(s: string, scheme: string)
    ensures HasScheme(s, scheme) <==> |s| >= |scheme| && Lower(s[..|scheme|]) == scheme
  {
    if |s| >= |scheme| {
      var front := s[..|scheme|];
      assert forall i :: 0 <= i < |scheme| ==> front[i] == s[i] && Lower(front)[i] == LowerChar(front[i]);
    }
  }

  // -------------------------------------------------------------------- percent-decoding

  function HexValue(c: char): (v: Option<nat>)
    ensures v.Some? ==> v.value < 16
  {
    if '0' <= c <= '9' then Some(c as int - '0' as int)
    else if 'a' <= c <= 'f' then Some(c as int - 'a' as int + 10)
    else if 'A' <= c <= 'F' then Some(c as int - 'A' as int + 10)
    else None
  }

  /** `u8::from_str_radix` on two characters; it also accepts a leading plus sign. */
  function HexByte(hi: char, lo: char): (v: Option<nat>)
    ensures v.Some? ==> v.value < 256
  {
    match (HexValue(hi), HexValue(lo))
    case (Some(h), Some(l)) => Some(16 * h + l)
    case (None, Some(l)) => if hi == '+' then Some(l) else None
    case _ => None
  }

  function PercentDecode(s: string): string {
    if s == "" then ""
    else if s[0] == '%' && |s| > 2 && HexByte(s[1], s[2]).Some? then
      [HexByte(s[1], s[2]).value as char] + PercentDecode(s[3..])
    else [s[0]] + PercentDecode(s[1..])
  }

  /** `percent_decode`. */
  method PercentDecodeBytes(bytes: string) returns (out: string)
    ensures out == PercentDecode(bytes)
  {
    out := "";
    var i := 0;
    assert bytes[0..] == bytes && "" + PercentDecode(bytes) == PercentDecode(bytes);
    while i < |bytes|
      invariant 0 <= i <= |bytes| && PercentDecode(bytes) == out + PercentDecode(bytes[i..])
    {
      var tail := bytes[i..];
      assert tail[1..] == bytes[i + 1..];
      if bytes[i] == '%' && i + 2 < |bytes| {
        assert tail[3..] == bytes[i + 3..];
        match HexByte(bytes[i + 1], bytes[i + 2])
        case Some(b) =>
          assert out + ([b as char] + PercentDecode(bytes[i + 3..]))
              == out + [b as char] + PercentDecode(bytes[i + 3..]);
          out, i := out + [b as char], i + 3;
          continue;
        case None =>
      }
      assert out + ([bytes[i]] + PercentDecode(bytes[i + 1..])) == out + [bytes[i]] + PercentDecode(bytes[i + 1..]);
      out, i := out + [bytes[i]], i + 1;
    }
    assert out + "" == out;
  }

  function HexDigit(v: nat): (c: char)
    requires v < 16
    ensures HexValue(c) == Some(v)
  {
    if v < 10 then (v + '0' as int) as char else (v - 10 + 'A' as int) as char
  }

  /** An RFC 3986 encoder: `literal` picks the bytes that stay as they are, never `%`. */
  function PercentEncode(bytes: string, literal: char -> bool): string
    requires forall c :: c in bytes ==> c as int < 256
  {
    if bytes == "" then ""
    else
      assert bytes[0] in bytes && forall c :: c in bytes[1..] ==> c in bytes;
      var b := bytes[0];
      (if literal(b) && b != '%' then [b] else ['%', HexDigit(b as int / 16), HexDigit(b as int % 16)])
      + PercentEncode(bytes[1..], literal)
  }

  lemma HexByteOf(b: nat)
    requires b < 256
    ensures HexByte(HexDigit(b / 16), HexDigit(b % 16)) == Some(b)
  {
  }

  const DIGITS := "0123456789abcdef"
  const CAPITALS := "0123456789ABCDEF"

  /** Each of the sixteen digits, in either case, has its place as its value. */
  lemma HexDigitAt(i: nat)
    requires i < 16
    ensures HexValue(DIGITS[i]) == Some(i) && HexValue(CAPITALS[i]) == Some(i)
  {
  }

  /** And nothing else is a hexadecimal digit. */
  lemma HexDigitsOnly(c: char)
    requires HexValue(c).Some?
    ensures var v := HexValue(c).value; DIGITS[v] == c || CAPITALS[v] == c
  {
    SmallOrCapital(HexValue(c).value);
  }

  lemma SmallOrCapital(v: nat)
    requires v < 16
    ensures DIGITS[v] as int == (if v < 10 then v + 48 else v + 87)
        && CAPITALS[v] as int == (if v < 10 then v + 48 else v + 55)
  {
  }

  /** An escape is two hexadecimal digits, or a plus sign and one. */
  lemma EscapesExactly(hi: char, lo: char)
    ensures HexByte(hi, lo).Some? <==> HexValue(lo).Some? && (HexValue(hi).Some? || hi == '+')
    ensures HexByte(hi, lo).Some? ==>
              HexByte(hi, lo).value == (if hi == '+' then 0 else 16 * HexValue(hi).value) + HexValue(lo).value
  {
    hide HexValue;
    PlusIsNoDigit();
  }

  /** Everything that is not part of an escape is left as it is, a percent sign too. */
  lemma OthersStay(s: string)
    requires s != "" && !(s[0] == '%' && |s| >= 3 && HexByte(s[1], s[2]).Some?)
    ensures PercentDecode(s) == [s[0]] + PercentDecode(s[1..])
  {
    hide HexByte;
  }

  lemma PlusIsNoDigit()
    ensures HexValue('+').None?
  {
  }

  /** Decoding undoes every encoding of every byte string. */
  lemma {:induction false} DecodeEncode(bytes: string, literal: char -> bool)
    requires forall c :: c in bytes ==> c as int < 256
    ensures PercentDecode(PercentEncode(bytes, literal)) == bytes
  {
    hide HexByte, HexDigit;
    if bytes != "" {
      assert forall c :: c in bytes[1..] ==> c in bytes;
      var b, tail := bytes[0], PercentEncode(bytes[1..], literal);
      assert b in bytes;
      DecodeEncode(bytes[1..], literal);
      if literal(b) && b != '%' {
        assert ([b] + tail)[1..] == tail;
      } else {
        var e := ['%', HexDigit(b as int / 16), HexDigit(b as int % 16)];
        HexByteOf(b as int);
        assert (e + tail)[3..] == tail && (e + tail)[1] == e[1] && (e + tail)[2] == e[2];
      }
      assert bytes == [b] + bytes[1..];
    }
  }

  /** A byte that is not left literal does not occur in an encoding, unless it is part of the
      escapes themselves. */
  lemma {:induction false} EncodeAvoids(bytes: string, literal: char -> bool, c: char)
    requires forall b :: b in bytes ==> b as int < 256
    requires !literal(c) && c != '%' && HexValue(c).None?
    ensures c !in PercentEncode(bytes, literal)
  {
    if bytes != "" {
      assert bytes[0] in bytes && forall b :: b in bytes[1..] ==> b in bytes;
      EncodeAvoids(bytes[1..], literal, c);
    }
  }

  // --------------------------------------------------------------------------- authority

  /** Length of the text before the next `/` or `?`. */
  function AuthorityLength(s: string): (n: nat)
    ensures n <= |s| && (n < |s| ==> s[n] == '/' || s[n] == '?')
    ensures forall i :: 0 <= i < n ==> s[i] != '/' && s[i] != '?'
  {
    if s == "" || s[0] == '/' || s[0] == '?' then 0 else 1 + AuthorityLength(s[1..])
  }

  /** `uri_authority`. */
  function UriAuthority(s: string): string {
    match Find(s, "//")
    case None => ""
    case Some(i) => s[i + 2..][..AuthorityLength(s[i + 2..])]
  }

  const MASK := "***"

  /** Within an authority: the first `:` of the userinfo and the `@` that ends it. */
  function UserinfoSpan(authority: string): (r: Option<(nat, nat)>)
    ensures r.Some? ==>
        r.value.0 < r.value.1 < |authority| && authority[r.value.0] == ':' && authority[r.value.1] == '@'
  {
    var at := LastIndexOf(authority, '@');
    if at < 0 then None else
      var colon := IndexOf(authority[..at], ':');
      if colon == at then None else Some((colon, at))
  }

  function MaskSpan(s: string, lo: nat, hi: nat): string
    requires lo <= |s| && hi <= |s|
  {
    s[..lo] + ":" + MASK + s[hi..]
  }

  /** The URI branch of `redact`: the authority is rewritten by a textual search for it. */
  function RedactUri(s: string): string {
    var authority := UriAuthority(s);
    match UserinfoSpan(authority)
    case None => s
    case Some((colon, at)) => ReplaceFirst(s, authority, MaskSpan(authority, colon, at))
  }

  /** Where the authority of a URI starts: after the two slashes of the scheme. */
  function AuthorityStart(s: string): (n: nat)
    requires IsUri(s)
    ensures n <= |s|
  {
    if HasScheme(s, SCHEME) then |SCHEME| else |LONG_SCHEME|
  }

  /** The authority by position, as section 3.2 of RFC 3986 defines it. */
  function Authority(s: string): (a: string)
    requires IsUri(s)
    ensures AuthorityStart(s) + |a| <= |s| && s[AuthorityStart(s)..AuthorityStart(s) + |a|] == a
    ensures forall i :: 0 <= i < |a| ==> a[i] != '/' && a[i] != '?'
  {
    var n := AuthorityStart(s);
    s[n..n + AuthorityLength(s[n..])]
  }

  lemma SchemeChars(s: string)
    requires IsUri(s)
    ensures var n := AuthorityStart(s);
            && s[n - 2] == '/' && s[n - 1] == '/'
            && forall i :: 0 <= i < n - 2 ==> s[i] != '/' && s[i] != '@' && s[i] != '?'
  {
    var n := AuthorityStart(s);
    var scheme := if HasScheme(s, SCHEME) then SCHEME else LONG_SCHEME;
    assert HasScheme(s, scheme);
  }

  lemma FindUnique(s: string, pat: string, k: nat)
    requires OccursAt(s, pat, k) && forall i: nat :: i < k ==> !OccursAt(s, pat, i)
    ensures Find(s, pat) == Some(k)
  {
  }

  /** The first two slashes are those of the scheme, so the search finds the authority. */
  lemma AuthorityIsAfterScheme(s: string)
    requires IsUri(s)
    ensures UriAuthority(s) == Authority(s)
  {
    var n := AuthorityStart(s);
    SchemeChars(s);
    assert s[n - 2..n] == "//";
    forall i: nat | i < n - 2 ensures !OccursAt(s, "//", i) {
      assert s[i..i + 2][0] != "//"[0];
    }
    FindUnique(s, "//", n - 2);
    assert s[n..][..AuthorityLength(s[n..])] == Authority(s);
  }

  /** The search in `replacen` cannot hit anything before the authority itself: an earlier
      match would need an `@` in the scheme or contain the slash before the authority. */
  lemma AuthorityFoundInPlace(s: string, at: nat)
    requires IsUri(s) && at < |Authority(s)| && Authority(s)[at] == '@'
    ensures Find(s, Authority(s)) == Some(AuthorityStart(s))
  {
    var n, a := AuthorityStart(s), Authority(s);
    SchemeChars(s);
    forall i: nat | i < n ensures !OccursAt(s, a, i) {
      var k := if n - 1 - i < |a| then n - 1 - i else at;
      if i + |a| <= |s| {
        assert s[i..i + |a|][k] == s[i + k] != a[k];
      }
    }
    FindUnique(s, a, n);
  }

  /** The span that holds the password, as positions in the URI. */
  function PasswordSpan(s: string): (r: Option<(nat, nat)>)
    requires IsUri(s)
    ensures r.Some? ==> r.value.0 < r.value.1 < |s|
  {
    match UserinfoSpan(Authority(s))
    case None => None
    case Some((colon, at)) => Some((AuthorityStart(s) + colon, AuthorityStart(s) + at))
  }

  lemma SpliceInPlace(s: string, n: nat, a: string, lo: nat, hi: nat)
    requires n + |a| <= |s| && s[n..n + |a|] == a && lo <= |a| && hi <= |a|
    ensures s[..n] + MaskSpan(a, lo, hi) + s[n + |a|..] == MaskSpan(s, n + lo, n + hi)
  {
    assert s[..n + lo] == s[..n] + a[..lo];
    assert s[n + hi..] == a[hi..] + s[n + |a|..];
  }

  lemma ReplaceWhereFound(s: string, n: nat, pat: string, with: string)
    requires Find(s, pat) == Some(n)
    ensures ReplaceFirst(s, pat, with) == s[..n] + with + s[n + |pat|..]
  {
  }

  function Masked(s: string, span: Option<(nat, nat)>): string
    requires span.Some? ==> span.value.0 <= |s| && span.value.1 <= |s|
  {
    match span case None => s case Some((lo, hi)) => MaskSpan(s, lo, hi)
  }

  /** Masking is an exact in-place edit of the password span; without one nothing changes. */
  lemma RedactUriInPlace(s: string)
    requires IsUri(s)
    ensures RedactUri(s) == Masked(s, PasswordSpan(s))
  {
    hide IsUri, AuthorityStart, Authority, UriAuthority, UserinfoSpan, Find, ReplaceFirst, MaskSpan;
    AuthorityIsAfterScheme(s);
    var span := UserinfoSpan(Authority(s));
    if span.Some? {
      AuthorityFoundInPlace(s, span.value.1);
      ReplaceWhereFound(s, AuthorityStart(s), Authority(s), MaskSpan(Authority(s), span.value.0, span.value.1));
      SpliceInPlace(s, AuthorityStart(s), Authority(s), span.value.0, span.value.1);
    }
  }

  /** The parts of a URI whose userinfo names a password; nothing is asked of the password. */
  datatype Parts = Parts(scheme: string, user: string, password: string, host: string, tail: string) {
    ghost predicate Valid() {
      && Lower(scheme) in {SCHEME, LONG_SCHEME}
      && (forall c :: c in user || c in host ==> c != '/' && c != '?')
      && ':' !in user && '@' !in host && AuthorityLength(tail) == 0
    }
    /** The password holds neither of the characters that end an authority. */
    predicate InAuthority() { '/' !in password && '?' !in password }
    function Userinfo(): string { user + (":" + password) }
    function Authority(): string { Userinfo() + ("@" + host) }
    function Text(): string { scheme + Authority() + tail }
    function MaskedText(): string { scheme + user + ":" + "***" + ("@" + host + tail) }
  }

  /** A text without `/` or `?` behind the scheme, up to the end or one of these, is the
      authority. */
  lemma AuthorityOf(scheme: string, a: string, rest: string)
    requires Lower(scheme) in {SCHEME, LONG_SCHEME} && AuthorityLength(rest) == 0
    requires forall i :: 0 <= i < |a| ==> a[i] != '/' && a[i] != '?'
    ensures var s := scheme + a + rest; IsUri(s) && AuthorityStart(s) == |scheme| && Authority(s) == a
  {
    hide HasScheme, AuthorityLength;
    var s := scheme + a + rest;
    LowerPrefix(scheme, a, rest);
    AuthorityLengthOf(a, rest);
    assert s[|scheme|..] == a + rest && s[|scheme|..|scheme| + |a|] == a;
  }

  lemma PartsAuthority(p: Parts)
    requires p.Valid() && p.InAuthority()
    ensures IsUri(p.Text()) && AuthorityStart(p.Text()) == |p.scheme| && Authority(p.Text()) == p.Authority()
  {
    hide IsUri, AuthorityStart, Authority;
    var a := p.Authority();
    forall i | 0 <= i < |a| ensures a[i] != '/' && a[i] != '?' {
      assert a[i] == ':' || a[i] == '@' || a[i] in p.user || a[i] in p.password || a[i] in p.host;
    }
    AuthorityOf(p.scheme, a, p.tail);
  }

  lemma PartsSpan(p: Parts)
    requires p.Valid()
    ensures UserinfoSpan(p.Authority()) == Some((|p.user|, |p.Userinfo()|))
  {
    var a := p.Authority();
    LastIndexOfUnique(a, '@', |p.Userinfo()|);
    assert a[..|p.Userinfo()|] == p.Userinfo();
    IndexOfUnique(p.Userinfo(), ':', |p.user|);
  }

  /** A password inside the authority is masked as a whole. */
  lemma PasswordMasked(p: Parts)
    requires p.Valid() && p.InAuthority()
    ensures RedactUri(p.Text()) == p.MaskedText()
  {
    hide IsUri, AuthorityStart, Authority, UserinfoSpan, RedactUri, MaskSpan, Parts.Authority, Parts.Userinfo,
        Parts.Text;
    PartsAuthority(p);
    PartsSpan(p);
    RedactUriInPlace(p.Text());
    PartsMasked(p);
  }

  lemma PartsMasked(p: Parts)
    ensures |p.scheme| + |p.Userinfo()| <= |p.Text()|
    ensures MaskSpan(p.Text(), |p.scheme| + |p.user|, |p.scheme| + |p.Userinfo()|) == p.MaskedText()
  {
    assert p.Text()[..|p.scheme| + |p.user|] == p.scheme + p.user;
    assert p.Text()[|p.scheme| + |p.Userinfo()|..] == "@" + p.host + p.tail;
  }

  lemma LowerPrefix(scheme: string, a: string, tail: string)
    requires Lower(scheme) in {SCHEME, LONG_SCHEME}
    ensures IsUri(scheme + a + tail) && AuthorityStart(scheme + a + tail) == |scheme|
  {
    var s := scheme + a + tail;
    assert HasScheme(s, Lower(scheme));
    assert Lower(scheme) == LONG_SCHEME ==> LowerChar(s[8]) == LONG_SCHEME[8] != SCHEME[8];
  }

  lemma {:induction false} AuthorityLengthOf(a: string, tail: string)
    requires AuthorityLength(tail) == 0
    requires forall i :: 0 <= i < |a| ==> a[i] != '/' && a[i] != '?'
    ensures AuthorityLength(a + tail) == |a|
  {
    if a == "" {
      assert a + tail == tail;
    } else {
      assert (a + tail)[1..] == a[1..] + tail;
      AuthorityLengthOf(a[1..], tail);
    }
  }

  lemma LastIndexOfUnique(s: string, c: char, k: nat)
    requires k < |s| && s[k] == c && forall i :: k < i < |s| ==> s[i] != c
    ensures LastIndexOf(s, c) == k
  {
  }

  // -------------------------------------------------- passwords that reach out of the authority

  lemma NoEndNoCut(s: string)
    ensures AuthorityLength(s) == |s| <==> '/' !in s && '?' !in s
  {
    var k := AuthorityLength(s);
    assert k < |s| ==> s[k] in s;
  }

  /** The text around a password that is cut where the authority ends. */
  lemma TextCut(p: Parts, front: string, back: string)
    requires p.password == front + back
    ensures p.Text() == p.scheme + (p.user + (":" + front)) + (back + ("@" + p.host + p.tail))
  {
  }

  /** A password with a `/` or `?`: the authority ends there, and the text up to it is all that
      is searched for an `@`. */
  lemma CutPassword(p: Parts, front: string, back: string)
    requires p.Valid() && p.password == front + back && back != "" && (back[0] == '/' || back[0] == '?')
    requires forall i :: 0 <= i < |front| ==> front[i] != '/' && front[i] != '?'
    ensures IsUri(p.Text()) && Authority(p.Text()) == p.user + (":" + front)
  {
    hide IsUri, AuthorityStart, Authority, Parts.Text;
    var a, rest := p.user + (":" + front), back + ("@" + p.host + p.tail);
    TextCut(p, front, back);
    forall i | 0 <= i < |a| ensures a[i] != '/' && a[i] != '?' {
      assert a[i] == ':' || a[i] in p.user || a[i] in front;
    }
    assert rest[0] == back[0];
    AuthorityOf(p.scheme, a, rest);
  }

  /** Without an `@` behind the colon the authority names no password. */
  lemma NoSpan(user: string, front: string)
    requires ':' !in user && '@' !in front
    ensures UserinfoSpan(user + (":" + front)).None?
  {
    var a := user + (":" + front);
    assert forall i :: |user| < i < |a| ==> a[i] == front[i - |user| - 1] && a[i] in front;
    var at := LastIndexOf(a, '@');
    if at >= 0 {
      assert at < |user|;
      assert forall i :: 0 <= i < at ==> a[..at][i] == user[i] && user[i] in user;
      IndexOfUnique(a[..at], ':', at);
    }
  }

  /** An `@` before the cut ends what is masked: the URI reads as one of a shorter password,
      whose host part starts with the rest of the real one. */
  lemma CutAtSign(p: Parts, front: string, back: string, at: nat)
    requires p.Valid() && p.password == front + back && back != "" && (back[0] == '/' || back[0] == '?')
    requires forall i :: 0 <= i < |front| ==> front[i] != '/' && front[i] != '?'
    requires at < |front| && front[at] == '@' && forall i :: at < i < |front| ==> front[i] != '@'
    ensures RedactUri(p.Text()) == p.scheme + p.user + ":" + "***" + (p.password[at..] + ("@" + p.host + p.tail))
  {
    hide RedactUri, Parts.Text, Parts.MaskedText;
    var q := Parts(p.scheme, p.user, front[..at], front[at + 1..], back + ("@" + p.host + p.tail));
    assert q.tail[0] == back[0];
    PasswordMasked(q);
    assert front == front[..at] + ("@" + front[at + 1..]);
    SameText(p, q, front, back);
    MaskedRest(q);
    assert p.password[at..] == "@" + front[at + 1..] + back;
    assert p.password[at..] + ("@" + p.host + p.tail) == "@" + q.host + q.tail;
  }

  lemma SameText(p: Parts, q: Parts, front: string, back: string)
    requires p.password == front + back && front == q.password + ("@" + q.host)
    requires q.scheme == p.scheme && q.user == p.user && q.tail == back + ("@" + p.host + p.tail)
    ensures q.Text() == p.Text()
  {
    TextCut(p, front, back);
    assert q.user + (":" + q.password) + ("@" + q.host) == p.user + (":" + front);
  }

  lemma MaskedRest(p: Parts)
    ensures p.MaskedText() == p.scheme + p.user + ":" + "***" + ("@" + p.host + p.tail)
  {
  }

  /** A password with a `/` or `?` is never masked as a whole. If an `@` stands before the first
      of these, the text from the last such `@` on is left as it is; if none does, the URI is
      returned unchanged, with the password in it. */
  lemma PasswordShown(p: Parts)
    requires p.Valid() && !p.InAuthority()
    ensures var front := p.password[..AuthorityLength(p.password)]; var at := LastIndexOf(front, '@');
            RedactUri(p.Text()) == if at < 0 then p.Text()
                                   else p.scheme + p.user + ":" + "***" + (p.password[at..] + ("@" + p.host + p.tail))
  {
    hide RedactUri, IsUri, Authority, UserinfoSpan, Parts.Text;
    var k := AuthorityLength(p.password);
    NoEndNoCut(p.password);
    var front, back := p.password[..k], p.password[k..];
    var at := LastIndexOf(front, '@');
    if at < 0 {
      CutPassword(p, front, back);
      NoSpan(p.user, front);
      RedactUriInPlace(p.Text());
    } else {
      CutAtSign(p, front, back, at);
    }
  }

  /** For every password: the masked text is the one that does not depend on it, if and only if
      the password holds neither a `/` nor a `?`. */
  lemma RedactUriHidesPassword(p: Parts)
    requires p.Valid()
    ensures RedactUri(p.Text()) == p.MaskedText() <==> p.InAuthority()
  {
    hide RedactUri, Parts.Text;
    if p.InAuthority() {
      PasswordMasked(p);
    } else {
      PasswordShown(p);
      TextTellsPassword(p);
      NoEndNoCut(p.password);
      MaskedRest(p);
    }
  }

  /** Only a password that is the mask itself makes the same text. */
  lemma TextTellsPassword(p: Parts)
    ensures p.Text() == p.MaskedText() ==> p.InAuthority()
  {
    var front, back := p.scheme + p.user + ":", "@" + p.host + p.tail;
    assert p.Text() == front + p.password + back && p.MaskedText() == front + MASK + back;
    if p.Text() == p.MaskedText() {
      SameMiddle(front, p.password, MASK, back);
    }
  }

  lemma SameMiddle(front: string, x: string, y: string, back: string)
    requires front + x + back == front + y + back
    ensures x == y
  {
    assert |x| == |y|;
    assert (front + x + back)[|front|..|front| + |x|] == x && (front + y + back)[|front|..|front| + |y|] == y;
  }

  /** Only the authority is ever changed: whatever a query says, a `password=` too, is printed. */
  lemma RedactUriKeepsQuery(s: string)
    requires IsUri(s)
    ensures var query := s[AuthorityStart(s) + |Authority(s)|..]; var r := RedactUri(s);
            |query| <= |r| && r[|r| - |query|..] == query
  {
    hide IsUri, RedactUri;
    RedactUriInPlace(s);
  }
}
