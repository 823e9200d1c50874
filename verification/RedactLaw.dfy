/** What `redact` of src/dsn.rs preserves of a keyword string: exactly when the masked text reads
    as the original pairs with the password values replaced. */
module RedactLaw {
  import opened Text
  import opened KeywordString
  import opened TrimLaw
  import opened Uri
  import opened Dsn

  predicate LastIsPassword(ps: seq<Pair>) { ps != [] && IsPasswordKey(ps[|ps| - 1].key) }

  /** Masking hides a difference in the last value exactly if it is a password. */
  lemma MaskHides(a: seq<Pair>, b: seq<Pair>)
    requires LastDiffers(a, b)
    ensures MaskPairs(a) == MaskPairs(b) <==> LastIsPassword(b)
  {
    hide IsPasswordKey;
    var n := |a| - 1;
    assert forall i :: 0 <= i < n ==> a[i] == a[..n][i] && b[i] == b[..n][i];
    if LastIsPassword(b) {
      assert forall i :: 0 <= i <= n ==> MaskPairs(a)[i] == MaskPairs(b)[i];
    } else {
      assert MaskPairs(a)[n] != MaskPairs(b)[n];
    }
  }

  /** For every keyword string that parses: the masked text reads as its pairs with only the
      password values replaced, unless the trimming before it removed blanks behind a dangling
      backslash and the value that ended there is not a password. */
  lemma RedactExactly(raw: string)
    requires !IsUri(Trim(raw)) && Parse(raw).Ok?
    ensures Parse(Redact(raw)) == Ok(MaskPairs(Parse(raw).value))
       <==> !(EndsBlank(raw) && Dangling(Trim(raw))) || LastIsPassword(Parse(raw).value)
  {
    hide IsUri, Parse, Redact, MaskPairs, Trim, Dangling, LastDiffers, LastIsPassword;
    ParseTrimmed(raw);
    RedactKeywordMeaning(raw);
    if Parse(Trim(raw)) != Parse(raw) {
      MaskHides(Parse(Trim(raw)).value, Parse(raw).value);
    }
  }

  /** What masking makes of a keyword string: the same keys, three stars for every value of a key
      that is `password` in any case, and every other value as it was. */
  lemma RedactMasksPasswords(raw: string)
    requires !IsUri(Trim(raw)) && Parse(Trim(raw)).Ok?
    ensures var ps, masked := Parse(Trim(raw)).value, Parse(Redact(raw));
            && masked.Ok? && |masked.value| == |ps|
            && forall i :: 0 <= i < |ps| ==>
                 masked.value[i] == Pair(ps[i].key, if Lower(ps[i].key) == "password" then "***" else ps[i].value)
  {
    hide IsUri, Parse, Redact, Trim;
    RedactKeywordMeaning(raw);
  }

  /** A text that does not parse is masked as a whole, whether it is trimmed first or not. */
  lemma RedactUnparsable(raw: string)
    requires !IsUri(Trim(raw)) && Parse(raw).Err?
    ensures Redact(raw) == "[REDACTED]"
  {
    hide IsUri, Parse, Trim, Dangling, LastDiffers;
    ParseTrimmed(raw);
  }

  /** The texts `key=\ ` with a blank behind the backslash, for any key that does not read as a
      URI: the value is a blank, and masking makes it a backslash, unless the key is a password
      key, where the mask hides the change. */
  lemma EscapedBlank(key: string)
    requires ValidKey(key) && !IsUri(key)
    ensures var raw := key + ("=" + ESCAPED_BLANK);
            && Parse(raw) == Ok([Pair(key, " ")])
            && Parse(Redact(raw)) == Ok([Pair(key, if IsPasswordKey(key) then MASK else "\\")])
  {
    hide Redact, Parse, Trim, IsUri, IsPasswordKey;
    TrimmingChangesAValue(key);
    var trimmed := key + ("=" + BACKSLASH);
    assert forall i :: 0 <= i < |key| ==> trimmed[i] == key[i];
    UriPrefix(trimmed, key);
    RedactKeywordMeaning(key + ("=" + ESCAPED_BLANK));
    assert MaskPairs([Pair(key, "\\")]) == [Pair(key, if IsPasswordKey(key) then MASK else "\\")];
  }
}
