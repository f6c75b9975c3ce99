/** Whitespace trimming as the input handlers use it (`String.prototype.trim`),
    over a simplified whitespace class: space, tab, line feed, vertical tab,
    form feed and carriage return. */
module TextInput {

  /** The keys the input handlers distinguish. */
  datatype Key = Enter | Escape | OtherKey

  predicate IsWhitespace(c: char) {
    c == ' ' || c == '\t' || c == '\n' || c == '\U{000B}' || c == '\U{000C}' || c == '\r'
  }

  predicate AllWhitespace(s: string) {
    forall k :: 0 <= k < |s| ==> IsWhitespace(s[k])
  }

  /** `s` without its leading whitespace: a suffix of `s` whose dropped part is
      all whitespace and whose first character is not whitespace. */
  function TrimStart(s: string): (r: string)
    ensures |r| <= |s| && r == s[|s| - |r|..]
    ensures AllWhitespace(s[..|s| - |r|])
    ensures |r| > 0 ==> !IsWhitespace(r[0])
  {
    if |s| > 0 && IsWhitespace(s[0]) then
      var r := TrimStart(s[1..]);
      assert s[1..][..|s[1..]| - |r|] == s[1..|s| - |r|];
      r
    else
      s
  }

  /** `s` without its trailing whitespace: a prefix of `s` whose dropped part is
      all whitespace and whose last character is not whitespace. */
  function TrimEnd(s: string): (r: string)
    ensures |r| <= |s| && r == s[..|r|]
    ensures AllWhitespace(s[|r|..])
    ensures |r| > 0 ==> !IsWhitespace(r[|r| - 1])
  {
    if |s| > 0 && IsWhitespace(s[|s| - 1]) then
      var r := TrimEnd(s[..|s| - 1]);
      assert s[..|s| - 1][|r|..] == s[|r|..|s| - 1];
      r
    else
      s
  }

  /** `s` without leading and trailing whitespace: a slice of `s` that starts
      and ends with a non-whitespace character, everything outside it whitespace. */
  function Trim(s: string): (r: string)
    ensures exists lo :: 0 <= lo <= |s| - |r| && r == s[lo..lo + |r|]
                         && AllWhitespace(s[..lo]) && AllWhitespace(s[lo + |r|..])
    ensures |r| > 0 ==> !IsWhitespace(r[0]) && !IsWhitespace(r[|r| - 1])
  {
    var t := TrimStart(s);
    var r := TrimEnd(t);
    var lo := |s| - |t|;
    assert r == s[lo..lo + |r|];
    assert s[lo + |r|..] == t[|r|..];
    r
  }

  /** Trimming leaves nothing exactly when the text is whitespace only
      (the guard `if (title.trim())` of the input handlers). */
  lemma TrimEmptyIff(s: string)
    ensures Trim(s) == [] <==> AllWhitespace(s)
  {
    if Trim(s) == [] {
      var lo :| 0 <= lo <= |s| && Trim(s) == s[lo..lo]
                && AllWhitespace(s[..lo]) && AllWhitespace(s[lo..]);
      forall k | 0 <= k < |s| ensures IsWhitespace(s[k]) {
        if k < lo { assert s[..lo][k] == s[k]; } else { assert s[lo..][k - lo] == s[k]; }
      }
    }
  }

  /** Trimming twice is trimming once. */
  lemma TrimIdempotent(s: string)
    ensures Trim(Trim(s)) == Trim(s)
  {
    var r := Trim(s);
    if |r| > 0 {
      SansWhitespaceEndsTrimToSelf(r);
    }
  }

  lemma SansWhitespaceEndsTrimToSelf(r: string)
    requires |r| > 0 && !IsWhitespace(r[0]) && !IsWhitespace(r[|r| - 1])
    ensures Trim(r) == r
  {
    assert TrimStart(r) == r;
    assert TrimEnd(r) == r;
  }
}
