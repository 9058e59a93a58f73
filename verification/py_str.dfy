/** The Python string operations the relay and the bridge rely on. */
module PyStr {

  /** The characters `str.strip()` removes: those for which `str.isspace()` holds. */
  predicate IsSpace(c: char)
  {
    || c == ' ' || c == '\t' || c == '\n' || c == '\r' || c == '\U{0B}' || c == '\U{0C}'
    || ('\U{1C}' <= c && c <= '\U{1F}')
    || c == '\U{85}' || c == '\U{A0}' || c == '\U{1680}'
    || ('\U{2000}' <= c && c <= '\U{200A}')
    || c == '\U{2028}' || c == '\U{2029}' || c == '\U{202F}' || c == '\U{205F}' || c == '\U{3000}'
  }

  predicate AllSpace(s: string)
  {
    forall i :: 0 <= i < |s| ==> IsSpace(s[i])
  }

  /** `s.lstrip()`. */
  function TrimStart(s: string): (r: string)
    ensures |r| <= |s| && r == s[|s| - |r|..]
    ensures AllSpace(s[..|s| - |r|])
    ensures r != [] ==> !IsSpace(r[0])
    decreases |s|
  {
    if s != [] && IsSpace(s[0]) then
      var r := TrimStart(s[1..]);
      assert s[..|s| - |r|] == [s[0]] + s[1..][..|s| - 1 - |r|];
      r
    else s
  }

  /** `s.rstrip()`. */
  function TrimEnd(s: string): (r: string)
    ensures |r| <= |s| && r == s[..|r|]
    ensures AllSpace(s[|r|..])
    ensures r != [] ==> !IsSpace(r[|r| - 1])
    decreases |s|
  {
    if s != [] && IsSpace(s[|s| - 1]) then
      var r := TrimEnd(s[..|s| - 1]);
      assert s[|r|..] == s[..|s| - 1][|r|..] + [s[|s| - 1]];
      r
    else s
  }

  /**
   * `s.strip()`: empty exactly for blank input, and otherwise neither
   * starting nor ending with whitespace. That it is the input less a
   * whitespace-only prefix and suffix is StripTrims.
   */
  function Strip(s: string): (r: string)
    ensures r == [] <==> AllSpace(s)
    ensures r != [] ==> !IsSpace(r[0]) && !IsSpace(r[|r| - 1])
  {
    var t := TrimEnd(s);
    var r := TrimStart(t);
    StripBlank(s, t, r);
    r
  }

  /** Stripping cuts off a whitespace-only prefix and a whitespace-only suffix, and nothing else. */
  lemma StripTrims(s: string)
    ensures exists i :: Trimmed(s, Strip(s), i)
  {
    var t := TrimEnd(s);
    StripBlank(s, t, TrimStart(t));
    assert Trimmed(s, Strip(s), |t| - |TrimStart(t)|);
  }

  /** `r` is `s` with the whitespace-only `s[..i]` and a whitespace-only tail cut off. */
  predicate Trimmed(s: string, r: string, i: int)
  {
    0 <= i && i + |r| <= |s| && r == s[i..i + |r|] && AllSpace(s[..i]) && AllSpace(s[i + |r|..])
  }

  lemma StripBlank(s: string, t: string, r: string)
    requires |t| <= |s| && t == s[..|t|] && AllSpace(s[|t|..])
    requires |r| <= |t| && r == t[|t| - |r|..] && AllSpace(t[..|t| - |r|])
    requires r != [] ==> !IsSpace(r[0])
    ensures Trimmed(s, r, |t| - |r|)
    ensures r == [] <==> AllSpace(s)
    ensures r != [] ==> r[|r| - 1] == t[|t| - 1]
  {
    var k := |t| - |r|;
    assert s[..k] == t[..k];
    assert s[k..k + |r|] == r;
    if r == [] {
      assert t[..|t|] == t;
      forall i | 0 <= i < |s| ensures IsSpace(s[i]) {
        if i < |t| {
          assert s[i] == t[i];
        } else {
          assert s[i] == s[|t|..][i - |t|];
        }
      }
    } else {
      var k := |t| - |r|;
      assert r[0] == t[k] == s[k];
    }
  }

  /** Text that already has no surrounding whitespace is left alone by Strip. */
  lemma StripTrimmed(s: string)
    requires s != [] && !IsSpace(s[0]) && !IsSpace(s[|s| - 1])
    ensures Strip(s) == s
  {
  }

  predicate StartsWith(s: string, prefix: string)
  {
    |prefix| <= |s| && s[..|prefix|] == prefix
  }

  predicate EndsWith(s: string, suffix: string)
  {
    |suffix| <= |s| && s[|s| - |suffix|..] == suffix
  }

  /** `s.rstrip(c)`: every trailing `c` removed, and nothing else. */
  function RStripChar(s: string, c: char): (r: string)
    ensures |r| <= |s| && r == s[..|r|]
    ensures forall i :: |r| <= i < |s| ==> s[i] == c
    ensures r != [] ==> r[|r| - 1] != c
    decreases |s|
  {
    if s != [] && s[|s| - 1] == c then RStripChar(s[..|s| - 1], c) else s
  }
}
