/**
 * `String.prototype.trim` as the name checks use it: it removes, from both
 * ends, the characters ECMAScript counts as WhiteSpace or LineTerminator.
 */
module Strings {

  /**
   * WhiteSpace (TAB, VT, FF, SP, NBSP, ZWNBSP and the Zs category) or
   * LineTerminator (LF, CR, LS, PS). TAB, LF, VT, FF and CR are the
   * consecutive code points 9 to 13.
   */
  predicate IsSpace(c: char) {
    || ('\t' <= c <= '\r') || c == ' '
    || ('\U{A0}' <= c && (c == '\U{A0}' || c == '\U{1680}' || ('\U{2000}' <= c <= '\U{200A}')
                           || c == '\U{2028}' || c == '\U{2029}' || c == '\U{202F}' || c == '\U{205F}'
                           || c == '\U{3000}' || c == '\U{FEFF}'))
  }

  predicate AllSpace(s: string) {
    forall k :: 0 <= k < |s| ==> IsSpace(s[k])
  }

  /** Drops the leading white space: what is left is a suffix that starts with a non-space. */
  function TrimStart(s: string): (r: string)
    ensures |r| <= |s| && r == s[|s| - |r|..]
    ensures AllSpace(s[..|s| - |r|])
    ensures r == [] || !IsSpace(r[0])
  {
    if |s| > 0 && IsSpace(s[0]) then
      var r := TrimStart(s[1..]);
      assert s[1..][..|s| - 1 - |r|] == s[1..|s| - |r|];
      r
    else s
  }

  /** Drops the trailing white space: what is left is a prefix that ends with a non-space. */
  function TrimEnd(s: string): (r: string)
    ensures |r| <= |s| && r == s[..|r|]
    ensures AllSpace(s[|r|..])
    ensures r == [] || !IsSpace(r[|r| - 1])
  {
    if |s| > 0 && IsSpace(s[|s| - 1]) then
      var r := TrimEnd(s[..|s| - 1]);
      assert r == s[..|s| - 1][..|r|] == s[..|r|];
      assert s[|r|..] == s[..|s| - 1][|r|..] + [s[|s| - 1]];
      r
    else s
  }

  lemma TrimStartNonSpace(s: string)
    requires |s| > 0 && !IsSpace(s[0])
    ensures TrimStart(s) == s
  {
  }

  function Trim(s: string): (r: string)
  {
    TrimEnd(TrimStart(s))
  }

  lemma TrimEndNonSpace(s: string)
    requires |s| > 0 && !IsSpace(s[|s| - 1])
    ensures TrimEnd(s) == s
  {
  }

  /** What TrimEnd keeps of a suffix s[i..] is the slice of s that starts at i. */
  lemma TrimEndOfSuffix(s: string, i: nat)
    requires i <= |s|
    ensures i + |TrimEnd(s[i..])| <= |s|
    ensures TrimEnd(s[i..]) == s[i..i + |TrimEnd(s[i..])|]
    ensures AllSpace(s[i + |TrimEnd(s[i..])|..])
  {
    var t := s[i..];
    var r := TrimEnd(t);
    assert t[..|r|] == s[i..i + |r|];
    assert t[|r|..] == s[i + |r|..];
  }

  /** Where the trimmed string starts in the input. */
  function TrimOffset(s: string): (i: nat)
    ensures i <= |s|
  {
    |s| - |TrimStart(s)|
  }

  /** The trimmed string is the slice of the input that starts at TrimOffset ... */
  lemma TrimIsSlice(s: string)
    ensures TrimOffset(s) + |Trim(s)| <= |s|
    ensures Trim(s) == s[TrimOffset(s)..TrimOffset(s) + |Trim(s)|]
  {
    var i := TrimOffset(s);
    TrimEndOfSuffix(s, i);
    assert TrimStart(s) == s[i..];
    assert Trim(s) == TrimEnd(s[i..]);
  }

  /** ... and only white space surrounds it. */
  lemma TrimCutsSpace(s: string)
    ensures TrimOffset(s) + |Trim(s)| <= |s|
    ensures AllSpace(s[..TrimOffset(s)])
    ensures AllSpace(s[TrimOffset(s) + |Trim(s)|..])
  {
    TrimEndOfSuffix(s, TrimOffset(s));
  }

  /** Neither end of the trimmed string is white space. */
  lemma TrimEnds(s: string)
    ensures Trim(s) == [] || (!IsSpace(Trim(s)[0]) && !IsSpace(Trim(s)[|Trim(s)| - 1]))
  {
    var t := TrimStart(s);
    var r := TrimEnd(t);
    if r != [] {
      assert r[0] == t[0];
    }
  }

  /** A name is empty after trimming exactly when it consists of white space only. */
  lemma TrimEmptyIffAllSpace(s: string)
    ensures Trim(s) == [] <==> AllSpace(s)
  {
    var t := TrimStart(s);
    var p := |s| - |t|;
    if Trim(s) == [] {
      assert t[0..] == t;
      assert s[..p] == s;
    } else {
      var r := TrimEnd(t);
      assert r[0] == t[0] == s[p];
    }
  }

  /** Trimming twice changes nothing. */
  lemma TrimIdempotent(s: string)
    ensures Trim(Trim(s)) == Trim(s)
  {
    var r := Trim(s);
    TrimEnds(s);
    if r != [] {
      TrimStartNonSpace(r);
      TrimEndNonSpace(r);
    }
  }
}
