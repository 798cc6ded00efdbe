/**
 * Whitespace trimming as ECMAScript's String.prototype.trim performs it:
 * strip every leading and trailing character that is WhiteSpace or a
 * LineTerminator (ECMA-262, sections 12.2 and 12.3), keep everything between.
 */
module Text {

  /**
   * WhiteSpace (TAB, VT, FF, ZWNBSP and the Unicode "Zs" separators) or a
   * LineTerminator (LF, CR, LS, PS). Each lies in the Basic Multilingual Plane,
   * so it is a single UTF-16 code unit as well as a single scalar value.
   */
  predicate IsWhitespace(c: char): (b: bool)
    ensures b ==> c < '\U{10000}'
  {
    c == '\t' || c == '\U{000B}' || c == '\U{000C}' || c == ' ' || c == '\U{00A0}' || c == '\U{FEFF}'
    || c == '\U{1680}' || ('\U{2000}' <= c <= '\U{200A}') || c == '\U{202F}' || c == '\U{205F}' || c == '\U{3000}'
    || c == '\n' || c == '\r' || c == '\U{2028}' || c == '\U{2029}'
  }

  predicate AllWhitespace(s: string)
  {
    forall k :: 0 <= k < |s| ==> IsWhitespace(s[k])
  }

  /** The length of the longest all-whitespace prefix of s. */
  function LeadingWhitespace(s: string): (n: nat)
    ensures n <= |s| && AllWhitespace(s[..n])
    ensures n < |s| ==> !IsWhitespace(s[n])
  {
    if s == [] || !IsWhitespace(s[0]) then 0
    else
      var m := LeadingWhitespace(s[1..]);
      assert s[..m + 1] == [s[0]] + s[1..][..m];
      m + 1
  }

  /** The length of the longest all-whitespace suffix of s. */
  function TrailingWhitespace(s: string): (n: nat)
    ensures n <= |s| && AllWhitespace(s[|s| - n..])
    ensures n < |s| ==> !IsWhitespace(s[|s| - n - 1])
  {
    if s == [] || !IsWhitespace(s[|s| - 1]) then 0
    else
      var init := s[..|s| - 1];
      var m := TrailingWhitespace(init);
      assert s[|s| - (m + 1)..] == init[|init| - m..] + [s[|s| - 1]];
      m + 1
  }

  /** s without its leading whitespace: a suffix of s that is empty or starts with a non-whitespace character. */
  function TrimStart(s: string): (r: string)
    ensures |r| <= |s| && r == s[|s| - |r|..] && AllWhitespace(s[..|s| - |r|])
    ensures r != [] ==> !IsWhitespace(r[0])
  {
    s[LeadingWhitespace(s)..]
  }

  /** s without its trailing whitespace: a prefix of s that is empty or ends with a non-whitespace character. */
  function TrimEnd(s: string): (r: string)
    ensures |r| <= |s| && r == s[..|r|] && AllWhitespace(s[|r|..])
    ensures r != [] ==> !IsWhitespace(r[|r| - 1])
  {
    s[..|s| - TrailingWhitespace(s)]
  }

  /**
   * s without its leading and trailing whitespace. The result is empty exactly
   * when s is all whitespace; otherwise it begins and ends with a character
   * that is not whitespace.
   */
  function Trim(s: string): (r: string)
    ensures |r| <= |s|
    ensures r == [] <==> AllWhitespace(s)
    ensures r != [] ==> !IsWhitespace(r[0]) && !IsWhitespace(r[|r| - 1])
  {
    var rest := TrimStart(s);
    var r := TrimEnd(rest);
    assert r == [] ==> AllWhitespace(s) by {
      if r == [] {
        assert s == s[..|s| - |rest|] + rest;
      }
    }
    r
  }

  /**
   * Trim's result is the only core that s can be split around: whenever s is
   * whitespace, then r, then whitespace, and r is empty or has non-whitespace
   * ends, Trim(s) is r.
   */
  lemma {:induction false} TrimUnique(s: string, p: string, r: string, q: string)
    requires s == p + r + q && AllWhitespace(p) && AllWhitespace(q)
    requires r == [] || (!IsWhitespace(r[0]) && !IsWhitespace(r[|r| - 1]))
    ensures Trim(s) == r
  {
    if r == [] {
      forall k | 0 <= k < |s| ensures IsWhitespace(s[k]) {
        if k < |p| { assert s[k] == p[k]; } else { assert s[k] == q[k - |p|]; }
      }
    } else {
      var i := LeadingWhitespace(s);
      assert s[|p|] == r[0];
      assert i == |p|;
      var rest := s[i..];
      assert rest == r + q;
      var j := TrailingWhitespace(rest);
      assert rest[|rest| - |q| - 1] == r[|r| - 1];
      assert j == |q|;
      assert rest[..|rest| - j] == r;
    }
  }

  /** A string that is empty or has non-whitespace ends is its own trim. */
  lemma TrimIdempotentOnTrimmed(s: string)
    requires s == [] || (!IsWhitespace(s[0]) && !IsWhitespace(s[|s| - 1]))
    ensures Trim(s) == s
  {
    assert s == [] + s + [];
    TrimUnique(s, [], s, []);
  }

  /** Trimming an already trimmed string changes nothing. */
  lemma TrimIdempotent(s: string)
    ensures Trim(Trim(s)) == Trim(s)
  {
    TrimIdempotentOnTrimmed(Trim(s));
  }
}
