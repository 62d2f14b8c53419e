/** The few JavaScript string operations the chat application relies on:
    `startsWith`, `includes`, `toLowerCase` and `trim`. */
module Strings {

  /** `s.startsWith(prefix)` */
  predicate StartsWith(s: string, prefix: string) {
    |prefix| <= |s| && s[..|prefix|] == prefix
  }

  lemma StartsWithPrefix(prefix: string, rest: string)
    ensures StartsWith(prefix + rest, prefix)
  {
    assert (prefix + rest)[..|prefix|] == prefix;
  }

  /** A prefix test on `a + b` is decided by `a` alone once `a` is at least as long as the prefix. */
  lemma StartsWithLongHead(a: string, b: string, prefix: string)
    requires |prefix| <= |a|
    ensures StartsWith(a + b, prefix) <==> StartsWith(a, prefix)
  {
    assert (a + b)[..|prefix|] == a[..|prefix|];
  }

  /** `t` occurs in `s` at offset `i`. */
  predicate OccursAt(s: string, t: string, i: int) {
    0 <= i && i + |t| <= |s| && s[i..i + |t|] == t
  }

  /** `s.includes(t)`: true when `t` occurs somewhere in `s` (the empty string occurs everywhere). */
  function Contains(s: string, t: string): (b: bool)
    ensures b <==> exists i :: OccursAt(s, t, i)
    decreases |s|
  {
    if StartsWith(s, t) then
      assert OccursAt(s, t, 0);
      true
    else if |s| <= |t| then
      assert forall i :: !OccursAt(s, t, i);
      false
    else
      ShiftOccurrence(s, t);
      Contains(s[1..], t)
  }

  /** An occurrence in `s[1..]` is an occurrence in `s` one place further on, and every occurrence
      in `s` other than at offset 0 arises that way. */
  lemma ShiftOccurrence(s: string, t: string)
    requires |s| > 0
    requires !StartsWith(s, t)
    ensures (exists i :: OccursAt(s, t, i)) <==> (exists i :: OccursAt(s[1..], t, i))
  {
    if i :| OccursAt(s, t, i) {
      assert i != 0;
      assert s[1..][i - 1..i - 1 + |t|] == s[i..i + |t|];
      assert OccursAt(s[1..], t, i - 1);
    }
    if i :| OccursAt(s[1..], t, i) {
      assert s[1..][i..i + |t|] == s[i + 1..i + 1 + |t|];
      assert OccursAt(s, t, i + 1);
    }
  }

  /** `toLowerCase` on one character; only the ASCII letters A-Z are folded. */
  function LowerChar(c: char): (r: char)
    ensures !('A' <= r <= 'Z')
    ensures 'A' <= c <= 'Z' ==> 'a' <= r <= 'z' && r as int - 'a' as int == c as int - 'A' as int
    ensures !('A' <= c <= 'Z') ==> r == c
  {
    if 'A' <= c <= 'Z' then (c as int + 32) as char else c
  }

  /** `s.toLowerCase()`, character by character. */
  function ToLower(s: string): (r: string)
    ensures |r| == |s|
    ensures forall i :: 0 <= i < |s| ==> r[i] == LowerChar(s[i])
  {
    seq(|s|, i requires 0 <= i < |s| => LowerChar(s[i]))
  }

  /** The characters ECMAScript's `trim` removes: WhiteSpace and LineTerminator code points. */
  predicate IsSpace(c: char) {
    c in {'\t', '\n', '\U{000B}', '\U{000C}', '\r', ' ', '\U{00A0}', '\U{1680}',
          '\U{2000}', '\U{2001}', '\U{2002}', '\U{2003}', '\U{2004}', '\U{2005}',
          '\U{2006}', '\U{2007}', '\U{2008}', '\U{2009}', '\U{200A}',
          '\U{2028}', '\U{2029}', '\U{202F}', '\U{205F}', '\U{3000}', '\U{FEFF}'}
  }

  predicate Blank(s: string) {
    forall i :: 0 <= i < |s| ==> IsSpace(s[i])
  }

  /** `trimStart`: the longest suffix of `s` that does not begin with white space. */
  function TrimStart(s: string): (r: string)
    ensures |r| <= |s| && r == s[|s| - |r|..]
    ensures Blank(s[..|s| - |r|])
    ensures r == [] || !IsSpace(r[0])
    ensures r == [] <==> Blank(s)
  {
    if s == [] || !IsSpace(s[0]) then s
    else
      var r := TrimStart(s[1..]);
      TrimStartStep(s, r);
      r
  }

  /** Dropping one leading white-space character keeps `TrimStart`'s contract. */
  lemma TrimStartStep(s: string, r: string)
    requires s != [] && IsSpace(s[0])
    requires |r| <= |s| - 1 && r == s[1..][|s| - 1 - |r|..]
    requires Blank(s[1..][..|s| - 1 - |r|])
    requires r == [] <==> Blank(s[1..])
    ensures r == s[|s| - |r|..]
    ensures Blank(s[..|s| - |r|])
    ensures r == [] <==> Blank(s)
  {
    var k := |s| - |r|;
    assert s[k..] == s[1..][k - 1..];
    forall i | 0 <= i < k ensures IsSpace(s[..k][i]) {
      if i > 0 { assert s[..k][i] == s[1..][..k - 1][i - 1]; }
    }
    if Blank(s[1..]) {
      forall i | 0 <= i < |s| ensures IsSpace(s[i]) {
        if i > 0 { assert s[i] == s[1..][i - 1]; }
      }
    }
    if Blank(s) {
      forall i | 0 <= i < |s| - 1 ensures IsSpace(s[1..][i]) {
        assert s[1..][i] == s[i + 1];
      }
    }
  }

  /** `trimEnd`: the longest prefix of `s` that does not end with white space. */
  function TrimEnd(s: string): (r: string)
    ensures |r| <= |s| && r == s[..|r|]
    ensures Blank(s[|r|..])
    ensures r == [] || !IsSpace(r[|r| - 1])
    ensures r == [] <==> Blank(s)
  {
    if s == [] || !IsSpace(s[|s| - 1]) then s
    else
      var r := TrimEnd(s[..|s| - 1]);
      TrimEndStep(s, r);
      r
  }

  /** Dropping one trailing white-space character keeps `TrimEnd`'s contract. */
  lemma TrimEndStep(s: string, r: string)
    requires s != [] && IsSpace(s[|s| - 1])
    requires |r| <= |s| - 1 && r == s[..|s| - 1][..|r|]
    requires Blank(s[..|s| - 1][|r|..])
    requires r == [] <==> Blank(s[..|s| - 1])
    ensures r == s[..|r|]
    ensures Blank(s[|r|..])
    ensures r == [] <==> Blank(s)
  {
    var n := |s|;
    forall i | 0 <= i < n - |r| ensures IsSpace(s[|r|..][i]) {
      if i < n - 1 - |r| { assert s[|r|..][i] == s[..n - 1][|r|..][i]; }
    }
    if Blank(s[..n - 1]) {
      forall i | 0 <= i < n ensures IsSpace(s[i]) {
        if i < n - 1 { assert s[i] == s[..n - 1][i]; }
      }
    }
    if Blank(s) {
      var front := s[..n - 1];
      forall i | 0 <= i < n - 1 ensures IsSpace(front[i]) {
        assert front[i] == s[i];
      }
    }
  }

  /** `r` sits at offset `i` of `s`, with only white space before and after it. */
  predicate KeptBetweenBlanks(s: string, r: string, i: int) {
    0 <= i <= |s| - |r| && r == s[i..i + |r|] && Blank(s[..i]) && Blank(s[i + |r|..])
  }

  /** `s.trim()`: the part of `s` left between a blank prefix and a blank suffix, neither starting
      nor ending with white space. */
  function Trim(s: string): (r: string)
    ensures |r| <= |s|
    ensures exists i :: KeptBetweenBlanks(s, r, i)
    ensures r == [] || (!IsSpace(r[0]) && !IsSpace(r[|r| - 1]))
    ensures r == [] <==> Blank(s)
  {
    TrimBothEnds(s, TrimStart(s), TrimEnd(TrimStart(s)));
    TrimEnd(TrimStart(s))
  }

  /** Where the two halves of `trim` leave the kept part inside `s`. */
  lemma TrimBothEnds(s: string, t: string, r: string)
    requires |t| <= |s| && t == s[|s| - |t|..] && Blank(s[..|s| - |t|])
    requires t == [] || !IsSpace(t[0])
    requires t == [] <==> Blank(s)
    requires |r| <= |t| && r == t[..|r|] && Blank(t[|r|..])
    requires r == [] || !IsSpace(r[|r| - 1])
    requires r == [] <==> Blank(t)
    ensures |r| <= |s|
    ensures exists i :: KeptBetweenBlanks(s, r, i)
    ensures r == [] || (!IsSpace(r[0]) && !IsSpace(r[|r| - 1]))
    ensures r == [] <==> Blank(s)
  {
    var i := |s| - |t|;
    assert s[i..i + |r|] == r;
    assert s[i + |r|..] == t[|r|..];
    assert KeptBetweenBlanks(s, r, i);
    if t != [] {
      assert !Blank(t);
    }
  }

  /** `s.trim()` is the empty string exactly when every character of `s` is white space. */
  lemma TrimEmptyIffBlank(s: string)
    ensures Trim(s) == [] <==> Blank(s)
  {
  }
}
