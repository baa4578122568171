/** The few string operations the extension relies on, over `seq<char>`:
    `startsWith`, `endsWith`, `includes`, and ASCII case mapping. */
module Strings {

  /** `s.startsWith(p)`. */
  predicate IsPrefix(p: string, s: string) {
    |p| <= |s| && s[..|p|] == p
  }

  /** `s.endsWith(x)`. */
  predicate EndsWith(s: string, x: string) {
    |x| <= |s| && s[|s| - |x|..] == x
  }

  /** `k` occurs in `s` starting at offset `i`. */
  predicate OccursAt(s: string, k: string, i: int) {
    0 <= i && i + |k| <= |s| && s[i..i + |k|] == k
  }

  /** `s.includes(k)`: `k` occurs somewhere in `s` (the empty string occurs everywhere). */
  predicate Includes(s: string, k: string) {
    exists i :: 0 <= i <= |s| && OccursAt(s, k, i)
  }

  /** A string includes itself. */
  lemma IncludesSelf(k: string)
    ensures Includes(k, k)
  {
    assert OccursAt(k, k, 0);
  }

  /** A string ending in `"." + k` includes `k`: the suffix test of the
      tracker scan adds nothing to its substring test. */
  lemma DotSuffixIncludes(s: string, k: string)
    requires EndsWith(s, "." + k)
    ensures Includes(s, k)
  {
    var i := |s| - |k|;
    assert s[|s| - |k| - 1..] == "." + k;
    assert s[i..i + |k|] == ("." + k)[1..];
    assert OccursAt(s, k, i);
  }

  /** Every character of an included string occurs in the including string;
      so a key with a character `s` lacks is not included in `s`. */
  lemma IncludedCharsOccur(s: string, k: string, c: char)
    requires Includes(s, k) && c in k
    ensures c in s
  {
    var i :| 0 <= i <= |s| && OccursAt(s, k, i);
    var m :| 0 <= m < |k| && k[m] == c;
    assert s[i + m] == s[i..i + |k|][m];
  }

  /** A key holding a character that `s` lacks is not included in `s`. */
  lemma NotIncludedByChar(s: string, k: string, c: char)
    requires c in k && c !in s
    ensures !Includes(s, k)
  {
    if Includes(s, k) {
      IncludedCharsOccur(s, k, c);
    }
  }

  /** A string that does not start with `'w'` or `'.'` cannot overlap a leading
      `"www."`, so it is included in `"www." + s` exactly when it is included in `s`. */
  lemma IncludesBehindWww(s: string, k: string)
    requires |k| > 0 && k[0] != 'w' && k[0] != '.'
    ensures Includes("www." + s, k) <==> Includes(s, k)
  {
    var t := "www." + s;
    if Includes(t, k) {
      var i :| 0 <= i <= |t| && OccursAt(t, k, i);
      assert t[i] == k[0] by { assert t[i..i + |k|][0] == k[0]; }
      assert i >= 4;
      assert t[i..i + |k|] == s[i - 4..i - 4 + |k|];
      assert OccursAt(s, k, i - 4);
    }
    if Includes(s, k) {
      var i :| 0 <= i <= |s| && OccursAt(s, k, i);
      assert t[i + 4..i + 4 + |k|] == s[i..i + |k|];
      assert OccursAt(t, k, i + 4);
    }
  }

  /** ASCII lower-casing of one character. */
  function LowerChar(c: char): char {
    if 'A' <= c <= 'Z' then (c as int + 32) as char else c
  }

  /** ASCII upper-casing of one character. */
  function UpperChar(c: char): char {
    if 'a' <= c <= 'z' then (c as int - 32) as char else c
  }

  /** `s.toLowerCase()`, restricted to the ASCII letters. */
  function Lower(s: string): (r: string)
    ensures |r| == |s|
    ensures forall i :: 0 <= i < |s| ==> r[i] == LowerChar(s[i])
  {
    seq(|s|, i requires 0 <= i < |s| => LowerChar(s[i]))
  }

  /** `s.toUpperCase()`, restricted to the ASCII letters. */
  function Upper(s: string): (r: string)
    ensures |r| == |s|
    ensures forall i :: 0 <= i < |s| ==> r[i] == UpperChar(s[i])
  {
    seq(|s|, i requires 0 <= i < |s| => UpperChar(s[i]))
  }

  /** Upper-casing first changes nothing once the string is lower-cased. */
  lemma LowerOfUpper(s: string)
    ensures Lower(Upper(s)) == Lower(s)
  {
    forall i | 0 <= i < |s|
      ensures Lower(Upper(s))[i] == Lower(s)[i]
    {
      var c := s[i];
      assert LowerChar(UpperChar(c)) == LowerChar(c);
    }
  }

  /** Lower-casing distributes over concatenation. */
  lemma LowerAppend(a: string, b: string)
    ensures Lower(a + b) == Lower(a) + Lower(b)
  {
    assert forall i :: 0 <= i < |a| ==> (a + b)[i] == a[i];
    assert forall i :: |a| <= i < |a| + |b| ==> (a + b)[i] == b[i - |a|];
  }

  /** Lower-casing leaves a string without upper-case letters unchanged. */
  lemma LowerOfLowercase(s: string)
    requires forall i :: 0 <= i < |s| ==> !('A' <= s[i] <= 'Z')
    ensures Lower(s) == s
  {
  }

  /** An upper-cased string never starts with the lower-case `"www."`. */
  lemma UpperNotWww(s: string)
    ensures !IsPrefix("www.", Upper(s))
  {
    if |s| >= 4 {
      assert Upper(s)[..4][0] == UpperChar(s[0]) != 'w';
    }
  }
}
