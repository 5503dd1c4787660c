/**
 * ASCII character classes, case mapping and substring search: the parts of
 * JavaScript's `toLowerCase`, `toUpperCase`, `includes` and case-insensitive
 * regular-expression tests that the model relies on. Case mapping is restricted
 * to the ASCII letters; every other character maps to itself.
 */
module Ascii {

  predicate IsUpper(c: char) { 'A' <= c <= 'Z' }
  predicate IsLower(c: char) { 'a' <= c <= 'z' }
  predicate IsDigit(c: char) { '0' <= c <= '9' }
  predicate IsLetterOrDigit(c: char) { IsUpper(c) || IsLower(c) || IsDigit(c) }
  predicate IsAsciiString(s: string) { forall i :: 0 <= i < |s| ==> s[i] < 128 as char }

  function LowerChar(c: char): (r: char)
    ensures IsUpper(c) ==> IsLower(r) && r as int == c as int + 32
    ensures !IsUpper(c) ==> r == c
    ensures !IsUpper(r)
  {
    if IsUpper(c) then (c as int + 32) as char else c
  }

  function UpperChar(c: char): (r: char)
    ensures IsLower(c) ==> IsUpper(r) && r as int == c as int - 32
    ensures !IsLower(c) ==> r == c
    ensures !IsLower(r)
  {
    if IsLower(c) then (c as int - 32) as char else c
  }

  function Lower(s: string): (r: string)
    ensures |r| == |s|
  {
    seq(|s|, i requires 0 <= i < |s| => LowerChar(s[i]))
  }

  function Upper(s: string): (r: string)
    ensures |r| == |s|
  {
    seq(|s|, i requires 0 <= i < |s| => UpperChar(s[i]))
  }

  /** Case-insensitive equality, stated character by character. */
  predicate EqualsIgnoreCase(a: string, b: string)
  {
    |a| == |b| && forall i :: 0 <= i < |a| ==> LowerChar(a[i]) == LowerChar(b[i])
  }

  lemma LowerIdempotent(s: string)
    ensures Lower(Lower(s)) == Lower(s)
  {
  }

  /** `pat` occurs in `s` starting at index `i`. */
  predicate OccursAt(s: string, pat: string, i: nat)
  {
    i + |pat| <= |s| && s[i..i + |pat|] == pat
  }

  /** Left-to-right scan for `pat` from index `k` on. */
  function ContainsFrom(s: string, pat: string, k: nat): (r: bool)
    ensures r <==> exists i :: k <= i && OccursAt(s, pat, i)
    decreases |s| - k
  {
    if k + |pat| > |s| then false
    else OccursAt(s, pat, k) || ContainsFrom(s, pat, k + 1)
  }

  /** String.prototype.includes. */
  function Contains(s: string, pat: string): (r: bool)
    ensures r <==> exists i :: 0 <= i && OccursAt(s, pat, i)
  {
    ContainsFrom(s, pat, 0)
  }

  /** A case-insensitive test of a literal ASCII pattern (a regular expression with the `i` flag). */
  function ContainsIgnoreCase(s: string, pat: string): (r: bool)
    ensures r <==> exists i :: 0 <= i && OccursAt(Lower(s), Lower(pat), i)
  {
    Contains(Lower(s), Lower(pat))
  }
}
