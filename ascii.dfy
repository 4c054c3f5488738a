/** `String.prototype.toUpperCase` / `toLowerCase`, restricted to ASCII letters. */
module Ascii {

  predicate IsLower(c: char) { 'a' <= c <= 'z' }

  predicate IsUpper(c: char) { 'A' <= c <= 'Z' }

  function UpperChar(c: char): (u: char)
    ensures IsLower(c) ==> IsUpper(u) && u as int == c as int - 32
    ensures !IsLower(c) ==> u == c
  {
    if IsLower(c) then (c as int - 32) as char else c
  }

  function LowerChar(c: char): (l: char)
    ensures IsUpper(c) ==> IsLower(l) && l as int == c as int + 32
    ensures !IsUpper(c) ==> l == c
  {
    if IsUpper(c) then (c as int + 32) as char else c
  }

  /** `s.toUpperCase()`: every character mapped, none added or removed. */
  function Upper(s: string): (r: string)
    ensures |r| == |s|
    ensures forall i :: 0 <= i < |s| ==> r[i] == UpperChar(s[i])
  {
    if s == [] then [] else [UpperChar(s[0])] + Upper(s[1..])
  }

  /** `s.toLowerCase()`: every character mapped, none added or removed. */
  function Lower(s: string): (r: string)
    ensures |r| == |s|
    ensures forall i :: 0 <= i < |s| ==> r[i] == LowerChar(s[i])
  {
    if s == [] then [] else [LowerChar(s[0])] + Lower(s[1..])
  }

  /** Lowercasing is idempotent, so comparing `a.toLowerCase()` with an
      already lowercased name is a case-insensitive comparison. */
  lemma LowerIdempotent(s: string)
    ensures Lower(Lower(s)) == Lower(s)
  {
  }

  /** An uppercased string holds no lowercase letter. */
  lemma UpperHasNoLower(s: string)
    ensures forall i :: 0 <= i < |Upper(s)| ==> !IsLower(Upper(s)[i])
  {
  }
}
