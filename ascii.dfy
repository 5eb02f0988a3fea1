/**
 * Upper-casing of strings, as used to normalise a currency code before it is
 * looked up in the rate table.  Only the 26 ASCII letters change case; every
 * other character is left as it is.
 */
module Ascii {

  predicate IsLower(c: char) {
    'a' <= c <= 'z'
  }

  predicate IsUpper(c: char) {
    'A' <= c <= 'Z'
  }

  /** Upper-cases one character. */
  function UpperChar(c: char): (u: char)
    ensures IsLower(c) ==> IsUpper(u) && u as int == c as int - 32
    ensures !IsLower(c) ==> u == c
    ensures !IsLower(u)
  {
    if IsLower(c) then (c as int - 32) as char else c
  }

  /** Upper-cases a string character by character. */
  function ToUpper(s: string): (r: string)
    ensures |r| == |s|
    ensures forall i :: 0 <= i < |s| ==> r[i] == UpperChar(s[i])
  {
    if s == [] then [] else [UpperChar(s[0])] + ToUpper(s[1..])
  }

  /** True when `s` has no lower-case ASCII letter. */
  predicate HasNoLower(s: string) {
    forall i :: 0 <= i < |s| ==> !IsLower(s[i])
  }

  /** `a` and `b` are the same string up to the case of ASCII letters. */
  predicate EqualIgnoringCase(a: string, b: string) {
    |a| == |b| && forall i :: 0 <= i < |a| ==> UpperChar(a[i]) == UpperChar(b[i])
  }

  /** The result of upper-casing never holds a lower-case letter. */
  lemma ToUpperHasNoLower(s: string)
    ensures HasNoLower(ToUpper(s))
  {
  }

  /** A string without lower-case letters is its own upper-case form. */
  lemma ToUpperFixesUpper(s: string)
    requires HasNoLower(s)
    ensures ToUpper(s) == s
  {
  }

  /** Upper-casing twice is upper-casing once. */
  lemma ToUpperIdempotent(s: string)
    ensures ToUpper(ToUpper(s)) == ToUpper(s)
  {
  }

  /** Two strings have the same upper-case form exactly when they differ only in letter case. */
  lemma ToUpperEqualIff(a: string, b: string)
    ensures ToUpper(a) == ToUpper(b) <==> EqualIgnoringCase(a, b)
  {
  }

  /** A string holding a lower-case letter is never the upper-case form of any string. */
  lemma NotUpperFormOfAnything(k: string, i: nat, s: string)
    requires i < |k| && IsLower(k[i])
    ensures ToUpper(s) != k
  {
  }

  /** A concrete case: "usd", "Usd" and "USD" all upper-case to "USD". */
  lemma UpperCaseExamples()
    ensures ToUpper("usd") == "USD"
    ensures ToUpper("Usd") == "USD"
    ensures ToUpper("USD") == "USD"
    ensures ToUpper(" ") == " "
  {
  }
}
