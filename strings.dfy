/**
 * Character-class and substring helpers shared by the front end and the
 * back end: runs of a character class, literal occurrences, and ASCII
 * lower-casing (the model of both Python's `str.lower` and JavaScript's
 * `toLowerCase`).
 */
module Strings {

  /** Every character of `s` belongs to the class `inClass`. */
  predicate AllIn(s: string, inClass: char -> bool) {
    forall i :: 0 <= i < |s| ==> inClass(s[i])
  }

  /** Every character of `s` at a position in `[lo, hi)` belongs to the class `inClass`. */
  predicate AllInRange(s: string, lo: nat, hi: nat, inClass: char -> bool) {
    forall i :: lo <= i < hi && i < |s| ==> inClass(s[i])
  }

  lemma AllInRangeSlice(s: string, lo: nat, hi: nat, inClass: char -> bool)
    requires lo <= hi <= |s| && AllInRange(s, lo, hi, inClass)
    ensures AllIn(s[lo..hi], inClass)
  {
    assert forall i :: 0 <= i < hi - lo ==> s[lo..hi][i] == s[lo + i];
  }

  /** The literal `w` occurs in `t` starting at position `i`. */
  predicate StartsAt(t: string, i: nat, w: string) {
    i + |w| <= |t| && t[i..i + |w|] == w
  }

  /** The literal `w` occurs somewhere in `t` (JavaScript's `includes`). */
  predicate Contains(t: string, w: string) {
    exists i :: 0 <= i <= |t| && StartsAt(t, i, w)
  }

  /** End of the longest run of `inClass` characters that starts at `k` (a greedy `[class]*`). */
  function RunEnd(t: string, k: nat, inClass: char -> bool): (e: nat)
    requires k <= |t|
    ensures k <= e <= |t|
    ensures AllIn(t[k..e], inClass)
    ensures e == |t| || !inClass(t[e])
    decreases |t| - k
  {
    if k < |t| && inClass(t[k]) then RunEnd(t, k + 1, inClass) else k
  }

  /** The run from `k` ends at `e` whenever `t[k..e]` is in the class and `t[e]` is not (or is the end). */
  lemma {:induction false} RunEndUnique(t: string, k: nat, e: nat, inClass: char -> bool)
    requires k <= e <= |t| && AllIn(t[k..e], inClass) && (e == |t| || !inClass(t[e]))
    ensures RunEnd(t, k, inClass) == e
    decreases e - k
  {
    if k < e {
      assert t[k..e][0] == t[k];
      var u := t[k + 1..e];
      forall i | 0 <= i < |u|
        ensures inClass(u[i])
      {
        assert u[i] == t[k..e][i + 1];
      }
      RunEndUnique(t, k + 1, e, inClass);
    }
  }

  /** A string that contains a non-empty literal contains the literal's first character. */
  lemma ContainedFirstChar(t: string, w: string)
    ensures Contains(t, w) && |w| > 0 ==> w[0] in t
  {
    if Contains(t, w) && |w| > 0 {
      var i :| 0 <= i <= |t| && StartsAt(t, i, w);
      assert t[i..i + |w|][0] == t[i];
    }
  }

  predicate IsUpper(c: char) { 'A' <= c <= 'Z' }

  /** ASCII lower-casing of one character; every other character maps to itself. */
  function LowerChar(c: char): char {
    if IsUpper(c) then (c as int + 32) as char else c
  }

  function Lower(s: string): string {
    seq(|s|, i requires 0 <= i < |s| => LowerChar(s[i]))
  }

  /** Lower-casing twice is lower-casing once. */
  lemma LowerIdempotent(s: string)
    ensures Lower(Lower(s)) == Lower(s)
  {
    var once := Lower(s);
    assert forall i :: 0 <= i < |s| ==> LowerChar(once[i]) == once[i];
  }

  /** A string with no upper-case letter is its own lower-case form. */
  lemma LowerOfLowercase(s: string)
    requires forall i :: 0 <= i < |s| ==> !IsUpper(s[i])
    ensures Lower(s) == s
  {
  }
}
