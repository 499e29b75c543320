/**
 Plain substring containment on strings, the semantics of JavaScript's
 `String.prototype.includes`: case-sensitive, not anchored, and the empty
 pattern occurs in every string. Characters are Unicode scalar values, not
 UTF-16 code units, so lone surrogates are outside the model.

 `IsSubstring` is the reference definition (some window of the text equals the
 pattern); `Includes` is the executable scan, proved to agree with it.
 */
module Substring {

  /** `p` occurs in `s` starting at index `i`. */
  ghost predicate OccursAt(p: string, s: string, i: int)
  {
    0 <= i && i + |p| <= |s| && s[i..i + |p|] == p
  }

  /** `p` occurs somewhere in `s`. */
  ghost predicate IsSubstring(p: string, s: string)
  {
    exists i :: OccursAt(p, s, i)
  }

  /** `s.includes(p)`: scans `s` left to right, comparing the window at each start index. */
  function Includes(s: string, p: string): (b: bool)
    ensures b <==> IsSubstring(p, s)
    decreases |s|
  {
    if |p| > |s| then
      false
    else if s[..|p|] == p then
      assert OccursAt(p, s, 0);
      true
    else
      ShiftOccurrence(p, s);
      Includes(s[1..], p)
  }

  /** When the window at index 0 misses, the occurrences of `p` in `s` are exactly
      those in `s[1..]`, shifted by one. */
  lemma ShiftOccurrence(p: string, s: string)
    requires |p| <= |s| && s[..|p|] != p
    ensures 0 < |s|
    ensures IsSubstring(p, s) <==> IsSubstring(p, s[1..])
  {
    if IsSubstring(p, s) {
      var i :| OccursAt(p, s, i);
      assert i != 0;
      assert s[1..][i - 1..i - 1 + |p|] == s[i..i + |p|];
      assert OccursAt(p, s[1..], i - 1);
    }
    if IsSubstring(p, s[1..]) {
      var j :| OccursAt(p, s[1..], j);
      assert s[1..][j..j + |p|] == s[j + 1..j + 1 + |p|];
      assert OccursAt(p, s, j + 1);
    }
  }

  /** Matching is not anchored: an occurrence survives any text put before or
      after the string, such as a host in front or a query string behind. */
  lemma {:induction false} OccursInContext(p: string, s: string, before: string, after: string)
    requires IsSubstring(p, s)
    ensures IsSubstring(p, before + s + after)
  {
    var i :| OccursAt(p, s, i);
    var t := before + s + after;
    assert t[|before| + i..|before| + i + |p|] == s[i..i + |p|];
    assert OccursAt(p, t, |before| + i);
  }

  /** A pattern holding a character the text lacks cannot occur in it; the usual
      way to show that a concrete URL misses a concrete pattern. */
  lemma MissingCharacter(p: string, s: string, c: char)
    requires c in p && c !in s
    ensures !IsSubstring(p, s)
  {
  }
}
