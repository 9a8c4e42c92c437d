/**
 * String operations the two programs rely on: case folding for the
 * server's title filter, substring search and first-occurrence replacement
 * (Python's `in`, JavaScript's `String.prototype.replace` with a string
 * pattern), and whitespace trimming (Python's `str.strip()`, JavaScript's
 * `String.prototype.trim()`), each with the whitespace set of its language.
 */
module Text {
  import opened Wrappers

  // ---------------------------------------------------------------------
  // Case folding
  // ---------------------------------------------------------------------

  /** An ASCII upper-case letter mapped to lower case; every other character unchanged. */
  function LowerChar(c: char): char {
    if 'A' <= c <= 'Z' then (c as int + 32) as char else c
  }

  function Lower(s: string): (r: string)
    ensures |r| == |s|
    ensures forall i :: 0 <= i < |s| ==> r[i] == LowerChar(s[i])
  {
    seq(|s|, i requires 0 <= i < |s| => LowerChar(s[i]))
  }

  /** Lower-casing twice is lower-casing once. */
  lemma LowerIdempotent(s: string)
    ensures Lower(Lower(s)) == Lower(s)
  {
    forall i | 0 <= i < |s| ensures Lower(Lower(s))[i] == Lower(s)[i] {
      assert LowerChar(LowerChar(s[i])) == LowerChar(s[i]);
    }
  }

  // ---------------------------------------------------------------------
  // Substring search
  // ---------------------------------------------------------------------

  /** `pat` occurs in `s` starting at index `i`. */
  predicate OccursAt(s: string, pat: string, i: int) {
    0 <= i && i + |pat| <= |s| && s[i..i + |pat|] == pat
  }

  lemma OccursAtTail(s: string, pat: string, j: int)
    requires s != [] && 0 <= j
    ensures OccursAt(s[1..], pat, j) <==> OccursAt(s, pat, j + 1)
  {
    if j + |pat| <= |s[1..]| {
      assert s[1..][j..j + |pat|] == s[j + 1..j + 1 + |pat|];
    }
  }

  /** The index of the first occurrence of `pat` in `s`, if there is one. */
  function FindFirst(s: string, pat: string): (r: Option<nat>)
    ensures r.Some? ==> OccursAt(s, pat, r.value)
    ensures r.Some? ==> forall j :: 0 <= j < r.value ==> !OccursAt(s, pat, j)
    ensures r.None? ==> forall j :: !OccursAt(s, pat, j)
    decreases |s|
  {
    if |s| < |pat| then None
    else if s[..|pat|] == pat then Some(0)
    else
      var rest := FindFirst(s[1..], pat);
      assert !OccursAt(s, pat, 0);
      assert forall j :: 1 <= j ==> (OccursAt(s, pat, j) <==> OccursAt(s[1..], pat, j - 1)) by {
        forall j | 1 <= j ensures OccursAt(s, pat, j) <==> OccursAt(s[1..], pat, j - 1) {
          OccursAtTail(s, pat, j - 1);
        }
      }
      match rest
      case None => None
      case Some(i) => Some(i + 1)
  }

  /** Python's `pat in s`. */
  predicate Contains(s: string, pat: string) {
    FindFirst(s, pat).Some?
  }

  lemma ContainsIff(s: string, pat: string)
    ensures Contains(s, pat) <==> exists i :: OccursAt(s, pat, i)
  {
    if FindFirst(s, pat).Some? {
      assert OccursAt(s, pat, FindFirst(s, pat).value);
    }
  }

  /**
   * JavaScript's `s.replace(pat, rep)` for a string pattern: only the first
   * occurrence is replaced, and `s` is returned unchanged when `pat` does
   * not occur in it.
   */
  function ReplaceFirst(s: string, pat: string, rep: string): (r: string)
    ensures (forall j :: !OccursAt(s, pat, j)) ==> r == s
    ensures forall i :: OccursAt(s, pat, i) && (forall j :: 0 <= j < i ==> !OccursAt(s, pat, j)) ==>
      r == s[..i] + rep + s[i + |pat|..]
  {
    match FindFirst(s, pat)
    case None => s
    case Some(i) => s[..i] + rep + s[i + |pat|..]
  }

  // ---------------------------------------------------------------------
  // Trimming
  // ---------------------------------------------------------------------

  /** The number of leading characters of `s` that satisfy `space`. */
  function LeadingSpace(s: string, space: char -> bool): (n: nat)
    ensures n <= |s|
    ensures forall k :: 0 <= k < n ==> space(s[k])
    ensures n == |s| || !space(s[n])
    decreases |s|
  {
    if s != [] && space(s[0]) then
      var n := LeadingSpace(s[1..], space);
      assert forall k :: 1 <= k < n + 1 ==> s[k] == s[1..][k - 1];
      n + 1
    else 0
  }

  /** The number of trailing characters of `s` that satisfy `space`. */
  function TrailingSpace(s: string, space: char -> bool): (n: nat)
    ensures n <= |s|
    ensures forall k :: |s| - n <= k < |s| ==> space(s[k])
    ensures n == |s| || !space(s[|s| - n - 1])
    decreases |s|
  {
    if s != [] && space(s[|s| - 1]) then
      var n := TrailingSpace(s[..|s| - 1], space);
      assert forall k :: |s| - 1 - n <= k < |s| - 1 ==> s[k] == s[..|s| - 1][k];
      n + 1
    else 0
  }

  /**
   * `r` is what is left of `s` once a run of `space` characters is removed
   * at each end, and neither end of `r` is such a character.
   */
  ghost predicate IsTrimOf(r: string, s: string, space: char -> bool) {
    exists i :: TrimmedAt(r, s, space, i)
  }

  /** `r` is the part of `s` from index `i` on, with only `space` characters around it. */
  ghost predicate TrimmedAt(r: string, s: string, space: char -> bool, i: int) {
    && 0 <= i <= |s| - |r| && r == s[i..i + |r|]
    && (forall k :: 0 <= k < i ==> space(s[k]))
    && (forall k :: i + |r| <= k < |s| ==> space(s[k]))
    && (r == [] || (!space(r[0]) && !space(r[|r| - 1])))
  }

  /** `s` with leading and trailing characters satisfying `space` removed. */
  function Trim(s: string, space: char -> bool): (r: string)
    ensures TrimmedAt(r, s, space, LeadingSpace(s, space))
  {
    var i := LeadingSpace(s, space);
    var t := s[i..];
    var j := TrailingSpace(t, space);
    assert forall k :: i + |t| - j <= k < |s| ==> s[k] == t[k - i];
    t[..|t| - j]
  }

  /** Trimming yields the empty string exactly when every character is a space. */
  lemma TrimEmptyIff(s: string, space: char -> bool)
    ensures Trim(s, space) == [] <==> forall k :: 0 <= k < |s| ==> space(s[k])
  {
  }

  /** The characters Python's `str.isspace()` accepts, which `str.strip()` removes. */
  predicate PyIsSpace(c: char) {
    var n := c as int;
    (0x09 <= n <= 0x0D) || (0x1C <= n <= 0x20) || n == 0x85 || n == 0xA0 || n == 0x1680 ||
    (0x2000 <= n <= 0x200A) || n == 0x2028 || n == 0x2029 || n == 0x202F || n == 0x205F || n == 0x3000
  }

  /** The white-space and line-terminator characters JavaScript's `String.prototype.trim()` removes. */
  predicate JsIsSpace(c: char) {
    var n := c as int;
    (0x09 <= n <= 0x0D) || n == 0x20 || n == 0xA0 || n == 0x1680 || (0x2000 <= n <= 0x200A) ||
    n == 0x2028 || n == 0x2029 || n == 0x202F || n == 0x205F || n == 0x3000 || n == 0xFEFF
  }

  /** Python's `s.strip()`: white space removed at both ends, in Python's sense of white space. */
  function PyStrip(s: string): (r: string)
    ensures IsTrimOf(r, s, PyIsSpace)
  {
    Trim(s, PyIsSpace)
  }

  /** JavaScript's `s.trim()`: white space removed at both ends, in JavaScript's sense of white space. */
  function JsTrim(s: string): (r: string)
    ensures IsTrimOf(r, s, JsIsSpace)
  {
    Trim(s, JsIsSpace)
  }
}
