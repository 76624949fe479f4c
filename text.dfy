/**
 * The string operations the search boxes and status badges use:
 * `toLowerCase`, `toUpperCase`, `includes` and first-letter capitalisation.
 * Case mapping is ASCII only.
 */
module Text {

  predicate IsUpperLetter(c: char) { 'A' <= c <= 'Z' }

  predicate IsLowerLetter(c: char) { 'a' <= c <= 'z' }

  /** ASCII lower-casing of one character; every other character is kept. */
  function LowerChar(c: char): (r: char)
    ensures !IsUpperLetter(r)
    ensures IsUpperLetter(c) ==> r as int == c as int + 32
    ensures !IsUpperLetter(c) ==> r == c
  {
    if IsUpperLetter(c) then (c as int + 32) as char else c
  }

  /** ASCII upper-casing of one character; every other character is kept. */
  function UpperChar(c: char): (r: char)
    ensures !IsLowerLetter(r)
    ensures IsLowerLetter(c) ==> r as int == c as int - 32
    ensures !IsLowerLetter(c) ==> r == c
  {
    if IsLowerLetter(c) then (c as int - 32) as char else c
  }

  /** `s.toLowerCase()`. */
  function Lower(s: string): (r: string)
    ensures |r| == |s|
    ensures forall i :: 0 <= i < |s| ==> r[i] == LowerChar(s[i])
  {
    if s == [] then [] else [LowerChar(s[0])] + Lower(s[1..])
  }

  /** `s.toUpperCase()`. */
  function Upper(s: string): (r: string)
    ensures |r| == |s|
    ensures forall i :: 0 <= i < |s| ==> r[i] == UpperChar(s[i])
  {
    if s == [] then [] else [UpperChar(s[0])] + Upper(s[1..])
  }

  /** Upper-casing a string first does not change its lower-cased form. */
  lemma LowerOfUpper(s: string)
    ensures Lower(Upper(s)) == Lower(s)
  {
    assert forall i :: 0 <= i < |s| ==> LowerChar(UpperChar(s[i])) == LowerChar(s[i]);
  }

  /** A string without upper-case letters is its own lower-cased form. */
  lemma LowerOfLowerCase(s: string)
    requires forall i :: 0 <= i < |s| ==> !IsUpperLetter(s[i])
    ensures Lower(s) == s
  {
  }

  /** Lower-casing is idempotent. */
  lemma LowerIdempotent(s: string)
    ensures Lower(Lower(s)) == Lower(s)
  {
  }

  /** `needle` occurs in `hay` starting at index `i`. */
  predicate OccursAt(hay: string, needle: string, i: int)
  {
    0 <= i && i + |needle| <= |hay| && hay[i..i + |needle|] == needle
  }

  /**
   * `hay.includes(needle)`: whether `needle` is a contiguous piece of `hay`,
   * searched from the front. The empty needle occurs everywhere.
   */
  function Contains(hay: string, needle: string): (r: bool)
    ensures r <==> exists i :: OccursAt(hay, needle, i)
    decreases |hay|
  {
    if |needle| <= |hay| && hay[..|needle|] == needle then
      assert OccursAt(hay, needle, 0);
      true
    else if hay == [] then
      assert forall i :: !OccursAt(hay, needle, i);
      false
    else
      var r := Contains(hay[1..], needle);
      assert forall i :: OccursAt(hay[1..], needle, i) ==> OccursAt(hay, needle, i + 1);
      assert forall i :: OccursAt(hay, needle, i) ==> i >= 1 && OccursAt(hay[1..], needle, i - 1);
      r
  }

  /** The empty search term is found in every string. */
  lemma EmptyAlwaysContained(hay: string)
    ensures Contains(hay, "")
  {
    assert OccursAt(hay, "", 0);
  }

  /** A one-character needle whose character does not occur in `hay` is not found in it. */
  lemma NotFound(hay: string, needle: string)
    requires |needle| == 1 && needle[0] !in hay
    ensures !Contains(hay, needle)
  {
  }

  /**
   * `s.charAt(0).toUpperCase() + s.slice(1)`: the first character upper-cased,
   * the rest unchanged; the empty string stays empty.
   */
  function Capitalize(s: string): (r: string)
    ensures |r| == |s|
    ensures s != [] ==> r[0] == UpperChar(s[0]) && r[1..] == s[1..]
    ensures r != [] ==> !IsLowerLetter(r[0])
  {
    if s == [] then "" else [UpperChar(s[0])] + s[1..]
  }

  /**
   * Capitalising changes only the case of the first letter, so the label
   * and the raw value agree once both are lower-cased; and it is idempotent.
   */
  lemma CapitalizeOnlyChangesCase(s: string)
    ensures Lower(Capitalize(s)) == Lower(s)
    ensures Capitalize(Capitalize(s)) == Capitalize(s)
  {
    if s != [] {
      var c := Capitalize(s);
      assert LowerChar(UpperChar(s[0])) == LowerChar(s[0]);
      assert forall i :: 0 <= i < |s| ==> Lower(c)[i] == Lower(s)[i];
    }
  }

  /** A non-empty word of lower-case letters, as the status values are. */
  predicate IsLowerWord(s: string)
  {
    s != [] && forall i :: 0 <= i < |s| ==> IsLowerLetter(s[i])
  }

  /** A capitalised lower-case word starts with a capital and lower-cases back to the word. */
  lemma CapitalizeLowerWord(s: string)
    requires IsLowerWord(s)
    ensures Lower(Capitalize(s)) == s
    ensures IsUpperLetter(Capitalize(s)[0])
  {
    CapitalizeOnlyChangesCase(s);
    LowerOfLowerCase(s);
  }
}
