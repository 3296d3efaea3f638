/**
 * Definitions shared by the grid generator and the selection tracker: the
 * grid of cell strings, and JavaScript's `toUpperCase`, restricted to ASCII.
 */
module Text {

  /** A letter grid, row by row; each cell is a string, "" when empty. */
  type Grid = seq<seq<string>>

  /** True for the ASCII lower-case letters 'a'..'z'. */
  predicate IsLower(ch: char) {
    'a' <= ch <= 'z'
  }

  /** Upper-cases one ASCII letter; every other character is kept as it is. */
  function UpperChar(ch: char): (u: char)
    ensures !IsLower(u)
    ensures IsLower(ch) ==> u as int + 32 == ch as int
    ensures !IsLower(ch) ==> u == ch
  {
    if IsLower(ch) then (ch as int - 32) as char else ch
  }

  /** `s.toUpperCase()` over ASCII: same length, every character upper-cased in place. */
  function Upper(s: string): (u: string)
    ensures |u| == |s|
    ensures forall i :: 0 <= i < |s| ==> u[i] == UpperChar(s[i])
  {
    seq(|s|, i requires 0 <= i < |s| => UpperChar(s[i]))
  }

  /** A string with no lower-case ASCII letter in it. */
  predicate IsUpper(s: string) {
    forall i :: 0 <= i < |s| ==> !IsLower(s[i])
  }

  /** Upper-casing yields an upper-case string and leaves an upper-case string as it is. */
  lemma UpperFixesUpper(s: string)
    ensures IsUpper(Upper(s))
    ensures IsUpper(s) <==> Upper(s) == s
  {
  }
}
