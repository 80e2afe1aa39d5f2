/** The string operations the engine relies on: `String.prototype.indexOf`
    (a `find` entry that is a string), `String.prototype.lastIndexOf` and
    `slice` (cutting off the semicolon the code generator appends). */
module Text {

  /** `needle` occurs in `hay` starting at position `j`. */
  predicate OccursAt(hay: string, needle: string, j: int)
  {
    0 <= j && j + |needle| <= |hay| && hay[j..j + |needle|] == needle
  }

  /** `needle` is a substring of `hay` (the empty string is a substring of everything). */
  ghost predicate IsSubstring(needle: string, hay: string)
  {
    exists j :: OccursAt(hay, needle, j)
  }

  /** First position at or after `from` where `needle` occurs, or -1. */
  function IndexFrom(hay: string, needle: string, from: nat): (r: int)
    ensures r == -1 || (from <= r && OccursAt(hay, needle, r))
    ensures forall j :: from <= j && (r == -1 || j < r) ==> !OccursAt(hay, needle, j)
    decreases |hay| - from
  {
    if from + |needle| > |hay| then -1
    else if hay[from..from + |needle|] == needle then from
    else IndexFrom(hay, needle, from + 1)
  }

  /** `hay.indexOf(needle)`: the first occurrence, or -1 when there is none. */
  function IndexOf(hay: string, needle: string): (r: int)
    ensures r == -1 <==> !IsSubstring(needle, hay)
    ensures r != -1 ==> OccursAt(hay, needle, r) && forall j :: 0 <= j < r ==> !OccursAt(hay, needle, j)
  {
    IndexFrom(hay, needle, 0)
  }

  /** `s.lastIndexOf(c)` for a one-character search string: the last position
      holding `c`, or -1. */
  function LastIndexOf(s: string, c: char): (r: int)
    ensures r == -1 <==> c !in s
    ensures r != -1 ==> 0 <= r < |s| && s[r] == c && c !in s[r + 1..]
  {
    if |s| == 0 then -1
    else if s[|s| - 1] == c then |s| - 1
    else
      var r := LastIndexOf(s[..|s| - 1], c);
      assert s[r + 1..] == if r == -1 then s else s[..|s| - 1][r + 1..] + [s[|s| - 1]];
      r
  }

  /** The text kept after code generation: everything before the last `;`,
      or the whole string when it has no `;`. */
  function StripLastSemicolon(s: string): (r: string)
    ensures |r| <= |s| && r == s[..|r|]
    ensures ';' !in s ==> r == s
    ensures ';' in s ==> |r| < |s| && s[|r|] == ';' && ';' !in s[|r| + 1..]
  {
    var k := LastIndexOf(s, ';');
    if k != -1 then s[..k] else s
  }
}
