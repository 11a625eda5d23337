/** Blanks, and cutting them off. */
module Strings {

  /** What the classic locale takes for white space: blank, tab, newline, vertical tab, form feed, return. */
  const SPACES := {' ', '\t', '\n', '\U{0B}', '\U{0C}', '\r'}

  predicate Space(c: char) { c in SPACES }

  function TrimLeft(s: string, blanks: set<char> := SPACES): (t: string)
    ensures |t| <= |s|
  {
    if s != "" && s[0] in blanks then TrimLeft(s[1..], blanks) else s
  }

  function TrimRight(s: string, blanks: set<char> := SPACES): string {
    if s != "" && s[|s| - 1] in blanks then TrimRight(s[..|s| - 1], blanks) else s
  }

  function Trim(s: string, blanks: set<char> := SPACES): string { TrimRight(TrimLeft(s, blanks), blanks) }

  lemma {:induction false} TrimLeftShape(s: string, blanks: set<char>)
    ensures var t := TrimLeft(s, blanks); t == "" || t[0] !in blanks
  {
    if s != "" && s[0] in blanks { TrimLeftShape(s[1..], blanks); }
  }

  lemma {:induction false} TrimRightShape(s: string, blanks: set<char>)
    ensures var t := TrimRight(s, blanks); t <= s && (t == "" || t[|t| - 1] !in blanks)
  {
    if s != "" && s[|s| - 1] in blanks { TrimRightShape(s[..|s| - 1], blanks); }
  }

  lemma {:induction false} TrimTwice(s: string, blanks: set<char>)
    ensures Trim(Trim(s, blanks), blanks) == Trim(s, blanks)
  {
    TrimLeftShape(s, blanks);
    TrimRightShape(TrimLeft(s, blanks), blanks);
    var t := Trim(s, blanks);
    assert TrimLeft(t, blanks) == t;
    assert TrimRight(t, blanks) == t;
  }
}
