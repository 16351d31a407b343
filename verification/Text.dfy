/**
 Strings as the source's JavaScript sees them: optional results, substring search,
 character classes and runs of characters.
 */
module Text {

  datatype Option<+T> = None | Some(value: T)

  /** `w` occurs in `s` at index `i`. */
  predicate At(s: string, i: int, w: string)
  {
    0 <= i && i + |w| <= |s| && s[i..i + |w|] == w
  }

  /** `s.indexOf(w, from)`: the least index not below `from` at which `w` occurs, or -1. */
  function Find(s: string, w: string, from: nat): (r: int)
    ensures r == -1 || (from <= r && At(s, r, w))
    ensures r != -1 ==> forall j :: from <= j < r ==> !At(s, j, w)
    ensures r == -1 ==> forall j :: from <= j ==> !At(s, j, w)
    decreases |s| - from
  {
    if from > |s| then -1
    else if At(s, from, w) then from
    else Find(s, w, from + 1)
  }

  /** The regex class `\s`. */
  predicate Space(c: char)
  {
    || c == ' ' || '\t' <= c <= '\r' || c == '\U{A0}' || c == '\U{1680}'
    || '\U{2000}' <= c <= '\U{200A}' || c == '\U{2028}' || c == '\U{2029}'
    || c == '\U{202F}' || c == '\U{205F}' || c == '\U{3000}' || c == '\U{FEFF}'
  }

  /** The characters `.` does not match, and after which `^` matches under the `m` flag. */
  predicate LineTerm(c: char)
  {
    c == '\n' || c == '\r' || c == '\U{2028}' || c == '\U{2029}'
  }

  predicate NotLineTerm(c: char)
  {
    !LineTerm(c)
  }

  predicate Newline(c: char)
  {
    c == '\n'
  }

  lemma FindIs(s: string, w: string, from: nat, r: nat)
    requires from <= r && At(s, r, w) && forall j: nat :: from <= j < r ==> !At(s, j, w)
    ensures Find(s, w, from) == r
  {
  }

  lemma FindNone(s: string, w: string, from: nat)
    requires forall j: nat :: from <= j ==> !At(s, j, w)
    ensures Find(s, w, from) == -1
  {
  }
}
