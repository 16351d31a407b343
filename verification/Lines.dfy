/**
 Lines and trimming, as the audits use them.
 */
module Lines {
  import opened Text
  import opened Markdown

  function Trim(s: string): string
  {
    TrimEnd(s[SpanLen(s, Space)..])
  }

  predicate QuoteMark(c: char)
  {
    c == '\'' || c == '"'
  }

  // replace(/^['"]|['"]$/g, "")
  function Unquote(s: string): string
  {
    var t := if s != "" && QuoteMark(s[0]) then s[1..] else s;
    if t != "" && QuoteMark(t[|t| - 1]) then t[..|t| - 1] else t
  }

  function DropSuffix(s: string, suffix: string): string
  {
    if |suffix| <= |s| && s[|s| - |suffix|..] == suffix then s[..|s| - |suffix|] else s
  }

  /** The first line of `s` and what stands behind its line break; a carriage return before it goes. */
  datatype Line = Line(text: string, rest: Option<string>)

  function NextLine(s: string): (l: Line)
    ensures l.rest.Some? ==> |l.rest.value| < |s|
  {
    var n := SpanLen(s, NotNewline);
    if n == |s| then Line(s, None)
    else Line(DropSuffix(s[..n], "\r"), Some(s[n + 1..]))
  }

  // split(/\r?\n/)
  function SplitLines(s: string): seq<string>
    decreases |s|
  {
    var l := NextLine(s);
    match l.rest
    case None => [l.text]
    case Some(t) => [l.text] + SplitLines(t)
  }

  function JoinLines(lines: seq<string>): string
  {
    if lines == [] then "" else if |lines| == 1 then lines[0] else lines[0] + "\n" + JoinLines(lines[1..])
  }
}
