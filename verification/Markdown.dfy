/**
 The markdown edits a task completion is made of (src/blueprint/markdown/helpers.ts and
 src/blueprint/markdown/task-heading.ts). Each regex of the source is a function of the text from
 the point where it is tried; its answer is the length of the match it makes there.
 */
module Markdown {
  import opened Text

  // ---------------------------------------------------------------------
  // Matching
  // ---------------------------------------------------------------------

  /** The length of the run of characters in class `p` at the front of `x`. */
  function SpanLen(x: string, p: char -> bool): (n: nat)
    ensures n <= |x|
    ensures forall k :: 0 <= k < n ==> p(x[k])
    ensures n < |x| ==> !p(x[n])
  {
    if x != "" && p(x[0]) then 1 + SpanLen(x[1..], p) else 0
  }

  /** The least index from `from` to `last` at which `p` holds, or -1. */
  function First(from: nat, last: nat, p: nat -> bool): (r: int)
    ensures r == -1 || from <= r <= last
    ensures r != -1 ==> p(r) && (forall i: nat :: from <= i < r ==> !p(i))
    ensures r == -1 ==> forall i: nat :: from <= i <= last ==> !p(i)
    decreases last + 1 - from
  {
    if from > last then -1
    else if p(from) then from
    else First(from + 1, last, p)
  }

  lemma {:induction false} SpanLenIs(x: string, p: char -> bool, n: nat)
    requires n <= |x| && (forall k :: 0 <= k < n ==> p(x[k])) && (n < |x| ==> !p(x[n]))
    ensures SpanLen(x, p) == n
  {
    if n > 0 {
      SpanLenIs(x[1..], p, n - 1);
    }
  }

  /** The least index at which a search succeeds is the one it returns. */
  lemma FirstIs(last: nat, p: nat -> bool, r: nat)
    requires r <= last && p(r) && forall i: nat :: i < r ==> !p(i)
    ensures First(0, last, p) == r
  {
  }

  lemma FirstNone(last: nat, p: nat -> bool)
    requires forall i: nat :: i <= last ==> !p(i)
    ensures First(0, last, p) == -1
  {
  }

  /** The text of `s` from `i` on. */
  function From(s: string, i: nat): string
  {
    if i <= |s| then s[i..] else ""
  }

  /** Where `^` matches under the `m` flag. */
  predicate LineStart(s: string, i: nat)
  {
    i == 0 || (i <= |s| && LineTerm(s[i - 1]))
  }

  predicate NotBracket(c: char)
  {
    c != ']'
  }

  predicate NotNewline(c: char)
  {
    c != '\n'
  }

  // ---------------------------------------------------------------------
  // Headings
  // ---------------------------------------------------------------------

  // ####\s+(?:\[[^\]]+\]\s+)?Task
  function TaskPrefixLen(x: string): (r: Option<nat>)
    ensures r.Some? ==> "####" <= x && 9 <= r.value <= |x|
  {
    if !("####" <= x) then None
    else
      var w := SpanLen(x[4..], Space);
      if w == 0 then None
      else
        match LaneTaskLen(x[4 + w..])
        case None => None
        case Some(n) => Some(4 + w + n)
  }

  // \[[^\]]+\]\s+
  function LaneLen(x: string): (r: Option<nat>)
    ensures r.Some? ==> 4 <= r.value <= |x|
  {
    if x == "" || x[0] != '[' then None
    else
      var k := SpanLen(x[1..], NotBracket);
      if k == 0 || 1 + k >= |x| then None
      else
        var w := SpanLen(x[2 + k..], Space);
        if w == 0 then None else Some(2 + k + w)
  }

  // (?:\[[^\]]+\]\s+)?Task
  function LaneTaskLen(x: string): (r: Option<nat>)
    ensures r.Some? ==> 4 <= r.value <= |x|
  {
    match LaneLen(x)
    case Some(n) => if "Task" <= x[n..] then Some(n + 4) else None
    case None => if "Task" <= x then Some(4) else None
  }

  // ####\s+(?:\[[^\]]+\]\s+)?Task\s+ID
  function TaskIdLen(x: string, id: string): (r: Option<nat>)
    ensures r.Some? ==> "####" <= x && 9 <= r.value <= |x|
  {
    match TaskPrefixLen(x)
    case None => None
    case Some(n) =>
      var w := SpanLen(x[n..], Space);
      if w > 0 && id <= x[n + w..] then Some(n + w + |id|) else None
  }

  /** buildTaskHeaderRegexForId, from behind its `^`. */
  function HeaderLen(x: string, id: string): (r: Option<nat>)
    ensures r.Some? ==> "####" <= x && 9 <= r.value <= |x|
  {
    match TaskIdLen(x, id)
    case None => None
    case Some(n) => if n < |x| && x[n] == ':' then Some(n + 1) else None
  }

  // ###\s+Phase
  function PhaseLen(x: string): (r: Option<nat>)
    ensures r.Some? ==> "###" <= x && r.value <= |x|
  {
    if !("###" <= x) then None
    else
      var w := SpanLen(x[3..], Space);
      if w > 0 && "Phase" <= x[3 + w..] then Some(8 + w) else None
  }

  /** buildTaskSectionBoundaryRegex, from behind its `^`. */
  predicate Boundary(x: string)
  {
    TaskPrefixLen(x).Some? || PhaseLen(x).Some?
  }

  function HeaderAt(s: string, id: string): nat -> bool
  {
    (i: nat) => LineStart(s, i) && HeaderLen(From(s, i), id).Some?
  }

  /** The start of the first header of task `id`, or -1. */
  function FindHeader(s: string, id: string): (r: int)
    ensures -1 <= r <= |s|
  {
    First(0, |s|, HeaderAt(s, id))
  }

  function BoundaryAt(s: string): nat -> bool
  {
    (i: nat) => LineStart(s, i) && Boundary(From(s, i))
  }

  /** The length of what stands before the first boundary, from the end of a header on. */
  function SectionRest(rest: string): (n: nat)
    ensures n <= |rest|
  {
    var b := First(0, |rest|, BoundaryAt(rest));
    if b == -1 then |rest| else b
  }

  // ---------------------------------------------------------------------
  // Replacing text
  // ---------------------------------------------------------------------

  /** GetSubstitution of ECMA-262 for a string pattern, which has no captures. */
  function Expand(template: string, matched: string, before: string, after: string): string
  {
    if template == "" then ""
    else if |template| >= 2 && template[0] == '$' && template[1] == '$'
      then "$" + Expand(template[2..], matched, before, after)
    else if |template| >= 2 && template[0] == '$' && template[1] == '&'
      then matched + Expand(template[2..], matched, before, after)
    else if |template| >= 2 && template[0] == '$' && template[1] == '`'
      then before + Expand(template[2..], matched, before, after)
    else if |template| >= 2 && template[0] == '$' && template[1] == '\''
      then after + Expand(template[2..], matched, before, after)
    else template[..1] + Expand(template[1..], matched, before, after)
  }

  /** `s.replace(pattern, template)` with a string pattern. */
  function ReplaceFirst(s: string, pattern: string, template: string): string
  {
    var p := Find(s, pattern, 0);
    if p == -1 then s
    else s[..p] + Expand(template, pattern, s[..p], s[p + |pattern|..]) + s[p + |pattern|..]
  }

  // s.replace(/\n{3,}/g, "\n\n")
  function Collapse(s: string): string
    decreases |s|
  {
    if s == "" then ""
    else
      var n := SpanLen(s, Newline);
      if n >= 3 then "\n\n" + Collapse(s[n..])
      else if n > 0 then s[..n] + Collapse(s[n..])
      else s[..1] + Collapse(s[1..])
  }

  /** `s.trimEnd()` */
  function TrimEnd(s: string): (r: string)
    ensures r <= s
  {
    if s != "" && Space(s[|s| - 1]) then TrimEnd(s[..|s| - 1]) else s
  }

  function Lower(s: string): (r: string)
    ensures |r| == |s|
    ensures forall i :: 0 <= i < |s| ==> r[i] == LowerChar(s[i])
  {
    seq(|s|, i requires 0 <= i < |s| => LowerChar(s[i]))
  }

  function LowerChar(c: char): char
  {
    if 'A' <= c <= 'Z' then c + 32 as char else c
  }

  /** `x` opens with `mark`, a lower-case text, under the `i` flag. */
  predicate Marked(x: string, mark: string)
  {
    |mark| <= |x| && Lower(x[..|mark|]) == mark
  }

  const STATUS: string := "**status:**"
  const BLOCKED: string := "**blocked:**"

  /** The greatest index not above `w` at which a run of `.` can start, or -1. */
  function LastDot(x: string, p: nat, w: int): (k: int)
    requires w <= |x|
    ensures k == -1 || (p <= k <= w && k < |x| && !LineTerm(x[k]))
    ensures k == -1 ==> forall i :: p <= i <= w && i < |x| ==> LineTerm(x[i])
    decreases w + 1
  {
    if w < p then -1
    else if w < |x| && !LineTerm(x[w]) then w
    else LastDot(x, p, w - 1)
  }

  // /\*\*Status:\*\*\s*.+/i
  function StatusValueLen(x: string): (r: Option<nat>)
    ensures r.Some? ==> Marked(x, STATUS) && |STATUS| < r.value <= |x|
  {
    if !Marked(x, STATUS) then None
    else
      var w := |STATUS| + SpanLen(x[|STATUS|..], Space);
      var k := LastDot(x, |STATUS|, w);
      if k == -1 then None else Some(k + SpanLen(x[k..], NotLineTerm))
  }

  /** The greatest index not above `w` from which `.+\n+` matches, or -1. */
  function LastLine(x: string, p: nat, w: int): (k: int)
    requires w <= |x|
    ensures k == -1 || (p <= k <= w && LineFrom(x, k))
    ensures k == -1 ==> forall i :: p <= i <= w ==> !LineFrom(x, i)
    decreases w + 1
  {
    if w < p then -1
    else if LineFrom(x, w) then w
    else LastLine(x, p, w - 1)
  }

  // .+\n
  predicate LineFrom(x: string, k: nat)
  {
    && k < |x| && !LineTerm(x[k])
    && var e := k + SpanLen(x[k..], NotLineTerm);
    e < |x| && x[e] == '\n'
  }

  // .+\n+
  function LineLen(x: string, k: nat): (n: nat)
    requires LineFrom(x, k)
    ensures k < n <= |x| && x[n - 1] == '\n' && (n < |x| ==> x[n] != '\n')
  {
    var e := k + SpanLen(x[k..], NotLineTerm);
    e + SpanLen(x[e..], Newline)
  }

  // /(\*\*Status:\*\*\s*.+\n+)/i
  function StatusLineLen(x: string): (r: Option<nat>)
    ensures r.Some? ==> Marked(x, STATUS) && |STATUS| < r.value <= |x| && x[r.value - 1] == '\n'
    ensures r.Some? && r.value < |x| ==> x[r.value] != '\n'
  {
    if !Marked(x, STATUS) then None
    else
      var w := |STATUS| + SpanLen(x[|STATUS|..], Space);
      var k := LastLine(x, |STATUS|, w);
      if k == -1 then None else Some(LineLen(x, k))
  }

  /** The greatest index from `p` to `w` from which `[^\n]+\n` matches, or -1. */
  function LastTitle(x: string, p: nat, w: int): (k: int)
    requires w <= |x|
    ensures k == -1 || (p <= k <= w && TitleFrom(x, k))
    ensures k == -1 ==> forall i :: p <= i <= w ==> !TitleFrom(x, i)
    decreases w + 1
  {
    if w < p then -1
    else if TitleFrom(x, w) then w
    else LastTitle(x, p, w - 1)
  }

  // [^\n]+\n
  predicate TitleFrom(x: string, k: nat)
  {
    && k < |x| && x[k] != '\n'
    && k + SpanLen(x[k..], NotNewline) < |x|
  }

  // (####\s+(?:\[[^\]]+\]\s+)?Task\s+[^\n]+\n+)
  function TitleLen(x: string): (r: Option<nat>)
    ensures r.Some? ==> 0 < r.value <= |x| && x[r.value - 1] == '\n' && "####" <= x
    ensures r.Some? && r.value < |x| ==> x[r.value] != '\n'
  {
    match TaskPrefixLen(x)
    case None => None
    case Some(p) =>
      var w := p + SpanLen(x[p..], Space);
      var k := LastTitle(x, p + 1, w);
      if k == -1 then None
      else
        var e := k + SpanLen(x[k..], NotNewline);
        Some(e + SpanLen(x[e..], Newline))
  }

  /** Where a piece of text goes in a section, and the text it goes behind. */
  datatype Anchor = Nowhere | Behind(start: nat, text: string)

  function Anchored(s: string, i: nat, n: Option<nat>): (r: Anchor)
    ensures r.Behind? ==> r.start + |r.text| <= |s| && s[r.start..r.start + |r.text|] == r.text
  {
    match n
    case None => Nowhere
    case Some(k) => if i + k <= |s| then Behind(i, s[i..i + k]) else Nowhere
  }

  function TitleAt(s: string): nat -> bool
  {
    (i: nat) => TitleLen(From(s, i)).Some?
  }

  function StatusLineAt(s: string): nat -> bool
  {
    (i: nat) => StatusLineLen(From(s, i)).Some?
  }

  function TitleAnchor(s: string): Anchor
  {
    var i := First(0, |s|, TitleAt(s));
    if i == -1 then Nowhere else Anchored(s, i, TitleLen(From(s, i)))
  }

  function StatusAnchor(s: string): Anchor
  {
    var i := First(0, |s|, StatusLineAt(s));
    if i == -1 then Nowhere else Anchored(s, i, StatusLineLen(From(s, i)))
  }

  function InsertAfterTaskTitle(section: string, line: string): string
  {
    match TitleAnchor(section)
    case Nowhere => section + "\n" + line + "\n"
    case Behind(_, m) => ReplaceFirst(section, m, m + line + "\n\n")
  }

  // ---------------------------------------------------------------------
  // Completing a task
  // ---------------------------------------------------------------------

  /** The match of buildTaskPattern: `[start, end)`, or nothing. It is not anchored to a line. */
  datatype Region = NoRegion | Region(start: nat, end: nat)

  function TaskAt(s: string, id: string): nat -> bool
  {
    (i: nat) => TaskMatchLen(From(s, i), id).Some?
  }

  function TaskRegion(s: string, id: string): (r: Region)
    ensures r.Region? ==> r.start <= r.end <= |s|
  {
    var i := First(0, |s|, TaskAt(s, id));
    if i == -1 then NoRegion
    else
      var e := i + TaskMatchLen(From(s, i), id).value;
      var end := Find(s, "\n###", e);
      Region(i, if end == -1 then |s| else end)
  }

  // ####\s+(?:\[[^\]]+\]\s+)?Task\s+ID[:\s]
  function TaskMatchLen(x: string, id: string): (r: Option<nat>)
    ensures r.Some? ==> "####" <= x && r.value <= |x|
  {
    match TaskIdLen(x, id)
    case None => None
    case Some(n) => if n < |x| && (x[n] == ':' || Space(x[n])) then Some(n + 1) else None
  }

  function OnRegion(s: string, id: string, f: string -> string): string
  {
    match TaskRegion(s, id)
    case NoRegion => s
    case Region(i, e) => s[..i] + f(s[i..e]) + s[e..]
  }

  const DONE_LINE: string := "**Status:** done"

  function StatusMarkAt(s: string): nat -> bool
  {
    (i: nat) => Marked(From(s, i), STATUS)
  }

  function StatusValueAt(s: string): nat -> bool
  {
    (i: nat) => StatusValueLen(From(s, i)).Some?
  }

  /** updateTaskStatus to "done", inside the task's region. */
  function SetDone(region: string): string
  {
    if First(0, |region|, StatusMarkAt(region)) != -1 then
      var i := First(0, |region|, StatusValueAt(region));
      if i == -1 then region
      else region[..i] + DONE_LINE + region[i + StatusValueLen(From(region, i)).value..]
    else InsertAfterTaskTitle(region, DONE_LINE)
  }

  // \n?\*\*Blocked:\*\*\s*.*(?:\n+)?  under the i flag
  function BlockedLen(x: string): (r: Option<nat>)
    ensures r.Some? ==> 0 < r.value <= |x|
  {
    if Marked(x, BLOCKED) then Some(BlockedLineLen(x))
    else if x != "" && x[0] == '\n' && Marked(x[1..], BLOCKED) then Some(1 + BlockedLineLen(x[1..]))
    else None
  }

  function BlockedLineLen(x: string): (n: nat)
    requires Marked(x, BLOCKED)
    ensures |BLOCKED| <= n <= |x| && (n < |x| ==> x[n] != '\n')
    ensures n < |x| ==> LineTerm(x[n]) || x[n - 1] == '\n'
  {
    var w := |BLOCKED| + SpanLen(x[|BLOCKED|..], Space);
    var e := w + SpanLen(x[w..], NotLineTerm);
    e + SpanLen(x[e..], Newline)
  }

  function BlockedAt(s: string): nat -> bool
  {
    (i: nat) => BlockedLen(From(s, i)).Some?
  }

  function DropBlocked(region: string): string
  {
    var i := First(0, |region|, BlockedAt(region));
    if i == -1 then region
    else region[..i] + "\n" + region[i + BlockedLen(From(region, i)).value..]
  }

  /** updateBlockedReason with an empty reason, inside the task's region. */
  function ClearBlocked(region: string): string
  {
    TrimEnd(Collapse(DropBlocked(region)))
  }

  const BOX: string := "- [ ]"
  const TICKED: string := "- [x]"

  // region.replace(/- \[ \]/g, "- [x]")
  function CheckAll(region: string): string
  {
    if region == "" then ""
    else if BOX <= region then TICKED + CheckAll(region[|BOX|..])
    else region[..1] + CheckAll(region[1..])
  }

  function CompleteTask(content: string, id: string): string
  {
    var markedDone := OnRegion(content, id, SetDone);
    var unblocked := OnRegion(markedDone, id, ClearBlocked);
    OnRegion(unblocked, id, CheckAll)
  }
}
