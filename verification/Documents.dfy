/**
 Blueprint documents as a preamble and a list of headed pieces, and where the source's regexes find
 a task in one.
 */
module Documents {
  import opened Text
  import opened Markdown
  import opened Splicing

  // ---------------------------------------------------------------------
  // Calm text
  // ---------------------------------------------------------------------

  /**
   What a reader that watches for trouble has just seen. `Open`: three or more hashes, `deep` with a
   fourth, then spaces. `Phase(n)` and `Task(n)`: `n` letters of that word behind an open heading.
   `Header(n)`: `n` characters of `**Verification:**`. `Dead` is for good.
   */
  datatype State = Idle | Hashes(n: nat) | Open(deep: bool) | Phase(n: nat) | Task(n: nat)
                 | Dollar | Header(n: nat) | Dead

  /** Behind hashes and spaces: what could make a heading of them, now or, to a strict reader, after an edit. */
  predicate Kills(strict: bool, deep: bool, c: char)
  {
    (strict && c == '*') || (deep && c == '[') || (Space(c) && c != ' ' && c != '\t')
  }

  /** A strict reader also watches for what an edit of the text could trip over: block headers, replacement patterns. */
  function Next(strict: bool, q: State, c: char): State
  {
    if q.Dead? then Dead
    else if c == '#' then Hash(q)
    else if q.Open? && (c == ' ' || c == '\t') then q
    else if q.Open? && Kills(strict, q.deep, c) then Dead
    else if strict && c == '$' then (if q.Dollar? then Dead else Dollar)
    else if strict && q.Dollar? && (c == '&' || c == '`' || c == '\'') then Dead
    else if strict && c == '*' then Star(q)
    else if strict && q.Header? && 2 <= q.n < 15 && c == VERIFICATION_BLOCK_HEADER[q.n] then Header(q.n + 1)
    else Letter(q, c)
  }

  function Hash(q: State): State
  {
    if q == Hashes(1) then Hashes(2)
    else if q == Hashes(2) then Open(false)
    else if q.Open? then Open(true)
    else Hashes(1)
  }

  function Star(q: State): State
  {
    if q == Header(1) || q == Header(2) then Header(2)
    else if q == Header(15) then Header(16)
    else if q == Header(16) then Dead
    else Header(1)
  }

  function Letter(q: State, c: char): State
  {
    match q
    case Open(deep) => if c == 'P' then Phase(1) else if deep && c == 'T' then Task(1) else Idle
    case Phase(n) =>
      if n == 1 && c == 'h' then Phase(2)
      else if n == 2 && c == 'a' then Phase(3)
      else if n == 3 && c == 's' then Phase(4)
      else if n == 4 && c == 'e' then Dead
      else Idle
    case Task(n) =>
      if n == 1 && c == 'a' then Task(2)
      else if n == 2 && c == 's' then Task(3)
      else if n == 3 && c == 'k' then Dead
      else Idle
    case _ => Idle
  }

  function Run(strict: bool, q: State, x: string): State
    decreases |x|
  {
    if x == "" then q else Run(strict, Next(strict, q, x[0]), x[1..])
  }

  predicate Fine(q: State)
  {
    !q.Open? && !q.Dead?
  }

  /**
   Text the heading regexes cannot misread: no `#### Task`, `#### [` or `### Phase` anywhere, and no
   three hashes with no more text on their line.
   */
  predicate Calm(x: string)
  {
    Fine(Run(false, Idle, x))
  }

  /**
   Calm text that the edits cannot misread either: without the header of a verification block, an
   asterisk right behind a heading's hashes, or the replacement patterns `$$`, `$&`, `` $` ``, `$'`.
   */
  predicate Plain(x: string)
  {
    Fine(Run(true, Idle, x))
  }

  lemma {:induction false} RunConcat(strict: bool, q: State, a: string, b: string)
    ensures Run(strict, q, a + b) == Run(strict, Run(strict, q, a), b)
    decreases |a|
  {
    if a == "" {
      assert a + b == b;
    } else {
      assert (a + b)[1..] == a[1..] + b;
      RunConcat(strict, Next(strict, q, a[0]), a[1..], b);
    }
  }

  lemma {:induction false} DeadStays(strict: bool, x: string)
    ensures Run(strict, Dead, x) == Dead
  {
    if x != "" {
      DeadStays(strict, x[1..]);
    }
  }

  function Loose(q: State): State
  {
    if q.Header? || q.Dollar? then Idle else q
  }

  /** The strict reader sees all that the other one sees. */
  lemma {:induction false} Loosen(q: State, x: string)
    requires !Run(true, q, x).Dead?
    ensures Run(false, Loose(q), x) == Loose(Run(true, q, x))
    decreases |x|
  {
    if x != "" {
      DeadStays(true, x[1..]);
      LoosenStep(q, x[0]);
      Loosen(Next(true, q, x[0]), x[1..]);
    }
  }

  lemma LoosenStep(q: State, c: char)
    requires !Next(true, q, c).Dead?
    ensures Next(false, Loose(q), c) == Loose(Next(true, q, c))
  {
  }

  lemma PlainIsCalm(x: string)
    requires Plain(x)
    ensures Calm(x)
  {
    Loosen(Idle, x);
  }

  lemma TwoSteps(strict: bool, q: State, u: string)
    requires |u| >= 2
    ensures Run(strict, q, u) == Run(strict, Next(strict, Next(strict, q, u[0]), u[1]), u[2..])
  {
    assert Run(strict, q, u) == Run(strict, Next(strict, q, u[0]), u[1..]);
    assert u[1..][0] == u[1] && u[1..][1..] == u[2..];
  }

  lemma ThreeHashes(q: State, u: string) returns (deep: bool)
    requires "###" <= u && !Run(false, q, u).Dead?
    ensures Run(false, q, u) == Run(false, Open(deep), u[3..])
  {
    TwoSteps(false, q, u);
    DeadStays(false, u[2..]);
    assert u[2..][0] == '#' && u[2..][1..] == u[3..];
    deep := Hash(Hash(Hash(q))).deep;
  }

  lemma FourHashes(q: State, u: string)
    requires "####" <= u && !Run(false, q, u).Dead?
    ensures Run(false, q, u) == Run(false, Open(true), u[4..])
  {
    var deep := ThreeHashes(q, u);
    assert u[3..][0] == '#' && u[3..][1..] == u[4..];
  }

  /** Behind hashes, spaces keep the reader in wait or kill it. */
  lemma {:induction false} SpacesWait(deep: bool, v: string, w: nat)
    requires w <= |v| && (forall k :: 0 <= k < w ==> Space(v[k])) && !Run(false, Open(deep), v).Dead?
    ensures Run(false, Open(deep), v) == Run(false, Open(deep), v[w..])
  {
    if w > 0 {
      DeadStays(false, v[1..]);
      assert v[1..][w - 1..] == v[w..];
      assert forall k :: 0 <= k < w - 1 ==> v[1..][k] == v[k + 1];
      SpacesWait(deep, v[1..], w - 1);
    }
  }

  lemma PhaseDies(deep: bool, v: string)
    requires "Phase" <= v
    ensures Run(false, Open(deep), v).Dead?
  {
    TwoSteps(false, Open(deep), v);
    TwoSteps(false, Phase(2), v[2..]);
    assert v[2..][2..] == v[4..];
    DeadStays(false, v[4..][1..]);
  }

  lemma TaskDies(v: string)
    requires "Task" <= v
    ensures Run(false, Open(true), v).Dead?
  {
    TwoSteps(false, Open(true), v);
    TwoSteps(false, Task(2), v[2..]);
    DeadStays(false, v[2..][2..]);
  }

  lemma BracketDies(v: string)
    requires v != "" && v[0] == '['
    ensures Run(false, Open(true), v).Dead?
  {
    DeadStays(false, v[1..]);
  }

  predicate EndsLine(x: string)
  {
    x != "" && x[|x| - 1] == '\n'
  }

  /** A word of letters is not spelled across the end of a line. */
  lemma NotAcross(t: string, y: string, word: string)
    requires t != "" && (y == "" || EndsLine(t)) && '\n' !in word
    ensures word <= t + y ==> word <= t
  {
    if |word| > |t| {
      assert word[|t| - 1] in word;
    }
  }

  /** A heading's word would have killed the reader. */
  lemma NoWordAhead(deep: bool, t: string, y: string)
    requires t != "" && !Run(false, Open(deep), t).Dead? && (y == "" || EndsLine(t))
    ensures !("Phase" <= t + y) && (deep ==> !("Task" <= t + y) && t[0] != '[')
  {
    hide Run, Next;
    NotAcross(t, y, "Phase");
    NotAcross(t, y, "Task");
    if "Phase" <= t { PhaseDies(deep, t); }
    if deep && "Task" <= t { TaskDies(t); }
    if deep && t[0] == '[' { BracketDies(t); }
  }

  lemma BehindOpen(deep: bool, v: string, y: string)
    requires v != "" && Fine(Run(false, Open(deep), v)) && (y == "" || EndsLine(v))
    ensures var r := (v + y)[SpanLen(v + y, Space)..];
            !("Phase" <= r) && (deep ==> !("Task" <= r) && (r != "" ==> r[0] != '['))
  {
    hide Next, SpanLen;
    var w := SpanLen(v + y, Space);
    if w < |v| {
      assert forall k :: 0 <= k < w ==> v[k] == (v + y)[k];
      SpacesWait(deep, v, w);
      assert (v + y)[w..] == v[w..] + y;
      NoWordAhead(deep, v[w..], y);
    } else {
      assert forall k :: 0 <= k < |v| ==> v[k] == (v + y)[k];
      SpacesWait(deep, v, |v|);
    }
  }

  lemma NoLaneTask(r: string)
    requires !("Task" <= r) && (r != "" ==> r[0] != '[')
    ensures LaneTaskLen(r) == None
  {
  }

  lemma NoTaskBehind(x: string, v: string)
    requires "####" <= x && x[4..] == v && LaneTaskLen(v[SpanLen(v, Space)..]) == None
    ensures TaskPrefixLen(x) == None
  {
    hide LaneTaskLen, SpanLen;
    assert x[4..][SpanLen(v, Space)..] == x[4 + SpanLen(v, Space)..];
  }

  lemma NoTaskInCalm(q: State, u: string, y: string)
    requires u != "" && Fine(Run(false, q, u)) && (y == "" || EndsLine(u))
    ensures TaskPrefixLen(u + y) == None
  {
    hide Next, Run, LaneTaskLen, SpanLen;
    NotAcross(u, y, "####");
    if "####" <= u {
      FourHashes(q, u);
      var v := u[4..];
      OpenGoesOn(v);
      BehindOpen(true, v, y);
      NoLaneTask((v + y)[SpanLen(v + y, Space)..]);
      assert (u + y)[4..] == v + y;
      NoTaskBehind(u + y, v + y);
    }
  }

  lemma OpenGoesOn(v: string)
    requires Fine(Run(false, Open(true), v))
    ensures v != ""
  {
  }

  lemma NoPhaseInCalm(q: State, u: string, y: string)
    requires u != "" && Fine(Run(false, q, u)) && (y == "" || EndsLine(u))
    ensures PhaseLen(u + y) == None
  {
    hide Next, LaneTaskLen;
    NotAcross(u, y, "###");
    if "###" <= u {
      var deep := ThreeHashes(q, u);
      assert (u + y)[3..] == u[3..] + y;
      BehindOpen(deep, u[3..], y);
      var w := SpanLen((u + y)[3..], Space);
      assert (u + y)[3..][w..] == (u + y)[3 + w..];
    }
  }

  /** Anywhere in calm text, whatever heading follows it: no task heading, no boundary. */
  lemma NoHeadingInCalm(x: string, y: string, i: nat)
    requires Calm(x) && i < |x| && (y == "" || EndsLine(x))
    ensures TaskPrefixLen((x + y)[i..]) == None && !Boundary((x + y)[i..])
  {
    RunConcat(false, Idle, x[..i], x[i..]);
    assert x[..i] + x[i..] == x;
    assert (x + y)[i..] == x[i..] + y;
    NoTaskInCalm(Run(false, Idle, x[..i]), x[i..], y);
    NoPhaseInCalm(Run(false, Idle, x[..i]), x[i..], y);
  }

  // ---------------------------------------------------------------------
  // Headings of tasks and phases
  // ---------------------------------------------------------------------

  predicate IdChar(c: char)
  {
    '0' <= c <= '9' || c == '.'
  }

  /** The ids that task headings carry: digits and dots. */
  predicate TaskId(id: string)
  {
    id != "" && forall i :: 0 <= i < |id| ==> IdChar(id[i])
  }

  /** A character of a heading behind its hashes: on one line, and nothing the edits look for. */
  predicate HeadChar(c: char)
  {
    !LineTerm(c) && c != '#' && c != '*' && c != '$'
  }

  predicate HeadChars(x: string)
  {
    forall i :: 0 <= i < |x| ==> HeadChar(x[i])
  }

  /** `head` is the text that the header regex of task `id` matches, and no more. */
  predicate TaskHead(head: string, id: string)
  {
    TaskId(id) && HeaderLen(head, id) == Some(|head|) && HeadChars(head[4..]) && Find(head, BOX, 0) == -1
  }

  predicate PhaseHead(head: string)
  {
    PhaseLen(head) == Some(|head|) && HeadChars(head[3..])
  }

  lemma SpanExtends(x: string, y: string, p: char -> bool)
    requires SpanLen(x, p) < |x|
    ensures SpanLen(x + y, p) == SpanLen(x, p)
  {
    SpanLenIs(x + y, p, SpanLen(x, p));
  }

  /** What stands behind `k` characters and a span. */
  lemma BehindSpan(x: string, y: string, k: nat, p: char -> bool)
    requires k <= |x| && SpanLen(x[k..], p) < |x[k..]|
    ensures SpanLen((x + y)[k..], p) == SpanLen(x[k..], p)
    ensures (x + y)[k + SpanLen(x[k..], p)..] == x[k + SpanLen(x[k..], p)..] + y
  {
    assert (x + y)[k..] == x[k..] + y;
    SpanExtends(x[k..], y, p);
  }

  lemma LaneExtends(x: string, y: string)
    requires LaneLen(x).Some? && LaneLen(x).value < |x|
    ensures LaneLen(x + y) == LaneLen(x)
  {
    hide SpanLen;
    BehindSpan(x, y, 1, NotBracket);
    var k := SpanLen(x[1..], NotBracket);
    BehindSpan(x, y, 2 + k, Space);
  }

  lemma NoLaneAtTask(x: string)
    requires "Task" <= x
    ensures LaneLen(x) == None
  {
    assert x[0] == 'T';
  }

  lemma LaneTaskExtends(x: string, y: string)
    requires LaneTaskLen(x).Some?
    ensures LaneTaskLen(x + y) == LaneTaskLen(x)
  {
    match LaneLen(x)
    case Some(n) =>
      LaneExtends(x, y);
      assert (x + y)[n..] == x[n..] + y;
    case None =>
      NoLaneAtTask(x);
      NoLaneAtTask(x + y);
  }

  lemma PrefixExtends(w: string, x: string, y: string)
    requires w <= x
    ensures w <= x + y
  {
  }

  lemma TaskPrefixIs(x: string, w: nat, lane: string, n: nat)
    requires "####" <= x && w == SpanLen(x[4..], Space) && w > 0 && lane == x[4 + w..] && LaneTaskLen(lane) == Some(n)
    ensures TaskPrefixLen(x) == Some(4 + w + n)
  {
    hide LaneTaskLen, SpanLen;
  }

  lemma TaskPrefixExtends(x: string, y: string)
    requires TaskPrefixLen(x).Some?
    ensures TaskPrefixLen(x + y) == TaskPrefixLen(x)
  {
    var w := SpanLen(x[4..], Space);
    var lane := x[4 + w..];
    var n := LaneTaskLen(lane).value;
    TaskPrefixIs(x, w, lane, n);
    BehindSpan(x, y, 4, Space);
    LaneTaskExtends(lane, y);
    PrefixExtends("####", x, y);
    TaskPrefixIs(x + y, w, lane + y, n);
  }

  /** Where a heading's id stands, and what the id regex makes of another id there. */
  lemma TaskIdIs(x: string, id: string, n: nat, w: nat)
    requires TaskPrefixLen(x) == Some(n) && w == SpanLen(x[n..], Space)
    ensures TaskIdLen(x, id) == if w > 0 && id <= x[n + w..] then Some(n + w + |id|) else None
  {
    hide TaskPrefixLen, SpanLen;
  }

  lemma IdsDiffer(id: string, other: string, rest: string)
    requires TaskId(id) && TaskId(other) && other != id && other <= id + ":" + rest
    ensures |other| < |id| && IdChar((id + ":" + rest)[|other|])
  {
    var x := id + ":" + rest;
    assert x[..|id|] == id && x[|id|] == ':';
    if |other| < |id| {
      assert x[|other|] == id[|other|];
    }
  }

  lemma HeadSplit(head: string, id: string) returns (n: nat, w: nat)
    requires TaskHead(head, id)
    ensures TaskPrefixLen(head) == Some(n) && w == SpanLen(head[n..], Space) && w > 0 && n + w < |head|
    ensures head[n + w..] == id + ":"
  {
    hide TaskPrefixLen, SpanLen;
    n := TaskPrefixLen(head).value;
    w := SpanLen(head[n..], Space);
    TaskIdIs(head, id, n, w);
    assert head[n + w..] == head[n + w..][..|id|] + head[n + w..][|id|..];
  }

  /** The matches of `id` at `x`: its header, and the start of its region. */
  predicate Silent(x: string, id: string)
  {
    HeaderLen(x, id) == None && TaskMatchLen(x, id) == None
  }

  lemma NoPrefixSilent(x: string, id: string)
    requires TaskPrefixLen(x) == None
    ensures Silent(x, id)
  {
  }

  /** A heading speaks for its own id only. */
  lemma HeadIds(head: string, id: string, rest: string, other: string)
    requires TaskHead(head, id) && TaskId(other)
    ensures other == id ==> HeaderLen(head + rest, id) == Some(|head|) && TaskMatchLen(head + rest, id) == Some(|head|)
    ensures other != id ==> Silent(head + rest, other)
    ensures TaskPrefixLen(head + rest).Some?
  {
    hide TaskPrefixLen, SpanLen;
    var n, w := HeadSplit(head, id);
    var x := head + rest;
    TaskPrefixExtends(head, rest);
    BehindSpan(head, rest, n, Space);
    TaskIdIs(x, other, n, w);
    var y := id + ":" + rest;
    assert x[n + w..] == y;
    if other != id {
      if other <= y {
        IdsDiffer(id, other, rest);
        assert x[n + w + |other|] == y[|other|];
      }
    } else {
      assert x[n + w + |id|] == y[|id|] == ':';
      assert other <= y;
    }
  }

  lemma InsideTaskHead(head: string, id: string, rest: string, i: nat)
    requires TaskHead(head, id) && 0 < i < |head|
    ensures TaskPrefixLen((head + rest)[i..]) == None
  {
    var x := (head + rest)[i..];
    if i < 4 {
      assert x[3] == head[i + 3] == head[4..][i - 1];
    } else {
      assert x[0] == head[i] == head[4..][i - 4];
    }
  }

  lemma PhaseSize(head: string)
    requires PhaseHead(head)
    ensures |head| >= 8
  {
    hide SpanLen, HeadChars;
  }

  lemma InsidePhaseHead(head: string, rest: string, i: nat)
    requires PhaseHead(head) && i < |head|
    ensures TaskPrefixLen((head + rest)[i..]) == None
  {
    PhaseSize(head);
    hide *;
    var k := if i < 3 then 3 else i;
    HeadCharAt(head, k);
    assert (head + rest)[i..][k - i] == head[k];
    NoPrefixAt((head + rest)[i..], k - i);
  }

  lemma HeadCharAt(head: string, k: nat)
    requires PhaseHead(head) && 3 <= k < |head|
    ensures head[k] != '#'
  {
    hide PhaseLen, LineTerm;
    assert head[3..][k - 3] == head[k];
  }

  lemma NoPrefixAt(x: string, j: nat)
    requires j < |x| && j < 4 && x[j] != '#'
    ensures TaskPrefixLen(x) == None
  {
    hide LaneTaskLen, SpanLen;
  }

  lemma PhaseExtends(x: string, y: string)
    requires PhaseLen(x).Some?
    ensures PhaseLen(x + y).Some?
  {
    BehindSpan(x, y, 3, Space);
    var w := SpanLen(x[3..], Space);
    PrefixExtends("###", x, y);
    PrefixExtends("Phase", x[3 + w..], y);
  }

  // ---------------------------------------------------------------------
  // Documents
  // ---------------------------------------------------------------------

  /** A heading and the text down to the next one. `id` is that of a task; phases have none. */
  datatype Piece = Piece(head: string, body: string, id: Option<string>)

  datatype Document = Document(pre: string, pieces: seq<Piece>)

  function PieceText(p: Piece): string
  {
    p.head + p.body
  }

  function Pieces(ps: seq<Piece>): string
  {
    if ps == [] then "" else PieceText(ps[0]) + Pieces(ps[1..])
  }

  function Render(d: Document): string
  {
    d.pre + Pieces(d.pieces)
  }

  predicate HeadOk(p: Piece)
  {
    match p.id
    case Some(id) => TaskHead(p.head, id)
    case None => PhaseHead(p.head)
  }

  predicate Shaped(p: Piece, last: bool)
  {
    HeadOk(p) && (last || EndsLine(p.body))
  }

  /** Headings in their form, each at the start of a line. */
  predicate Shape(ps: seq<Piece>)
  {
    ps == [] || (Shaped(ps[0], |ps| == 1) && Shape(ps[1..]))
  }

  predicate Unique(ps: seq<Piece>)
  {
    forall i, j :: 0 <= i < j < |ps| && ps[i].id.Some? ==> ps[i].id != ps[j].id
  }

  predicate Formed(d: Document)
  {
    (d.pieces == [] || d.pre == "" || EndsLine(d.pre)) && Shape(d.pieces) && Unique(d.pieces)
  }

  /** The two ways a task is looked for: its header at the start of a line, and its pattern anywhere. */
  datatype Search = ByHeader | ByPattern

  predicate Matches(how: Search, x: string, id: string)
  {
    if how.ByHeader? then HeaderLen(x, id).Some? else TaskMatchLen(x, id).Some?
  }

  /** A search for task `id` finds nothing in `x`, whatever stands behind its last line. */
  ghost predicate Free(how: Search, x: string, id: string)
  {
    forall y: string, i: nat {:trigger Matches(how, (x + y)[i..], id)} ::
      i < |x| && (how.ByHeader? ==> LineStart(x, i)) && (y == "" || EndsLine(x)) ==> !Matches(how, (x + y)[i..], id)
  }

  /** No section opens in `x`, whatever stands behind its last line. */
  ghost predicate Quiet(x: string)
  {
    forall y: string, i: nat {:trigger Boundary((x + y)[i..])} ::
      i < |x| && LineStart(x, i) && (y == "" || EndsLine(x)) ==> !Boundary((x + y)[i..])
  }

  /** No section opens but at the headings. */
  ghost predicate Still(d: Document)
  {
    Quiet(d.pre) && forall k :: 0 <= k < |d.pieces| ==> Quiet(d.pieces[k].body)
  }

  /** The pattern of a task matches nothing in the pieces before its own. */
  ghost predicate Apart(d: Document)
  {
    forall j :: 0 <= j < |d.pieces| && d.pieces[j].id.Some? ==> FreeBefore(d, j, ByPattern, d.pieces[j].id.value)
  }

  ghost predicate FreeBefore(d: Document, k: nat, how: Search, id: string)
    requires k <= |d.pieces|
  {
    Free(how, d.pre, id) && forall i :: 0 <= i < k ==> Free(how, d.pieces[i].body, id)
  }

  /** The documents the ledger is kept in. */
  ghost predicate Wellformed(d: Document)
  {
    Formed(d) && Still(d) && Apart(d)
  }

  /** No piece of `ps` is task `id`. */
  predicate Absent(ps: seq<Piece>, id: string)
  {
    forall i :: 0 <= i < |ps| ==> ps[i].id != Some(id)
  }

  // ---------------------------------------------------------------------
  // What searches find in pieces
  // ---------------------------------------------------------------------

  lemma HeaderMatches(x: string, id: string)
    ensures HeaderLen(x, id).Some? ==> TaskMatchLen(x, id).Some? && Boundary(x)
  {
    hide TaskPrefixLen;
  }

  lemma HeaderIsPattern(x: string, id: string)
    ensures Matches(ByHeader, x, id) ==> Matches(ByPattern, x, id) && Boundary(x)
  {
    hide HeaderLen, TaskMatchLen, Boundary;
    HeaderMatches(x, id);
  }

  lemma CalmUnmatched(how: Search, x: string, id: string, y: string, i: nat)
    requires Calm(x) && i < |x| && (y == "" || EndsLine(x))
    ensures !Matches(how, (x + y)[i..], id)
  {
    hide Calm, Boundary, TaskPrefixLen, EndsLine;
    NoHeadingInCalm(x, y, i);
  }

  lemma CalmIsFree(how: Search, x: string, id: string)
    requires Calm(x)
    ensures Free(how, x, id)
  {
    hide Calm, Matches, LineStart, EndsLine;
    forall y: string, i: nat {:trigger Matches(how, (x + y)[i..], id)} |
      i < |x| && (how.ByHeader? ==> LineStart(x, i)) && (y == "" || EndsLine(x))
      ensures !Matches(how, (x + y)[i..], id)
    {
      CalmUnmatched(how, x, id, y, i);
    }
  }

  lemma CalmIsQuiet(x: string)
    requires Calm(x)
    ensures Quiet(x)
  {
    hide Calm, Boundary, LineStart, EndsLine;
    forall y: string, i: nat {:trigger Boundary((x + y)[i..])} | i < |x| && LineStart(x, i) && (y == "" || EndsLine(x))
      ensures !Boundary((x + y)[i..])
    {
      NoHeadingInCalm(x, y, i);
    }
  }

  lemma QuietIsFree(x: string, id: string)
    requires Quiet(x)
    ensures Free(ByHeader, x, id)
  {
    hide Boundary, Matches, LineStart, EndsLine;
    forall y: string, i: nat {:trigger Matches(ByHeader, (x + y)[i..], id)} |
      i < |x| && LineStart(x, i) && (y == "" || EndsLine(x))
      ensures !Matches(ByHeader, (x + y)[i..], id)
    {
      HeaderIsPattern((x + y)[i..], id);
    }
  }

  lemma PatternIsWider(x: string, id: string)
    requires Free(ByPattern, x, id)
    ensures Free(ByHeader, x, id)
  {
    hide Matches, LineStart, EndsLine, Boundary;
    forall y: string, i: nat {:trigger Matches(ByHeader, (x + y)[i..], id)} |
      i < |x| && LineStart(x, i) && (y == "" || EndsLine(x))
      ensures !Matches(ByHeader, (x + y)[i..], id)
    {
      HeaderIsPattern((x + y)[i..], id);
      assert !Matches(ByPattern, (x + y)[i..], id);
    }
  }

  lemma LineStartAfter(a: string, b: string, i: nat)
    requires |a| <= i < |a| + |b|
    ensures LineStart(a + b, i) ==> LineStart(b, i - |a|)
  {
  }

  lemma EndsLineAfter(a: string, b: string)
    requires b != ""
    ensures EndsLine(a + b) <==> EndsLine(b)
  {
    assert (a + b)[|a + b| - 1] == b[|b| - 1];
  }

  lemma FreeAt(how: Search, x: string, id: string, y: string, i: nat)
    requires Free(how, x, id) && i < |x| && (how.ByHeader? ==> LineStart(x, i)) && (y == "" || EndsLine(x))
    ensures !Matches(how, (x + y)[i..], id)
  {
    hide Matches;
  }

  lemma FreeJoin(how: Search, a: string, b: string, id: string)
    requires Free(how, a, id) && Free(how, b, id) && (a == "" || b == "" || EndsLine(a))
    ensures Free(how, a + b, id)
  {
    hide Matches;
    forall y: string, i: nat {:trigger Matches(how, (a + b + y)[i..], id)} |
      i < |a + b| && (how.ByHeader? ==> LineStart(a + b, i)) && (y == "" || EndsLine(a + b))
      ensures !Matches(how, (a + b + y)[i..], id)
    {
      if i < |a| {
        assert a + b + y == a + (b + y);
        assert how.ByHeader? ==> LineStart(a, i);
        assert b + y == "" || EndsLine(a) by { if b == "" { assert a + b == a; } }
        FreeAt(how, a, id, b + y, i);
      } else {
        assert (a + b + y)[i..] == (b + y)[i - |a|..];
        LineStartAfter(a, b, i);
        EndsLineAfter(a, b);
        FreeAt(how, b, id, y, i - |a|);
      }
    }
  }

  /** Neither search finds another task in a piece whose text it finds nothing in. */
  lemma PieceFree(how: Search, p: Piece, id: string)
    requires HeadOk(p) && Free(how, p.body, id) && TaskId(id) && p.id != Some(id)
    ensures Free(how, PieceText(p), id)
  {
    hide HeadOk, Free, TaskId;
    TextFree(how, p, PieceText(p), id);
  }

  lemma TextFree(how: Search, p: Piece, x: string, id: string)
    requires HeadOk(p) && Free(how, p.body, id) && TaskId(id) && p.id != Some(id) && x == p.head + p.body
    ensures Free(how, x, id)
  {
    hide HeadOk, Matches, LineStart, EndsLine, TaskId;
    forall y: string, i: nat {:trigger Matches(how, (x + y)[i..], id)} |
      i < |x| && (how.ByHeader? ==> LineStart(x, i)) && (y == "" || EndsLine(x))
      ensures !Matches(how, (x + y)[i..], id)
    {
      if i < |p.head| {
        assert x + y == p.head + (p.body + y);
        HeadUnmatched(how, p, p.body + y, id, i);
      } else {
        assert (x + y)[i..] == (p.body + y)[i - |p.head|..];
        LineStartAfter(p.head, p.body, i);
        EndsLineAfter(p.head, p.body);
        FreeAt(how, p.body, id, y, i - |p.head|);
      }
    }
  }

  lemma HeadUnmatched(how: Search, p: Piece, rest: string, id: string, i: nat)
    requires HeadOk(p) && TaskId(id) && p.id != Some(id) && i < |p.head|
    ensures !Matches(how, (p.head + rest)[i..], id)
  {
    hide HeadOk, HeaderLen, TaskMatchLen, TaskId;
    HeadFree(p, rest, id, i);
  }

  lemma HeadFree(p: Piece, rest: string, id: string, i: nat)
    requires HeadOk(p) && TaskId(id) && p.id != Some(id) && i < |p.head|
    ensures Silent((p.head + rest)[i..], id)
  {
    hide TaskPrefixLen, HeaderLen, TaskMatchLen, SpanLen;
    var x := p.head + rest;
    match p.id
    case Some(own) =>
      if i == 0 {
        assert x[0..] == x;
        HeadIds(p.head, own, rest, id);
      } else {
        InsideTaskHead(p.head, own, rest, i);
        NoPrefixSilent(x[i..], id);
      }
    case None =>
      InsidePhaseHead(p.head, rest, i);
      NoPrefixSilent(x[i..], id);
  }

  lemma {:induction false} PiecesFree(how: Search, ps: seq<Piece>, id: string)
    requires Shape(ps) && Absent(ps, id) && TaskId(id) && forall i :: 0 <= i < |ps| ==> Free(how, ps[i].body, id)
    ensures Free(how, Pieces(ps), id)
  {
    hide Free, TaskId, HeadOk;
    if ps == [] {
      NothingFree(how, id);
    } else {
      PieceFree(how, ps[0], id);
      PiecesFree(how, ps[1..], id);
      FreeJoin(how, PieceText(ps[0]), Pieces(ps[1..]), id);
    }
  }

  lemma NothingFree(how: Search, id: string)
    ensures Free(how, "", id)
  {
  }

  lemma {:induction false} ShapeFront(ps: seq<Piece>, k: nat)
    requires Shape(ps) && k <= |ps|
    ensures Shape(ps[..k])
    decreases k
  {
    hide HeadOk;
    if k > 0 {
      assert ps[..k][0] == ps[0] && ps[..k][1..] == ps[1..][..k - 1];
      ShapeFront(ps[1..], k - 1);
    }
  }

  /** `^` and the boundary regex match where a list of pieces starts. */
  lemma TextOpens(ps: seq<Piece>)
    requires Shape(ps) && ps != []
    ensures Boundary(Pieces(ps))
  {
    hide TaskPrefixLen, PhaseLen, SpanLen;
    var p := ps[0];
    var rest := p.body + Pieces(ps[1..]);
    assert Pieces(ps) == p.head + rest;
    match p.id
    case Some(id) => HeadIds(p.head, id, rest, id);
    case None => PhaseExtends(p.head, rest);
  }

  lemma {:induction false} TextPrefix(ps: seq<Piece>, k: nat)
    requires k <= |ps|
    ensures Pieces(ps) == Pieces(ps[..k]) + Pieces(ps[k..])
    decreases k
  {
    if k > 0 {
      assert ps[..k][0] == ps[0] && ps[..k][1..] == ps[1..][..k - 1] && ps[1..][k - 1..] == ps[k..];
      TextPrefix(ps[1..], k - 1);
    } else {
      assert ps[..0] == [] && ps[0..] == ps;
    }
  }
}
