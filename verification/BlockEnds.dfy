/**
 Where a section that holds a block ends: at the next heading, unless its own block opens one.
 */
module BlockEnds {
  import opened Text
  import opened Markdown
  import opened Splicing
  import opened Documents
  import opened Sections
  import opened SectionEdits
  import opened Blocks

  /** Somewhere behind a line terminator of its own the block opens a section of its own. */
  predicate FakesHeading(block: string)
  {
    exists i :: 0 < i < |block| && LineTerm(block[i - 1]) && Boundary(block[i..])
  }

  /** A search for task `id` finds something in the block. */
  predicate Mentions(how: Search, block: string, id: string)
  {
    exists i {:trigger Matches(how, block[i..], id)} ::
      0 <= i < |block| && (how.ByHeader? ==> 0 < i && LineTerm(block[i - 1])) && Matches(how, block[i..], id)
  }

  // ---------------------------------------------------------------------
  // Boundaries at the end of a text
  // ---------------------------------------------------------------------

  lemma SpanShrinks(x: string, y: string, p: char -> bool)
    requires x != "" && !p(x[|x| - 1])
    ensures SpanLen(x, p) < |x| && SpanLen(x + y, p) == SpanLen(x, p)
  {
    if SpanLen(x, p) < |x| { SpanExtends(x, y, p); }
  }

  /** Text that ends in a backtick, a bracket closed behind every open one. */
  predicate Fenced(x: string)
  {
    x != "" && x[|x| - 1] == '`' && (forall i :: 0 <= i < |x| && x[i] == '[' ==> ']' in x[i..])
  }

  lemma FencedTail(x: string, i: nat)
    requires Fenced(x) && i < |x|
    ensures Fenced(x[i..])
  {
    var t := x[i..];
    assert t[|t| - 1] == x[|x| - 1];
    forall k | 0 <= k < |t| && t[k] == '[' ensures ']' in t[k..] {
      assert x[i + k] == '[' && t[k..] == x[i + k..];
    }
  }

  /** A word without backticks does not run over the end of a fenced text. */
  lemma WordShrinks(x: string, y: string, w: string)
    requires Fenced(x) && '`' !in w
    ensures w <= x + y ==> w <= x
  {
    if |w| > |x| {
      assert w[|x| - 1] in w;
    }
  }

  lemma NotBracketStops(x: string)
    requires ']' in x
    ensures SpanLen(x, NotBracket) < |x| && x[SpanLen(x, NotBracket)] == ']'
  {
  }

  lemma LaneIs(x: string, k: nat, w: nat)
    requires x != "" && x[0] == '[' && SpanLen(x[1..], NotBracket) == k && 2 + k <= |x|
    requires SpanLen(x[2 + k..], Space) == w
    ensures LaneLen(x) == if k == 0 || w == 0 then None else Some(2 + k + w)
  {
    hide SpanLen;
  }

  lemma LaneBracket(x: string) returns (k: nat)
    requires Fenced(x) && x[0] == '['
    ensures SpanLen(x[1..], NotBracket) == k && 2 + k < |x|
  {
    assert x[0..] == x && ']' in x;
    var t := x[1..];
    assert x == [x[0]] + t;
    NotBracketStops(t);
    k := SpanLen(t, NotBracket);
    assert x[|x| - 1] == '`' && x[1 + k] == t[k];
  }

  lemma LaneShrinks(x: string, y: string)
    requires Fenced(x)
    ensures LaneLen(x + y) == LaneLen(x) && (LaneLen(x).Some? ==> LaneLen(x).value < |x|)
  {
    if x[0] == '[' {
      var k := LaneBracket(x);
      LaneOpens(x, y, k);
    } else {
      assert (x + y)[0] == x[0];
    }
  }

  lemma LaneOpens(x: string, y: string, k: nat)
    requires Fenced(x) && x[0] == '[' && SpanLen(x[1..], NotBracket) == k && 2 + k < |x|
    ensures LaneLen(x + y) == LaneLen(x) && (LaneLen(x).Some? ==> LaneLen(x).value < |x|)
  {
    hide SpanLen, LaneLen, Fenced;
    BehindSpan(x, y, 1, NotBracket);
    SpanFenced(x, y, 2 + k);
    var w := SpanLen(x[2 + k..], Space);
    LaneIs(x, k, w);
    LaneIs(x + y, k, w);
  }

  lemma LaneTaskShrinks(x: string, y: string)
    requires Fenced(x) && LaneTaskLen(x + y).Some?
    ensures LaneTaskLen(x).Some?
  {
    hide LaneLen;
    LaneShrinks(x, y);
    match LaneLen(x)
    case Some(n) =>
      FencedTail(x, n);
      WordShrinks(x[n..], y, "Task");
      assert (x + y)[n..] == x[n..] + y;
    case None =>
      WordShrinks(x, y, "Task");
  }

  lemma SpanFenced(x: string, y: string, k: nat)
    requires Fenced(x) && k < |x|
    ensures SpanLen((x + y)[k..], Space) == SpanLen(x[k..], Space) && k + SpanLen(x[k..], Space) < |x|
    ensures Fenced(x[k + SpanLen(x[k..], Space)..])
    ensures (x + y)[k + SpanLen(x[k..], Space)..] == x[k + SpanLen(x[k..], Space)..] + y
  {
    hide SpanLen;
    FencedTail(x, k);
    assert (x + y)[k..] == x[k..] + y;
    SpanShrinks(x[k..], y, Space);
    FencedTail(x, k + SpanLen(x[k..], Space));
  }

  lemma TaskPrefixShrinks(x: string, y: string)
    requires Fenced(x) && TaskPrefixLen(x + y).Some?
    ensures TaskPrefixLen(x).Some?
  {
    hide SpanLen, LaneTaskLen, Fenced;
    WordShrinks(x, y, "####");
    HashesInside(x, 4);
    SpanFenced(x, y, 4);
    LaneTaskShrinks(x[4 + SpanLen(x[4..], Space)..], y);
  }

  lemma HashesInside(x: string, n: nat)
    requires Fenced(x) && n <= |x| && forall i :: 0 <= i < n ==> x[i] == '#'
    ensures n < |x|
  {
  }

  lemma PhaseShrinks(x: string, y: string)
    requires Fenced(x) && PhaseLen(x + y).Some?
    ensures PhaseLen(x).Some?
  {
    hide SpanLen, Fenced;
    WordShrinks(x, y, "###");
    HashesInside(x, 3);
    SpanFenced(x, y, 3);
    WordShrinks(x[3 + SpanLen(x[3..], Space)..], y, "Phase");
  }

  /** Whether a heading stands at the front of fenced text does not depend on what follows. */
  lemma BoundaryFenced(x: string, y: string)
    requires Fenced(x)
    ensures Boundary(x + y) <==> Boundary(x)
  {
    hide TaskPrefixLen, PhaseLen, Fenced;
    if TaskPrefixLen(x + y).Some? { TaskPrefixShrinks(x, y); }
    if TaskPrefixLen(x).Some? { TaskPrefixExtends(x, y); }
    if PhaseLen(x + y).Some? { PhaseShrinks(x, y); }
    if PhaseLen(x).Some? { PhaseExtends(x, y); }
  }

  lemma PrefixEnds(x: string, n: nat)
    requires TaskPrefixLen(x) == Some(n)
    ensures 0 < n <= |x| && x[n - 1] == 'k'
  {
    var w := SpanLen(x[4..], Space);
    hide SpanLen;
    var lane := x[4 + w..];
    var m := LaneTaskLen(lane).value;
    LaneTaskEnds(lane, m);
    assert n == 4 + w + m;
    assert lane[m - 1] == x[n - 1];
  }

  lemma LaneTaskEnds(x: string, m: nat)
    requires LaneTaskLen(x) == Some(m)
    ensures 0 < m <= |x| && x[m - 1] == 'k'
  {
    hide LaneLen;
    match LaneLen(x)
    case Some(n) => assert x[n..][3] == "Task"[3] == 'k' && x[n..][3] == x[m - 1];
    case None => assert x[3] == "Task"[3] == 'k';
  }

  lemma TaskIdPlain(id: string)
    requires TaskId(id)
    ensures '`' !in id && id != "" && id[|id| - 1] != '`'
  {
  }

  /** What a search matches in fenced text it matches whatever follows, and nothing else. */
  lemma IdFenced(x: string, y: string, id: string)
    requires Fenced(x) && TaskId(id)
    ensures TaskIdLen(x + y, id) == TaskIdLen(x, id) && (TaskIdLen(x, id).Some? ==> TaskIdLen(x, id).value < |x|)
  {
    hide TaskPrefixLen, SpanLen, Fenced, TaskId;
    if TaskPrefixLen(x + y).Some? { TaskPrefixShrinks(x, y); }
    if TaskPrefixLen(x).Some? {
      TaskPrefixExtends(x, y);
      var n := TaskPrefixLen(x).value;
      FencedLast(x);
      PrefixEnds(x, n);
      SpanFenced(x, y, n);
      var w := SpanLen(x[n..], Space);
      TaskIdIs(x, id, n, w);
      TaskIdIs(x + y, id, n, w);
      IdStops(x[n + w..], y, id);
    } else {
      assert TaskIdLen(x, id) == None && TaskIdLen(x + y, id) == None;
    }
  }

  lemma FencedLast(x: string)
    requires Fenced(x)
    ensures x != "" && x[|x| - 1] == '`'
  {
  }

  lemma IdStops(x: string, y: string, id: string)
    requires Fenced(x) && TaskId(id)
    ensures (id <= x + y <==> id <= x) && (id <= x ==> |id| < |x|)
  {
    TaskIdPlain(id);
    hide Fenced, TaskId;
    WordShrinks(x, y, id);
    FencedLast(x);
    if id <= x { assert id[|id| - 1] == x[|id| - 1]; }
  }

  lemma MatchesFenced(how: Search, x: string, y: string, id: string)
    requires Fenced(x) && TaskId(id)
    ensures Matches(how, x + y, id) <==> Matches(how, x, id)
    ensures how.ByHeader? ==> HeaderLen(x + y, id) == HeaderLen(x, id)
  {
    hide TaskIdLen, Fenced, TaskId;
    IdFenced(x, y, id);
  }

  /** JSON text of a list, on one line. */
  predicate ListLine(json: string)
  {
    NoBreak(json) && json != "" && json[|json| - 1] == ']'
  }

  lemma BlockFenced(json: string)
    requires ListLine(json)
    ensures Fenced(BlockText(json)) && BlockText(json)[0] == '*'
  {
    hide VERIFICATION_BLOCK_HEADER, FENCE, CLOSE, NoBreak;
    Shapes();
    var b, n := BlockText(json), |VERIFICATION_BLOCK_HEADER| + 2 + |FENCE|;
    FrameBrackets();
    assert b[n + |json| - 1] == ']';
    assert b[|b| - 1] == CLOSE[|CLOSE| - 1];
    var front := VERIFICATION_BLOCK_HEADER + "\n\n" + FENCE;
    assert '[' !in front;
    forall i | 0 <= i < |b| ensures b[i] == '[' ==> n <= i < n + |json| {
      if i < n {
        assert b[i] == front[i] && front[i] in front;
      } else if i >= n + |json| {
        assert b[i] == CLOSE[i - n - |json|] && CLOSE[i - n - |json|] in CLOSE;
      }
    }
    forall i | 0 <= i < |b| && b[i] == '[' ensures ']' in b[i..] {
      assert b[i..][n + |json| - 1 - i] == ']';
    }
  }

  lemma FrameBrackets()
    ensures '[' !in VERIFICATION_BLOCK_HEADER && '[' !in FENCE && '[' !in CLOSE
    ensures CLOSE != "" && CLOSE[|CLOSE| - 1] == '`'
  {
  }

  // ---------------------------------------------------------------------
  // The section of a task that holds a block
  // ---------------------------------------------------------------------

  /** Where a section with a block can end early: only inside the block. */
  lemma EndsOnlyInBlock(f: string, b: string, g: string, next: string, i: nat)
    requires Sides(f, g) && Fenced(b) && b[0] == '*' && (next == "" || EndsLine(g))
    requires i < |f + (b + g)|
    ensures var rest := f + (b + g) + next;
            LineStart(rest, i) && Boundary(rest[i..])
            <==> |f| < i < |f| + |b| && LineTerm(b[i - |f| - 1]) && Boundary(b[i - |f|..])
  {
    hide Boundary, Fenced, Run;
    var rest := f + (b + g) + next;
    if i < |f| {
      Loosen(Idle, f);
      assert rest == f + (b + g + next);
      NoHeadingInCalm(f, b + g + next, i);
    } else if i < |f| + |b| {
      var j := i - |f|;
      assert rest[i..] == b[j..] + (g + next);
      FencedTail(b, j);
      BoundaryFenced(b[j..], g + next);
      if j == 0 {
        assert b[0..] == b;
        NoBoundaryAtStar(b);
      } else {
        assert rest[i - 1] == b[j - 1];
      }
    } else {
      var j := i - |f| - |b|;
      assert rest[i..] == (g + next)[j..];
      Loosen(Idle, g);
      NoHeadingInCalm(g, next, j);
    }
  }

  lemma NoBoundaryAtStar(x: string)
    requires x != "" && x[0] == '*'
    ensures !Boundary(x)
  {
    hide LaneTaskLen, SpanLen;
  }

  lemma RestHits(rest: string)
    ensures var q := SectionRest(rest);
            && (q < |rest| ==> LineStart(rest, q) && Boundary(rest[q..]))
            && forall i: nat :: i < |rest| && LineStart(rest, i) && Boundary(rest[i..]) ==> q <= i
  {
    hide LineStart, Boundary;
    var q := First(0, |rest|, BoundaryAt(rest));
    NoBoundaryAtEnd();
    if q != -1 { assert BoundaryAt(rest)(q) && From(rest, q) == rest[q..]; }
    forall i: nat | i < |rest| && LineStart(rest, i) && Boundary(rest[i..]) ensures SectionRest(rest) <= i {
      assert BoundaryAt(rest)(i) by { assert From(rest, i) == rest[i..]; }
    }
  }

  /** What a search finds in a section with a block it finds inside the block. */
  lemma MatchesOnlyInBlock(how: Search, f: string, b: string, g: string, next: string, i: nat, id: string)
    requires Sides(f, g) && Fenced(b) && b[0] == '*' && (next == "" || EndsLine(g)) && TaskId(id)
    requires i < |f + (b + g)|
    ensures var rest := f + (b + g) + next;
            (how.ByHeader? ==> LineStart(rest, i)) && Matches(how, rest[i..], id)
            <==> |f| <= i < |f| + |b| && (how.ByHeader? ==> |f| < i && LineTerm(b[i - |f| - 1]))
                 && Matches(how, b[i - |f|..], id)
  {
    hide Matches, Fenced, Sides, TaskId;
    var rest := f + (b + g) + next;
    if i < |f| || i >= |f| + |b| {
      NoMatchBeside(how, f, b, g, next, i, id);
    } else {
      hide *;
      InBlock(f, b, g, next, i);
      FencedTail(b, i - |f|);
      MatchesFenced(how, b[i - |f|..], g + next, id);
      if i == |f| {
        NoMatchAtStar(how, b, id);
      } else {
        LineStartAt(rest, i);
      }
    }
  }

  lemma InBlock(f: string, b: string, g: string, next: string, i: nat)
    requires |f| <= i < |f| + |b|
    ensures var rest, j := f + (b + g) + next, i - |f|;
            rest[i..] == b[j..] + (g + next) && (j > 0 ==> rest[i - 1] == b[j - 1]) && (j == 0 ==> b[j..] == b)
  {
  }

  lemma LineStartAt(s: string, i: nat)
    requires 0 < i <= |s|
    ensures LineStart(s, i) <==> LineTerm(s[i - 1])
  {
  }

  lemma NoMatchBeside(how: Search, f: string, b: string, g: string, next: string, i: nat, id: string)
    requires Sides(f, g) && (next == "" || EndsLine(g)) && (i < |f| || |f| + |b| <= i < |f + (b + g)|)
    ensures !Matches(how, (f + (b + g) + next)[i..], id)
  {
    hide Matches, Run;
    var rest := f + (b + g) + next;
    if i < |f| {
      Loosen(Idle, f);
      assert rest == f + (b + g + next);
      CalmMatchesNot(how, f, b + g + next, i, id);
    } else {
      var j := i - |f| - |b|;
      assert rest[i..] == (g + next)[j..];
      Loosen(Idle, g);
      CalmMatchesNot(how, g, next, j, id);
    }
  }

  lemma CalmMatchesNot(how: Search, x: string, y: string, i: nat, id: string)
    requires Calm(x) && i < |x| && (y == "" || EndsLine(x))
    ensures !Matches(how, (x + y)[i..], id)
  {
    hide Calm, TaskPrefixLen;
    NoHeadingInCalm(x, y, i);
  }

  lemma NoMatchAtStar(how: Search, x: string, id: string)
    requires x != "" && x[0] == '*'
    ensures !Matches(how, x, id)
  {
    NoBoundaryAtStar(x);
    hide TaskPrefixLen;
  }

  lemma EndsBehind(f: string, b: string, g: string)
    requires g != ""
    ensures EndsLine(f + (b + g)) <==> EndsLine(g)
  {
    var body := f + (b + g);
    assert body[|body| - 1] == g[|g| - 1];
  }

  /** A section with a block is quiet if the block opens no section of its own. */
  lemma SealedQuiet(f: string, json: string, g: string)
    requires Sides(f, g) && ListLine(json) && !FakesHeading(BlockText(json))
    ensures Quiet(f + (BlockText(json) + g))
  {
    var b := BlockText(json);
    var body := f + (b + g);
    hide Boundary, Run, Fenced, BlockText, LineStart, NoBreak, EndsLine;
    BlockFenced(json);
    EndsBehind(f, b, g);
    forall y: string, i: nat | i < |body| && LineStart(body, i) && (y == "" || EndsLine(body))
      ensures !Boundary((body + y)[i..])
    {
      EndsOnlyInBlock(f, b, g, y, i);
      LineStartWithin(body, y, i);
    }
  }

  /** A search finds nothing in such a section, whatever follows, exactly when it finds nothing in the block. */
  lemma SealedFree(how: Search, f: string, json: string, g: string, id: string)
    requires Sides(f, g) && ListLine(json) && TaskId(id)
    ensures Free(how, f + (BlockText(json) + g), id) <==> !Mentions(how, BlockText(json), id)
  {
    var b := BlockText(json);
    var body := f + (b + g);
    hide Matches, Run, Fenced, BlockText, LineStart, NoBreak, EndsLine, TaskId;
    BlockFenced(json);
    EndsBehind(f, b, g);
    if Mentions(how, b, id) {
      var i :| 0 <= i < |b| && (how.ByHeader? ==> 0 < i && LineTerm(b[i - 1])) && Matches(how, b[i..], id);
      MatchesOnlyInBlock(how, f, b, g, "", |f| + i, id);
      assert body + "" == body;
      assert Matches(how, (body + "")[|f| + i..], id);
    } else {
      forall y: string, i: nat | i < |body| && (how.ByHeader? ==> LineStart(body, i)) && (y == "" || EndsLine(body))
        ensures !Matches(how, (body + y)[i..], id)
      {
        SealedFreeAt(how, f, b, g, id, y, i);
      }
      IsFree(how, body, id);
    }
  }

  lemma IsFree(how: Search, x: string, id: string)
    requires forall y: string, i: nat {:trigger Matches(how, (x + y)[i..], id)} ::
               i < |x| && (how.ByHeader? ==> LineStart(x, i)) && (y == "" || EndsLine(x))
               ==> !Matches(how, (x + y)[i..], id)
    ensures Free(how, x, id)
  {
    hide Matches, LineStart, EndsLine;
  }

  lemma SealedFreeAt(how: Search, f: string, b: string, g: string, id: string, y: string, i: nat)
    requires Sides(f, g) && Fenced(b) && b[0] == '*' && TaskId(id) && !Mentions(how, b, id)
    requires var body := f + (b + g);
             i < |body| && (how.ByHeader? ==> LineStart(body, i)) && (y == "" || EndsLine(body))
    ensures !Matches(how, (f + (b + g) + y)[i..], id)
  {
    hide Matches, Sides, Fenced, LineStart, EndsLine, TaskId;
    SidesNonempty(f, g);
    EndsBehind(f, b, g);
    MatchesOnlyInBlock(how, f, b, g, y, i, id);
    LineStartWithin(f + (b + g), y, i);
  }

  lemma SidesNonempty(f: string, g: string)
    requires Sides(f, g)
    ensures g != ""
  {
  }

  // ---------------------------------------------------------------------
  // A block cut short
  // ---------------------------------------------------------------------

  /** The read pattern spans two line breaks behind its header: the opening fence's and the closing one's. */
  lemma CapturedBreaks(x: string) returns (t: nat, u: nat)
    requires CapturedJson(x).Some?
    ensures |VERIFICATION_BLOCK_HEADER| + 1 + |FENCE| <= t <= u < |x| && x[t - 1] == '\n' && x[u] == '\n'
  {
    hide VERIFICATION_BLOCK_HEADER, FENCE, CLOSE;
    FenceEnds();
    var h := |VERIFICATION_BLOCK_HEADER|;
    var w := h + SpanLen(x[h..], Space);
    t := w + |FENCE|;
    u := Find(x, CLOSE, t);
    assert x[t - 1] == x[w..][|FENCE| - 1];
    assert x[u..u + |CLOSE|][0] == x[u];
  }

  lemma FenceEnds()
    ensures FENCE != "" && FENCE[|FENCE| - 1] == '\n' && NoBreak(FENCE[..|FENCE| - 1])
    ensures CLOSE != "" && CLOSE[0] == '\n' && NoBreak(VERIFICATION_BLOCK_HEADER) && VERIFICATION_BLOCK_HEADER != ""
    ensures |FENCE| > 1 && forall i :: 0 <= i < |CLOSE| ==> CLOSE[i] != '#'
  {
  }

  /** The line breaks of a block: two behind the header, one behind each fence's opening. */
  lemma BlockBreaks(json: string, j: nat)
    requires NoBreak(json) && j + |CLOSE| < |BlockText(json)|
    ensures BlockText(json)[j] == '\n' ==>
              j <= |VERIFICATION_BLOCK_HEADER| + 1 || j == |VERIFICATION_BLOCK_HEADER| + 1 + |FENCE|
  {
    hide VERIFICATION_BLOCK_HEADER, FENCE, CLOSE;
    FenceEnds();
    var h := |VERIFICATION_BLOCK_HEADER|;
    var b := BlockText(json);
    if h + 2 <= j < h + 1 + |FENCE| {
      assert b[j] == FENCE[j - h - 2] == FENCE[..|FENCE| - 1][j - h - 2];
    } else if h + 2 + |FENCE| <= j {
      assert b[j] == json[j - h - 2 - |FENCE|];
    }
  }

  /** A section that ends inside its block answers nothing. */
  lemma CutShort(head: string, f: string, json: string, n: nat)
    requires Bare(head) && EndsLine(f) && Run(true, Idle, f) == Idle && NoBreak(json)
    requires n + |CLOSE| <= |BlockText(json)|
    ensures FirstJson(head + (f + BlockText(json)[..n])) == None
  {
    hide Run, BlockText, CapturedJson, Find, NoBreak, VERIFICATION_BLOCK_HEADER, FENCE, CLOSE, Bare;
    var b := BlockText(json)[..n];
    var s := head + (f + b);
    forall i: nat | i <= |s| ensures !JsonAt(s)(i) {
      assert From(s, i) == s[i..];
      if i < |head| {
        BareAt(head, f + b, i);
        NotCaptured(s[i..]);
      } else if i < |head| + |f| {
        assert s[i..] == f[i - |head|..] + b;
        NoHeaderAhead(Idle, f, i - |head|, b);
        NotCaptured(s[i..]);
      } else {
        assert s[i..] == b[i - |head| - |f|..];
        NotInFront(json, i - |head| - |f|, n);
      }
    }
    FirstNone(|s|, JsonAt(s));
  }

  lemma BareAt(head: string, y: string, i: nat)
    requires Bare(head) && i < |head|
    ensures (head + y)[i..] != "" && (head + y)[i..][0] != '*'
  {
  }

  lemma NotInFront(json: string, m: nat, n: nat)
    requires NoBreak(json) && m <= n && n + |CLOSE| <= |BlockText(json)|
    ensures CapturedJson(BlockText(json)[..n][m..]) == None
  {
    hide BlockText, CapturedJson, NoBreak, VERIFICATION_BLOCK_HEADER, FENCE, CLOSE;
    var x := BlockText(json)[..n][m..];
    if CapturedJson(x).Some? {
      var t, u := CapturedBreaks(x);
      assert x[t - 1] == BlockText(json)[m + t - 1] && x[u] == BlockText(json)[m + u];
      BlockBreaks(json, m + t - 1);
      BlockBreaks(json, m + u);
      FenceEnds();
      assert false;
    }
  }

  // ---------------------------------------------------------------------
  // What is read from such a section
  // ---------------------------------------------------------------------

  lemma ReadWhole(head: string, f: string, json: string, g: string, next: string)
    requires Bare(head) && Sides(f, g) && ListLine(json)
    requires next == "" || (EndsLine(g) && Boundary(next))
    requires !FakesHeading(BlockText(json))
    ensures var y := f + (BlockText(json) + g) + next; FirstJson(head + y[..SectionRest(y)]) == Some(json)
  {
    var b := BlockText(json);
    var body := f + (b + g);
    var y := body + next;
    hide Boundary, Run, Fenced, BlockText, FirstJson, Bare, SectionRest, LineStart, NoBreak;
    BlockFenced(json);
    forall i: nat | i < |body| ensures !(LineStart(y, i) && Boundary(y[i..])) {
      EndsOnlyInBlock(f, b, g, next, i);
    }
    assert y[|body|..] == next;
    if next != "" { LineStartBehindBlock(f, b, g, next); }
    SectionRestIs(y, |body|);
    assert y[..|body|] == body;
    SealedReads(head, f, json, g);
  }

  lemma LineStartBehindBlock(f: string, b: string, g: string, next: string)
    requires EndsLine(g)
    ensures LineStart(f + (b + g) + next, |f + (b + g)|)
  {
    var body := f + (b + g);
    assert body[|body| - 1] == g[|g| - 1];
  }

  lemma ReadShort(head: string, f: string, json: string, g: string, next: string)
    requires Bare(head) && Sides(f, g) && ListLine(json)
    requires next == "" || EndsLine(g)
    requires FakesHeading(BlockText(json))
    ensures var y := f + (BlockText(json) + g) + next; FirstJson(head + y[..SectionRest(y)]) == None
  {
    var b := BlockText(json);
    var body := f + (b + g);
    var y := body + next;
    hide Boundary, Run, Fenced, BlockText, FirstJson, Bare, SectionRest, LineStart, NoBreak, CLOSE;
    BlockFenced(json);
    var j :| 0 < j < |b| && LineTerm(b[j - 1]) && Boundary(b[j..]);
    EndsOnlyInBlock(f, b, g, next, |f| + j);
    RestHits(y);
    var q := SectionRest(y);
    EndsOnlyInBlock(f, b, g, next, q);
    HashNotInClose(json, q - |f|);
    assert y[..q] == f + b[..q - |f|];
    CutShort(head, f, json, q - |f|);
  }

  lemma HashInClose(json: string, n: nat)
    requires n < |BlockText(json)|
    ensures BlockText(json)[n] == '#' ==> n + |CLOSE| <= |BlockText(json)|
  {
    hide VERIFICATION_BLOCK_HEADER, FENCE, CLOSE;
    FenceEnds();
    var b := BlockText(json);
    if n + |CLOSE| > |b| {
      assert b[n] == CLOSE[n + |CLOSE| - |b|];
    }
  }

  lemma HashNotInClose(json: string, n: nat)
    requires n < |BlockText(json)| && Boundary(BlockText(json)[n..])
    ensures n + |CLOSE| <= |BlockText(json)|
  {
    hide BlockText, Boundary;
    var b := BlockText(json);
    BoundaryOpens(b[n..]);
    assert b[n] == b[n..][0] == "###"[0] == '#';
    HashInClose(json, n);
  }

  /** A section reads as its block's JSON, or, when the block opens a section of its own, as nothing. */
  lemma BlockAnswers(head: string, f: string, json: string, g: string, next: string)
    requires Bare(head) && Sides(f, g) && ListLine(json)
    requires next == "" || (EndsLine(g) && Boundary(next))
    ensures var y := f + (BlockText(json) + g) + next;
            FirstJson(head + y[..SectionRest(y)]) == if FakesHeading(BlockText(json)) then None else Some(json)
  {
    hide *;
    if FakesHeading(BlockText(json)) {
      ReadShort(head, f, json, g, next);
    } else {
      ReadWhole(head, f, json, g, next);
    }
  }

  lemma TaskSurroundings(d: Document, k: nat, id: string, g: string)
    requires k < |d.pieces| && IsTask(d, k, id) && Formed(d) && (Last(d, k) || EndsLine(g))
    ensures Bare(d.pieces[k].head)
    ensures After(d, k) == "" || (EndsLine(g) && Boundary(After(d, k)))
  {
    TaskFacts(d, k, id);
    HeadBare(d.pieces[k].head, id);
  }

  lemma Regrouped(a: string, h: string, y: string, b: string)
    ensures a + (h + y) + b == a + (h + (y + b))
  {
  }

  lemma SidesEnd(f: string, b: string, g: string, last: bool)
    requires Sides(f, g) && (last || EndsLine(f + (b + g)))
    ensures last || EndsLine(g)
  {
    hide Run, Plain;
    if !last {
      var body := f + (b + g);
      assert body[|body| - 1] == g[|g| - 1];
    }
  }

  // ---------------------------------------------------------------------
  // A heading inside a block
  // ---------------------------------------------------------------------

  /** Hashes stand in a block's JSON only. */
  lemma HashInJson(json: string, i: nat) returns (j: nat)
    requires ListLine(json) && i < |BlockText(json)| && BlockText(json)[i] == '#'
    ensures j < |json| && BlockText(json)[i..] == json[j..] + CLOSE
  {
    hide VERIFICATION_BLOCK_HEADER, FENCE, CLOSE, NoBreak;
    FrameQuiet();
    var front := VERIFICATION_BLOCK_HEADER + "\n\n" + FENCE;
    var b := BlockText(json);
    assert forall c | c in front :: c in VERIFICATION_BLOCK_HEADER || c == '\n' || c in FENCE;
    assert forall k :: 0 <= k < |front| ==> b[k] == front[k] && front[k] in front;
    assert forall k :: 0 <= k < |CLOSE| ==> b[|front| + |json| + k] == CLOSE[k] && CLOSE[k] in CLOSE;
    j := i - |front|;
    assert b == front + (json + CLOSE);
  }

  lemma NothingCaptured(x: string, e: nat)
    requires e < |x| && x[e] == '\n' && (forall k :: 0 <= k < e ==> x[k] != '\n') && e > 0 && x[e - 1] == ']'
    ensures CapturedJson(x) == None
  {
    hide VERIFICATION_BLOCK_HEADER, FENCE, CLOSE, Find;
    FenceEnds();
    Shapes();
    var h := |VERIFICATION_BLOCK_HEADER|;
    if VERIFICATION_BLOCK_HEADER <= x {
      HeaderCloses();
      assert x[h - 1] == VERIFICATION_BLOCK_HEADER[h - 1];
      assert forall k :: 0 <= k < h ==> VERIFICATION_BLOCK_HEADER[k] == x[k];
      var w := h + SpanLen(x[h..], Space);
      assert forall k :: h <= k < w ==> Space(x[k]) by { assert forall k :: h <= k < w ==> x[k] == x[h..][k - h]; }
    }
  }

  lemma HeaderCloses()
    ensures |VERIFICATION_BLOCK_HEADER| == 17 && VERIFICATION_BLOCK_HEADER[16] == '*'
  {
  }

  /** From a point inside a block's JSON on, no block is read. */
  lemma TailSilent(json: string, g: string, j: nat, n: nat)
    requires ListLine(json) && j < |json| && Plain(g) && g != "" && g[0] == '\n' && n <= |json[j..] + CLOSE + g|
    ensures FirstJson((json[j..] + CLOSE + g)[..n]) == None
  {
    hide Run, CapturedJson, NoBreak, VERIFICATION_BLOCK_HEADER, FENCE, CLOSE;
    var tail := json[j..];
    var s := (tail + CLOSE + g)[..n];
    LineTail(json, j);
    forall m: nat | m <= |s| ensures !JsonAt(s)(m) {
      assert From(s, m) == s[m..];
      TailSilentAt(tail, g, n, m);
    }
    FirstNone(|s|, JsonAt(s));
  }

  lemma LineTail(json: string, j: nat)
    requires ListLine(json) && j < |json|
    ensures ListLine(json[j..])
  {
  }

  lemma TailSilentAt(tail: string, g: string, n: nat, m: nat)
    requires ListLine(tail) && Plain(g) && n <= |tail + CLOSE + g| && m <= n
    ensures CapturedJson((tail + CLOSE + g)[..n][m..]) == None
  {
    hide Run, CapturedJson, VERIFICATION_BLOCK_HEADER, FENCE, CLOSE, Find;
    Shapes();
    HeaderCloses();
    var x := (tail + CLOSE + g)[..n][m..];
    var whole := tail + CLOSE + g;
    var e := |tail|;
    assert forall k :: 0 <= k < |x| ==> x[k] == whole[m + k];
    CloseChars();
    assert whole[e] == CLOSE[0];
    if m < e && e < n {
      assert whole[e - 1] == tail[e - 1];
      NothingCaptured(x, e - m);
    } else if m < e {
      if CapturedJson(x).Some? { var t, u := CapturedBreaks(x); }
    } else if m < e + |CLOSE| {
      if x != "" { assert x[0] == CLOSE[m - e]; NotCaptured(x); } else { NotCapturedEmpty(); }
    } else {
      assert x <= g[m - e - |CLOSE|..];
      if m - e - |CLOSE| < |g| {
        NoHeaderAhead(Idle, g, m - e - |CLOSE|, "");
        assert g[m - e - |CLOSE|..] + "" == g[m - e - |CLOSE|..];
        NotCaptured(x);
      } else {
        NotCapturedEmpty();
      }
    }
  }

  lemma NotCapturedEmpty()
    ensures CapturedJson("") == None
  {
    Shapes();
  }

  lemma CloseChars()
    ensures |CLOSE| == 4 && forall k :: 0 <= k < |CLOSE| ==> CLOSE[k] != '*'
  {
  }

  /** Where a task is found whose header stands in a block, and what is read there: nothing. */
  lemma FakedSection(a: string, json: string, g: string, next: string, id: string)
    requires ListLine(json) && Plain(g) && g != "" && g[0] == '\n' && TaskId(id)
    requires next == "" || (EndsLine(g) && Boundary(next))
    requires Free(ByHeader, a, id) && EndsLine(a) && Mentions(ByHeader, BlockText(json), id)
    ensures var s := a + (BlockText(json) + (g + next));
            && |a| < FindHeader(s, id) < |a| + |BlockText(json)|
            && ReadTaskSection(s, id).Some? && FirstJson(ReadTaskSection(s, id).value) == None
  {
    var b := BlockText(json);
    var s := a + (b + (g + next));
    hide *;
    var i := FakedHeader(a, json, g + next, id);
    var x := b[i..] + (g + next);
    SuffixFrom(a, b, g + next, i);
    BlockFenced(json);
    FencedTail(b, i);
    MatchesFenced(ByHeader, b[i..], g + next, id);
    HeaderHash(b[i..], id);
    var j := HashInJson(json, i);
    var h := HeaderLen(x, id).value;
    HeaderFits(b[i..], id);
    var q := SectionRest(x[h..]);
    SectionIs(s, id, |a| + i, h, q);
    RestStops(b[i..], g, next, h);
    SectionCut(a, b, g, next, i, h + q, id);
    assert (json[j..] + CLOSE) + g == json[j..] + CLOSE + g;
    TailSilent(json, g, j, h + q);
  }

  lemma SuffixFrom(a: string, b: string, rest: string, i: nat)
    requires i <= |b|
    ensures (a + (b + rest))[|a| + i..] == b[i..] + rest
    ensures forall h: nat :: i + h <= |b| ==> (a + (b + rest))[|a| + i + h..] == (b[i..] + rest)[h..]
  {
  }

  lemma HeaderHash(x: string, id: string)
    requires Matches(ByHeader, x, id)
    ensures x != "" && x[0] == '#' && HeaderLen(x, id).Some?
  {
    hide TaskIdLen;
  }

  lemma HeaderFits(x: string, id: string)
    requires HeaderLen(x, id).Some?
    ensures HeaderLen(x, id).value <= |x|
  {
    hide TaskIdLen;
  }

  /** The section behind a heading in a block ends before the next piece. */
  lemma RestStops(x: string, g: string, next: string, h: nat)
    requires h <= |x| && g != "" && (next == "" || (EndsLine(g) && Boundary(next)))
    ensures h + SectionRest((x + (g + next))[h..]) <= |x + g|
  {
    hide Boundary;
    var rest := (x + (g + next))[h..];
    assert rest == x[h..] + g + next;
    RestHits(rest);
    if next != "" {
      var i := |x[h..] + g|;
      assert rest[i..] == next;
      assert rest[i - 1] == g[|g| - 1];
    }
  }

  lemma SectionCut(a: string, b: string, g: string, next: string, i: nat, n: nat, id: string)
    requires i <= |b| && n <= |b[i..] + g|
    requires TaskSection(a + (b + (g + next)), id) == Region(|a| + i, |a| + i + n)
    ensures ReadTaskSection(a + (b + (g + next)), id) == Some((b[i..] + g)[..n])
  {
    hide TaskSection;
    assert (a + (b + (g + next)))[|a| + i..|a| + i + n] == (b[i..] + g)[..n];
  }

  lemma FakedHeader(a: string, json: string, rest: string, id: string) returns (i: nat)
    requires ListLine(json) && TaskId(id) && Free(ByHeader, a, id) && EndsLine(a)
    requires Mentions(ByHeader, BlockText(json), id)
    ensures 0 < i < |BlockText(json)| && Matches(ByHeader, BlockText(json)[i..], id)
    ensures FindHeader(a + (BlockText(json) + rest), id) == |a| + i
  {
    hide *;
    BlockFenced(json);
    i := FirstFaked(BlockText(json), id);
    FakedFirst(a, BlockText(json), rest, id, i);
  }

  /** The first header of a task in a block. */
  lemma FirstFaked(b: string, id: string) returns (i: nat)
    requires Mentions(ByHeader, b, id)
    ensures 0 < i < |b| && LineTerm(b[i - 1]) && Matches(ByHeader, b[i..], id)
    ensures forall m: nat :: m < i ==> !(0 < m && LineTerm(b[m - 1]) && Matches(ByHeader, b[m..], id))
  {
    hide Matches, LineTerm;
    var p := (i: nat) => i < |b| && 0 < i && LineTerm(b[i - 1]) && Matches(ByHeader, b[i..], id);
    var k: nat :| k < |b| && 0 < k && LineTerm(b[k - 1]) && Matches(ByHeader, b[k..], id);
    assert p(k);
    i := First(0, |b|, p);
    forall m: nat | m < i ensures !(0 < m && LineTerm(b[m - 1]) && Matches(ByHeader, b[m..], id)) {
      assert !p(m);
    }
  }

  lemma FakedFirst(a: string, b: string, rest: string, id: string, i: nat)
    requires Fenced(b) && b[0] == '*' && TaskId(id) && Free(ByHeader, a, id) && EndsLine(a)
    requires 0 < i < |b| && LineTerm(b[i - 1]) && Matches(ByHeader, b[i..], id)
    requires forall m: nat :: m < i ==> !(0 < m && LineTerm(b[m - 1]) && Matches(ByHeader, b[m..], id))
    ensures FindHeader(a + (b + rest), id) == |a| + i
  {
    hide *;
    var s := a + (b + rest);
    FakedAt(a, b, rest, id, i);
    forall m: nat | m < |a| + i ensures !(LineStart(s, m) && HeaderLen(s[m..], id).Some?) {
      if m < |a| { FakedAhead(a, b + rest, id, m); } else { FakedAt(a, b, rest, id, m - |a|); }
    }
    FindHeaderIs(s, id, |a| + i);
  }

  lemma FakedAhead(a: string, y: string, id: string, m: nat)
    requires Free(ByHeader, a, id) && EndsLine(a) && m < |a|
    ensures !(LineStart(a + y, m) && HeaderLen((a + y)[m..], id).Some?)
  {
    hide HeaderLen, LineStart, EndsLine, Free;
    LineStartWithin(a, y, m);
    if LineStart(a, m) { FreeAt(ByHeader, a, id, y, m); }
  }

  lemma FakedAt(a: string, b: string, rest: string, id: string, i: nat)
    requires Fenced(b) && b[0] == '*' && TaskId(id) && i < |b|
    ensures var s := a + (b + rest);
            LineStart(s, |a| + i) && HeaderLen(s[|a| + i..], id).Some?
            ==> 0 < i && LineTerm(b[i - 1]) && Matches(ByHeader, b[i..], id)
    ensures var s := a + (b + rest);
            0 < i && LineTerm(b[i - 1]) && Matches(ByHeader, b[i..], id)
            ==> LineStart(s, |a| + i) && HeaderLen(s[|a| + i..], id).Some?
  {
    var s := a + (b + rest);
    hide HeaderLen, Fenced, TaskId;
    SuffixFrom(a, b, rest, i);
    FencedTail(b, i);
    MatchesFenced(ByHeader, b[i..], rest, id);
    if i == 0 {
      assert b[0..] == b;
      NoMatchAtStar(ByHeader, b, id);
    } else {
      assert s[|a| + i - 1] == b[i - 1];
    }
  }
}
