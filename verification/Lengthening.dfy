/**
 Evidence whose block opens a section, where the block goes behind the title: the text grows there, too. So it is
 with a status line that ends in a carriage return, or at the end of the document.
 */
module Lengthening {
  import opened Text
  import opened Markdown
  import opened Evidence
  import opened Splicing
  import opened Verification
  import opened Documents
  import opened Sections
  import opened SectionEdits
  import opened Blocks
  import opened BlockEnds
  import opened Ledger
  import opened Tidy
  import opened Markers
  import opened DoneLines
  import opened Completing
  import opened Outcomes
  import opened Reinserting
  import opened Resting
  import opened Reapplying
  import opened Cutting
  import opened Repeating
  import opened Growing
  import opened Restless

  // ---------------------------------------------------------------------
  // One more verification
  // ---------------------------------------------------------------------

  /** The title's line and the breaks behind it, without a status mark. */
  predicate Title(f: string)
  {
    Neat(f) && Fore(f) && NoMark(f, STATUS) && TitleEnd(f) == |f|
  }

  /** What verifications have put between the newest block and the section's own text: lines without a status mark. */
  predicate Amid(y: string, json: string)
  {
    && y != "" && y[0] == '\n' && EndsLine(y) && NoTriple(y) && Literal(y) && NoMark(y, STATUS)
    && (NoMark(BlockText(json), BLOCKED) ==> NoMark(y, BLOCKED))
  }

  /** A section's own text behind its title: settled, without a status line. */
  predicate Own(q: string, t: string, last: bool)
  {
    && q != "" && q[0] != '\n' && Tidied(q) == q && Rests(q) && NoMark(q, BLOCKED) && Beyond(t, last)
    && NoTriple(q + t) && Literal(q) && Literal(t) && NoStatusLine(q + t) && Calm(q + t)
  }

  lemma TitleParts(f: string)
    requires Title(f)
    ensures Neat(f) && Fore(f) && NoMark(f, STATUS) && TitleEnd(f) == |f|
    ensures EndsLine(f) && NoTriple(f) && CheckAll(f) == f && NoMark(f, BLOCKED) && NoH3(f) && Literal(f)
  {
    hide NoMark, NoTriple, CheckAll, NoH3, Literal, Run, TitleEnd;
  }

  lemma AmidParts(y: string, json: string)
    requires Amid(y, json)
    ensures y != "" && y[0] == '\n' && EndsLine(y) && NoTriple(y) && Literal(y) && NoMark(y, STATUS)
    ensures NoMark(BlockText(json), BLOCKED) ==> NoMark(y, BLOCKED)
  {
    hide NoMark, NoTriple, Literal, BlockText;
  }

  lemma OwnParts(q: string, t: string, last: bool)
    requires Own(q, t, last)
    ensures q != "" && q[0] != '\n' && Tidied(q) == q && Rests(q) && NoMark(q, BLOCKED) && Beyond(t, last)
    ensures NoTriple(q + t) && Literal(q) && Literal(t) && NoStatusLine(q + t) && Calm(q + t)
  {
    hide Tidied, Rests, NoMark, NoTriple, Literal, NoStatusLine, Calm, Beyond;
  }

  /** The lines before a section's own text, tidied. */
  lemma FrontTidies(f: string, b: string, y: string) returns (e: string)
    requires Neat(f) && Cored(b) && y != "" && y[0] == '\n' && EndsLine(y) && NoTriple(y) && Literal(b + y)
    ensures CheckAll(Collapse(f + (b + y))) == f + e && EndsLine(f + (b + y)) && Ticks(b + y, e)
    ensures e != "" && e[0] == '*' && EndsLine(e) && NoTriple(e) && Literal(e) && |e| == |b| + |y|
  {
    hide *;
    NeatParts(f);
    CoredParts(b, y);
    NoTripleAcross(b, y);
    NoTripleLines(f, b + y);
    CollapseKeeps(f + (b + y));
    CheckLines(f, b + y);
    e := CheckAll(b + y);
    CheckAllTicks(b + y);
    TicksOpen(b + y, e);
    TicksEnd(b + y);
    TicksSize(b + y, e);
    TicksNoTriple(b + y, e);
    TicksLiteral(b + y, e);
  }

  lemma CoredParts(b: string, y: string)
    requires Cored(b) && y != "" && EndsLine(y)
    ensures b != "" && b[|b| - 1] != '\n' && NoTriple(b) && b + y != "" && (b + y)[0] == '*' && EndsLine(b + y)
    ensures |b + y| == |b| + |y| && forall f: string :: EndsLine(f + (b + y))
  {
    hide NoTriple;
    assert (b + y)[|b + y| - 1] == y[|y| - 1];
    forall f: string ensures EndsLine(f + (b + y)) {
      EndsLineAfter(f, b + y);
    }
  }

  /** Completing such a section keeps its title and its own text. */
  lemma OwnEnds(head: string, f: string, json: string, y: string, q: string, t: string, last: bool)
    returns (e: string)
    requires Bare(head) && Title(f) && OpenLine(json) && Literal(BlockText(json)) && NoMark(BlockText(json), STATUS)
    requires Amid(y, json) && Own(q, t, last)
    ensures Ended(head, f + (BlockText(json) + (y + q))) == f + e + q && Literal(f + (BlockText(json) + (y + q)))
    ensures e != "" && e[0] == '*' && EndsLine(e) && NoTriple(e) && Literal(e) && NoMark(e, STATUS) && |e| > |y|
    ensures NoMark(BlockText(json), BLOCKED) ==> NoMark(e, BLOCKED)
  {
    var b := BlockText(json);
    var u := f + (b + (y + q));
    hide *;
    TitleParts(f);
    AmidParts(y, json);
    OwnParts(q, t, last);
    LineParts(json);
    MarkShapes();
    LiteralPair(y, q);
    LiteralLines(f, b, y + q);
    OpensSame(y, q);
    PartedUnmarked(b, y, STATUS);
    NoMarkJoin(f, b + y, STATUS);
    AllGrouped(f, b, y, q);
    EndsTwice(f, b, y);
    RestsBehind(f + (b + y), q);
    RestsSame(f + (b + y), q);
    RestsStays(head, u);
    DroppedIs(head, u);
    if NoMark(b, BLOCKED) { NoMarkJoin(y, q, BLOCKED); }
    var c := DropInBlock(f, json, y + q);
    AllGrouped(f, c, y, q);
    DropLiteral(u);
    LiteralSuffix(f, c + (y + q));
    LiteralFront(c, y, q);
    e := FrontTidies(f, c, y);
    TidiedSplit(f + (c + y), q);
    DropUnmarked(b, STATUS);
    PartedUnmarked(c, y, STATUS);
    TicksNoMark(c + y, e, STATUS);
    if NoMark(b, BLOCKED) {
      PartedUnmarked(c, y, BLOCKED);
      TicksNoMark(c + y, e, BLOCKED);
    }
    CoredOpens(c, y);
  }

  lemma RestsSame(p: string, q: string)
    requires (IsDone(p + q) <==> IsDone(q)) && (Unvalued(p + q) <==> Unvalued(q)) && Rests(q)
    ensures Rests(p + q)
  {
    hide IsDone, Unvalued;
  }

  lemma AllGrouped(f: string, b: string, y: string, q: string)
    ensures f + (b + (y + q)) == f + (b + y) + q
  {
  }

  lemma EndsTwice(f: string, b: string, y: string)
    requires EndsLine(y)
    ensures EndsLine(f + (b + y))
  {
    EndsLineAfter(b, y);
    EndsLineAfter(f, b + y);
  }

  lemma LiteralPair(y: string, q: string)
    requires Literal(y) && Literal(q) && EndsLine(y)
    ensures Literal(y + q)
  {
    hide Literal;
    LiteralConcat(y, q);
  }

  lemma LiteralFront(c: string, y: string, q: string)
    requires Literal(c + (y + q))
    ensures Literal(c + y)
  {
    hide Literal;
    LiteralPart(c + (y + q), 0, |c + y|);
    assert (c + (y + q))[0..|c + y|] == c + y;
  }

  /** The section ends before its own text, or with the piece. */
  lemma EndsApart(f: string, q: string, t: string, last: bool, next: string)
    requires Own(q, t, last) && (next == "" || (EndsLine(f + (q + t)) && Boundary(next)))
    ensures var n := SectionRest(f + (q + t) + next); n <= |f| || n == |f + (q + t)|
  {
    var y := q + t;
    hide *;
    OwnParts(q, t, last);
    StopsAtNext(f + y, next);
    RestHits(f + y + next);
    var n := SectionRest(f + y + next);
    if |f| < n < |f + y| {
      OwnEndsLine(f, q, t, next);
      TailAt(f, y, next, n);
      NoHeadingInCalm(y, next, n - |f|);
    }
  }

  lemma OwnEndsLine(f: string, q: string, t: string, next: string)
    requires q != "" && (next == "" || EndsLine(f + (q + t)))
    ensures next == "" || EndsLine(q + t)
  {
    EndsLineAfter(f, q + t);
  }

  lemma TailAt(f: string, y: string, next: string, n: nat)
    requires |f| <= n <= |f + y|
    ensures n <= |f + y + next| && (f + y + next)[n..] == (y + next)[n - |f|..]
    ensures n < |f + y| ==> n < |f + y + next|
  {
  }

  lemma NoLineUnmarked(x: string)
    requires !Marked(x, STATUS)
    ensures StatusLineLen(x).None?
  {
    hide Marked;
    LineMarked(x);
  }

  /** No status line in a heading, lines without a mark, and a text without one. */
  lemma NoLines(head: string, f: string, r: string)
    requires Bare(head) && EndsLine(f) && NoMark(f, STATUS) && NoStatusLine(r)
    ensures NoStatusLine(head + (f + r))
  {
    hide Marked, NoMark, StatusLineLen, Bare;
    MarkShapes();
    var s := head + (f + r);
    forall i | 0 <= i <= |s| ensures StatusLineLen(s[i..]).None? {
      if i < |head| {
        HeadUnmarked(head, f + r, STATUS, i);
        NoLineUnmarked(s[i..]);
      } else if i < |head| + |f| {
        MarksSplit(f, r, STATUS, i - |head|);
        assert s[i..] == (f + r)[i - |head|..];
        NoLineUnmarked(s[i..]);
      } else {
        assert s[i..] == r[i - |head| - |f|..];
      }
    }
  }

  lemma UnmarkedLines(r: string)
    requires NoMark(r, STATUS)
    ensures NoStatusLine(r)
  {
    hide Marked, StatusLineLen;
    forall i | 0 <= i <= |r| ensures StatusLineLen(r[i..]).None? {
      NoLineUnmarked(r[i..]);
    }
  }

  lemma LinesBehind(e: string, r: string)
    requires EndsLine(e) && NoMark(e, STATUS) && NoStatusLine(r)
    ensures NoStatusLine(e + r)
  {
    hide Marked, NoMark, StatusLineLen;
    MarkShapes();
    var s := e + r;
    forall i | 0 <= i <= |s| ensures StatusLineLen(s[i..]).None? {
      if i < |e| {
        MarksSplit(e, r, STATUS, i);
        NoLineUnmarked(s[i..]);
      } else {
        assert s[i..] == r[i - |e|..];
      }
    }
  }

  /** Behind the title, whatever follows its breaks. */
  lemma TitleEndStays(f: string, r: string)
    requires EndsLine(f) && TitleEnd(f) == |f| && (r == "" || r[0] != '\n')
    ensures TitleEnd(f + r) == |f| && '\n' in f + r
  {
    hide SpanLen;
    var x := f + r;
    assert f[|f| - 1] in x;
    assert f[|f| - 1] in f;
    var j := FirstBreak(f);
    SpanParts(f, j, Newline);
    assert x[0..] == x;
    assert forall i :: 0 <= i < |f| ==> x[i] == f[i];
    SpanIs(x, 0, NotNewline, j);
    SpanIs(x, j, Newline, |f|);
  }

  /** The block goes behind the title again. */
  lemma TitleAgain(head: string, id: string, f: string, r: string)
    requires TaskHead(head, id) && Title(f) && NoStatusLine(r) && (r == "" || r[0] != '\n')
    ensures BlockPlace(head, f + r) == Some(|f|)
  {
    hide *;
    HeadBare(head, id);
    TitleParts(f);
    NoLines(head, f, r);
    TitleEndStays(f, r);
    TitlePlace(head, id, f + r);
  }

  lemma OwnPlace(head: string, id: string, f: string, e: string, q: string, t: string, last: bool, n: nat)
    requires TaskHead(head, id) && Title(f) && Own(q, t, last)
    requires e != "" && e[0] == '*' && EndsLine(e) && NoMark(e, STATUS)
    requires |f| <= n <= |f + e| || n == |f + e + (q + t)|
    ensures n <= |f + (e + (q + t))| && BlockPlace(head, (f + (e + (q + t)))[..n]) == Some(|f|)
  {
    hide *;
    OwnParts(q, t, last);
    MarkShapes();
    if n <= |f + e| {
      var r := e[..n - |f|];
      MarkNonempty(STATUS);
      PrefixNoMark(e, n - |f|, STATUS);
      UnmarkedLines(r);
      FrontAt(f, e, q + t, n);
      TitleAgain(head, id, f, r);
    } else {
      LinesBehind(e, q + t);
      WholeAt(f, e, q + t, n);
      TitleAgain(head, id, f, e + (q + t));
    }
  }

  lemma FrontAt(f: string, e: string, r: string, n: nat)
    requires |f| <= n <= |f + e| && e != "" && e[0] == '*'
    ensures n <= |f + (e + r)| && (f + (e + r))[..n] == f + e[..n - |f|]
    ensures e[..n - |f|] == "" || e[..n - |f|][0] != '\n'
  {
  }

  lemma WholeAt(f: string, e: string, r: string, n: nat)
    requires n == |f + e + r| && e != "" && e[0] == '*'
    ensures n <= |f + (e + r)| && (f + (e + r))[..n] == f + (e + r) && (e + r)[0] != '\n'
  {
  }

  /** Another verification puts one more block in, behind the title. */
  lemma OwnGrows(head: string, id: string, f: string, json: string, y: string, q: string, t: string, last: bool,
                 next: string) returns (y': string)
    requires TaskHead(head, id) && Title(f) && OpenLine(json) && Literal(BlockText(json))
    requires NoMark(BlockText(json), STATUS) && Amid(y, json) && Own(q, t, last) && NoH3(y + q)
    requires (next == "" || Boundary(next)) && (next == "" <==> last)
    ensures Again(head, f + (BlockText(json) + (y + (q + t))), next, last, BlockText(json))
            == f + (BlockText(json) + (y' + (q + t)))
    ensures Amid(y', json) && NoH3(y' + q) && |y'| > |y|
  {
    var b := BlockText(json);
    var body := f + (b + (y + (q + t)));
    hide *;
    HeadBare(head, id);
    TitleParts(f);
    AmidParts(y, json);
    OwnParts(q, t, last);
    LineParts(json);
    var e := OwnEnds(head, f, json, y, q, t, last);
    OwnLow(f, json, y, q, t, last);
    FourParts(f, b, y, q, t);
    CompletedIs(head, f + (b + (y + q)), t, last);
    FourGrouped(f, e, q, t);
    if !last { BeyondEnds(f + e + q, t, last); }
    EndsApart(f + e, q, t, last, next);
    ReachesFore(f, e + (q + t) + next);
    StopsAtNext(f + e + (q + t), next);
    Regrouping(f, e + (q + t), next);
    var n := SectionRest(f + (e + (q + t)) + next);
    OwnPlace(head, id, f, e, q, t, last, n);
    PlacedBlock(head, f, e + (q + t), n, b);
    AgainIs(head, body, next, last, b, f + (e + (q + t)), n);
    y' := "\n\n" + e;
    AmidFrom(e, json);
    Regrouping(f, e, q);
    LowSuffix(f, e + q);
    OpensStar(e, q);
    StarFirst(e, q);
    BreaksLow(e + q);
    BreaksGrouped(f, b, e, q + t);
  }

  lemma FourParts(f: string, b: string, y: string, q: string, t: string)
    ensures f + (b + (y + (q + t))) == f + (b + (y + q)) + t
  {
  }

  lemma FourGrouped(f: string, e: string, q: string, t: string)
    ensures f + e + q + t == f + e + (q + t) == f + (e + (q + t))
  {
  }

  lemma BreaksGrouped(f: string, b: string, e: string, r: string)
    ensures f + (b + ("\n\n" + (e + r))) == f + (b + ("\n\n" + e + r)) && |"\n\n" + e| == 2 + |e|
  {
    assert "\n\n" + (e + r) == "\n\n" + e + r;
  }

  lemma AmidFrom(e: string, json: string)
    requires e != "" && e[0] == '*' && EndsLine(e) && NoTriple(e) && Literal(e) && NoMark(e, STATUS)
    requires NoMark(BlockText(json), BLOCKED) ==> NoMark(e, BLOCKED)
    ensures Amid("\n\n" + e, json)
  {
    hide NoMark, NoTriple, Literal, BlockText;
    MarkShapes();
    BreaksLiteral();
    LiteralConcat("\n\n", e);
    NoTripleJoin("\n\n", e);
    StatusBreaksAhead(e);
    if NoMark(BlockText(json), BLOCKED) { BreaksAhead(e); }
    EndsLineAfter("\n\n", e);
  }

  lemma StatusBreaksAhead(u: string)
    requires NoMark(u, STATUS)
    ensures NoMark("\n\n" + u, STATUS)
  {
    hide NoMark;
    MarkShapes();
    assert "" + "\n" == "\n" && "\n" + "\n" == "\n\n";
    NothingMarkedStatus();
    BreakUnmarked("", STATUS);
    BreakUnmarked("\n", STATUS);
    NoMarkJoin("\n\n", u, STATUS);
  }

  lemma NothingMarkedStatus()
    ensures NoMark("", STATUS)
  {
    MarkShapes();
  }

  /** No third-level line opens before what completion does not see. */
  lemma OwnLow(f: string, json: string, y: string, q: string, t: string, last: bool)
    requires Title(f) && OpenLine(json) && Amid(y, json) && Own(q, t, last) && NoH3(y + q)
    ensures NoH3(f + (BlockText(json) + (y + q)))
  {
    var u := y + q;
    hide *;
    TitleParts(f);
    AmidParts(y, json);
    OwnParts(q, t, last);
    CutAgain(u, t, last);
    SplitAt(u, t);
    BeyondEnds(u, t, last);
    OpensSame(y, q);
    OpensSame(u, t);
    FrontLow(f, json, u + t, last);
  }

  // ---------------------------------------------------------------------
  // The first verification
  // ---------------------------------------------------------------------

  lemma TitleBounds(x: string)
    ensures TitleEnd(x) <= |x|
    ensures '\n' !in x ==> TitleEnd(x) == |x|
    ensures forall i :: SpanLen(x, NotNewline) <= i < TitleEnd(x) ==> x[i] == '\n'
  {
    hide SpanLen;
    var j := SpanLen(x, NotNewline);
    SpanParts(x, 0, NotNewline);
    assert x[0..] == x;
    SpanParts(x, j, Newline);
    assert j < |x| ==> x[j] in x;
  }

  lemma TitleBreakAt(x: string, i: nat)
    requires i < |x| && x[i] == '\n'
    ensures SpanLen(x, NotNewline) <= i
  {
    hide SpanLen;
    SpanParts(x, 0, NotNewline);
    assert x[0..] == x;
  }

  /** The title does not reach a third-level line. */
  lemma TitleLow(w: string, t: string, k: nat)
    requires k == TitleEnd(w + t) && H3 <= t
    ensures k < |w| + 4
  {
    hide SpanLen;
    var x := w + t;
    assert t[..4] == H3;
    assert x[|w|] == t[0] == '\n' && x[|w| + 1] == t[1] == '#';
    TitleBreakAt(x, |w|);
    TitleBounds(x);
  }

  lemma TitleFront(x: string)
    requires '\n' in x
    ensures var k := TitleEnd(x); 0 < k <= |x| && TitleEnd(x[..k]) == k
    ensures var k := TitleEnd(x); x[k - 1] == '\n' && (k < |x| ==> x[k] != '\n')
  {
    hide SpanLen;
    TitleEndIs(x);
    var k := TitleEnd(x);
    var j := FirstBreak(x);
    var f := x[..k];
    SpanParts(x, j, Newline);
    assert j < k;
    assert forall i :: 0 <= i < k ==> f[i] == x[i];
    assert f[0..] == f;
    SpanIs(f, 0, NotNewline, j);
    SpanIs(f, j, Newline, k);
  }

  /** A section whose block goes behind its title: no status line, and no status mark in the title. */
  predicate BehindTitle(p: Piece, last: bool)
  {
    var x := CompletedText(p, last);
    NoStatusLine(p.head + x) && NoMark(x[..if TitleEnd(x) <= |x| then TitleEnd(x) else |x|], STATUS)
  }

  lemma UntitledStatus(w: string, t: string, k: nat)
    requires Rests(w) && k <= |w + t| && k >= |w|
    ensures !NoMark((w + t)[..k], STATUS)
  {
    hide *;
    MarkShapes();
    RestsMarked(w);
    assert (w + t)[..k] == w + (w + t)[|w|..k];
    if NoMark((w + t)[..k], STATUS) { NoMarkPrefix(w, (w + t)[|w|..k], STATUS); }
  }

  lemma FirstTitle(head: string, id: string, w: string, t: string, last: bool, json: string, k: nat)
    returns (f: string, q: string)
    requires TaskHead(head, id) && Laid(w, t, last) && Plain(w + t) && NoMark(w, BLOCKED) && Rests(w)
    requires k == TitleEnd(w + t) <= |w + t| && NoStatusLine(head + (w + t)) && NoMark((w + t)[..k], STATUS)
    ensures WithBlock(head, w + t, BlockText(json)) == f + (BlockText(json) + ("\n\n" + (q + t)))
    ensures Title(f) && Amid("\n\n", json) && Own(q, t, last) && NoH3("\n\n" + q)
  {
    var x := w + t;
    hide *;
    HeadBare(head, id);
    LaidParts(w, t, last);
    LaidEnd(w, t, last);
    PlainLiteral(x);
    TitleBounds(x);
    if k >= |w| { UntitledStatus(w, t, k); }
    BrokenTitle(x, k, w, t);
    TitlePlace(head, id, x);
    TitleFront(x);
    FirstPlace(head, id, w, t, last);
    if H3 <= t { TitleLow(w, t, k); }
    f, q := x[..k], w[k..];
    FirstFront(w, t, last, k);
    NeatFrom(f);
    var f1, z := WithBlockSides(head, id, x);
    SidesFore(head, id, x, f1, z);
    TitleFrom(f);
    OwnSplit(w, t, k);
    WithBlockAt(head, x, BlockText(json), k);
    BreaksAmid(json);
    RestLow(w, k);
    OwnFrom(head, w, t, last, k);
  }

  lemma BrokenTitle(x: string, k: nat, w: string, t: string)
    requires x == w + t && k < |w| && ('\n' !in x ==> k == |x|)
    ensures '\n' in x
  {
  }

  lemma TitleFrom(f: string)
    requires Neat(f) && Fore(f) && NoMark(f, STATUS) && TitleEnd(f) == |f|
    ensures Title(f)
  {
    hide Neat, NoMark, Run, NoTriple, TitleEnd;
  }

  lemma OwnSplit(w: string, t: string, k: nat)
    requires k < |w|
    ensures (w + t)[k..] == w[k..] + t && (w + t)[..k] == w[..k] && w == w[..k] + w[k..]
    ensures w + t == w[..k] + (w[k..] + t) && w[k..] != ""
  {
  }

  lemma BreaksAmid(json: string)
    ensures Amid("\n\n", json)
  {
    hide NoMark, BlockText;
    BreaksLiteral();
    NothingMarkedStatus();
    NothingUnmarkedBlocked();
    StatusBreaksAhead("");
    BreaksAhead("");
    assert "\n\n" + "" == "\n\n";
  }

  /** The section's own text behind the title. */
  lemma OwnFrom(head: string, w: string, t: string, last: bool, k: nat)
    requires Bare(head) && Laid(w, t, last) && Plain(w + t) && NoMark(w, BLOCKED) && Rests(w) && Literal(w + t)
    requires 0 < k < |w| && w[k - 1] == '\n' && w[k] != '\n' && NoStatusLine(head + (w + t)) && NoMark(w[..k], STATUS)
    requires Neat(w[..k]) && Fore(w[..k])
    ensures Own(w[k..], t, last)
  {
    var f, q := w[..k], w[k..];
    hide *;
    MarkShapes();
    LaidParts(w, t, last);
    OwnSplit(w, t, k);
    NeatParts(f);
    RestsBehind(f, q);
    RestsApart(f, q);
    NoMarkPrefix(f, q, BLOCKED);
    OwnTidied(w, k);
    LiteralSuffix(f, q + t);
    LiteralSplit(q, t);
    SuffixNoTriple(w + t, k);
    LinesOf(head, f, q + t);
    CalmRest(f, q + t);
    OwnText(w, k);
    OwnIs(q, t, last);
  }

  lemma RestsApart(p: string, q: string)
    requires (IsDone(p + q) <==> IsDone(q)) && (Unvalued(p + q) <==> Unvalued(q)) && Rests(p + q)
    ensures Rests(q)
  {
    hide IsDone, Unvalued;
  }

  lemma LiteralSplit(q: string, t: string)
    requires Literal(q + t)
    ensures Literal(q) && Literal(t)
  {
    hide Literal;
    LiteralPart(q + t, 0, |q|);
    LiteralPart(q + t, |q|, |q + t|);
    assert (q + t)[0..|q|] == q && (q + t)[|q|..|q + t|] == t;
  }

  lemma OwnText(w: string, k: nat)
    requires k < |w| && w[k] != '\n'
    ensures w[k..] != "" && w[k..][0] != '\n'
  {
  }

  lemma OwnTidied(w: string, k: nat)
    requires Tidied(w) == w && 0 < k < |w| && w[k - 1] == '\n' && w[k] != '\n' && Neat(w[..k])
    ensures Tidied(w[k..]) == w[k..]
  {
    var f, q := w[..k], w[k..];
    hide *;
    FrontLine(w, k);
    NeatParts(f);
    OwnText(w, k);
    OwnSolid(w, k);
    TidiedSplit(f, q);
    CollapseKeeps(f);
    SameTail(f, q, Tidied(q));
  }

  lemma OwnSolid(w: string, k: nat)
    requires Tidied(w) == w && k < |w|
    ensures Tidied(w[k..]) != ""
  {
    hide *;
    TidiedEnds(w);
    TidyEnd(w);
    EndSame(w, k);
    NotSpaces(w[k..]);
    TidiedNothing(w[k..]);
  }

  lemma EndSame(w: string, k: nat)
    requires k < |w|
    ensures w != "" && w[k..] != "" && w[k..][|w[k..]| - 1] == w[|w| - 1]
  {
  }

  lemma NotSpaces(q: string)
    requires q != "" && !Space(q[|q| - 1])
    ensures !Spaces(q)
  {
  }

  lemma SameTail(f: string, q: string, r: string)
    requires f + q == f + r
    ensures q == r
  {
    assert (f + q)[|f|..] == q && (f + r)[|f|..] == r;
  }

  lemma LinesOf(head: string, f: string, r: string)
    requires NoStatusLine(head + (f + r))
    ensures NoStatusLine(r)
  {
    hide StatusLineLen;
    var s := head + (f + r);
    forall i | 0 <= i <= |r| ensures StatusLineLen(r[i..]).None? {
      assert s[|head| + |f| + i..] == r[i..];
    }
  }

  lemma CalmRest(f: string, y: string)
    requires Fore(f) && Plain(f + y)
    ensures Calm(y)
  {
    hide Next, NoTriple, EndsLine, Calm;
    RunConcat(true, Idle, f, y);
    PlainIsCalm(y);
  }

  lemma OwnIs(q: string, t: string, last: bool)
    requires q != "" && q[0] != '\n' && Tidied(q) == q && Rests(q) && NoMark(q, BLOCKED) && Beyond(t, last)
    requires NoTriple(q + t) && Literal(q) && Literal(t) && NoStatusLine(q + t) && Calm(q + t)
    ensures Own(q, t, last)
  {
    hide Tidied, Rests, NoMark, NoTriple, Literal, NoStatusLine, Calm, Beyond;
  }

  // ---------------------------------------------------------------------
  // On documents
  // ---------------------------------------------------------------------

  /** Task `k` of a document after some verifications, its newest block behind its title. */
  ghost predicate Titled(d: Document, k: nat, id: string, es: seq<Item>, f: string, y: string, q: string, t: string)
  {
    && k < |d.pieces| && Led(d, k, id) && d.pieces[k].body == f + (SerializeBlock(es) + (y + (q + t))) && Title(f)
    && Amid(y, CanonicalList(es)) && Own(q, t, Last(d, k)) && NoH3(y + q)
  }

  lemma TitledParts(d: Document, k: nat, id: string, es: seq<Item>, f: string, y: string, q: string, t: string)
    requires Titled(d, k, id, es, f, y, q, t)
    ensures k < |d.pieces| && Led(d, k, id) && d.pieces[k].body == f + (SerializeBlock(es) + (y + (q + t))) && Title(f)
    ensures Amid(y, CanonicalList(es)) && Own(q, t, Last(d, k)) && NoH3(y + q)
  {
    hide Led, Title, Amid, Own, NoH3;
  }

  lemma TitledFrom(d: Document, k: nat, id: string, es: seq<Item>, f: string, y: string, q: string, t: string)
    requires k < |d.pieces| && Led(d, k, id) && d.pieces[k].body == f + (SerializeBlock(es) + (y + (q + t))) && Title(f)
    requires Amid(y, CanonicalList(es)) && Own(q, t, Last(d, k)) && NoH3(y + q)
    ensures Titled(d, k, id, es, f, y, q, t)
  {
    hide Led, Title, Amid, Own, NoH3;
  }

  lemma LiteralBody(f: string, b: string, y: string, q: string, t: string, last: bool)
    requires Literal(f) && EndsLine(f) && Literal(b) && Literal(y) && EndsLine(y) && y[0] == '\n' && Literal(q)
    requires Literal(t) && Beyond(t, last)
    ensures Literal(f + (b + (y + (q + t))))
  {
    hide Literal, Beyond;
    TailLiteral(q, t, last);
    LiteralPair(y, q + t);
    assert (y + (q + t))[0] == y[0];
    LiteralLines(f, b, y + (q + t));
  }

  /** One more verification. */
  lemma TitledOn(d: Document, k: nat, id: string, es: seq<Item>, isDate: string -> bool, f: string, y: string,
                 q: string, t: string) returns (d': Document, y': string)
    requires Refusal(es, isDate) == None && Literal(SerializeBlock(es)) && FakesHeading(SerializeBlock(es))
    requires NoMark(SerializeBlock(es), STATUS) && Titled(d, k, id, es, f, y, q, t)
    ensures Apply(Render(d), Call(id, es), isDate) == Render(d') && |Render(d')| > |Render(d)|
    ensures Titled(d', k, id, es, f, y', q, t)
  {
    SerializeIs(es);
    hide *;
    TitledParts(d, k, id, es, f, y, q, t);
    TitleParts(f);
    AmidParts(y, CanonicalList(es));
    OwnParts(q, t, Last(d, k));
    ListOpens(es, isDate);
    HeadForms(d, k, id);
    LiteralBody(f, SerializeBlock(es), y, q, t, Last(d, k));
    NextIs(d, k, id);
    LastIs(d, k, id);
    y' := OwnGrows(d.pieces[k].head, id, f, CanonicalList(es), y, q, t, Last(d, k), After(d, k));
    d' := VerifiedAgain(d, k, id, es, isDate, f, y + (q + t));
    LongerAmid(y, y', q + t);
    Longer(f, SerializeBlock(es), y + (q + t), y' + (q + t));
    LongerBody(d, k, f + (SerializeBlock(es) + (y' + (q + t))));
    BodyWith(d, k, f + (SerializeBlock(es) + (y' + (q + t))));
    TitledFrom(d', k, id, es, f, y', q, t);
  }

  lemma LongerAmid(y: string, y': string, r: string)
    requires |y'| > |y|
    ensures |y' + r| > |y + r|
  {
  }

  lemma BehindTitleIs(p: Piece, last: bool, w: string, t: string)
    requires BehindTitle(p, last) && w + t == CompletedText(p, last)
    ensures var k := TitleEnd(w + t); k <= |w + t| && NoStatusLine(p.head + (w + t)) && NoMark((w + t)[..k], STATUS)
  {
    hide CompletedText, NoStatusLine, NoMark, TitleEnd;
    TitleBounds(w + t);
  }

  /** The first verification. */
  lemma TitledFirst(d: Document, k: nat, id: string, es: seq<Item>, isDate: string -> bool)
    returns (d': Document, f: string, y: string, q: string, t: string)
    requires k < |d.pieces| && Served(d, k, id) && Removable(d.pieces[k].body)
    requires Refusal(es, isDate) == None && Literal(SerializeBlock(es))
    requires Settles(d.pieces[k], Last(d, k)) && BehindTitle(d.pieces[k], Last(d, k))
    ensures Apply(Render(d), Call(id, es), isDate) == Render(d') && Titled(d', k, id, es, f, y, q, t)
  {
    hide *;
    var w;
    d', w, t := OnceLaid(d, k, id, es, isDate);
    SettledEnds(d.pieces[k], Last(d, k));
    BehindTitleIs(d.pieces[k], Last(d, k), w, t);
    f, q := FirstTitle(d.pieces[k].head, id, w, t, Last(d, k), CanonicalList(es), TitleEnd(w + t));
    y := "\n\n";
    TitledFrom(d', k, id, es, f, y, q, t);
  }

  lemma {:induction false} RunsTitled(d: Document, k: nat, id: string, es: seq<Item>, isDate: string -> bool, n: nat)
    returns (d': Document, f: string, y: string, q: string, t: string)
    requires k < |d.pieces| && Served(d, k, id) && Removable(d.pieces[k].body) && n > 0
    requires Refusal(es, isDate) == None && Literal(SerializeBlock(es)) && FakesHeading(SerializeBlock(es))
    requires NoMark(SerializeBlock(es), STATUS)
    requires Settles(d.pieces[k], Last(d, k)) && BehindTitle(d.pieces[k], Last(d, k))
    ensures RunCalls(Render(d), Repeated(Call(id, es), n), isDate) == Render(d') && Titled(d', k, id, es, f, y, q, t)
    decreases n
  {
    hide *;
    RunRepeated(Render(d), Call(id, es), n, isDate);
    if n == 1 {
      RunNone(Render(d), Call(id, es), isDate);
      d', f, y, q, t := TitledFirst(d, k, id, es, isDate);
    } else {
      var e, x;
      e, f, x, q, t := RunsTitled(d, k, id, es, isDate, n - 1);
      d', y := TitledOn(e, k, id, es, isDate, f, x, q, t);
    }
  }

  /**
   Nor is it at rest where the block goes behind the title, if it spells no status mark: every application after
   the first makes the document longer.
   */
  lemma GrowsBehindTitle(d: Document, k: nat, id: string, es: seq<Item>, isDate: string -> bool, n: nat)
    requires k < |d.pieces| && Served(d, k, id) && Removable(d.pieces[k].body) && n > 0
    requires Refusal(es, isDate) == None && Literal(SerializeBlock(es)) && FakesHeading(SerializeBlock(es))
    requires NoMark(SerializeBlock(es), STATUS)
    requires Settles(d.pieces[k], Last(d, k)) && BehindTitle(d.pieces[k], Last(d, k))
    ensures var c := Call(id, es);
            |RunCalls(Render(d), Repeated(c, n + 1), isDate)| > |RunCalls(Render(d), Repeated(c, n), isDate)|
  {
    hide *;
    var d', f, y, q, t := RunsTitled(d, k, id, es, isDate, n);
    RunRepeated(Render(d), Call(id, es), n + 1, isDate);
    var e, x := TitledOn(d', k, id, es, isDate, f, y, q, t);
  }
}
