/**
 A section that its own block cuts short, because the block opens a section: what another verification does there.
 */
module Cutting {
  import opened Text
  import opened Markdown
  import opened Evidence
  import opened Splicing
  import opened Verification
  import opened Documents
  import opened Sections
  import opened SectionEdits
  import opened Blocks
  import opened Completion
  import opened BlockEnds
  import opened Ledger
  import opened Tidy
  import opened Markers
  import opened DoneLines
  import opened Completing
  import opened Reinserting
  import opened Reapplying

  // ---------------------------------------------------------------------
  // Where the section ends
  // ---------------------------------------------------------------------

  /** Whole lines without the header of a block and without a heading. */
  predicate Fore(f: string)
  {
    EndsLine(f) && Run(true, Idle, f) == Idle && NoTriple(f)
  }

  lemma NothingInFore(f: string, y: string, i: nat)
    requires Fore(f) && i < |f|
    ensures !Boundary((f + y)[i..]) && !(VERIFICATION_BLOCK_HEADER <= (f + y)[i..])
  {
    hide Run, Boundary, VERIFICATION_BLOCK_HEADER, NoTriple;
    Loosen(Idle, f);
    NoHeadingInCalm(f, y, i);
    NoHeaderAhead(Idle, f, i, y);
    assert (f + y)[i..] == f[i..] + y;
  }

  /** The section ends inside the block, before its closing fence. */
  lemma EndsInBlock(f: string, json: string, z: string) returns (m: nat)
    requires Fore(f) && ListLine(json) && FakesHeading(BlockText(json))
    ensures m + |CLOSE| <= |BlockText(json)| && SectionRest(f + (BlockText(json) + z)) == |f| + m
  {
    var b := BlockText(json);
    var rest := f + (b + z);
    hide Boundary, Run, Fenced, BlockText, SectionRest, LineStart, NoBreak, NoTriple, Fore, CLOSE;
    BlockFenced(json);
    var j :| 0 < j < |b| && LineTerm(b[j - 1]) && Boundary(b[j..]);
    BoundaryAtBlock(f, b, z, j);
    RestHits(rest);
    var q := SectionRest(rest);
    if q < |f| { NothingInFore(f, b + z, q); }
    m := q - |f|;
    BoundaryAtBlock(f, b, z, m);
    HashNotInClose(json, m);
  }

  lemma BoundaryAtBlock(f: string, b: string, z: string, j: nat)
    requires Fenced(b) && j < |b|
    ensures var rest := f + (b + z);
            && (Boundary(rest[|f| + j..]) <==> Boundary(b[j..]))
            && (0 < j && LineTerm(b[j - 1]) ==> LineStart(rest, |f| + j))
  {
    hide Boundary, Fenced;
    var rest := f + (b + z);
    assert rest[|f| + j..] == b[j..] + z;
    FencedTail(b, j);
    BoundaryFenced(b[j..], z);
    assert j > 0 ==> rest[|f| + j - 1] == b[j - 1];
  }

  /** Behind whole lines the section always reaches the end of them. */
  lemma ReachesFore(f: string, y: string)
    requires Fore(f)
    ensures SectionRest(f + y) >= |f|
  {
    hide Boundary, SectionRest, LineStart, Fore;
    var q := SectionRest(f + y);
    RestHits(f + y);
    if q < |f| { NothingInFore(f, y, q); }
  }

  /** A section ends at the next piece at the latest. */
  lemma StopsAtNext(c: string, next: string)
    requires next == "" || (EndsLine(c) && Boundary(next))
    ensures SectionRest(c + next) <= |c|
  {
    hide Boundary, SectionRest;
    RestHits(c + next);
    if next != "" {
      assert (c + next)[|c|..] == next;
      assert (c + next)[|c| - 1] == c[|c| - 1];
    }
  }

  // ---------------------------------------------------------------------
  // Nothing to remove
  // ---------------------------------------------------------------------

  /** The removal pattern spans two line breaks behind its header, as the read pattern does. */
  lemma RemovalBreaks(x: string) returns (q: nat, t: nat, u: nat)
    requires BlockLen(x).Some?
    ensures q <= |x| && VERIFICATION_BLOCK_HEADER <= x[q..]
    ensures q + |VERIFICATION_BLOCK_HEADER| + 1 + |FENCE| <= t <= u < |x| && x[t - 1] == '\n' && x[u] == '\n'
  {
    hide VERIFICATION_BLOCK_HEADER, FENCE, CLOSE;
    FenceEnds();
    q := SpanLen(x, Newline);
    var h := q + |VERIFICATION_BLOCK_HEADER|;
    var n := SpanLen(x[h..], Newline);
    t := h + n + |FENCE|;
    u := Find(x, CLOSE, t);
    assert x[t - 1] == x[h + n..][|FENCE| - 1];
    assert x[u..u + |CLOSE|][0] == x[u];
  }

  lemma {:induction false} NothingMatches(s: string)
    requires forall i :: 0 <= i < |s| ==> BlockLen(s[i..]) == None
    ensures RemoveBlocks(s) == s
    decreases |s|
  {
    hide BlockLen;
    if s != "" {
      assert s[0..] == s;
      forall i | 0 <= i < |s[1..]| ensures BlockLen(s[1..][i..]) == None {
        assert s[1..][i..] == s[i + 1..];
      }
      NothingMatches(s[1..]);
      assert s == s[..1] + s[1..];
    }
  }

  lemma NoMatchInFront(f: string, json: string, m: nat, i: nat)
    requires Fore(f) && NoBreak(json) && m + |CLOSE| <= |BlockText(json)| && i < |f| + m
    ensures BlockLen((f + BlockText(json)[..m])[i..]) == None
  {
    hide BlockText, BlockLen, NoBreak, VERIFICATION_BLOCK_HEADER, FENCE, CLOSE, Fore;
    var s := f + BlockText(json)[..m];
    var x := s[i..];
    if BlockLen(x).Some? {
      var q, t, u := RemovalBreaks(x);
      assert x[q..] == s[i + q..];
      if i + q < |f| {
        NothingInFore(f, BlockText(json)[..m], i + q);
      } else {
        assert x[t - 1] == BlockText(json)[i + t - 1 - |f|] && x[u] == BlockText(json)[i + u - |f|];
        BlockBreaks(json, i + t - 1 - |f|);
        BlockBreaks(json, i + u - |f|);
        FenceEnds();
      }
      assert false;
    }
  }

  lemma BlockNoTriple(json: string)
    requires NoBreak(json)
    ensures NoTriple(BlockText(json)) && BlockText(json)[0] == '*'
  {
    hide VERIFICATION_BLOCK_HEADER, FENCE, CLOSE, NoBreak;
    Shapes();
    FenceEnds();
    CloseChars();
    var b := BlockText(json);
    var n := |VERIFICATION_BLOCK_HEADER| + 2;
    assert b[n] == FENCE[0];
    assert forall i :: 0 <= i < n - 2 ==> b[i] == VERIFICATION_BLOCK_HEADER[i];
    BlockSize(json);
    CloseBreaks();
    assert b[|b| - 3] == CLOSE[1] && b[|b| - 2] == CLOSE[2] && b[|b| - 1] == CLOSE[3];
    forall i | 0 <= i < |b| - 2 ensures !(b[i] == '\n' && b[i + 1] == '\n' && b[i + 2] == '\n') {
      if i + |CLOSE| < |b| { BlockBreaks(json, i); }
      if i + 1 + |CLOSE| < |b| { BlockBreaks(json, i + 1); }
    }
  }

  lemma CloseBreaks()
    ensures |CLOSE| == 4 && CLOSE[1] == CLOSE[2] == CLOSE[3] == '`' && |FENCE| > 1
  {
  }

  /** From a section that ends inside its block nothing is removed. */
  lemma CutKept(head: string, f: string, json: string, m: nat)
    requires Bare(head) && Fore(f) && NoBreak(json) && m + |CLOSE| <= |BlockText(json)|
    ensures WithoutBlocks(head + (f + BlockText(json)[..m])) == head + (f + BlockText(json)[..m])
  {
    var b := BlockText(json)[..m];
    hide BlockText, BlockLen, NoBreak, RemoveBlocks, Collapse, CLOSE, NoTriple, Bare, Run;
    forall i | 0 <= i < |f + b| ensures BlockLen((f + b)[i..]) == None {
      NoMatchInFront(f, json, m, i);
    }
    NothingMatches(f + b);
    BareEnds(head);
    HeadNoStar(head);
    RemoveHead(head, f + b);
    BlockNoTriple(json);
    NoTriplePrefix(BlockText(json), m);
    NoTripleLines(f, b);
    CollapseKeeps(f + b);
    CollapseHead(head, f + b);
  }

  lemma HeadNoStar(head: string)
    requires Bare(head)
    ensures forall i :: 0 <= i < |head| ==> head[i] != '\n' && head[i] != '*'
  {
  }

  lemma NoTripleLines(f: string, y: string)
    requires NoTriple(f) && NoTriple(y) && (y == "" || y[0] != '\n')
    ensures NoTriple(f + y)
  {
    var x := f + y;
    forall i | 0 <= i < |x| - 2 ensures !(x[i] == '\n' && x[i + 1] == '\n' && x[i + 2] == '\n') {
      if i + 2 < |f| {
        assert !(f[i] == '\n' && f[i + 1] == '\n' && f[i + 2] == '\n');
      } else if i >= |f| {
        assert !(y[i - |f|] == '\n' && y[i - |f| + 1] == '\n' && y[i - |f| + 2] == '\n');
      } else {
        assert x[|f|] == y[0];
      }
    }
  }

  // ---------------------------------------------------------------------
  // What completion leaves literal
  // ---------------------------------------------------------------------

  lemma TicksLiteral(x: string, y: string)
    requires Literal(x) && Ticks(x, y)
    ensures Literal(y)
  {
    forall i | 0 <= i < |y| - 1 && y[i] == '$' ensures !PatternEnd(y[i + 1]) {
      assert x[i] == '$' && (x[i + 1] == y[i + 1] || y[i + 1] == 'x');
    }
  }

  lemma {:induction false} CollapseLiteral(x: string)
    requires Literal(x)
    ensures Literal(Collapse(x))
    decreases |x|
  {
    hide Collapse;
    if x == "" {
      NothingCollapses();
    } else {
      var k, front := CollapseStep(x);
      LiteralPart(x, k, |x|);
      assert x[k..|x|] == x[k..];
      CollapseLiteral(x[k..]);
      StepLiteral(x, k, front);
    }
  }

  lemma StepLiteral(x: string, k: nat, front: string)
    requires Literal(x) && 0 < k <= |x| && Literal(Collapse(x[k..]))
    requires (|front| == 1 && k == 1 && front[0] == x[0]) || AllBreaks(front)
    ensures Literal(front + Collapse(x[k..]))
  {
    hide Collapse;
    var c := Collapse(x[k..]);
    var y := front + c;
    if c != "" && c[0] != '\n' {
      CollapseFront(x[k..], 1);
      assert x[k..][..1][0] == c[..1][0];
    }
    forall i | 0 <= i < |y| - 1 && y[i] == '$' ensures !PatternEnd(y[i + 1]) {
      if i >= |front| {
        assert y[i] == c[i - |front|] && y[i + 1] == c[i + 1 - |front|];
      }
    }
  }

  lemma DropLiteral(s: string)
    requires Literal(s)
    ensures Literal(DropBlocked(s))
  {
    hide Marked, DropBlocked, NoMark, BlockedLineLen;
    if NoMark(s, BLOCKED) {
      NothingToDrop(s);
    } else {
      var start, p, end := DropParts(s);
      LiteralPart(s, 0, start);
      LiteralPart(s, end, |s|);
      assert s[0..start] == s[..start] && s[end..|s|] == s[end..];
      LiteralConcat(s[..start], "\n");
      LiteralConcat(s[..start] + "\n", s[end..]);
    }
  }

  lemma TidiedLiteral(x: string)
    requires Literal(x)
    ensures Literal(Tidied(x))
  {
    hide Collapse, CheckAll, Literal, Ticks;
    var c := Collapse(x);
    CollapseLiteral(x);
    LiteralPart(c, 0, |TrimEnd(c)|);
    assert c[0..|TrimEnd(c)|] == TrimEnd(c);
    CheckAllTicks(TrimEnd(c));
    TicksLiteral(TrimEnd(c), CheckAll(TrimEnd(c)));
  }

  lemma StoodLiteral(a: string, b: string)
    requires Literal(a) && Literal(b) && (b == "" || LineTerm(b[0]))
    ensures Literal(Stood(a, b))
  {
    hide Literal;
    DoneShape();
    DoneOnlyLiteral();
    LiteralConcat(a, DONE_LINE);
    LiteralConcat(a + DONE_LINE, b);
  }

  lemma DoneOnlyLiteral()
    ensures Literal(DONE_LINE) && DONE_LINE[0] == '*' && !PatternEnd('*') && DONE_LINE[15] == 'e'
  {
  }

  lemma DoneLiteral(head: string, u: string)
    requires Bare(head) && Literal(u)
    ensures Literal(WithDone(DonePlace(head, u), u))
  {
    hide *;
    var s := head + u;
    SetDoneIs(head, u);
    match DonePlace(head, u)
    case Kept => KeptIs(u);
    case Between(a, b) =>
      if First(0, |s|, StatusMarkAt(s)) == -1 {
        var k := TitleSides(head, u);
        SidesLiteral(u, match k case Some(n) => n case None => |u|);
      } else {
        var k, n := ValueSides(head, u);
        LiteralPart(u, 0, k);
        LiteralPart(u, k + n, |u|);
        WholePart(u, k, k + n);
      }
      StandingOpens(a, b);
      StoodLiteral(a, b);
      BetweenIs(a, b, u);
  }

  lemma KeptIs(u: string)
    ensures WithDone(Kept, u) == u
  {
  }

  lemma BetweenIs(a: string, b: string, u: string)
    ensures WithDone(Between(a, b), u) == Stood(a, b)
  {
  }

  lemma WholePart(u: string, i: nat, j: nat)
    requires i <= j <= |u|
    ensures u[0..i] == u[..i] && u[j..|u|] == u[j..]
  {
  }

  lemma StandingOpens(a: string, b: string)
    requires Standing(a, b)
    ensures b == "" || LineTerm(b[0])
  {
    hide NoMark;
  }

  lemma SidesLiteral(u: string, k: nat)
    requires Literal(u) && k <= |u|
    ensures Literal(u[..k]) && Literal("\n\n" + u[k..]) && Literal(u + "\n") && Literal("\n")
  {
    hide Literal;
    LiteralPart(u, 0, k);
    LiteralPart(u, k, |u|);
    WholePart(u, k, k);
    BreaksLiteral();
    LiteralConcat("\n\n", u[k..]);
    LiteralConcat(u, "\n");
  }

  lemma BreaksLiteral()
    ensures Literal("\n") && Literal("\n\n") && !PatternEnd('\n')
  {
  }

  /** Completing literal text leaves literal text. */
  lemma EndedLiteral(head: string, u: string)
    requires Bare(head) && Literal(u)
    ensures Literal(Ended(head, u))
  {
    hide DonePlace, WithDone, DropBlocked, Tidied, Literal;
    DoneLiteral(head, u);
    DropLiteral(WithDone(DonePlace(head, u), u));
    TidiedLiteral(DropBlocked(WithDone(DonePlace(head, u), u)));
  }

  // ---------------------------------------------------------------------
  // Another verification
  // ---------------------------------------------------------------------

  /** An edit of what completion sees of a task that nothing before its piece is taken for. */
  lemma FrontEdit(d: Document, k: nat, id: string, f: string -> string, u: string, t: string, v: string)
    requires k < |d.pieces| && Led(d, k, id) && d.pieces[k].body == u + t
    requires NoH3(u) && Beyond(t, Last(d, k)) && f(d.pieces[k].head + u) == d.pieces[k].head + v
    ensures var d' := WithBody(d, k, v + t); OnRegion(Render(d), id, f) == Render(d') && Led(d', k, id)
  {
    hide *;
    CutAgain(u, t, Last(d, k));
    SplitAt(u, t);
    RegionStep(d, k, id, f, v);
    BeyondEnds(v, t, Last(d, k));
    LedParts(d, k, id);
    if !Last(d, k) { PieceEnds(d, k); }
    LedWith(d, k, id, v + t);
  }

  lemma BeyondEnds(v: string, t: string, last: bool)
    requires Beyond(t, last)
    ensures last || EndsLine(v + t)
  {
    if !last { assert (v + t)[|v + t| - 1] == t[|t| - 1]; }
  }

  /** Completing such a task rewrites its own piece, whatever sections open in it. */
  lemma CompletesLed(d: Document, k: nat, id: string, u: string, t: string)
    requires k < |d.pieces| && Led(d, k, id) && d.pieces[k].body == u + t
    requires Literal(u) && NoH3(u) && Beyond(t, Last(d, k))
    ensures var d' := WithBody(d, k, Completed(d.pieces[k].head, u + t, Last(d, k)));
            CompleteTask(Render(d), id) == Render(d') && Led(d', k, id)
    ensures Completed(d.pieces[k].head, u + t, Last(d, k)) == Ended(d.pieces[k].head, u) + t
  {
    hide *;
    var head, last := d.pieces[k].head, Last(d, k);
    var v := WithDone(DonePlace(head, u), u);
    var w := TrimEnd(Collapse(DropBlocked(v)));
    var e := Ended(head, u);
    var d1, d2, d3 := WithBody(d, k, v + t), WithBody(d, k, w + t), WithBody(d, k, e + t);
    LedParts(d, k, id);
    HeadBare(head, id);
    SetDoneIs(head, u);
    FrontIs(head, u);
    DropLow(v);
    TrimLow(DropBlocked(v));
    CompletedIs(head, u, t, last);
    FrontEdit(d, k, id, SetDone, u, t, v);
    BodyWith(d, k, v + t);
    FrontEdit(d1, k, id, ClearBlocked, v, t, w);
    WithTwice(d, k, v + t, w + t);
    BodyWith(d, k, w + t);
    FrontEdit(d2, k, id, CheckAll, w, t, e);
    WithTwice(d, k, w + t, e + t);
    CompleteUnfolds(Render(d), id, Render(d1), Render(d2), Render(d3));
  }

  lemma CompleteUnfolds(s: string, id: string, s1: string, s2: string, s3: string)
    requires OnRegion(s, id, SetDone) == s1 && OnRegion(s1, id, ClearBlocked) == s2 && OnRegion(s2, id, CheckAll) == s3
    ensures CompleteTask(s, id) == s3
  {
    hide OnRegion;
  }

  /** A task's text after another verification: `next` is what follows its piece. */
  function Again(head: string, body: string, next: string, last: bool, block: string): string
  {
    var c := Completed(head, body, last);
    var n := SectionRest(c + next);
    if n <= |c| then WithBlock(head, c[..n], block) + c[n..] else c
  }

  lemma AgainIs(head: string, body: string, next: string, last: bool, block: string, c: string, n: nat)
    requires c == Completed(head, body, last) && n == SectionRest(c + next) <= |c|
    ensures Again(head, body, next, last, block) == WithBlock(head, c[..n], block) + c[n..]
  {
    hide Completed, SectionRest, WithBlock;
  }

  /** Nothing is removed from a piece whose block cuts its section short. */
  lemma RemovesNothing(d: Document, k: nat, id: string, f: string, json: string, z: string)
    requires k < |d.pieces| && Led(d, k, id) && d.pieces[k].body == f + (BlockText(json) + z)
    requires Fore(f) && ListLine(json) && FakesHeading(BlockText(json))
    ensures MapTaskSection(Render(d), id, WithoutBlocks) == Render(d) && FindHeader(Render(d), id) != -1
  {
    hide *;
    var p, b := d.pieces[k], BlockText(json);
    LedParts(d, k, id);
    HeadBare(p.head, id);
    LineUnbroken(json);
    var m := EndsInBlock(f, json, z + After(d, k));
    CutParts(f, b, z, After(d, k), m);
    CutKept(p.head, f, json, m);
    MapFront(d, k, id, WithoutBlocks, |f| + m, f + b[..m]);
    SameBody(d, k);
  }

  lemma CutParts(f: string, b: string, z: string, next: string, m: nat)
    requires m <= |b|
    ensures var body := f + (b + z);
            && body + next == f + (b + (z + next)) && |f| + m <= |body| && body[..|f| + m] == f + b[..m]
            && f + b[..m] + body[|f| + m..] == body
  {
    var body := f + (b + z);
    assert body[..|f| + m] == f + b[..m];
  }

  lemma SameBody(d: Document, k: nat)
    requires k < |d.pieces|
    ensures WithBody(d, k, d.pieces[k].body) == d
  {
    assert d.pieces[k := d.pieces[k].(body := d.pieces[k].body)] == d.pieces;
  }

  lemma NextIs(d: Document, k: nat, id: string)
    requires k < |d.pieces| && Led(d, k, id)
    ensures After(d, k) == "" || (EndsLine(d.pieces[k].body) && Boundary(After(d, k)))
  {
    hide *;
    LedParts(d, k, id);
    TaskFacts(d, k, id);
    NextFrom(d, k);
  }

  lemma NextFrom(d: Document, k: nat)
    requires k < |d.pieces|
    requires After(d, k) == "" <==> Last(d, k)
    requires !Last(d, k) ==> EndsLine(d.pieces[k].body) && Boundary(After(d, k))
    ensures After(d, k) == "" || (EndsLine(d.pieces[k].body) && Boundary(After(d, k)))
  {
    hide Boundary;
  }

  lemma WithBlockEnds(head: string, x: string, block: string, rest: string)
    requires EndsLine(x + rest)
    ensures EndsLine(WithBlock(head, x, block) + rest)
  {
    hide BlockPlace;
    var y := WithBlock(head, x, block) + rest;
    if rest != "" {
      assert y[|y| - 1] == rest[|rest| - 1] == (x + rest)[|x + rest| - 1];
    } else {
      assert x + rest == x && y == WithBlock(head, x, block);
      match BlockPlace(head, x)
      case None => assert y[|y| - 1] == '\n';
      case Some(k) =>
        if k <= |x| {
          assert y[|y| - 1] == ("\n\n" + x[k..])[|x| - k + 1];
        }
    }
  }

  /** Putting the block into a piece, where the section that the search finds in it ends early or not. */
  lemma InsertsAgain(d: Document, k: nat, id: string, block: string, n: nat)
    requires k < |d.pieces| && Led(d, k, id) && Literal(d.pieces[k].body) && Literal(block)
    requires n == SectionRest(d.pieces[k].body + After(d, k)) <= |d.pieces[k].body|
    ensures var c := d.pieces[k].body;
            var d' := WithBody(d, k, WithBlock(d.pieces[k].head, c[..n], block) + c[n..]);
            MapTaskSection(Render(d), id, Inserter(block)) == Render(d') && Led(d', k, id)
  {
    hide *;
    var head, c := d.pieces[k].head, d.pieces[k].body;
    HeadForms(d, k, id);
    InsertsText(head, id, c, n, block);
    MapFront(d, k, id, Inserter(block), n, WithBlock(head, c[..n], block));
    if !Last(d, k) { WithBlockEnds(head, c[..n], block, c[n..]); }
    LedWith(d, k, id, WithBlock(head, c[..n], block) + c[n..]);
  }

  lemma InsertsText(head: string, id: string, c: string, n: nat, block: string)
    requires TaskHead(head, id) && Literal(c) && Literal(block) && n <= |c|
    ensures Inserter(block)(head + c[..n]) == head + WithBlock(head, c[..n], block) && c[..n] + c[n..] == c
  {
    hide TaskHead, Literal, InsertBlock, WithBlock;
    LiteralPart(c, 0, n);
    WholePart(c, n, n);
    InsertIs(head, id, c[..n], block);
    assert c[..n] + c[n..] == c;
  }

  /** Another verification of a task whose block cuts its section short, as an edit of its piece. */
  lemma VerifiedAgain(d: Document, k: nat, id: string, es: seq<Item>, isDate: string -> bool, f: string, z: string)
    returns (d': Document)
    requires k < |d.pieces| && Led(d, k, id) && d.pieces[k].body == f + (SerializeBlock(es) + z)
    requires Fore(f) && Literal(d.pieces[k].body)
    requires Refusal(es, isDate) == None && Literal(SerializeBlock(es)) && FakesHeading(SerializeBlock(es))
    ensures var p := d.pieces[k];
            && d' == WithBody(d, k, Again(p.head, p.body, After(d, k), Last(d, k), SerializeBlock(es)))
            && Apply(Render(d), Call(id, es), isDate) == Render(d') && Led(d', k, id)
    ensures var c := Completed(d.pieces[k].head, d.pieces[k].body, Last(d, k)); SectionRest(c + After(d, k)) <= |c|
  {
    hide *;
    var p, last, block := d.pieces[k], Last(d, k), SerializeBlock(es);
    var u, t := p.body[..Cut(p.body, last)], p.body[Cut(p.body, last)..];
    var c := Completed(p.head, p.body, last);
    var d2 := WithBody(d, k, c);
    SerializeIs(es);
    AcceptedLine(es, isDate);
    RemovesNothing(d, k, id, f, CanonicalList(es), z);
    HeadForms(d, k, id);
    FrontAndTail(p.body, last);
    CompletesLed(d, k, id, u, t);
    BodyWith(d, k, c);
    EndedLiteral(p.head, u);
    TailLiteral(Ended(p.head, u), t, last);
    NextIs(d2, k, id);
    StopsAtNext(c, After(d, k));
    var n := SectionRest(c + After(d, k));
    InsertsAgain(d2, k, id, block, n);
    AgainIs(p.head, p.body, After(d, k), last, block, c, n);
    WithTwice(d, k, c, Again(p.head, p.body, After(d, k), last, block));
    d' := WithBody(d, k, Again(p.head, p.body, After(d, k), last, block));
    Unfold(d, k, id, es, isDate, Render(d), Render(d2));
    AppliedIs(Render(d), id, es, isDate, Render(d'));
  }

  lemma FrontAndTail(body: string, last: bool)
    requires Literal(body) && (last || EndsLine(body))
    ensures var u, t := body[..Cut(body, last)], body[Cut(body, last)..];
            body == u + t && NoH3(u) && Beyond(t, last) && Literal(u) && Literal(t)
  {
    hide Literal, Cut, NoH3, Beyond, EndsLine;
    var n := Cut(body, last);
    CutSplits(body, last);
    LiteralPart(body, 0, n);
    LiteralPart(body, n, |body|);
    WholePart(body, n, n);
    WholeCut(body, n);
  }

  lemma WholeCut(x: string, n: nat)
    requires n <= |x|
    ensures x == x[..n] + x[n..]
  {
  }

  lemma HeadForms(d: Document, k: nat, id: string)
    requires Led(d, k, id)
    ensures k < |d.pieces| && Bare(d.pieces[k].head) && TaskHead(d.pieces[k].head, id)
    ensures Last(d, k) || EndsLine(d.pieces[k].body)
  {
    hide *;
    LedParts(d, k, id);
    HeadBare(d.pieces[k].head, id);
    PieceEnds(d, k);
  }

  lemma TailLiteral(e: string, t: string, last: bool)
    requires Literal(e) && Literal(t) && Beyond(t, last)
    ensures Literal(e + t)
  {
    hide Literal, Beyond;
    if t != "" { OpensBreak(t, last); }
    LiteralConcat(e, t);
  }
}
