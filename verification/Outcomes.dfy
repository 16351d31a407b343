/**
 What completing a task leaves behind, exactly: a done line or none, a blocked marker or none, and
 whether completing again would change anything.
 */
module Outcomes {
  import opened Text
  import opened Markdown
  import opened Documents
  import opened Sections
  import opened SectionEdits
  import opened Blocks
  import opened Completion
  import opened Tidy
  import opened Markers
  import opened DoneLines
  import opened Completing

  // ---------------------------------------------------------------------
  // Counting markers on both sides of a done line
  // ---------------------------------------------------------------------

  lemma StarsCount()
    ensures MarkerCount("**") == 0 && !Marked("**", BLOCKED) && MarkerCount("") == 0
  {
    MarkShapes();
    assert "**"[1..] == "*" && "*"[1..] == "";
    assert !Marked("*", BLOCKED);
  }

  lemma {:induction false} CountStood(a: string, b: string)
    requires b == "" || LineTerm(b[0])
    ensures MarkerCount(Stood(a, b)) == MarkerCount(a + "**") + MarkerCount(b)
    decreases |a|
  {
    hide Marked, MarkerCount, BlockedLineLen, DONE_LINE, RunsOut;
    var x, y := a + "**", Stood(a, b);
    StoodChars(a, b);
    StoodMarkers(a, b, 0);
    assert x[0..] == x && y[0..] == y;
    if a == "" {
      StarsCount();
      assert x == "**";
      forall i | 0 <= i < 16 ensures !Marked(y[i..], BLOCKED) {
        StoodMarkers(a, b, i);
        if Marked(y[i..], BLOCKED) { MarkStar(x[i..]); }
      }
      CountFrom(y, 16);
    } else if !Marked(x, BLOCKED) {
      CountOn(x);
      CountOn(y);
      assert x[1..] == a[1..] + "**";
      StoodTail(a, b, 1);
      CountStood(a[1..], b);
    } else {
      CountMatch(a, b);
      if BlockedLineLen(x) <= |a| { CountStood(a[BlockedLineLen(x)..], b); }
    }
  }

  lemma StoodTail(a: string, b: string, k: nat)
    requires k <= |a|
    ensures Stood(a, b)[k..] == Stood(a[k..], b) && (a + "**")[k..] == a[k..] + "**"
  {
    hide DONE_LINE;
  }

  lemma FrontMarker(a: string)
    requires Marked(a + "**", BLOCKED)
    ensures var x := a + "**"; FirstMarker(x, 0, 0, BlockedLineLen(x)) && 12 <= BlockedLineLen(x)
  {
    hide Marked, BlockedLineLen;
    assert (a + "**")[0..] == a + "**";
    MatchSize(a + "**");
  }

  /** One match at the front: it ends before the done line, or takes it. */
  lemma CountMatch(a: string, b: string)
    requires (b == "" || LineTerm(b[0])) && Marked(a + "**", BLOCKED)
    ensures var n := BlockedLineLen(a + "**");
            && (n <= |a| ==> MarkerCount(a + "**") == 1 + MarkerCount(a[n..] + "**")
                             && MarkerCount(Stood(a, b)) == 1 + MarkerCount(Stood(a[n..], b)))
            && (n > |a| ==> MarkerCount(a + "**") == 1 && MarkerCount(Stood(a, b)) == 1 + MarkerCount(b))
  {
    hide *;
    FrontMarker(a);
    TakesIs(a, 0, 0, BlockedLineLen(a + "**"));
    if BlockedLineLen(a + "**") <= |a| { CountBefore(a, b); } else { CountThrough(a, b); }
  }

  lemma CountBefore(a: string, b: string)
    requires Marked(a + "**", BLOCKED) && BlockedLineLen(a + "**") <= |a|
    ensures var n := BlockedLineLen(a + "**");
            MarkerCount(a + "**") == 1 + MarkerCount(a[n..] + "**")
            && MarkerCount(Stood(a, b)) == 1 + MarkerCount(Stood(a[n..], b))
  {
    hide Marked, MarkerCount, BlockedLineLen, DONE_LINE, RunsOut, Stood;
    var x, y := a + "**", Stood(a, b);
    var n := BlockedLineLen(x);
    FrontMarker(a);
    BeforeMarker(a, b, 0, 0, n);
    assert y[0..] == y;
    CountAt(x);
    CountAt(y);
    StoodTail(a, b, n);
  }

  lemma CountThrough(a: string, b: string)
    requires (b == "" || LineTerm(b[0])) && Marked(a + "**", BLOCKED) && BlockedLineLen(a + "**") == |a| + 2
    ensures MarkerCount(a + "**") == 1 && MarkerCount(Stood(a, b)) == 1 + MarkerCount(b)
  {
    hide Marked, MarkerCount, BlockedLineLen, DONE_LINE, RunsOut, Stood, Parts, SpanLen;
    var x, y := a + "**", Stood(a, b);
    FrontMarker(a);
    MarkStar(x);
    assert x[0..] == x && y[0..] == y;
    StoodMarkers(a, b, 0);
    CountAt(x);
    CountAt(y);
    var w, e := MatchParts(x);
    ThroughParts(a, b, 0, w, e, SpanLen(b, Newline));
    StoodChars(a, b);
    StarsCount();
    BreaksCount(b);
    assert x[|x|..] == "";
    assert y[|a| + 16 + SpanLen(b, Newline)..] == b[SpanLen(b, Newline)..];
  }

  lemma BreaksCount(b: string)
    ensures MarkerCount(b) == MarkerCount(b[SpanLen(b, Newline)..])
  {
    hide MarkerCount, RunsOut, Marked;
    BreaksAre(b, SpanLen(b, Newline));
    forall i | 0 <= i < SpanLen(b, Newline) ensures !Marked(b[i..], BLOCKED) { UnmarkedStart(b[i..]); }
    CountFrom(b, SpanLen(b, Newline));
  }

  lemma CountTidied(x: string)
    ensures MarkerCount(Tidied(x)) == MarkerCount(x)
  {
    hide MarkerCount, RunsOut, Collapse, TrimEnd, CheckAll, Ticked;
    CountCollapse(x);
    CountTrim(Collapse(x));
    CheckAllTicked(TrimEnd(Collapse(x)));
    CountTicked(TrimEnd(Collapse(x)), CheckAll(TrimEnd(Collapse(x))));
  }

  // ---------------------------------------------------------------------
  // Done lines and status marks without a value
  // ---------------------------------------------------------------------

  /** A done line stands at `i`. */
  predicate DoneAt(x: string, i: nat)
  {
    i + 16 <= |x| && x[i..i + 16] == DONE_LINE && (i + 16 == |x| || LineTerm(x[i + 16]))
  }

  /** The first status mark of `x` is a done line. */
  predicate IsDone(x: string)
  {
    var i := First(0, |x|, StatusMarkAt(x));
    0 <= i && DoneAt(x, i)
  }

  /** `x` has status marks, but none with a value. */
  predicate Unvalued(x: string)
  {
    First(0, |x|, StatusMarkAt(x)) != -1 && First(0, |x|, StatusValueAt(x)) == -1
  }

  /** Setting the status changes nothing. */
  predicate Rests(x: string)
  {
    IsDone(x) || Unvalued(x)
  }

  lemma MarkAtIs(x: string, i: nat)
    requires i <= |x|
    ensures StatusMarkAt(x)(i) <==> Marked(x[i..], STATUS)
  {
    hide Marked, STATUS;
    assert From(x, i) == x[i..];
  }

  lemma FirstMarkIs(x: string, i: nat)
    requires i <= |x| && Marked(x[i..], STATUS) && forall k: nat :: k < i ==> !Marked(x[k..], STATUS)
    ensures First(0, |x|, StatusMarkAt(x)) == i
  {
    hide *;
    forall k: nat | k < i ensures !StatusMarkAt(x)(k) {
      MarkAtIs(x, k);
    }
    MarkAtIs(x, i);
    FirstIs(|x|, StatusMarkAt(x), i);
  }

  lemma NoFirst(x: string)
    ensures First(0, |x|, StatusMarkAt(x)) == -1 <==> NoMark(x, STATUS)
  {
    hide Marked, First, STATUS;
    var i := First(0, |x|, StatusMarkAt(x));
    if i == -1 {
      forall k | 0 <= k <= |x| ensures !Marked(x[k..], STATUS) {
        assert !StatusMarkAt(x)(k) && From(x, k) == x[k..];
      }
    } else {
      assert StatusMarkAt(x)(i) && From(x, i) == x[i..];
    }
  }

  lemma StoodIsDone(a: string, b: string)
    requires Standing(a, b)
    ensures IsDone(Stood(a, b)) && First(0, |Stood(a, b)|, StatusMarkAt(Stood(a, b))) == |a|
  {
    hide Marked, DONE_LINE, NoMark, First;
    var x := Stood(a, b);
    StoodChars(a, b);
    forall k | 0 <= k < |a| ensures !Marked(x[k..], STATUS) {
      StoodMark(a, b, k);
    }
    StoodSplit(a, b);
    DoneMarked(b);
    FirstMarkIs(x, |a|);
  }

  lemma StoodSplit(a: string, b: string)
    ensures var x := Stood(a, b);
            |x| == |a| + 16 + |b| && x[|a|..] == DONE_LINE + b && x[|a|..|a| + 16] == DONE_LINE && x[|a| + 16..] == b
    ensures b != "" ==> Stood(a, b)[|a| + 16] == b[0]
  {
  }

  /** A done line that is the first mark, as the sides of it. */
  lemma DoneIsStood(x: string) returns (a: string, b: string)
    requires IsDone(x)
    ensures x == Stood(a, b) && Standing(a, b)
  {
    hide Marked, DONE_LINE;
    MarkShapes();
    DoneShape();
    var i := First(0, |x|, StatusMarkAt(x));
    a, b := x[..i], x[i + 16..];
    assert x == a + x[i..i + 16] + b;
    var y := a + "**";
    assert forall k :: 0 <= k < |y| ==> y[k] == x[k] by { assert x[i..i + 16][0] == '*' && x[i..i + 16][1] == '*'; }
    forall k | 0 <= k <= |y| ensures !Marked(y[k..], STATUS) {
      MarkedChars(y[k..], STATUS);
      if k + 11 <= |y| {
        assert y[k..k + 11] == x[k..k + 11];
        MarkFactor(x, k, y, k, STATUS);
        assert !StatusMarkAt(x)(k) && From(x, k) == x[k..];
      }
    }
  }

  lemma HeadedFirst(head: string, u: string)
    requires Bare(head)
    ensures First(0, |head + u|, StatusMarkAt(head + u)) == -1 <==> First(0, |u|, StatusMarkAt(u)) == -1
    ensures First(0, |head + u|, StatusValueAt(head + u)) == -1 <==> First(0, |u|, StatusValueAt(u)) == -1
  {
    hide Marked, StatusValueLen, Bare, Find, First;
    var s, h := head + u, |head|;
    MarkShapes();
    assert forall i: nat :: i <= |u| ==> From(s, h + i) == From(u, i);
    forall i: nat | i < h ensures !StatusMarkAt(s)(i) && !StatusValueAt(s)(i) {
      HeadUnmarked(head, u, STATUS, i);
      assert From(s, i) == s[i..];
      ValueMarked(From(s, i));
    }
    SearchShift(|s|, StatusMarkAt(s), h, |u|, StatusMarkAt(u));
    SearchShift(|s|, StatusValueAt(s), h, |u|, StatusValueAt(u));
  }

  lemma SearchShift(n: nat, p: nat -> bool, h: nat, m: nat, q: nat -> bool)
    requires n == h + m && (forall i: nat :: i < h ==> !p(i)) && forall i: nat :: i <= m ==> p(h + i) == q(i)
    ensures First(0, n, p) == if First(0, m, q) == -1 then -1 else h + First(0, m, q)
  {
    var i, j := First(0, n, p), First(0, m, q);
    if j != -1 {
      assert p(h + j);
      forall k: nat | k < h + j ensures !p(k) { if k >= h { assert !q(k - h); assert p(h + (k - h)) == q(k - h); } }
      FirstIs(n, p, h + j);
    } else {
      forall k: nat | k <= n ensures !p(k) { if k >= h { assert !q(k - h); assert p(h + (k - h)) == q(k - h); } }
      FirstNone(n, p);
    }
  }

  /** Nothing is written exactly when the section has a status mark but none with a value. */
  lemma KeptExactly(head: string, u: string)
    requires Bare(head)
    ensures DonePlace(head, u) == Kept <==> Unvalued(u)
  {
    hide First, StatusMarkAt, StatusValueAt, Bare, TitleAnchor, Find, StatusValueLen;
    HeadedFirst(head, u);
  }

  /** Setting the status of a section at rest changes nothing. */
  lemma RestsStays(head: string, u: string)
    requires Bare(head) && Literal(u) && Rests(u)
    ensures WithDone(DonePlace(head, u), u) == u
  {
    hide DonePlace, NoMark, NoH3, Literal, Bare, DONE_LINE, First;
    KeptExactly(head, u);
    if IsDone(u) {
      var a, b := DoneIsStood(u);
      DoneAgain(head, a, b);
      SetDoneIs(head, u);
      assert (head + u)[|head|..] == u;
      assert (head + WithDone(DonePlace(head, u), u))[|head|..] == WithDone(DonePlace(head, u), u);
    }
  }

  // ---------------------------------------------------------------------
  // Tidying text with a done line
  // ---------------------------------------------------------------------

  lemma CollapseStood(a: string, b: string)
    requires b == "" || LineTerm(b[0])
    ensures Collapse(Stood(a, b)) == Stood(Collapse(a), Collapse(b))
  {
    hide Collapse, DONE_LINE;
    DoneShape();
    var y := DONE_LINE + b;
    assert Stood(a, b) == a + y;
    CollapseSplit(a, y);
    CollapseHead(DONE_LINE, b);
    assert Collapse(a) + (DONE_LINE + Collapse(b)) == Stood(Collapse(a), Collapse(b));
  }

  lemma CollapseOpens(b: string)
    requires b == "" || LineTerm(b[0])
    ensures Collapse(b) == "" || LineTerm(Collapse(b)[0])
  {
    CollapseStart(b);
  }

  lemma TrimOpens(b: string)
    requires b == "" || LineTerm(b[0])
    ensures TrimEnd(b) == "" || LineTerm(TrimEnd(b)[0])
  {
    assert TrimEnd(b) <= b;
  }

  lemma TrimStood(a: string, b: string)
    ensures TrimEnd(Stood(a, b)) == Stood(a, TrimEnd(b))
  {
    hide DONE_LINE;
    DoneShape();
    var x := a + DONE_LINE;
    assert x[|x| - 1] == DONE_LINE[15];
    TrimBehind(x, b);
  }

  lemma StarsCollapse(a: string)
    ensures Collapse(a + "**") == Collapse(a) + "**"
  {
    CollapseSplit(a, "**");
    CollapseHead("**", "");
    NothingCollapses();
    assert "**" + "" == "**";
  }

  lemma CheckStood(a: string, b: string)
    requires b == "" || LineTerm(b[0])
    ensures CheckAll(Stood(a, b)) == Stood(CheckAll(a), CheckAll(b))
  {
    hide CheckAll, DONE_LINE;
    DoneShape();
    assert Stood(a, b) == a + (DONE_LINE + b);
    CheckSplit(a, DONE_LINE + b);
    CheckSplit(DONE_LINE, b);
    DoneUnticked();
    assert CheckAll(a) + (DONE_LINE + CheckAll(b)) == Stood(CheckAll(a), CheckAll(b));
  }

  lemma DoneUnticked()
    ensures CheckAll(DONE_LINE) == DONE_LINE
  {
    DoneShape();
    DashlessStays(DONE_LINE);
  }

  lemma {:induction false} DashlessStays(x: string)
    requires forall c | c in x :: c != '-'
    ensures CheckAll(x) == x
    decreases |x|
  {
    hide BOX;
    BoxChars();
    if x != "" {
      assert x[0] in x;
      assert forall c | c in x[1..] :: c in x;
      DashlessStays(x[1..]);
      assert x == x[..1] + x[1..];
    }
  }

  lemma CheckOpens(b: string)
    requires b == "" || LineTerm(b[0])
    ensures CheckAll(b) == "" || LineTerm(CheckAll(b)[0])
  {
    CheckAllTicks(b);
  }

  lemma StarsTick(a: string)
    ensures Ticks(a + "**", CheckAll(a) + "**")
  {
    hide CheckAll;
    CheckAllTicks(a);
    TicksJoin(a, CheckAll(a), "**", "**");
  }

  /** Tidying text with a done line tidies both sides of it. */
  lemma TidiedStood(a: string, b: string)
    requires Standing(a, b)
    ensures Tidied(Stood(a, b)) == Stood(CheckAll(Collapse(a)), Tidied(b)) && Standing(CheckAll(Collapse(a)), Tidied(b))
  {
    hide Stood, Collapse, TrimEnd, NoMark, CheckAll, Ticks;
    CollapseStood(a, b);
    CollapseOpens(b);
    TrimStood(Collapse(a), Collapse(b));
    TrimOpens(Collapse(b));
    CheckStood(Collapse(a), TrimEnd(Collapse(b)));
    CheckOpens(TrimEnd(Collapse(b)));
    StarsCollapse(a);
    MarkShapes();
    CollapseNoMark(a + "**", STATUS);
    StarsTick(Collapse(a));
    TicksNoMark(Collapse(a) + "**", CheckAll(Collapse(a)) + "**", STATUS);
  }

  lemma BoxUnbroken()
    ensures forall k :: 0 <= k < |BOX| ==> BOX[k] != '\n'
  {
  }

  lemma BoxInside(x: string, y: string)
    requires EndsLine(x)
    ensures (BOX <= x + y <==> BOX <= x) && (BOX <= x ==> |x| > 5 && EndsLine(x[5..]))
  {
    BoxChars();
    BoxUnbroken();
    assert (x + y)[|x| - 1] == '\n';
    assert forall k :: 0 <= k < 5 ==> BOX[k] != '\n';
  }

  /** No box runs over a line break. */
  lemma {:induction false} CheckLines(x: string, y: string)
    requires x == "" || EndsLine(x)
    ensures CheckAll(x + y) == CheckAll(x) + CheckAll(y)
    decreases |x|
  {
    hide CheckAll, BOX;
    BoxChars();
    BoxUnbroken();
    if x == "" {
      assert x + y == y;
      NothingTicks();
    } else {
      var z := x + y;
      BoxInside(x, y);
      if BOX <= x {
        Tidy.TickStep(x);
        Tidy.TickStep(z);
        assert z[5..] == x[5..] + y;
        CheckLines(x[5..], y);
        assert TICKED + (CheckAll(x[5..]) + CheckAll(y)) == (TICKED + CheckAll(x[5..])) + CheckAll(y);
      } else {
        CheckAllStep(x);
        CheckAllStep(z);
        assert z[1..] == x[1..] + y && z[..1] == x[..1];
        CheckLines(x[1..], y);
      }
    }
  }

  lemma TicksEnd(x: string)
    requires EndsLine(x)
    ensures EndsLine(CheckAll(x))
  {
    CheckAllTicks(x);
  }

  /** Tidying what stands behind a line break, when something is left of it. */
  lemma TidiedSplit(p: string, q: string)
    requires EndsLine(p) && (q == "" || q[0] != '\n') && Tidied(q) != ""
    ensures Tidied(p + q) == CheckAll(Collapse(p)) + Tidied(q) && EndsLine(CheckAll(Collapse(p)))
  {
    hide Collapse, TrimEnd, CheckAll, Ticks;
    CollapseSplit(p, q);
    CollapseEnds(p);
    var c := Collapse(q);
    CheckAllTicks(TrimEnd(c));
    TicksSize(TrimEnd(c), CheckAll(TrimEnd(c)));
    TrimInside(Collapse(p), c);
    CheckLines(Collapse(p), TrimEnd(c));
    TicksEnd(Collapse(p));
  }

  lemma TicksSize(x: string, y: string)
    requires Ticks(x, y)
    ensures |x| == |y|
  {
  }

  lemma {:induction false} TrimInside(x: string, y: string)
    requires TrimEnd(y) != ""
    ensures TrimEnd(x + y) == x + TrimEnd(y)
    decreases |y|
  {
    var n := |y| - 1;
    assert (x + y)[..|x + y| - 1] == x + y[..n];
    if Space(y[n]) { TrimInside(x, y[..n]); }
  }

  /** Marks stand in one of two texts with a line break between them. */
  lemma MarksSplit(p: string, q: string, mark: string, i: nat)
    requires EndsLine(p) && MarkShape(mark) && NoMark(p, mark) && i <= |p + q|
    ensures Marked((p + q)[i..], mark) <==> i >= |p| && Marked(q[i - |p|..], mark)
  {
    hide Marked;
    var x := p + q;
    MarkedChars(x[i..], mark);
    if i >= |p| {
      assert x[i..] == q[i - |p|..];
    } else {
      if i + |mark| <= |p| {
        assert x[i..i + |mark|] == p[i..i + |mark|];
        MarkFactor(x, i, p, i, mark);
      } else if i + |mark| <= |x| {
        assert x[i..][|p| - 1 - i] == p[|p| - 1] == '\n' && LowerChar('\n') == '\n';
      }
    }
  }

  lemma FromShift(p: string, q: string, i: nat)
    ensures From(p + q, |p| + i) == From(q, i)
  {
  }

  lemma UnmarkedAhead(p: string, q: string, i: nat)
    requires EndsLine(p) && NoMark(p, STATUS) && i < |p|
    ensures !StatusMarkAt(p + q)(i) && !StatusValueAt(p + q)(i)
  {
    hide Marked, StatusValueLen, NoMark;
    MarkShapes();
    MarksSplit(p, q, STATUS, i);
    assert From(p + q, i) == (p + q)[i..];
    ValueMarked(From(p + q, i));
  }

  lemma FirstShifts(p: string, q: string)
    requires EndsLine(p) && NoMark(p, STATUS)
    ensures var x, h := p + q, |p|;
            && First(0, |x|, StatusMarkAt(x))
               == (if First(0, |q|, StatusMarkAt(q)) == -1 then -1 else h + First(0, |q|, StatusMarkAt(q)))
            && (First(0, |x|, StatusValueAt(x)) == -1 <==> First(0, |q|, StatusValueAt(q)) == -1)
            && -1 <= First(0, |q|, StatusMarkAt(q)) <= |q|
  {
    hide Marked, StatusValueLen, First, NoMark, EndsLine, From;
    var x, h := p + q, |p|;
    forall i: nat | i < h ensures !StatusMarkAt(x)(i) && !StatusValueAt(x)(i) {
      UnmarkedAhead(p, q, i);
    }
    forall i: nat | i <= |q|
      ensures StatusMarkAt(x)(h + i) == StatusMarkAt(q)(i) && StatusValueAt(x)(h + i) == StatusValueAt(q)(i)
    {
      FromShift(p, q, i);
    }
    SearchShift(|x|, StatusMarkAt(x), h, |q|, StatusMarkAt(q));
    SearchShift(|x|, StatusValueAt(x), h, |q|, StatusValueAt(q));
    FirstBound(|q|, StatusMarkAt(q));
  }

  /** Text without a mark before a line break does not matter. */
  lemma RestsBehind(p: string, q: string)
    requires EndsLine(p) && NoMark(p, STATUS)
    ensures (IsDone(p + q) <==> IsDone(q)) && (Unvalued(p + q) <==> Unvalued(q))
  {
    hide First, StatusMarkAt, StatusValueAt, NoMark, EndsLine, DoneAt;
    FirstShifts(p, q);
    var j := First(0, |q|, StatusMarkAt(q));
    if j != -1 { DoneShift(p, q, j); }
  }

  lemma FirstBound(n: nat, p: nat -> bool)
    ensures -1 <= First(0, n, p) <= n
  {
  }

  lemma DoneShift(p: string, q: string, i: nat)
    requires i <= |q|
    ensures DoneAt(p + q, |p| + i) <==> DoneAt(q, i)
  {
    hide DONE_LINE, LineTerm;
    var x, h := p + q, |p|;
    if i + 16 <= |q| { assert x[h + i..h + i + 16] == q[i..i + 16]; }
  }

  // ---------------------------------------------------------------------
  // Marks that stay away
  // ---------------------------------------------------------------------

  lemma DropUnmarked(s: string, mark: string)
    requires NoMark(s, mark) && MarkShape(mark)
    ensures NoMark(DropBlocked(s), mark)
  {
    hide Marked, DropBlocked, BlockedLineLen;
    if NoMark(s, BLOCKED) {
      NothingToDrop(s);
    } else {
      var start, p, end := DropParts(s);
      var y := s[..start] + "\n" + s[end..];
      forall i | 0 <= i <= |y| ensures !Marked(y[i..], mark) {
        MarkedChars(y[i..], mark);
        if i > start {
          assert y[i..] == s[i - start - 1 + end..];
        } else if i + |mark| <= start {
          assert y[i..i + |mark|] == s[i..i + |mark|];
          MarkFactor(y, i, s, i, mark);
        } else if i + |mark| <= |y| {
          assert y[i..][start - i] == y[start] == '\n' && LowerChar('\n') == '\n';
        }
      }
    }
  }

  lemma TidiedUnmarked(x: string, mark: string)
    requires NoMark(x, mark) && MarkShape(mark)
    ensures NoMark(Tidied(x), mark) && NoMark(CheckAll(Collapse(x)), mark)
  {
    hide Collapse, TrimEnd, CheckAll, NoMark, MarkShape, Ticks;
    var c := Collapse(x);
    CollapseNoMark(x, mark);
    MarkNonempty(mark);
    assert TrimEnd(c) == c[..|TrimEnd(c)|];
    PrefixNoMark(c, |TrimEnd(c)|, mark);
    CheckAllTicks(TrimEnd(c));
    TicksNoMark(TrimEnd(c), CheckAll(TrimEnd(c)), mark);
    CheckAllTicks(c);
    TicksNoMark(c, CheckAll(c), mark);
  }

  lemma MarkNonempty(mark: string)
    requires MarkShape(mark)
    ensures mark != ""
  {
  }

  lemma TidiedShrinks(x: string)
    ensures |Tidied(x)| <= |x|
  {
    hide Collapse, CheckAll, Ticks;
    CollapseShrinks(x);
    CheckAllTicks(TrimEnd(Collapse(x)));
    TicksSize(TrimEnd(Collapse(x)), CheckAll(TrimEnd(Collapse(x))));
  }

  lemma NoMarkNoRest(x: string)
    requires NoMark(x, STATUS)
    ensures !IsDone(x) && !Unvalued(x)
  {
    hide NoMark, First;
    NoFirst(x);
  }

  lemma {:induction false} TrimSpaces(x: string, y: string)
    requires TrimEnd(y) == ""
    ensures TrimEnd(x + y) == TrimEnd(x)
    decreases |y|
  {
    if y == "" {
      assert x + y == x;
    } else {
      var n := |y| - 1;
      assert (x + y)[..|x + y| - 1] == x + y[..n];
      assert Space(y[n]);
      TrimSpaces(x, y[..n]);
    }
  }

  // ---------------------------------------------------------------------
  // The done line stays
  // ---------------------------------------------------------------------

  /** A done line that no dropped match takes stays between its sides. */
  lemma DropStays(a: string, b: string) returns (a': string, b': string)
    requires Standing(a, b) && !TakesDone(a)
    ensures DropBlocked(Stood(a, b)) == Stood(a', b') && Standing(a', b')
    ensures NoMark(a + "**", BLOCKED) ==> a' == a && b' == DropBlocked(b)
    ensures !NoMark(a + "**", BLOCKED) ==> a' == DropAhead(a) && b' == b
  {
    hide NoMark, DropBlocked, TakesDone, Stood;
    MarkShapes();
    DropUnmarked(a + "**", STATUS);
    if NoMark(a + "**", BLOCKED) {
      DropBehind(a, b);
      a', b' := a, DropBlocked(b);
    } else {
      DropBefore(a, b);
      a', b' := DropAhead(a), b;
    }
  }

  /** Of a done line that a match takes, only what stands on both sides is left. */
  lemma EndedTaken(a: string, b: string)
    requires Standing(a, b) && TakesDone(a)
    ensures var q, v := b[SpanLen(b, Newline)..], Tidied(DropBlocked(Stood(a, b)));
            (IsDone(v) <==> IsDone(Tidied(q))) && (Unvalued(v) <==> Unvalued(Tidied(q))) && |v| + 9 <= |a| + |q|
  {
    var n := SpanLen(b, Newline);
    var p, q := TakenFrom(a) + "\n", b[n..];
    var v := Tidied(DropBlocked(Stood(a, b)));
    hide NoMark, DropBlocked, TakesDone, Stood, Tidied, IsDone, Unvalued, Collapse, TakenFrom;
    DropThrough(a, b);
    assert DropBlocked(Stood(a, b)) == p + q;
    TidiedShrinks(p + q);
    BreaksAre(b, n);
    TakenUnmarked(a);
    TakenEnded(p, q);
  }

  lemma TakenUnmarked(a: string)
    requires NoMark(a + "**", STATUS)
    ensures NoMark(TakenFrom(a) + "\n", STATUS)
  {
    hide NoMark, First;
    MarkShapes();
    assert TakenFrom(a) == (a + "**")[..|TakenFrom(a)|];
    PrefixNoMark(a + "**", |TakenFrom(a)|, STATUS);
    BreakUnmarked(TakenFrom(a), STATUS);
  }

  lemma TakenEnded(p: string, q: string)
    requires NoMark(p, STATUS) && EndsLine(p) && (q == "" || q[0] != '\n')
    ensures var v := Tidied(p + q); (IsDone(v) <==> IsDone(Tidied(q))) && (Unvalued(v) <==> Unvalued(Tidied(q)))
  {
    hide NoMark, IsDone, Unvalued, Collapse, CheckAll, TrimEnd;
    MarkShapes();
    TidiedUnmarked(p, STATUS);
    if Tidied(q) != "" {
      TidiedSplit(p, q);
      RestsBehind(CheckAll(Collapse(p)), Tidied(q));
    } else {
      CollapseSplit(p, q);
      CheckAllTicks(TrimEnd(Collapse(q)));
      TicksSize(TrimEnd(Collapse(q)), Tidied(q));
      TrimSpaces(Collapse(p), Collapse(q));
      assert Tidied(p + q) == Tidied(p);
      NoMarkNoRest(Tidied(p));
      NothingUnmarked();
      NoMarkNoRest("");
    }
  }

  lemma NothingUnmarked()
    ensures NoMark("", STATUS)
  {
    MarkShapes();
  }

  // ---------------------------------------------------------------------
  // A status mark without a value
  // ---------------------------------------------------------------------

  /** Beyond a mark without a value only line terminators stand. */
  lemma UnvaluedTail(u: string, j: nat)
    requires Unvalued(u) && j <= |u| && Marked(u[j..], STATUS)
    ensures j + 11 <= |u| && forall k :: j + 11 <= k < |u| ==> Space(u[k])
  {
    hide Marked, StatusValueLen, First;
    MarkShapes();
    MarkedChars(u[j..], STATUS);
    assert !StatusValueAt(u)(j) && From(u, j) == u[j..];
    forall k | j + 11 <= k < |u| ensures Space(u[k]) {
      assert u[j..][k - j] == u[k];
      if !Space(u[k]) { MarkBefore(u[j..], k - j); }
    }
  }

  /** A mark with only spaces behind it, the first there is. */
  predicate Trailing(x: string, i: nat)
  {
    && i + 11 <= |x| && Marked(x[i..], STATUS) && NoMark(x[..i] + "**", STATUS)
    && forall k :: i + 11 <= k < |x| ==> Space(x[k])
  }

  lemma FirstMarkFound(x: string) returns (i: nat)
    requires !NoMark(x, STATUS)
    ensures i <= |x| && Marked(x[i..], STATUS) && forall k: nat :: k < i ==> !Marked(x[k..], STATUS)
  {
    hide Marked, First, STATUS;
    NoFirst(x);
    i := First(0, |x|, StatusMarkAt(x));
    MarkAtIs(x, i);
    forall k: nat | k < i ensures !Marked(x[k..], STATUS) {
      assert !StatusMarkAt(x)(k);
      MarkAtIs(x, k);
    }
  }

  lemma FrontNoMark(x: string, i: nat)
    requires i <= |x| && Marked(x[i..], STATUS) && forall k: nat :: k < i ==> !Marked(x[k..], STATUS)
    ensures NoMark(x[..i] + "**", STATUS)
  {
    hide Marked;
    MarkShapes();
    MarkedChars(x[i..], STATUS);
    assert x[i..][0] == x[i] && x[i..][1] == x[i + 1];
    StarLower();
    var y := x[..i] + "**";
    assert forall k :: 0 <= k < |y| ==> y[k] == x[k];
    forall k | 0 <= k <= |y| ensures !Marked(y[k..], STATUS) {
      MarkedChars(y[k..], STATUS);
      if k + 11 <= |y| {
        assert y[k..k + 11] == x[k..k + 11];
        MarkFactor(x, k, y, k, STATUS);
      }
    }
  }

  lemma StarLower()
    ensures forall c: char :: LowerChar(c) == '*' ==> c == '*'
    ensures STATUS[0] == '*' && STATUS[1] == '*'
  {
  }

  /** A trailing mark with nothing but line terminators behind it has no value. */
  lemma TrailingUnvalued(x: string, i: nat)
    requires Trailing(x, i) && forall k :: i + 11 <= k < |x| ==> LineTerm(x[k])
    ensures Unvalued(x) && !IsDone(x)
  {
    hide Marked, StatusValueLen, First, NoMark, DONE_LINE;
    forall k: nat | k < i ensures !Marked(x[k..], STATUS) {
      EarlierMark(x, i, k);
    }
    FirstMarkIs(x, i);
    MarkText(x, i);
    forall k: nat | k <= |x| ensures !StatusValueAt(x)(k) {
      assert From(x, k) == x[k..];
      ValueMarked(x[k..]);
      if k == i { NoValueAtEnd(x[k..]); }
      if k > i { NoLaterMark(x, i, k); }
    }
    FirstNone(|x|, StatusValueAt(x));
    DoneAtMark(x, i);
  }

  lemma DoneAtMark(x: string, i: nat)
    requires i + 11 <= |x| && forall k :: i + 11 <= k < |x| ==> LineTerm(x[k])
    ensures !DoneAt(x, i)
  {
    hide DONE_LINE;
    DoneShape();
    assert i + 16 <= |x| ==> x[i..i + 16][11] == x[i + 11];
  }

  lemma NoLaterMark(x: string, i: nat, k: nat)
    requires i < k <= |x| && i + 11 <= |x| && Marked(x[i..], STATUS) && forall j :: i + 11 <= j < |x| ==> LineTerm(x[j])
    ensures !Marked(x[k..], STATUS)
  {
    hide Marked;
    MarkShapes();
    MarkedChars(x[k..], STATUS);
    MarkedChars(x[i..], STATUS);
    StatusChars();
    if Marked(x[k..], STATUS) {
      var j := k + 10;
      assert x[k..][10] == x[j] && LowerChar(x[j]) == '*';
      StarLower();
      StarPlain();
    }
  }

  lemma NoValueAtEnd(x: string)
    requires |x| >= 11 && forall k :: 11 <= k < |x| ==> LineTerm(x[k])
    ensures StatusValueLen(x).None?
  {
    hide Marked, SpanLen;
    MarkShapes();
  }

  lemma EarlierMark(x: string, i: nat, k: nat)
    requires k < i && i + 11 <= |x| && Marked(x[i..], STATUS) && NoMark(x[..i] + "**", STATUS)
    ensures !Marked(x[k..], STATUS)
  {
    hide Marked;
    MarkShapes();
    var y := x[..i] + "**";
    MarkedChars(x[i..], STATUS);
    MarkedChars(x[k..], STATUS);
    StarLower();
    assert x[i..][0] == x[i] && x[i..][1] == x[i + 1] && x[i..][2] == x[i + 2];
    if Marked(x[k..], STATUS) {
      if k + 11 <= i + 2 {
        assert forall j :: 0 <= j < |y| ==> y[j] == x[j];
        assert y[k..k + 11] == x[k..k + 11];
        MarkFactor(x, k, y, k, STATUS);
      } else {
        MarksApart(x, k, i);
      }
    }
  }

  /** Two marks share at most their asterisks. */
  lemma MarksApart(x: string, k: nat, i: nat)
    requires k < i < k + 9 && i + 11 <= |x| && LowerChar(x[i]) == '*' && LowerChar(x[i + 1]) == '*'
    requires LowerChar(x[i + 2]) == 's'
    ensures !Marked(x[k..], STATUS)
  {
    MarkedChars(x[k..], STATUS);
    MarkShapes();
    assert STATUS[2] == 's' && STATUS[3] == 't' && STATUS[4] == 'a'
       && STATUS[5] == 't' && STATUS[6] == 'u' && STATUS[7] == 's'
        && STATUS[8] == ':' && STATUS[9] == '*' && STATUS[10] == '*';
    assert x[k..][i - k] == x[i] && x[k..][i - k + 1] == x[i + 1] && (i + 2 < k + 11 ==> x[k..][i - k + 2] == x[i + 2]);
  }

  lemma {:induction false} SpacesTrim(x: string)
    requires forall k :: 0 <= k < |x| ==> Space(x[k])
    ensures TrimEnd(x) == ""
  {
    if x != "" { SpacesTrim(x[..|x| - 1]); }
  }

  lemma MarkText(x: string, i: nat)
    requires Trailing(x, i)
    ensures var m := x[i..i + 11];
            && x == x[..i] + (m + x[i + 11..]) && m[0] == '*' && m[10] == '*'
            && (forall k :: 0 <= k < 11 ==> m[k] != '\n' && m[k] != '-') && Marked(m, STATUS)
  {
    hide Marked, NoMark;
    MarkShapes();
    var m := x[i..i + 11];
    MarkedChars(x[i..], STATUS);
    MarkedChars(m, STATUS);
    assert forall k :: 0 <= k < 11 ==> m[k] == x[i..][k];
    StarLower();
    StatusChars();
  }

  lemma StatusChars()
    ensures |STATUS| == 11 && STATUS[10] == '*' && forall k :: 0 <= k < 11 ==> STATUS[k] != '\n' && STATUS[k] != '-'
    ensures LowerChar('\n') == '\n' && LowerChar('-') == '-'
  {
  }

  /** Tidying text that trails off behind a mark leaves the mark at its end. */
  lemma TidiedTrailing(x: string, i: nat)
    requires Trailing(x, i)
    ensures Unvalued(Tidied(x)) && !IsDone(Tidied(x))
  {
    hide Marked, NoMark, Collapse, TrimEnd, CheckAll, Ticks, Unvalued, IsDone, Space;
    var c, m, t := x[..i], x[i..i + 11], x[i + 11..];
    MarkText(x, i);
    CollapseSplit(c, m + t);
    CollapseHead(m, t);
    assert forall k :: 0 <= k < |t| ==> Space(t[k]);
    CollapseAll(t, Space);
    SpacesTrim(Collapse(t));
    var front := Collapse(c) + m;
    assert Collapse(c) + (m + Collapse(t)) == front + Collapse(t);
    StarPlain();
    assert front[|front| - 1] == m[10];
    TrimBehind(front, Collapse(t));
    assert front + "" == front;
    CheckSplit(Collapse(c), m);
    assert forall ch | ch in m :: ch != '-';
    DashlessStays(m);
    var c2 := CheckAll(Collapse(c));
    StarsCollapse(c);
    MarkShapes();
    CollapseNoMark(c + "**", STATUS);
    StarsTick(Collapse(c));
    TicksNoMark(Collapse(c) + "**", c2 + "**", STATUS);
    var v := c2 + m;
    assert v[..|c2|] == c2 && v[|c2|..] == m;
    TrailingUnvalued(v, |c2|);
  }

  lemma DroppedTrails(u: string) returns (i: nat)
    requires Unvalued(u) && !NoMark(DropBlocked(u), STATUS)
    ensures Trailing(DropBlocked(u), i)
  {
    hide Marked, NoMark, DropBlocked, Unvalued, BlockedLineLen;
    MarkShapes();
    var y := DropBlocked(u);
    i := FirstMarkFound(y);
    FrontNoMark(y, i);
    if NoMark(u, BLOCKED) {
      NothingToDrop(u);
      UnvaluedTail(u, i);
    } else {
      var start, p, end := DropParts(u);
      MarkedChars(y[i..], STATUS);
      MarkStar(u[p..]);
      StarPlain();
      assert u[p..][0] == u[p];
      if i <= start {
        assert i + 11 <= start by { if start < i + 11 { assert y[i..][start - i] == '\n'; StatusChars(); } }
        assert u[i..i + 11] == y[i..i + 11];
        MarkFactor(u, i, y, i, STATUS);
        UnvaluedTail(u, i);
      } else {
        var j := i - start - 1 + end;
        assert y[i..] == u[j..];
        UnvaluedTail(u, j);
        assert forall k :: i + 11 <= k < |y| ==> y[k] == u[k - start - 1 + end];
      }
    }
  }

  /** Where nothing is written, no done line appears; the mark stays if it is not dropped. */
  lemma EndedKept(u: string)
    requires Unvalued(u)
    ensures var v := Tidied(DropBlocked(u)); !IsDone(v) && (Unvalued(v) <==> !NoMark(DropBlocked(u), STATUS))
  {
    hide NoMark, DropBlocked, Tidied, IsDone, Unvalued;
    MarkShapes();
    if NoMark(DropBlocked(u), STATUS) {
      TidiedUnmarked(DropBlocked(u), STATUS);
      NoMarkNoRest(Tidied(DropBlocked(u)));
    } else {
      var i := DroppedTrails(u);
      TidiedTrailing(DropBlocked(u), i);
    }
  }

  // ---------------------------------------------------------------------
  // Exactly what completing leaves
  // ---------------------------------------------------------------------

  /** How many matches of the blocked pattern a section holds, those on either side of its done line counted apart. */
  function MarkersAround(head: string, u: string): nat
  {
    match DonePlace(head, u)
    case Between(a, b) => MarkerCount(a + "**") + MarkerCount(b)
    case Kept => MarkerCount(u)
  }

  /** What stands behind the place of the done line, past the breaks there, tidied. */
  function Left(b: string): string
  {
    Tidied(b[SpanLen(b, Newline)..])
  }

  /**
   The section ends with a done line: one is written and the first blocked match does not run through it,
   or the text behind opens its statuses with a done line of its own.
   */
  predicate DoneStays(head: string, u: string)
  {
    match DonePlace(head, u)
    case Between(a, b) => TakesDone(a) ==> IsDone(Left(b))
    case Kept => false
  }

  /** The section ends with a status that setting it again would not change. */
  predicate StatusSettles(head: string, u: string)
  {
    match DonePlace(head, u)
    case Between(a, b) => TakesDone(a) ==> Rests(Left(b))
    case Kept => !NoMark(DropBlocked(u), STATUS)
  }

  lemma EndedStatus(head: string, u: string)
    requires Bare(head) && Literal(u)
    ensures IsDone(Ended(head, u)) <==> DoneStays(head, u)
    ensures Rests(Ended(head, u)) <==> StatusSettles(head, u)
  {
    hide DonePlace, NoMark, NoH3, Literal, Bare, IsDone, Unvalued, TakesDone, DropBlocked, Tidied, Stood, SpanLen;
    SetDoneIs(head, u);
    match DonePlace(head, u)
    case Between(a, b) =>
      if TakesDone(a) {
        EndedTaken(a, b);
      } else {
        var a', b' := DropStays(a, b);
        TidiedStood(a', b');
        StoodIsDone(CheckAll(Collapse(a')), Tidied(b'));
      }
    case Kept =>
      KeptExactly(head, u);
      EndedKept(u);
  }

  lemma EndedCount(head: string, u: string)
    requires Bare(head) && Literal(u)
    ensures MarkerCount(Ended(head, u)) == if MarkersAround(head, u) == 0 then 0 else MarkersAround(head, u) - 1
  {
    hide DonePlace, NoMark, NoH3, Literal, Bare, DropBlocked, Tidied, Stood, MarkerCount;
    SetDoneIs(head, u);
    var v := WithDone(DonePlace(head, u), u);
    match DonePlace(head, u) {
      case Between(a, b) => CountStood(a, b);
      case Kept =>
    }
    CountDrop(v);
    CountTidied(DropBlocked(v));
  }

  lemma TidiedTidy(x: string)
    ensures var v := Tidied(x); Collapse(v) == v && TrimEnd(v) == v && CheckAll(v) == v && Tidied(v) == v && NoTriple(v)
  {
    hide Collapse, TrimEnd, CheckAll, NoTriple, Ticks;
    var c := Collapse(x);
    var w := TrimEnd(c);
    CollapseNoTriple(x);
    NoTriplePrefix(c, |w|);
    assert w == c[..|w|];
    TrimTwice(c);
    CheckAllTicks(w);
    TicksTidy(w, CheckAll(w));
    CheckTwice(w);
    CollapseKeeps(CheckAll(w));
  }

  lemma TicksTidy(x: string, y: string)
    requires Ticks(x, y) && NoTriple(x) && TrimEnd(x) == x
    ensures NoTriple(y) && TrimEnd(y) == y
  {
    TicksNoTriple(x, y);
    TicksTrimmed(x, y);
  }

  lemma TicksNoTriple(x: string, y: string)
    requires Ticks(x, y) && NoTriple(x)
    ensures NoTriple(y)
  {
    forall i | 0 <= i < |y| - 2 ensures !(y[i] == '\n' && y[i + 1] == '\n' && y[i + 2] == '\n') {
      assert !(x[i] == '\n' && x[i + 1] == '\n' && x[i + 2] == '\n');
    }
  }

  lemma TicksTrimmed(x: string, y: string)
    requires Ticks(x, y) && TrimEnd(x) == x
    ensures TrimEnd(y) == y
  {
    if y != "" {
      TrimTwice(x);
      var n := |y| - 1;
      assert y[n] == x[n];
    }
  }

  /**
   What completing makes of a section up to its first third-level line, and that it leaves the rest alone.
   It takes out one match of the blocked pattern, so a marker is left when there were two; it ends with a
   done line exactly when one is written that this match does not run through.
   */
  lemma CompletionExactly(head: string, body: string, last: bool)
    requires Bare(head) && PlainLines(body, last)
    ensures var u, t := body[..Cut(body, last)], body[Cut(body, last)..];
            var v := Ended(head, u);
            && Completed(head, body, last) == v + t
            && (IsDone(v) <==> DoneStays(head, u))
            && (NoMark(v, BLOCKED) <==> MarkersAround(head, u) <= 1)
            && NoTriple(v) && TrimEnd(v) == v && CheckAll(v) == v
  {
    var u, t := body[..Cut(body, last)], body[Cut(body, last)..];
    hide Cut, NoMark, NoH3, Beyond, Literal, Plain, Bare, Ended, IsDone, MarkersAround, DoneStays, StatusSettles,
      NoTriple, TrimEnd, CheckAll,
      Completed, MarkerCount, Unvalued;
    BodySplits(body, last);
    CompletedIs(head, u, t, last);
    EndedStatus(head, u);
    EndedCount(head, u);
    CountZero(Ended(head, u));
    EndedTidy(head, u);
  }

  lemma EndedTidy(head: string, u: string)
    ensures var v := Ended(head, u);
            Tidied(v) == v && NoTriple(v) && TrimEnd(v) == v && CheckAll(v) == v && Collapse(v) == v
  {
    TidiedTidy(DropBlocked(WithDone(DonePlace(head, u), u)));
    hide Collapse, TrimEnd, CheckAll, NoTriple;
  }

  /** The part of a body that completion sees, and the rest. */
  lemma BodySplits(body: string, last: bool)
    requires PlainLines(body, last)
    ensures var u, t := body[..Cut(body, last)], body[Cut(body, last)..];
            body == u + t && NoH3(u) && Plain(u) && Literal(u) && Beyond(t, last)
  {
    hide Cut, NoH3, Plain, Beyond, Literal;
    CutSplits(body, last);
    FrontPlain(body, last);
    PlainLiteral(body[..Cut(body, last)]);
  }

  // ---------------------------------------------------------------------
  // Completing again
  // ---------------------------------------------------------------------

  /** A done line that a match takes leaves a shorter text than there was. */
  lemma TakenShrinks(head: string, u: string)
    requires Bare(head) && Literal(u) && DonePlace(head, u).Between? && TakesDone(DonePlace(head, u).before)
    ensures |Ended(head, u)| + 8 <= |u|
  {
    var a, b := DonePlace(head, u).before, DonePlace(head, u).behind;
    hide DonePlace, NoMark, NoH3, Literal, Bare, IsDone, Unvalued, TakesDone, DropBlocked, Tidied, Stood;
    SetDoneIs(head, u);
    EndedTaken(a, b);
    PlaceSizes(head, u);
    BreaksAre(b, SpanLen(b, Newline));
  }

  lemma PlaceSizes(head: string, u: string)
    requires Bare(head) && Literal(u) && DonePlace(head, u).Between?
    ensures var a, b := DonePlace(head, u).before, DonePlace(head, u).behind;
            |a| + |b[SpanLen(b, Newline)..]| <= |u| + 1
  {
    hide StatusValueLen, Bare, Literal, NoMark, NoH3, TitleAnchor, First, Find, DONE_LINE, SpanLen;
    var s := head + u;
    if First(0, |s|, StatusMarkAt(s)) == -1 {
      TitlePlaceSizes(head, u);
    } else {
      var i := First(0, |s|, StatusValueAt(s));
      StatusBehindHead(head, u);
      ValueThere(s, i);
      ReplacePlace(head, u, i, StatusValueLen(From(s, i)).value);
    }
  }

  lemma TitlePlaceSizes(head: string, u: string)
    requires Bare(head) && Literal(u) && First(0, |head + u|, StatusMarkAt(head + u)) == -1
    requires DonePlace(head, u).Between?
    ensures var a, b := DonePlace(head, u).before, DonePlace(head, u).behind;
            |a| + |b[SpanLen(b, Newline)..]| <= |u| + 1
  {
    hide *;
    var k := TitleSides(head, u);
    match k {
      case Some(n) => BreaksSkipped(u[n..]);
      case None => BreakSkipped();
    }
  }

  lemma BreaksSkipped(x: string)
    ensures var b := "\n\n" + x; |b[SpanLen(b, Newline)..]| <= |x|
  {
    var b := "\n\n" + x;
    BreaksAre(b, SpanLen(b, Newline));
  }

  lemma BreakSkipped()
    ensures "\n"[SpanLen("\n", Newline)..] == ""
  {
    SpanLenIs("\n", Newline, 1);
  }

  /** What a drop shortens stays shorter. */
  lemma DroppedShrinks(x: string)
    requires !NoMark(x, BLOCKED)
    ensures |Tidied(DropBlocked(x))| + 11 <= |x|
  {
    hide NoMark, DropBlocked, Tidied;
    DropShrinks(x);
    TidiedShrinks(DropBlocked(x));
  }

  /** Completing changes nothing in a tidy text exactly when no marker is in it and its status is settled. */
  lemma EndedRests(head: string, v: string)
    requires Bare(head) && Literal(v) && Tidied(v) == v
    ensures Ended(head, v) == v <==> NoMark(v, BLOCKED) && Rests(v)
  {
    hide DonePlace, NoMark, NoH3, Literal, Bare, IsDone, Unvalued, TakesDone, DropBlocked, Tidied, Stood;
    if Rests(v) {
      RestsStays(head, v);
      if NoMark(v, BLOCKED) { NothingToDrop(v); } else { DroppedShrinks(v); }
    } else {
      EndedStatus(head, v);
      if Ended(head, v) == v {
        StaysSettled(head, v);
        TakenShrinks(head, v);
      }
    }
  }

  /** A text at rest that completing leaves as it is was at rest before. */
  lemma StaysSettled(head: string, v: string)
    requires Bare(head) && Literal(v) && Ended(head, v) == v && !Rests(v)
    ensures DonePlace(head, v).Between? && TakesDone(DonePlace(head, v).before)
  {
    hide DonePlace, NoMark, NoH3, Literal, Bare, IsDone, Unvalued, TakesDone, DropBlocked, Tidied, Stood, Ended;
    EndedStatus(head, v);
    KeptExactly(head, v);
  }

  /**
   Completing a completed task again changes nothing exactly when its section held at most one match of the
   blocked pattern and its status was settled: the done line stays, or the mark had no value and stays.
   */
  lemma CompleteTaskTwice(d: Document, k: nat, id: string)
    requires Ready(d, k, id)
    ensures var p := d.pieces[k];
            var u := p.body[..Cut(p.body, Last(d, k))];
            CompleteTask(CompleteTask(Render(d), id), id) == CompleteTask(Render(d), id)
            <==> MarkersAround(p.head, u) <= 1 && StatusSettles(p.head, u)
  {
    var p, last := d.pieces[k], Last(d, k);
    var u, t := p.body[..Cut(p.body, last)], p.body[Cut(p.body, last)..];
    var x := Completed(p.head, p.body, last);
    assert Bare(p.head) && PlainLines(p.body, last);
    hide *;
    CompleteStep(d, k, id);
    WithTwice(d, k, x, x);
    CompleteStep(WithBody(d, k, x), k, id);
    ReadyLines(WithBody(d, k, x), k, id);
    var y := Completed(p.head, x, last);
    WithTwice(d, k, x, y);
    BodiesDiffer(d, k, x, y);
    BodySplits(p.body, last);
    CompletedIs(p.head, u, t, last);
    CompletedAgain(p.head, u, t, last);
  }

  lemma ReadyLines(d: Document, k: nat, id: string)
    requires Ready(d, k, id)
    ensures k < |d.pieces| && Bare(d.pieces[k].head) && PlainLines(d.pieces[k].body, Last(d, k))
  {
  }

  lemma CompletedAgain(head: string, u: string, t: string, last: bool)
    requires Bare(head) && Literal(u) && NoH3(u) && Beyond(t, last) && PlainLines(Ended(head, u) + t, last)
    ensures Completed(head, Ended(head, u) + t, last) == Ended(head, u) + t
            <==> MarkersAround(head, u) <= 1 && StatusSettles(head, u)
  {
    var v := Ended(head, u);
    hide *;
    CompletedIs(head, u, t, last);
    FrontLiteral(v, t, last);
    CompletedIs(head, v, t, last);
    EndedTidy(head, u);
    EndedRests(head, v);
    EndedStatus(head, u);
    EndedCount(head, u);
    CountZero(v);
    SuffixDiffers(Ended(head, v), v, t);
  }

  lemma SuffixDiffers(x: string, y: string, t: string)
    ensures x + t == y + t <==> x == y
  {
    if x + t == y + t {
      assert |x| == |y|;
      assert (x + t)[..|x|] == x && (y + t)[..|x|] == y;
    }
  }

  lemma FrontLiteral(v: string, t: string, last: bool)
    requires PlainLines(v + t, last)
    ensures Literal(v)
  {
    hide Literal;
    PlainLiteral(v + t);
    LiteralPart(v + t, 0, |v|);
    assert (v + t)[0..|v|] == v;
  }

  /** The same surroundings hold different documents for different bodies. */
  lemma BodiesDiffer(d: Document, k: nat, x: string, y: string)
    requires k < |d.pieces|
    ensures Render(WithBody(d, k, x)) == Render(WithBody(d, k, y)) <==> x == y
  {
    hide Render, WithBody, Before, After;
    Around(d, k, x);
    Around(d, k, y);
    MiddleDiffers(Before(d, k), d.pieces[k].head, x, y, After(d, k));
  }

  lemma MiddleDiffers(a: string, h: string, x: string, y: string, b: string)
    ensures a + (h + x) + b == a + (h + y) + b <==> x == y
  {
    var s, t := a + (h + x) + b, a + (h + y) + b;
    var k := |a| + |h|;
    if s == t {
      assert |x| == |y|;
      assert s[k..k + |x|] == x && t[k..k + |y|] == y;
    }
  }
}
