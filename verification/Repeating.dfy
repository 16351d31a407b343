/**
 How many verifications with the same evidence it takes until the bytes rest, when blocked markers stand in
 the way: each takes out one.
 */
module Repeating {
  import opened Text
  import opened Markdown
  import opened Evidence
  import opened Verification
  import opened Documents
  import opened Sections
  import opened SectionEdits
  import opened Blocks
  import opened Completion
  import opened Ledger
  import opened Tidy
  import opened Markers
  import opened DoneLines
  import opened Completing
  import opened Remains
  import opened Outcomes
  import opened Reinserting
  import opened Resting
  import opened Reapplying
  import opened Cutting

  // ---------------------------------------------------------------------
  // Markers before the done line
  // ---------------------------------------------------------------------

  lemma TakesRunsOut(a: string)
    requires TakesDone(a)
    ensures RunsOut(a + "**")
  {
    hide Marked, NoMark, BlockedLineLen, RunsOut, MarkerCount, TakesDone;
    var x := a + "**";
    TakesMarked(a);
    var start, p, end := DropParts(x);
    TakesIs(a, start, p, end);
    CountFrom(x, p);
    CountAt(x[p..]);
  }

  lemma DropRunsOut(s: string)
    requires !RunsOut(s)
    ensures !RunsOut(DropBlocked(s))
  {
    hide Marked, BlockedLineLen, MarkerCount, DropBlocked, NoMark, RunsOut;
    if NoMark(s, BLOCKED) {
      NothingToDrop(s);
    } else {
      var start, p, end := DropParts(s);
      CountFrom(s, p);
      CountAt(s[p..]);
      assert s[p..][end - p..] == s[end..];
      var y := s[..start] + "\n" + s[end..];
      UnmarkedFront(s, start, p, s[end..]);
      CountFrom(y, start + 1);
      assert y[start + 1..] == s[end..];
    }
  }

  lemma TidiedRunsOut(a: string)
    requires !RunsOut(a + "**")
    ensures !RunsOut(CheckAll(Collapse(a)) + "**")
  {
    hide RunsOut, MarkerCount, Collapse, CheckAll, Ticked;
    CountCollapse(a + "**");
    StarsCollapse(a);
    CheckAllTicked(Collapse(a));
    StarsTicked(Collapse(a), CheckAll(Collapse(a)));
    CountTicked(Collapse(a) + "**", CheckAll(Collapse(a)) + "**");
  }

  lemma StarsTicked(x: string, y: string)
    requires Ticked(x, y)
    ensures Ticked(x + "**", y + "**")
  {
    TickedJoin(x, y, "**", "**");
  }

  // ---------------------------------------------------------------------
  // What stands behind the done line
  // ---------------------------------------------------------------------

  predicate Spaces(x: string)
  {
    forall k :: 0 <= k < |x| ==> Space(x[k])
  }

  /** A text that opens with an empty line, or holds nothing. */
  predicate Blank(b: string)
  {
    "\n\n" <= b || Spaces(b)
  }

  lemma {:induction false} CollapseSpaces(x: string)
    requires Spaces(Collapse(x))
    ensures Spaces(x)
    decreases |x|
  {
    hide Collapse;
    SpaceIsBreak();
    if x != "" {
      var k, front := CollapseStep(x);
      var c := Collapse(x);
      assert c[|front|..] == Collapse(x[k..]);
      CollapseSpaces(x[k..]);
      BreaksAre(x, SpanLen(x, Newline));
      assert x == x[..k] + x[k..];
      if SpanLen(x, Newline) == 0 { assert c[0] == front[0] == x[0]; }
    }
  }

  lemma {:induction false} TrimNothing(x: string)
    ensures TrimEnd(x) == "" <==> Spaces(x)
  {
    if x != "" {
      TrimNothing(x[..|x| - 1]);
      assert forall k :: 0 <= k < |x| - 1 ==> x[..|x| - 1][k] == x[k];
    }
  }

  lemma TidiedNothing(x: string)
    ensures Tidied(x) == "" <==> Spaces(x)
  {
    hide Collapse, TrimEnd, CheckAll, Spaces, Ticks;
    var c := Collapse(x);
    CheckAllTicks(TrimEnd(c));
    TicksSize(TrimEnd(c), CheckAll(TrimEnd(c)));
    TrimNothing(c);
    if Spaces(c) { CollapseSpaces(x); }
    if Spaces(x) { SpacesCollapse(x); }
  }

  lemma SpacesCollapse(x: string)
    requires Spaces(x)
    ensures Spaces(Collapse(x))
  {
    CollapseAll(x, Space);
  }

  lemma SpacesParts(x: string, y: string)
    ensures Spaces(x + y) <==> Spaces(x) && Spaces(y)
  {
    var z := x + y;
    assert forall k :: 0 <= k < |y| ==> z[|x| + k] == y[k];
    assert forall k :: 0 <= k < |x| ==> z[k] == x[k];
  }

  lemma BreaksSpaces(x: string)
    requires AllBreaks(x)
    ensures Spaces(x)
  {
    SpaceIsBreak();
  }

  /** Tidying keeps whether an empty line opens the text. */
  lemma TidiedBlank(b: string)
    requires b == "" || b[0] == '\n'
    ensures var y := Tidied(b);
            && (y == "" || "\n\n" <= y <==> Blank(b)) && (y == "" || y[0] == '\n')
  {
    hide Tidied, Spaces, Collapse;
    TidiedNothing(b);
    NothingSpaces();
    if Tidied(b) != "" { TidiedOpens(b); }
  }

  lemma NothingSpaces()
    ensures Spaces("")
  {
  }

  lemma TidiedOpens(b: string)
    requires b != "" && b[0] == '\n' && !Spaces(b)
    ensures var y := Tidied(b); y != "" && y[0] == '\n' && ("\n\n" <= y <==> "\n\n" <= b)
  {
    hide Tidied, Spaces, Collapse, CheckAll;
    var n := SpanLen(b, Newline);
    BreaksAre(b, n);
    var p, q := b[..n], b[n..];
    assert b == p + q;
    SpacesParts(p, q);
    BreaksSpaces(p);
    TidiedNothing(q);
    TidiedSplit(p, q);
    var f := CheckAll(Collapse(p));
    FrontBreaks(p);
    TidiedStart(q);
    assert f == if n >= 2 then "\n\n" else "\n";
    NothingTidies();
    assert q != "";
    if n == 1 {
      LoneBreakOpens(b, q);
      LoneBreakOpens(Tidied(b), Tidied(q));
    } else {
      assert b[0] == '\n' && b[1] == '\n';
      assert Tidied(b)[..2] == "\n\n";
    }
  }

  lemma NothingTidies()
    ensures Tidied("") == ""
  {
    NothingSpaces();
    TidiedNothing("");
  }

  lemma LoneBreakOpens(x: string, q: string)
    requires x == "\n" + q && q != "" && q[0] != '\n'
    ensures x[0] == '\n' && !("\n\n" <= x)
  {
    assert x[1] == q[0];
  }

  lemma TidiedStart(q: string)
    requires q == "" || q[0] != '\n'
    ensures Tidied(q) == "" || Tidied(q)[0] != '\n'
  {
    hide Collapse, CheckAll;
    CollapseStart(q);
    CheckAllTicks(TrimEnd(Collapse(q)));
    assert TrimEnd(Collapse(q)) <= Collapse(q);
  }

  lemma FrontBreaks(p: string)
    requires AllBreaks(p) && p != ""
    ensures CheckAll(Collapse(p)) == if |p| >= 2 then "\n\n" else "\n"
  {
    SpanLenIs(p, Newline, |p|);
    hide CheckAll, Collapse, SpanLen;
    NothingCollapses();
    var k, front := CollapseStep(p);
    assert k == |p| && p[k..] == "" && front + "" == front;
    assert front == if |p| >= 2 then "\n\n" else "\n";
    DashlessStays(front);
  }

  /** What stands behind the place of the done line once the first blocked match is out. */
  function Following(a: string, b: string): string
  {
    if NoMark(a + "**", BLOCKED) then DropBlocked(b) else b
  }

  lemma DropOpens(b: string)
    requires b == "" || b[0] == '\n'
    ensures var y := DropBlocked(b); (y == "" || y[0] == '\n') && ("\n\n" <= b ==> "\n\n" <= y)
  {
    hide Marked, BlockedLineLen, NoMark, DropBlocked;
    if NoMark(b, BLOCKED) {
      NothingToDrop(b);
    } else {
      var start, p, end := DropParts(b);
      MarkStar(b[p..]);
      assert b[p..][0] == b[p];
      var y := b[..start] + "\n" + b[end..];
      if start > 0 { assert y[0] == b[0]; }
      if "\n\n" <= b {
        assert b[0] == '\n' && b[1] == '\n' && p >= 2;
        assert start >= 1;
        assert y[1] == if start == 1 then '\n' else b[1];
      }
    }
  }

  // ---------------------------------------------------------------------
  // One completion of text with a done line
  // ---------------------------------------------------------------------

  /** Text with a done line that no match of the blocked pattern runs through, a line feed behind it. */
  predicate Steady(a: string, b: string)
  {
    Standing(a, b) && !RunsOut(a + "**") && (b == "" || b[0] == '\n')
  }

  /** Completing takes out one match and keeps the done line. */
  lemma SteadyStep(a: string, b: string) returns (a': string, b': string)
    requires Steady(a, b)
    ensures Tidied(DropBlocked(Stood(a, b))) == Stood(a', b') && Steady(a', b')
    ensures MarkerCount(Stood(a', b')) == if MarkerCount(Stood(a, b)) == 0 then 0 else MarkerCount(Stood(a, b)) - 1
    ensures b' == "" || "\n\n" <= b' <==> Blank(Following(a, b))
    ensures Solid(b) ==> Solid(b')
  {
    hide NoMark, RunsOut, MarkerCount, Tidied, DropBlocked, Stood, TakesDone, Blank, Collapse, CheckAll, Solid;
    if TakesDone(a) { TakesRunsOut(a); }
    var c, e := DropStays(a, b);
    if !NoMark(a + "**", BLOCKED) { DropBefore(a, b); }
    DropRunsOut(a + "**");
    DropOpens(b);
    assert e == Following(a, b);
    TidiedStood(c, e);
    TidiedRunsOut(c);
    TidiedBlank(e);
    a', b' := CheckAll(Collapse(c)), Tidied(e);
    CountDrop(Stood(a, b));
    CountTidied(DropBlocked(Stood(a, b)));
    if Solid(b) {
      DropSolid(b);
      TidiedSolid(e);
    }
  }

  /** The text behind the done line when the block is taken out again. */
  function Spaced(b: string): string
  {
    if "\n\n" <= b then b else "\n" + b
  }

  lemma SpacedSteady(a: string, b: string)
    requires Steady(a, b)
    ensures Steady(a, Spaced(b)) && MarkerCount(Stood(a, Spaced(b))) == MarkerCount(Stood(a, b))
    ensures Blank(Following(a, Spaced(b))) && (Solid(b) ==> Solid(Spaced(b)))
  {
    hide NoMark, RunsOut, MarkerCount, Stood, DropBlocked, Solid;
    if Solid(b) { BreakSolid(b); }
    NewlineTerm();
    CountStood(a, b);
    CountStood(a, Spaced(b));
    BreakCount(b);
    if b == "" {
      LoneBreakDrop();
      assert Spaced(b) == "\n";
    } else {
      DropOpens(Spaced(b));
    }
  }

  lemma LoneBreakDrop()
    ensures DropBlocked("\n") == "\n" && Spaces("\n")
  {
    hide NoMark;
    LoneBreakUnmarked();
    NothingToDrop("\n");
    SpaceIsBreak();
  }

  lemma BreakCount(b: string)
    ensures MarkerCount("\n" + b) == MarkerCount(b)
  {
    hide MarkerCount, Marked;
    UnmarkedStart("\n" + b);
    CountOn("\n" + b);
    assert ("\n" + b)[1..] == b;
  }

  // ---------------------------------------------------------------------
  // The block behind the done line
  // ---------------------------------------------------------------------

  lemma DoneLineLen(rest: string)
    requires "\n" <= rest
    ensures StatusLineLen(DONE_LINE + rest) == Some(16 + SpanLen(rest, Newline))
  {
    hide SpanLen, LineLen;
    var x := DONE_LINE + rest;
    DoneMarked(rest);
    DoneTails(rest);
    SpanLenIs(x[11..], Space, 1);
    SpanLenIs(x[12..], NotLineTerm, 4);
    assert x[16] == x[16..][0];
    LineFromDone(x);
    assert LastLine(x, 11, 12) == 12;
    LineLenDone(x, rest);
  }

  lemma LineFromDone(x: string)
    requires |x| > 16 && SpanLen(x[12..], NotLineTerm) == 4 && x[16] == '\n' && !LineTerm(x[12])
    ensures LineFrom(x, 12)
  {
    hide SpanLen;
  }

  lemma LineLenDone(x: string, rest: string)
    requires |x| > 16 && SpanLen(x[12..], NotLineTerm) == 4 && LineFrom(x, 12) && x[16..] == rest
    ensures LineLen(x, 12) == 16 + SpanLen(rest, Newline)
  {
    hide SpanLen;
  }

  /** The block goes behind the done line and the breaks there. */
  lemma PlaceBehindDone(head: string, a: string, rest: string)
    requires Bare(head) && Standing(a, rest) && "\n" <= rest
    ensures BlockPlace(head, Stood(a, rest)) == Some(|a| + 16 + SpanLen(rest, Newline))
  {
    hide Marked, StatusLineLen, DONE_LINE, NoMark, SpanLen, Stood, Bare, First;
    var s, k, n := head + Stood(a, rest), |head| + |a|, SpanLen(rest, Newline);
    DoneBehind(head, a, rest, s, k);
    DoneLineLen(rest);
    BreaksAre(rest, n);
    forall i: nat | i < k ensures !StatusLineAt(s)(i) {
      StoodAt(head, a, rest, i);
      LineMarked(From(s, i));
    }
    assert StatusLineAt(s)(k);
    FirstIs(|s|, StatusLineAt(s), k);
    StoodSplit(a, rest);
    PlaceFrom(head, Stood(a, rest), k, 16 + n);
  }

  lemma PlaceFrom(head: string, x: string, k: nat, n: nat)
    requires var s := head + x;
             First(0, |s|, StatusLineAt(s)) == k && StatusLineLen(From(s, k)) == Some(n)
             && k + n <= |s| && k + n >= |head|
    ensures BlockPlace(head, x) == Some(k + n - |head|)
  {
    hide First, StatusLineLen;
  }

  /** A completed section with a done line: as `Steady` says, and text behind the line. */
  predicate Placed(w: string, t: string, last: bool, a: string, b: string)
  {
    w == Stood(a, b) && Steady(a, b) && Laid(w, t, last) && (t != "" || Solid(b))
  }

  lemma PlacedBreaks(w: string, t: string, last: bool, a: string, b: string)
    requires Placed(w, t, last, a, b)
    ensures "\n" <= b + t && Standing(a, b + t) && Stood(a, b) + t == Stood(a, b + t) && |w| == |a| + 16 + |b|
    ensures var n := SpanLen(b + t, Newline);
            && 1 <= n && (n >= 2 && b != "" <==> "\n\n" <= b) && (b == "" ==> n == 1)
  {
    hide *;
    PlacedParts(w, t, last, a, b);
    SteadyParts(a, b);
    LaidEnd(w, t, last);
    LaidParts(w, t, last);
    StoodMore(a, b, t);
    StoodSplit(a, b);
    BeyondOne(t, last);
    TailBreaks(w, a, b, t);
    StandingMore(a, b, t);
  }

  lemma StandingMore(a: string, b: string, t: string)
    requires Standing(a, b) && (b == "" || b[0] == '\n') && (t != "" ==> t[0] == '\n')
    ensures Standing(a, b + t)
  {
    hide NoMark;
    NewlineTerm();
  }

  lemma TailBreaks(w: string, a: string, b: string, t: string)
    requires |w| == |a| + 16 + |b| && w[|a| + 16..] == b && (w != "" ==> w[|w| - 1] != '\n')
    requires (b == "" || b[0] == '\n') && b + t != "" && (t != "" ==> t[0] == '\n' && (|t| == 1 || t[1] != '\n'))
    ensures "\n" <= b + t
    ensures var n := SpanLen(b + t, Newline);
            && 1 <= n && (n >= 2 && b != "" <==> "\n\n" <= b) && (b == "" ==> n == 1)
  {
    hide SpanLen;
    var x := b + t;
    BreaksAre(x, SpanLen(x, Newline));
    if b != "" {
      assert b[|b| - 1] == w[|w| - 1];
      assert |b| >= 2 && x[0] == b[0] && x[1] == b[1];
    } else {
      assert x == t;
    }
  }

  lemma BeyondOne(t: string, last: bool)
    requires Beyond(t, last)
    ensures t != "" ==> t[0] == '\n' && (|t| == 1 || t[1] != '\n')
  {
    if H3 <= t { assert t[1] == H3[1] && t[0] == H3[0]; }
  }

  /** Such a section is at rest exactly when no marker is left and an empty line follows, or nothing. */
  lemma PlacedRests(head: string, id: string, w: string, t: string, last: bool, a: string, b: string)
    requires TaskHead(head, id) && Placed(w, t, last, a, b)
    ensures AtRest(head, w + t, last) <==> MarkerCount(w) == 0 && (b == "" || "\n\n" <= b)
    ensures Respaced(head, w + t) == Stood(a, Spaced(b)) + t
  {
    hide *;
    HeadBare(head, id);
    PlacedParts(w, t, last, a, b);
    PlacedBreaks(w, t, last, a, b);
    LaidEnd(w, t, last);
    AtRestIs(head, w, t, last);
    CountZero(w);
    SteadyParts(a, b);
    StoodIsDone(a, b);
    DoneRests(w);
    PlaceBehindDone(head, a, b + t);
    var k := |a| + 16 + SpanLen(b + t, Newline);
    PlacedIndex(a, b, t, k);
    RespacedAt(head, w + t, k);
    SpacedIs(a, b, t, k);
  }

  lemma PlacedParts(w: string, t: string, last: bool, a: string, b: string)
    requires Placed(w, t, last, a, b)
    ensures w == Stood(a, b) && Steady(a, b) && Laid(w, t, last) && b + t != "" && (t != "" || Solid(b))
  {
    NothingSolid();
    hide Solid;
  }

  lemma SteadyParts(a: string, b: string)
    requires Steady(a, b)
    ensures Standing(a, b) && (b == "" || b[0] == '\n')
  {
  }

  lemma DoneRests(w: string)
    requires IsDone(w)
    ensures Rests(w)
  {
  }

  /** Which breaks stand at the place behind the done line. */
  lemma PlacedIndex(a: string, b: string, t: string, k: nat)
    requires k == |a| + 16 + SpanLen(b + t, Newline) && SpanLen(b + t, Newline) >= 1 && |Stood(a, b)| == |a| + 16 + |b|
    ensures var x := Stood(a, b) + t;
            k <= |x| && (x[k - 2] == '\n' <==> SpanLen(b + t, Newline) >= 2)
  {
    hide DONE_LINE, SpanLen;
    DoneShape();
    var x, n := Stood(a, b) + t, SpanLen(b + t, Newline);
    BreaksAre(b + t, n);
    StoodMore(a, b, t);
    StoodSplit(a, b + t);
    assert x[|a| + 16..] == b + t;
    assert n >= 2 ==> x[k - 2] == (b + t)[n - 2];
    StoodChars(a, b + t);
    NewlineTerm();
  }

  lemma SpacedIs(a: string, b: string, t: string, k: nat)
    requires k == |a| + 16 + SpanLen(b + t, Newline) && "\n" <= b + t && SpanLen(b + t, Newline) >= 1
    requires (SpanLen(b + t, Newline) >= 2 && b != "" <==> "\n\n" <= b) && (b == "" ==> SpanLen(b + t, Newline) == 1)
    requires b == "" || b[0] == '\n'
    ensures Stood(a, Spaced(b)) + t
            == if SpanLen(b + t, Newline) >= 2 then Stood(a, b) + t else Doubled(Stood(a, b) + t, k)
  {
    hide DONE_LINE, SpanLen;
    var n := SpanLen(b + t, Newline);
    BreaksAre(b + t, n);
    if n == 1 {
      StoodMore(a, b, t);
      StoodMore(a, "\n" + b, t);
      var x := Stood(a, b + t);
      assert x == (a + DONE_LINE) + (b + t);
      DoneShape();
      assert x[..k] == a + DONE_LINE + "\n" && x[k..] == (b + t)[1..];
      assert "\n" + b + t == "\n" + ("\n" + (b + t)[1..]);
    }
  }

  // ---------------------------------------------------------------------
  // On documents
  // ---------------------------------------------------------------------

  /** `n` calls with the same evidence. */
  function Repeated(c: Call, n: nat): seq<Call>
  {
    if n == 0 then [] else Repeated(c, n - 1) + [c]
  }

  lemma RunRepeated(markdown: string, c: Call, n: nat, isDate: string -> bool)
    requires n > 0
    ensures RunCalls(markdown, Repeated(c, n), isDate)
            == Apply(RunCalls(markdown, Repeated(c, n - 1), isDate), c, isDate)
  {
    hide Apply;
    var calls := Repeated(c, n);
    assert calls[..|calls| - 1] == Repeated(c, n - 1);
  }

  /**
   A section that completion leaves with its done line: it has no status mark or its first one has a value, the
   status line ends in a line feed, no match of the blocked pattern before it runs on through it, and something
   besides such matches stands behind it, or a heading follows what completion sees.
   */
  predicate KeepsDone(p: Piece, last: bool)
  {
    match DonePlace(p.head, Seen(p, last))
    case Between(a, b) => !RunsOut(a + "**") && (b == "" || b[0] == '\n')
      && (Solid(b) || |Seen(p, last)| < |Cleared(p)|)
    case Kept => false
  }

  /** With its first blocked match out, an empty line follows the section's status line, or nothing but spaces. */
  predicate BlankFollows(p: Piece, last: bool)
  {
    match DonePlace(p.head, Seen(p, last))
    case Between(a, b) => Blank(Following(a, b))
    case Kept => false
  }

  /** The section of task `k` after some verifications: `left` markers are left in it. */
  ghost predicate Running(d: Document, k: nat, id: string, es: seq<Item>, w: string, t: string, a: string, b: string,
                          left: nat)
  {
    && k < |d.pieces| && Served(d, k, id) && Removable(d.pieces[k].body) && Contained(es)
    && d.pieces[k].body == WithBlock(d.pieces[k].head, w + t, SerializeBlock(es)) && Plain(w + t)
    && Placed(w, t, Last(d, k), a, b) && MarkerCount(w) == left
  }

  lemma EndedSteady(head: string, a: string, b: string)
    requires Bare(head) && Literal(Stood(a, b)) && Standing(a, b)
    ensures Ended(head, Stood(a, b)) == Tidied(DropBlocked(Stood(a, b)))
  {
    hide DonePlace, NoMark, Literal, Bare, DropBlocked, Tidied, Stood, IsDone, Unvalued;
    StoodIsDone(a, b);
    RestsStays(head, Stood(a, b));
    DroppedIs(head, Stood(a, b));
  }

  lemma PlacedNext(head: string, w: string, t: string, last: bool, a: string, b: string)
    requires Placed(w, t, last, a, b)
    ensures NoH3(Stood(a, Spaced(b))) && Literal(Stood(a, Spaced(b))) && Beyond(t, last)
  {
    hide NoMark, RunsOut, NoH3, Literal, Laid, DONE_LINE;
    LaidParts(w, t, last);
    if !("\n\n" <= b) {
      var p := a + DONE_LINE;
      assert w == p + b && Stood(a, "\n" + b) == p + "\n" + b;
      BreakLowAt(p, b);
      BreakLiteralAt(p, b);
    }
  }

  lemma BreakLowAt(p: string, b: string)
    requires NoH3(p + b) && (b == "" || b[0] == '\n')
    ensures NoH3(p + "\n" + b)
  {
    hide At;
    var x, y := p + b, p + "\n" + b;
    forall i | 0 <= i <= |y| ensures !At(y, i, H3) {
      H3Chars(y, i);
      var j := if i <= |p| then i else i - 1;
      H3Chars(x, j);
      if 0 <= j <= |x| { assert !At(x, j, H3); }
      assert y[|p|] == '\n' && (|p| + 1 < |y| ==> y[|p| + 1] == b[0]);
    }
  }

  lemma BreakLiteralAt(p: string, b: string)
    requires Literal(p + b)
    ensures Literal(p + "\n" + b)
  {
    var x, y := p + b, p + "\n" + b;
    forall i | 0 <= i < |y| - 1 && y[i] == '$' ensures !PatternEnd(y[i + 1]) {
      if i < |p| {
        assert i + 1 < |p| ==> x[i] == y[i] && x[i + 1] == y[i + 1];
      } else {
        assert x[i - 1] == y[i] && x[i] == y[i + 1];
      }
    }
  }

  /** One more verification of a section that keeps its done line. */
  lemma RunsOn(d: Document, k: nat, id: string, es: seq<Item>, isDate: string -> bool, w: string, t: string, a: string,
               b: string, left: nat) returns (d': Document, w': string, a': string, b': string)
    requires Refusal(es, isDate) == None && Running(d, k, id, es, w, t, a, b, left)
    ensures Apply(Render(d), Call(id, es), isDate) == Render(d')
    ensures Render(d') == Render(d) <==> left == 0 && (b == "" || "\n\n" <= b)
    ensures Running(d', k, id, es, w', t, a', b', if left == 0 then 0 else left - 1) && (b' == "" || "\n\n" <= b')
  {
    hide *;
    RunningParts(d, k, id, es, w, t, a, b, left);
    d' := AppliedAgain(d, k, id, es, isDate, w, t);
    var head, last := d.pieces[k].head, Last(d, k);
    RunningHead(d, k, id);
    PlacedRests(head, id, w, t, last, a, b);
    PlacedParts(w, t, last, a, b);
    SpacedSteady(a, b);
    PlacedNext(head, w, t, last, a, b);
    CompletedIs(head, Stood(a, Spaced(b)), t, last);
    SteadyParts(a, Spaced(b));
    EndedSteady(head, a, Spaced(b));
    a', b' := SteadyStep(a, Spaced(b));
    w' := Stood(a', b');
    var v, s := NextLaid(d, k, id, es, isDate, w, t, w');
    RunningFrom(d', k, id, es, w', t, a', b', if left == 0 then 0 else left - 1);
  }

  lemma RunningParts(d: Document, k: nat, id: string, es: seq<Item>, w: string, t: string, a: string, b: string,
                     left: nat)
    requires Running(d, k, id, es, w, t, a, b, left)
    ensures k < |d.pieces| && Served(d, k, id) && Removable(d.pieces[k].body) && Contained(es)
    ensures d.pieces[k].body == WithBlock(d.pieces[k].head, w + t, SerializeBlock(es)) && Plain(w + t)
    ensures Placed(w, t, Last(d, k), a, b) && MarkerCount(w) == left && Laid(w, t, Last(d, k))
  {
    hide Served, Removable, Contained, WithBlock, Plain, Laid, MarkerCount, Last;
  }

  lemma RunningFrom(d: Document, k: nat, id: string, es: seq<Item>, w: string, t: string, a: string, b: string,
                    left: nat)
    requires k < |d.pieces| && Served(d, k, id) && Removable(d.pieces[k].body) && Contained(es)
    requires d.pieces[k].body == WithBlock(d.pieces[k].head, w + t, SerializeBlock(es)) && Plain(w + t)
    requires w == Stood(a, b) && Steady(a, b) && Laid(w, t, Last(d, k)) && (t != "" || Solid(b))
    requires MarkerCount(w) == left
    ensures Running(d, k, id, es, w, t, a, b, left)
  {
    hide Served, Removable, Contained, WithBlock, Plain, Laid, MarkerCount, Last, Steady;
  }

  lemma RunningHead(d: Document, k: nat, id: string)
    requires Served(d, k, id)
    ensures TaskHead(d.pieces[k].head, id) && Bare(d.pieces[k].head)
  {
    hide Led, Quiet, Bare, TaskHead;
    LedParts(d, k, id);
    HeadBare(d.pieces[k].head, id);
  }

  /** The completed text of a section that holds its block is laid out as every completed text is. */
  lemma NextLaid(d: Document, k: nat, id: string, es: seq<Item>, isDate: string -> bool, w: string, t: string,
                 w': string)
    returns (v: string, s: string)
    requires k < |d.pieces| && Served(d, k, id) && Removable(d.pieces[k].body)
    requires Refusal(es, isDate) == None && Laid(w, t, Last(d, k)) && Plain(w + t) && NoH3(w')
    requires d.pieces[k].body == WithBlock(d.pieces[k].head, w + t, SerializeBlock(es))
    requires Completed(d.pieces[k].head, Respaced(d.pieces[k].head, w + t), Last(d, k)) == w' + t
    ensures Laid(w', t, Last(d, k)) && Plain(w' + t)
  {
    hide *;
    SerializeIs(es);
    AcceptedEvidence(es, isDate);
    LaidParts(w, t, Last(d, k));
    RunningHead(d, k, id);
    v, s := CompletedLaid(d, k, id);
    RecordedNext(d.pieces[k], id, w + t, Last(d, k), CanonicalList(es));
    LaidParts(v, s, Last(d, k));
    CutAgain(v, s, Last(d, k));
    CutAgain(w', t, Last(d, k));
    SameCut(v, s, w', t, Last(d, k));
  }

  lemma SameCut(v: string, s: string, w: string, t: string, last: bool)
    requires v + s == w + t && Cut(v + s, last) == |v| && Cut(w + t, last) == |w|
    ensures v == w && s == t
  {
    hide Cut;
    assert (v + s)[..|v|] == v && (w + t)[..|w|] == w && (v + s)[|v|..] == s && (w + t)[|w|..] == t;
  }

  /** The first verification. */
  lemma RunsFirst(d: Document, k: nat, id: string, es: seq<Item>, isDate: string -> bool)
    returns (d': Document, w: string, t: string, a: string, b: string)
    requires k < |d.pieces| && Served(d, k, id) && Removable(d.pieces[k].body)
    requires Refusal(es, isDate) == None && Contained(es) && KeepsDone(d.pieces[k], Last(d, k))
    ensures var p, last := d.pieces[k], Last(d, k);
            var n := MarkersAround(p.head, Seen(p, last));
            && Apply(Render(d), Call(id, es), isDate) == Render(d')
            && Running(d', k, id, es, w, t, a, b, if n == 0 then 0 else n - 1)
            && (b == "" || "\n\n" <= b <==> BlankFollows(p, last))
  {
    hide *;
    ContainedParts(es);
    d', w, t := OnceLaid(d, k, id, es, isDate);
    a, b := FirstPlaced(d.pieces[k], Last(d, k), w, t);
    RunningPlaced(d', k, id, es, w, t, a, b);
  }

  lemma RunningPlaced(d: Document, k: nat, id: string, es: seq<Item>, w: string, t: string, a: string, b: string)
    requires k < |d.pieces| && Served(d, k, id) && Removable(d.pieces[k].body) && Contained(es)
    requires d.pieces[k].body == WithBlock(d.pieces[k].head, w + t, SerializeBlock(es)) && Plain(w + t)
    requires Placed(w, t, Last(d, k), a, b)
    ensures Running(d, k, id, es, w, t, a, b, MarkerCount(w))
  {
    hide Served, Removable, Contained, WithBlock, Plain, Placed, MarkerCount, Last;
  }

  /** What the first verification makes of a section that keeps its done line. */
  lemma FirstPlaced(p: Piece, last: bool, w: string, t: string) returns (a: string, b: string)
    requires KeepsDone(p, last) && Bare(p.head) && Literal(Seen(p, last))
    requires w == Ended(p.head, Seen(p, last)) && w + t == CompletedText(p, last) && Laid(w, t, last)
    ensures Placed(w, t, last, a, b) && (b == "" || "\n\n" <= b <==> BlankFollows(p, last))
    ensures var n := MarkersAround(p.head, Seen(p, last)); MarkerCount(w) == if n == 0 then 0 else n - 1
  {
    var u := Seen(p, last);
    hide *;
    var a0, b0 := KeptSides(p, last);
    SetDoneIs(p.head, u);
    BetweenIs(a0, b0, u);
    SteadyFrom(a0, b0);
    a, b := SteadyStep(a0, b0);
    EndedIs(p.head, u, a0, b0);
    SteadyParts(a0, b0);
    CountStood(a0, b0);
    AroundIs(p.head, u, a0, b0);
    if !Solid(b0) { TailLeft(p, last, w, t); }
    NewlineTerm();
    PlacedFrom(w, t, last, a, b);
  }

  lemma PlacedFrom(w: string, t: string, last: bool, a: string, b: string)
    requires w == Stood(a, b) && Steady(a, b) && Laid(w, t, last) && (t != "" || Solid(b))
    ensures Placed(w, t, last, a, b)
  {
    hide Solid, Steady, Laid;
  }

  lemma KeptSides(p: Piece, last: bool) returns (a: string, b: string)
    requires KeepsDone(p, last)
    ensures DonePlace(p.head, Seen(p, last)) == Between(a, b) && !RunsOut(a + "**") && (b == "" || b[0] == '\n')
    ensures (Solid(b) || |Seen(p, last)| < |Cleared(p)|) && (BlankFollows(p, last) <==> Blank(Following(a, b)))
  {
    hide DonePlace, Seen, Cleared, RunsOut, Blank, Following;
    a, b := DonePlace(p.head, Seen(p, last)).before, DonePlace(p.head, Seen(p, last)).behind;
  }

  lemma SteadyFrom(a: string, b: string)
    requires Standing(a, b) && !RunsOut(a + "**") && (b == "" || b[0] == '\n')
    ensures Steady(a, b) && (b == "" || LineTerm(b[0]))
  {
    hide RunsOut, NoMark;
  }

  lemma EndedIs(head: string, u: string, a: string, b: string)
    requires DonePlace(head, u) == Between(a, b)
    ensures Ended(head, u) == Tidied(DropBlocked(Stood(a, b)))
  {
    hide DonePlace, DropBlocked, Tidied, Stood;
  }

  lemma AroundIs(head: string, u: string, a: string, b: string)
    requires DonePlace(head, u) == Between(a, b)
    ensures MarkersAround(head, u) == MarkerCount(a + "**") + MarkerCount(b)
  {
    hide DonePlace, MarkerCount;
  }

  lemma TailLeft(p: Piece, last: bool, w: string, t: string)
    requires w == Ended(p.head, Seen(p, last)) && w + t == CompletedText(p, last) && Laid(w, t, last)
    requires |Seen(p, last)| < |Cleared(p)|
    requires Literal(Seen(p, last)) && Bare(p.head)
    ensures t != ""
  {
    var x := Cleared(p);
    var n := Cut(x, last);
    assert Seen(p, last) == x[..n] && CompletedText(p, last) == Completed(p.head, x, last);
    hide *;
    TailKept(p.head, x, last, w, t);
  }

  lemma TailKept(head: string, x: string, last: bool, w: string, t: string)
    requires Bare(head) && Cut(x, last) < |x| && Literal(x[..Cut(x, last)])
    requires w == Ended(head, x[..Cut(x, last)]) && w + t == Completed(head, x, last) && Laid(w, t, last)
    ensures t != ""
  {
    hide Cut, Ended, Completed, Laid, Literal, Bare, NoH3;
    LaidEnd(w, t, last);
    var u, rest := x[..Cut(x, last)], x[Cut(x, last)..];
    WholeCut(x, Cut(x, last));
    if t == "" {
      LastCut(x, last);
      CompletedIs(head, u, rest, last);
      LongerText(w, rest);
    }
  }

  lemma LongerText(w: string, t: string)
    requires t != ""
    ensures w + t != w && w + t != w + ""
  {
    assert w + "" == w && |w + t| > |w|;
  }

  lemma LastCut(x: string, last: bool)
    requires last
    ensures NoH3(x[..Cut(x, last)]) && Beyond(x[Cut(x, last)..], last)
  {
    CutSplits(x, last);
  }

  /** After `n` verifications as many matches of the blocked pattern are out. */
  lemma {:induction false} RunsLeft(d: Document, k: nat, id: string, es: seq<Item>, isDate: string -> bool, n: nat)
    returns (d': Document, w: string, t: string, a: string, b: string, left: nat)
    requires k < |d.pieces| && Served(d, k, id) && Removable(d.pieces[k].body) && n > 0
    requires Refusal(es, isDate) == None && Contained(es) && KeepsDone(d.pieces[k], Last(d, k))
    ensures var p, last := d.pieces[k], Last(d, k);
            var m := MarkersAround(p.head, Seen(p, last));
            && RunCalls(Render(d), Repeated(Call(id, es), n), isDate) == Render(d')
            && Running(d', k, id, es, w, t, a, b, left) && left == (if m <= n then 0 else m - n)
            && (b == "" || "\n\n" <= b <==> n >= 2 || BlankFollows(p, last))
    decreases n
  {
    hide *;
    RunRepeated(Render(d), Call(id, es), n, isDate);
    if n == 1 {
      RunNone(Render(d), Call(id, es), isDate);
      d', w, t, a, b := RunsFirst(d, k, id, es, isDate);
      var m := MarkersAround(d.pieces[k].head, Seen(d.pieces[k], Last(d, k)));
      left := if m <= 1 then 0 else m - 1;
    } else {
      var e, v, s, f, g, rest := RunsLeft(d, k, id, es, isDate, n - 1);
      t := s;
      d', w, a, b := RunsOn(e, k, id, es, isDate, v, s, f, g, rest);
      left := if rest == 0 then 0 else rest - 1;
    }
  }

  lemma RunNone(markdown: string, c: Call, isDate: string -> bool)
    ensures RunCalls(markdown, Repeated(c, 0), isDate) == markdown
  {
  }

  /**
   How often the same evidence has to be applied until the bytes rest, read off the section as it is given:
   as often as it holds matches of the blocked pattern, and once more if they are fewer than two and no empty
   line follows its status line.
   */
  lemma RestsAfter(d: Document, k: nat, id: string, es: seq<Item>, isDate: string -> bool, n: nat)
    requires k < |d.pieces| && Served(d, k, id) && Removable(d.pieces[k].body) && n > 0
    requires Refusal(es, isDate) == None && Contained(es) && KeepsDone(d.pieces[k], Last(d, k))
    ensures var p, last, c := d.pieces[k], Last(d, k), Call(id, es);
            RunCalls(Render(d), Repeated(c, n + 1), isDate) == RunCalls(Render(d), Repeated(c, n), isDate)
            <==> MarkersAround(p.head, Seen(p, last)) <= n && (n == 1 ==> BlankFollows(p, last))
  {
    hide *;
    var d', w, t, a, b, left := RunsLeft(d, k, id, es, isDate, n);
    RunRepeated(Render(d), Call(id, es), n + 1, isDate);
    var e, v, f, g := RunsOn(d', k, id, es, isDate, w, t, a, b, left);
  }
}
