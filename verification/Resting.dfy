/**
 When a section with its block is at rest: completing it once more, the block taken out and put back,
 gives the same text.
 */
module Resting {
  import opened Text
  import opened Markdown
  import opened Splicing
  import opened Documents
  import opened Sections
  import opened SectionEdits
  import opened Completion
  import opened Tidy
  import opened Markers
  import opened DoneLines
  import opened Completing
  import opened Outcomes
  import opened Reinserting

  /**
   No blocked marker stands in the part of `x` that completion sees, its status is settled, and an empty
   line follows the line that the block goes behind, or nothing follows it that completion sees.
   */
  predicate AtRest(head: string, x: string, last: bool)
  {
    var w := x[..Cut(x, last)];
    && NoMark(w, BLOCKED) && Rests(w)
    && match BlockPlace(head, x)
       case None => true
       case Some(k) => (2 <= k <= |x| && x[k - 2] == '\n') || k == |w| + 1
  }

  // ---------------------------------------------------------------------
  // Marks around line breaks
  // ---------------------------------------------------------------------

  lemma NoMarkPrefix(p: string, q: string, mark: string)
    requires NoMark(p + q, mark) && MarkShape(mark)
    ensures NoMark(p, mark) && NoMark(q, mark)
  {
    hide Marked;
    MarkNonempty(mark);
    PrefixNoMark(p + q, |p|, mark);
    assert (p + q)[..|p|] == p;
    forall i | 0 <= i <= |q| ensures !Marked(q[i..], mark) {
      assert (p + q)[|p| + i..] == q[i..];
    }
  }

  lemma NoMarkJoin(p: string, q: string, mark: string)
    requires EndsLine(p) && MarkShape(mark)
    ensures NoMark(p + q, mark) <==> NoMark(p, mark) && NoMark(q, mark)
  {
    hide Marked;
    if NoMark(p + q, mark) { NoMarkPrefix(p, q, mark); }
    if NoMark(p, mark) && NoMark(q, mark) {
      forall i | 0 <= i <= |p + q| ensures !Marked((p + q)[i..], mark) {
        MarksSplit(p, q, mark, i);
      }
    }
  }

  /** Another break behind a break makes and breaks no mark. */
  lemma NoMarkDoubled(p: string, q: string, mark: string)
    requires EndsLine(p) && MarkShape(mark)
    ensures NoMark(p + "\n" + q, mark) <==> NoMark(p + q, mark)
  {
    hide NoMark;
    NoMarkJoin(p, q, mark);
    NoMarkJoin(p + "\n", q, mark);
    if NoMark(p, mark) { BreakUnmarked(p, mark); }
    if NoMark(p + "\n", mark) { NoMarkPrefix(p, "\n", mark); }
  }

  lemma NoMarkSpaced(w: string, s: string, mark: string)
    requires (s == "\n" || s == "\n\n") && MarkShape(mark)
    ensures NoMark(w + s, mark) <==> NoMark(w, mark)
  {
    hide NoMark;
    if NoMark(w + s, mark) { NoMarkPrefix(w, s, mark); }
    if NoMark(w, mark) {
      BreakUnmarked(w, mark);
      BreakUnmarked(w + "\n", mark);
      assert w + "\n" + "\n" == w + "\n\n";
    }
  }

  // ---------------------------------------------------------------------
  // Status marks around line breaks
  // ---------------------------------------------------------------------

  /** A mark without a value stands at the end of trimmed text. */
  lemma UnvaluedEnds(w: string) returns (i: nat)
    requires Unvalued(w) && TrimEnd(w) == w
    ensures Trailing(w, i) && i + 11 == |w|
  {
    hide NoMark, First, Marked;
    NoFirst(w);
    i := FirstMarkFound(w);
    FrontNoMark(w, i);
    UnvaluedTail(w, i);
    TrimTwice(w);
  }

  lemma TrailingMore(w: string, i: nat, p: string, q: string, t: string)
    requires Trailing(w, i) && i + 11 == |w| && w == p + q && (p == "" || EndsLine(p)) && |p| <= i
    requires forall k :: 0 <= k < |t| ==> t[k] == '\n'
    ensures p != "" ==> Unvalued(p + "\n" + q + t)
    ensures Unvalued(w + t)
  {
    hide Marked, NoMark;
    MarkShapes();
    LineTermBreak();
    var m := w[i..];
    var x := w + t;
    assert x[i..i + 11] == w[i..i + 11];
    MarkFactor(w, i, x, i, STATUS);
    assert x[..i] == w[..i];
    TrailingUnvalued(x, i);
    if p != "" {
      var y := p + "\n" + q + t;
      assert y[i + 1..i + 12] == w[i..i + 11];
      MarkFactor(w, i, y, i + 1, STATUS);
      var c := w[|p|..i] + "**";
      assert w[..i] + "**" == p + c;
      assert y[..i + 1] + "**" == p + "\n" + c;
      NoMarkDoubled(p, c, STATUS);
      TrailingUnvalued(y, i + 1);
    }
  }

  lemma MarkUnbrokenEnd(w: string, i: nat, p: string)
    requires Trailing(w, i) && i + 11 == |w| && p <= w && EndsLine(p)
    ensures |p| <= i
  {
    hide Marked, NoMark;
    MarkText(w, i);
    assert w[|p| - 1] == p[|p| - 1];
    assert forall k :: i <= k < i + 11 ==> w[k] == w[i..i + 11][k - i];
  }

  lemma RestsSpaced(w: string, s: string)
    requires Rests(w) && TrimEnd(w) == w && (s == "\n" || s == "\n\n")
    ensures Rests(w + s)
  {
    hide IsDone, Unvalued, TrimEnd, Stood, NoMark;
    if IsDone(w) {
      var a, b := DoneIsStood(w);
      StoodMore(a, b, s);
      StoodIsDone(a, b + s);
    } else {
      var i := UnvaluedEnds(w);
      assert "" + w == w;
      TrailingMore(w, i, "", w, s);
    }
  }

  lemma StoodMore(a: string, b: string, s: string)
    ensures Stood(a, b) + s == Stood(a, b + s)
  {
    hide DONE_LINE;
  }

  lemma RestsDoubled(p: string, q: string)
    requires Rests(p + q) && TrimEnd(p + q) == p + q && EndsLine(p)
    ensures Rests(p + "\n" + q)
  {
    hide IsDone, Unvalued, TrimEnd, Stood, NoMark, DONE_LINE;
    var w := p + q;
    if IsDone(w) {
      var a, b := DoneIsStood(w);
      DoneShape();
      StoodDoubled(p, q, a, b);
    } else {
      var i := UnvaluedEnds(w);
      MarkUnbrokenEnd(w, i, p);
      TrailingMore(w, i, p, q, "");
      assert p + "\n" + q + "" == p + "\n" + q;
    }
  }

  lemma StoodDoubled(p: string, q: string, a: string, b: string)
    requires p + q == Stood(a, b) && Standing(a, b) && EndsLine(p)
    ensures IsDone(p + "\n" + q)
  {
    hide IsDone, Standing, Stood;
    BreakOutside(p, q, a, b);
    if |p| <= |a| { DoubledBefore(p, q, a, b); } else { DoubledBehind(p, q, a, b); }
  }

  lemma BreakOutside(p: string, q: string, a: string, b: string)
    requires p + q == Stood(a, b) && EndsLine(p)
    ensures (|p| <= |a| || |p| > |a| + 16) && |Stood(a, b)| == |a| + 16 + |b|
  {
    hide DONE_LINE;
    StoodChars(a, b);
    NewlineTerm();
    assert (p + q)[|p| - 1] == p[|p| - 1] == '\n';
  }

  lemma DoubledBefore(p: string, q: string, a: string, b: string)
    requires p + q == Stood(a, b) && Standing(a, b) && EndsLine(p) && |p| <= |a|
    ensures IsDone(p + "\n" + q)
  {
    hide IsDone, NoMark, DONE_LINE, Stood;
    MarkShapes();
    var c := a[|p|..];
    StoodCut(p, q, a, b);
    NoMarkDoubled(p, c + "**", STATUS);
    CutStars(p, a, c);
    StoodIsDone(p + "\n" + c, b);
    StoodBreak(p, c, b);
  }

  lemma CutStars(p: string, a: string, c: string)
    requires |p| <= |a| && p == a[..|p|] && c == a[|p|..]
    ensures p + (c + "**") == a + "**" && p + "\n" + (c + "**") == (p + "\n" + c) + "**"
  {
    assert a == p + c;
  }

  lemma StoodBreak(p: string, c: string, b: string)
    ensures Stood(p + "\n" + c, b) == p + "\n" + (c + DONE_LINE + b)
  {
    hide DONE_LINE;
  }

  lemma DoubledBehind(p: string, q: string, a: string, b: string)
    requires p + q == Stood(a, b) && Standing(a, b) && |p| > |a| + 16 && |Stood(a, b)| == |a| + 16 + |b|
    ensures IsDone(p + "\n" + q)
  {
    hide IsDone, NoMark, DONE_LINE;
    var n := |p| - |a| - 16;
    StoodCutBehind(p, q, a, b);
    var b' := b[..n] + "\n" + b[n..];
    assert b'[0] == b[0];
    StoodIsDone(a, b');
    assert Stood(a, b') == p + "\n" + q;
  }

  lemma NewlineTerm()
    ensures LineTerm('\n')
  {
  }

  lemma StoodCut(p: string, q: string, a: string, b: string)
    requires p + q == Stood(a, b) && |p| <= |a|
    ensures a == p + a[|p|..] && q == a[|p|..] + DONE_LINE + b
  {
    hide DONE_LINE;
    var w := Stood(a, b);
    assert w[..|p|] == p && w[|p|..] == q;
    assert w[..|p|] == a[..|p|] && w[|p|..] == a[|p|..] + DONE_LINE + b;
  }

  lemma StoodCutBehind(p: string, q: string, a: string, b: string)
    requires p + q == Stood(a, b) && |p| >= |a| + 16 && |Stood(a, b)| == |a| + 16 + |b|
    ensures var n := |p| - |a| - 16; n <= |b| && p == a + DONE_LINE + b[..n] && q == b[n..]
  {
    hide DONE_LINE;
    DoneShape();
    var w, n := Stood(a, b), |p| - |a| - 16;
    assert w[..|p|] == p && w[|p|..] == q;
    assert w[..|p|] == a + DONE_LINE + b[..n] && w[|p|..] == b[n..];
  }

  // ---------------------------------------------------------------------
  // Completing a text with more breaks in it
  // ---------------------------------------------------------------------

  lemma EndedOf(head: string, u: string)
    requires Bare(head) && Literal(u) && Rests(u) && NoMark(u, BLOCKED)
    ensures Ended(head, u) == Tidied(u)
  {
    hide DonePlace, NoMark, Literal, Bare, Rests, DropBlocked, Tidied;
    RestsStays(head, u);
    NothingToDrop(u);
  }

  /** A text that completing leaves shorter by less than a marker's length was at rest. */
  lemma SlightlyShorter(head: string, u: string, w: string)
    requires Bare(head) && Literal(u) && Ended(head, u) == w && |u| <= |w| + 2
    ensures Rests(w) && (Rests(u) ==> NoMark(u, BLOCKED))
  {
    hide DonePlace, NoMark, Literal, Bare, IsDone, Unvalued, TakesDone, DropBlocked, Tidied, Stood, Ended;
    EndedStatus(head, u);
    if Rests(u) && !NoMark(u, BLOCKED) {
      RestsStays(head, u);
      DroppedIs(head, u);
      DroppedShrinks(u);
    }
    if !Rests(w) {
      KeptExactly(head, u);
      if DonePlace(head, u).Between? {
        TakenShrinks(head, u);
      } else {
        DroppedIs(head, u);
        KeptShrinks(u);
      }
    }
  }

  lemma DroppedIs(head: string, u: string)
    requires WithDone(DonePlace(head, u), u) == u
    ensures Ended(head, u) == Tidied(DropBlocked(u))
  {
  }

  lemma KeptShrinks(u: string)
    requires Unvalued(u) && NoMark(DropBlocked(u), STATUS)
    ensures |Tidied(DropBlocked(u))| + 11 <= |u|
  {
    hide NoMark, DropBlocked, Tidied, First;
    if NoMark(u, BLOCKED) {
      NothingToDrop(u);
      NoFirst(u);
    } else {
      DroppedShrinks(u);
    }
  }

  lemma TidiedParts(w: string)
    requires Tidied(w) == w
    ensures NoTriple(w) && TrimEnd(w) == w && CheckAll(w) == w && (w != "" ==> w[|w| - 1] != '\n')
  {
    TidiedTidy(w);
    TrimTwice(w);
    SpaceIsBreak();
  }

  lemma SpacedTidies(w: string, s: string)
    requires Tidied(w) == w && (s == "\n" || s == "\n\n")
    ensures Tidied(w + s) == w
  {
    hide Tidied, NoTriple, TrimEnd, CheckAll, Collapse;
    TidiedParts(w);
    NoTripleSpaced(w, s);
    CollapseKeeps(w + s);
    SpaceIsBreak();
    SpacesTrim(s);
    TrimSpaces(w, s);
    TidiedUnfolds(w + s, w + s, w);
  }

  lemma TidiedUnfolds(x: string, c: string, t: string)
    requires Collapse(x) == c && TrimEnd(c) == t
    ensures Tidied(x) == CheckAll(t)
  {
  }

  lemma NoTripleSpaced(w: string, s: string)
    requires NoTriple(w) && (s == "\n" || s == "\n\n") && (w != "" ==> w[|w| - 1] != '\n')
    ensures NoTriple(w + s)
  {
    var x := w + s;
    forall i | 0 <= i < |x| - 2 ensures !(x[i] == '\n' && x[i + 1] == '\n' && x[i + 2] == '\n') {
      if i + 2 < |w| {
        assert !(w[i] == '\n' && w[i + 1] == '\n' && w[i + 2] == '\n');
      } else if i < |w| {
        assert x[|w| - 1] == w[|w| - 1];
      }
    }
  }

  lemma SpacedLiteral(w: string, s: string)
    requires Literal(w) && (s == "\n" || s == "\n\n")
    ensures Literal(w + s)
  {
    LiteralConcat(w, s);
  }

  /** Breaks at the end of a tidy text go again exactly when it is at rest. */
  lemma EndedSpaced(head: string, w: string, s: string)
    requires Bare(head) && Literal(w) && Tidied(w) == w && (s == "\n" || s == "\n\n")
    ensures Ended(head, w + s) == w <==> NoMark(w, BLOCKED) && Rests(w)
  {
    hide Tidied, NoMark, Literal, Bare, Rests, Ended;
    MarkShapes();
    SpacedLiteral(w, s);
    TidiedParts(w);
    NoMarkSpaced(w, s, BLOCKED);
    if Rests(w) { RestsSpaced(w, s); }
    if NoMark(w, BLOCKED) && Rests(w) {
      EndedOf(head, w + s);
      SpacedTidies(w, s);
    }
    if Ended(head, w + s) == w {
      SlightlyShorter(head, w + s, w);
    }
  }

  lemma DoubledLiteral(p: string, q: string)
    requires Literal(p + q) && EndsLine(p)
    ensures Literal(p + "\n" + q)
  {
    var x, y := p + q, p + "\n" + q;
    forall i | 0 <= i < |y| - 1 && y[i] == '$' ensures !PatternEnd(y[i + 1]) {
      if i < |p| {
        assert i + 1 < |p| ==> x[i] == y[i] && x[i + 1] == y[i + 1];
      } else {
        assert x[i - 1] == y[i] && x[i] == y[i + 1];
      }
    }
  }

  lemma CheckDoubled(p: string, q: string)
    requires EndsLine(p) && CheckAll(p + q) == p + q
    ensures CheckAll(p + "\n" + q) == p + "\n" + q
  {
    hide CheckAll, Ticks;
    CheckLines(p, q);
    CheckAllTicks(p);
    TicksSize(p, CheckAll(p));
    assert (p + q)[..|p|] == p && (CheckAll(p) + CheckAll(q))[..|p|] == CheckAll(p);
    assert (p + q)[|p|..] == q && (CheckAll(p) + CheckAll(q))[|p|..] == CheckAll(q);
    CheckLines(p + "\n", q);
    CheckLines(p, "\n");
    LoneBreak();
  }

  lemma LoneBreak()
    ensures CheckAll("\n") == "\n"
  {
    DashlessStays("\n");
  }

  /** Another break inside a tidy text leaves it tidy, so completing never takes it out. */
  lemma DoubledTidy(w: string, k: nat)
    requires Tidied(w) == w && 0 < k < |w| && w[k - 1] == '\n' && w[k] != '\n' && !(k >= 2 && w[k - 2] == '\n')
    ensures Tidied(Doubled(w, k)) == Doubled(w, k)
  {
    hide Tidied, NoTriple, TrimEnd, CheckAll, Collapse;
    var p, q := w[..k], w[k..];
    var y := p + "\n" + q;
    TidiedParts(w);
    assert w == p + q;
    DoubledNoTriple(w, k);
    CollapseKeeps(y);
    TrimTwice(w);
    TrimmedEnd(w, y);
    CheckDoubled(p, q);
    TidiedUnfolds(y, y, y);
  }

  lemma TrimmedEnd(x: string, y: string)
    requires TrimEnd(x) == x && x != "" && y != "" && y[|y| - 1] == x[|x| - 1]
    ensures TrimEnd(y) == y
  {
    TrimTwice(x);
  }

  lemma EndedDoubled(head: string, w: string, k: nat)
    requires Bare(head) && Literal(w) && Tidied(w) == w
    requires 0 < k < |w| && w[k - 1] == '\n' && w[k] != '\n' && !(k >= 2 && w[k - 2] == '\n')
    ensures var y := Doubled(w, k);
            && Ended(head, y) != w && Literal(y) && Tidied(y) == y
            && (NoMark(y, BLOCKED) <==> NoMark(w, BLOCKED)) && (Rests(w) ==> Rests(y))
            && (NoMark(w, BLOCKED) && Rests(w) ==> Ended(head, y) == y)
  {
    hide Tidied, NoMark, Literal, Bare, Rests, Ended;
    var p, q := w[..k], w[k..];
    var y := p + "\n" + q;
    assert w == p + q;
    MarkShapes();
    DoubledLiteral(p, q);
    DoubledTidy(w, k);
    NoMarkDoubled(p, q, BLOCKED);
    TidiedParts(w);
    if Rests(w) {
      RestsDoubled(p, q);
      if NoMark(w, BLOCKED) { EndedOf(head, y); }
    }
    if Ended(head, y) == w { SlightlyShorter(head, y, w); }
  }

  // ---------------------------------------------------------------------
  // Exactly when a section is at rest
  // ---------------------------------------------------------------------

  /** What a section is once it is completed: what completion sees, tidy, and the rest behind it. */
  predicate Laid(w: string, t: string, last: bool)
  {
    Tidied(w) == w && NoH3(w) && Beyond(t, last) && Literal(w) && NoTriple(w + t)
  }

  lemma LaidEnd(w: string, t: string, last: bool)
    requires Laid(w, t, last)
    ensures Cut(w + t, last) == |w| && (w != "" ==> w[|w| - 1] != '\n') && (t != "" ==> t[0] == '\n')
    ensures (t == "" ==> last)
    ensures (w + t)[..|w|] == w && (w + t)[|w|..] == t
  {
    hide Cut, Tidied, NoH3, Literal, NoTriple, Beyond;
    CutAgain(w, t, last);
    TidiedParts(w);
    if t != "" { OpensBreak(t, last); } else { NothingBeyond(last); }
  }

  lemma NothingBeyond(last: bool)
    ensures Beyond("", last) ==> last
  {
  }

  /** An empty line at the block's place: completing decides. */
  lemma BlankRests(head: string, w: string, t: string, last: bool)
    requires Bare(head) && Laid(w, t, last)
    ensures Completed(head, w + t, last) == w + t <==> NoMark(w, BLOCKED) && Rests(w)
  {
    hide *;
    LaidParts(w, t, last);
    CompletedIs(head, w, t, last);
    EndedRests(head, w);
    SuffixDiffers(Ended(head, w), w, t);
  }

  lemma LaidParts(w: string, t: string, last: bool)
    requires Laid(w, t, last)
    ensures Tidied(w) == w && NoH3(w) && Beyond(t, last) && Literal(w) && NoTriple(w + t)
  {
  }

  /** Nothing that completion sees behind the block's place: the added breaks are trimmed away. */
  lemma SpacedRests(head: string, w: string, s: string, t: string, last: bool)
    requires Bare(head) && Laid(w, t, last) && (s == "\n" || s == "\n\n")
    ensures Completed(head, w + s + t, last) == w + t <==> NoMark(w, BLOCKED) && Rests(w)
  {
    hide *;
    LaidParts(w, t, last);
    SpacedLiteral(w, s);
    SpacedLow(w, s);
    CompletedIs(head, w + s, t, last);
    EndedSpaced(head, w, s);
    SuffixDiffers(Ended(head, w + s), w, t);
  }

  lemma SpacedLow(w: string, s: string)
    requires NoH3(w) && (s == "\n" || s == "\n\n")
    ensures NoH3(w + s)
  {
    hide NoH3;
    BreakLow(w);
    BreakLow(w + "\n");
    assert w + "\n" + "\n" == w + "\n\n";
  }

  lemma DoubledLow(w: string, k: nat)
    requires NoH3(w) && 0 < k < |w| && w[k - 1] == '\n'
    ensures NoH3(Doubled(w, k))
  {
    hide At;
    var y := Doubled(w, k);
    forall i | 0 <= i <= |y| ensures !At(y, i, H3) {
      H3Chars(y, i);
      var j := if i < k then i else i - 1;
      H3Chars(w, j);
      if 0 <= j <= |w| { assert !At(w, j, H3); }
      assert y[k] == '\n';
    }
  }

  /** A single break in what completion sees is doubled, and stays so. */
  lemma InnerDoubled(head: string, w: string, t: string, last: bool, k: nat)
    requires Bare(head) && Laid(w, t, last)
    requires 0 < k < |w| && w[k - 1] == '\n' && w[k] != '\n' && !(k >= 2 && w[k - 2] == '\n')
    ensures var y := Doubled(w, k);
            && Completed(head, y + t, last) != w + t
            && (NoMark(w, BLOCKED) && Rests(w) ==>
                Completed(head, y + t, last) == y + t && NoMark(y, BLOCKED) && Rests(y))
            && Tidied(y) == y && NoH3(y) && Literal(y)
  {
    hide *;
    LaidParts(w, t, last);
    EndedDoubled(head, w, k);
    DoubledLow(w, k);
    var y := Doubled(w, k);
    CompletedIs(head, y, t, last);
    SuffixDiffers(Ended(head, y), w, t);
  }

  lemma BeyondDoubled(t: string, last: bool, j: nat)
    requires Beyond(t, last) && 1 < j <= |t| && t[j - 1] == '\n'
    ensures Beyond(Doubled(t, j), last)
  {
    var y := Doubled(t, j);
    assert H3 <= t;
    assert t[0] == H3[0] && t[1] == H3[1] && t[2] == H3[2] && t[3] == H3[3];
    assert j > 4;
    assert y[..4] == t[..4];
    if !last { assert y[|y| - 1] == if j < |t| then t[|t| - 1] else '\n'; }
  }

  /** So is one behind what completion sees. */
  lemma OuterDoubled(head: string, w: string, t: string, last: bool, j: nat)
    requires Bare(head) && Laid(w, t, last) && 1 < j <= |t| && t[j - 1] == '\n'
    ensures var y := Doubled(t, j);
            && Completed(head, w + y, last) != w + t && Beyond(y, last)
            && (NoMark(w, BLOCKED) && Rests(w) ==> Completed(head, w + y, last) == w + y)
  {
    hide *;
    LaidParts(w, t, last);
    BeyondDoubled(t, last, j);
    var y := Doubled(t, j);
    CompletedIs(head, w, y, last);
    EndedRests(head, w);
    CutAgain(Ended(head, w), y, last);
    CutAgain(w, t, last);
    DoubledAt(t, j);
    LongerTail(Ended(head, w), y, w, t, last);
  }

  lemma LongerTail(v: string, y: string, w: string, t: string, last: bool)
    requires Cut(v + y, last) == |v| && Cut(w + t, last) == |w| && |y| != |t|
    ensures v + y != w + t
  {
    hide Cut;
  }

  lemma DoubledSplit(w: string, t: string, k: nat)
    requires k <= |w + t|
    ensures k <= |w| ==> Doubled(w + t, k) == Doubled(w, k) + t
    ensures k > |w| ==> Doubled(w + t, k) == w + Doubled(t, k - |w|)
    ensures k == |w| + 1 && t[0] == '\n' ==> Doubled(w + t, k) == w + "\n" + t
  {
    if k <= |w| { DoubledFront(w, t, k); } else { DoubledBack(w, t, k); }
    if k == |w| + 1 && t[0] == '\n' { DoubledSeam(w, t); }
  }

  lemma DoubledFront(w: string, t: string, k: nat)
    requires k <= |w|
    ensures Doubled(w + t, k) == Doubled(w, k) + t
  {
  }

  lemma DoubledBack(w: string, t: string, k: nat)
    requires |w| <= k <= |w + t|
    ensures Doubled(w + t, k) == w + Doubled(t, k - |w|)
  {
  }

  lemma DoubledSeam(w: string, t: string)
    requires t != "" && t[0] == '\n'
    ensures Doubled(w + t, |w| + 1) == w + "\n" + t
  {
    assert (w + t)[..|w| + 1] == w + "\n" && t == "\n" + t[1..];
  }

  lemma UnbrokenTail(w: string, t: string)
    requires '\n' !in w + t && (t != "" ==> t[0] == '\n')
    ensures t == "" && w + t == w
  {
    assert forall c | c in t :: c in w + t;
  }

  /** Completing a section, its block taken out, gives what was there before exactly when it is at rest. */
  lemma RestsExactly(head: string, id: string, w: string, t: string, last: bool)
    requires TaskHead(head, id) && Laid(w, t, last)
    ensures Completed(head, Respaced(head, w + t), last) == w + t <==> AtRest(head, w + t, last)
  {
    hide *;
    HeadBare(head, id);
    BlockPlaceIs(head, id, w + t);
    LaidEnd(w, t, last);
    AtRestIs(head, w, t, last);
    match BlockPlace(head, w + t)
    case None =>
      UnbrokenTail(w, t);
      SpacedRests(head, w, "\n\n", t, last);
      RespacedNone(head, w + t);
      assert w + "\n\n" + t == w + t + "\n\n";
    case Some(k) =>
      RestsAt(head, w, t, last, k);
  }

  lemma RestsAt(head: string, w: string, t: string, last: bool, k: nat)
    requires Bare(head) && Laid(w, t, last) && BlockPlace(head, w + t) == Some(k)
    requires 0 < k <= |w + t| && (w + t)[k - 1] == '\n' && (k < |w + t| ==> (w + t)[k] != '\n')
    ensures Completed(head, Respaced(head, w + t), last) == w + t
            <==> NoMark(w, BLOCKED) && Rests(w) && ((k >= 2 && (w + t)[k - 2] == '\n') || k == |w| + 1)
  {
    hide *;
    LaidEnd(w, t, last);
    RespacedAt(head, w + t, k);
    if k >= 2 && (w + t)[k - 2] == '\n' {
      BlankRests(head, w, t, last);
    } else {
      PlaceIndex(w, t, k);
      DoubledSplit(w, t, k);
      if k <= |w| {
        InnerDoubled(head, w, t, last, k);
      } else if k == |w| + 1 {
        SpacedRests(head, w, "\n", t, last);
      } else {
        OuterDoubled(head, w, t, last, k - |w|);
      }
    }
  }

  lemma PlaceIndex(w: string, t: string, k: nat)
    requires 0 < k <= |w + t| && (w + t)[k - 1] == '\n' && (k < |w + t| ==> (w + t)[k] != '\n')
    requires w != "" ==> w[|w| - 1] != '\n'
    ensures k <= |w| ==> k < |w| && w[k - 1] == '\n' && w[k] != '\n' && (k >= 2 ==> w[k - 2] == (w + t)[k - 2])
    ensures k > |w| ==> k - |w| <= |t| && t[k - |w| - 1] == '\n'
  {
  }

  lemma BlockPlaceIs(head: string, id: string, x: string)
    requires TaskHead(head, id)
    ensures match BlockPlace(head, x)
            case None => '\n' !in x
            case Some(k) => 0 < k <= |x| && x[k - 1] == '\n' && (k < |x| ==> x[k] != '\n')
  {
    hide BlockPlace, NoStatusLine, BlockAnchor, Find, StatusAnchor;
    AnchorIs(head, id, x);
  }

  lemma RespacedNone(head: string, x: string)
    requires BlockPlace(head, x) == None
    ensures Respaced(head, x) == x + "\n\n"
  {
    hide BlockPlace;
  }

  lemma RespacedAt(head: string, x: string, k: nat)
    requires BlockPlace(head, x) == Some(k) && k <= |x|
    ensures Respaced(head, x) == if k >= 2 && x[k - 2] == '\n' then x else Doubled(x, k)
  {
    hide BlockPlace;
  }

  lemma AtRestIs(head: string, w: string, t: string, last: bool)
    requires Cut(w + t, last) == |w|
    ensures AtRest(head, w + t, last) <==>
              NoMark(w, BLOCKED) && Rests(w)
              && match BlockPlace(head, w + t)
                 case None => true
                 case Some(k) => (2 <= k <= |w + t| && (w + t)[k - 2] == '\n') || k == |w| + 1
  {
    hide Cut, BlockPlace, NoMark, Rests;
    assert (w + t)[..|w|] == w;
  }

  /** A text not at rest only for want of an empty line comes to rest with one. */
  lemma NextRests(head: string, id: string, w: string, t: string, last: bool)
    requires TaskHead(head, id) && Laid(w, t, last) && NoMark(w, BLOCKED) && Rests(w) && !AtRest(head, w + t, last)
    ensures Completed(head, Respaced(head, w + t), last) == Respaced(head, w + t)
    ensures AtRest(head, Respaced(head, w + t), last)
  {
    hide *;
    HeadBare(head, id);
    BlockPlaceIs(head, id, w + t);
    LaidEnd(w, t, last);
    AtRestIs(head, w, t, last);
    var k := BlockPlace(head, w + t).value;
    RespacedAt(head, w + t, k);
    PlaceGrows(head, id, w + t, k);
    NextAt(head, w, t, last, k);
  }

  lemma NextAt(head: string, w: string, t: string, last: bool, k: nat)
    requires Bare(head) && Laid(w, t, last) && NoMark(w, BLOCKED) && Rests(w) && k != |w| + 1
    requires 0 < k <= |w + t| && (w + t)[k - 1] == '\n' && (k < |w + t| ==> (w + t)[k] != '\n')
    requires !(k >= 2 && (w + t)[k - 2] == '\n') && BlockPlace(head, Doubled(w + t, k)) == Some(k + 1)
    ensures Completed(head, Doubled(w + t, k), last) == Doubled(w + t, k) && AtRest(head, Doubled(w + t, k), last)
  {
    hide *;
    LaidEnd(w, t, last);
    PlaceIndex(w, t, k);
    if k <= |w| { NextInner(head, w, t, last, k); } else { NextOuter(head, w, t, last, k); }
  }

  lemma NextInner(head: string, w: string, t: string, last: bool, k: nat)
    requires Bare(head) && Laid(w, t, last) && NoMark(w, BLOCKED) && Rests(w)
    requires 0 < k < |w| && w[k - 1] == '\n' && w[k] != '\n' && !(k >= 2 && w[k - 2] == '\n')
    requires BlockPlace(head, Doubled(w + t, k)) == Some(k + 1)
    ensures Completed(head, Doubled(w + t, k), last) == Doubled(w + t, k) && AtRest(head, Doubled(w + t, k), last)
  {
    hide *;
    LaidParts(w, t, last);
    DoubledSplit(w, t, k);
    InnerDoubled(head, w, t, last, k);
    InnerRests(head, w, t, last, k);
  }

  lemma NextOuter(head: string, w: string, t: string, last: bool, k: nat)
    requires Bare(head) && Laid(w, t, last) && NoMark(w, BLOCKED) && Rests(w)
    requires |w| + 1 < k <= |w + t| && (w + t)[k - 1] == '\n' && t[k - |w| - 1] == '\n'
    requires BlockPlace(head, Doubled(w + t, k)) == Some(k + 1)
    ensures Completed(head, Doubled(w + t, k), last) == Doubled(w + t, k) && AtRest(head, Doubled(w + t, k), last)
  {
    hide *;
    LaidParts(w, t, last);
    DoubledSplit(w, t, k);
    OuterDoubled(head, w, t, last, k - |w|);
    OuterRests(head, w, t, last, k);
  }

  lemma DoubledAt(x: string, k: nat)
    requires 0 < k <= |x| && x[k - 1] == '\n'
    ensures var y := Doubled(x, k); |y| == |x| + 1 && y[k - 1] == '\n' && 2 <= k + 1 <= |y|
  {
  }

  lemma InnerRests(head: string, w: string, t: string, last: bool, k: nat)
    requires 0 < k < |w| && w[k - 1] == '\n' && Beyond(t, last)
    requires var y := Doubled(w, k); NoMark(y, BLOCKED) && Rests(y) && NoH3(y)
    requires BlockPlace(head, Doubled(w + t, k)) == Some(k + 1)
    ensures AtRest(head, Doubled(w, k) + t, last)
  {
    hide NoMark, Rests, NoH3, Beyond, BlockPlace, Cut;
    var y := Doubled(w, k);
    assert Doubled(w + t, k) == y + t by { DoubledSplit(w, t, k); }
    CutAgain(y, t, last);
    assert (y + t)[..|y|] == y;
    assert (y + t)[k - 1] == y[k - 1] == w[k - 1];
  }

  lemma OuterRests(head: string, w: string, t: string, last: bool, k: nat)
    requires |w| < k <= |w + t| && (w + t)[k - 1] == '\n' && NoH3(w) && NoMark(w, BLOCKED) && Rests(w)
    requires Beyond(Doubled(t, k - |w|), last)
    requires BlockPlace(head, Doubled(w + t, k)) == Some(k + 1)
    ensures AtRest(head, w + Doubled(t, k - |w|), last)
  {
    hide NoMark, Rests, NoH3, Beyond, BlockPlace, Cut;
    var y := Doubled(t, k - |w|);
    assert Doubled(w + t, k) == w + y by { DoubledSplit(w, t, k); }
    CutAgain(w, y, last);
    assert (w + y)[..|w|] == w;
    assert (w + y)[k - 1] == (w + t)[k - 1];
  }
}
