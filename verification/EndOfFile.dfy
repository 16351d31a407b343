/**
 A document that ends at the status line of its last task: with no line break behind that line, the block goes
 behind the title instead.
 */
module EndOfFile {
  import opened Text
  import opened Markdown
  import opened Evidence
  import opened Splicing
  import opened Verification
  import opened Documents
  import opened Sections
  import opened SectionEdits
  import opened Blocks
  import opened Completion
  import opened Ledger
  import opened Tidy
  import opened Markers
  import opened DoneLines
  import opened Completing
  import opened Outcomes
  import opened Reinserting
  import opened Resting
  import opened Reapplying
  import opened Repeating

  /** No empty line follows the first line of `x`, though another one does. */
  predicate LoneTitle(x: string)
  {
    var j := SpanLen(x, NotNewline);
    j < |x| && (j + 1 == |x| || x[j + 1] != '\n')
  }

  lemma LoneAt(x: string, j: nat)
    requires j < |x| && x[j] == '\n' && forall i :: 0 <= i < j ==> x[i] != '\n'
    ensures LoneTitle(x) <==> j + 1 == |x| || x[j + 1] != '\n'
  {
    SpanLenIs(x, NotNewline, j);
  }

  lemma LoneNever(x: string)
    requires '\n' !in x
    ensures !LoneTitle(x)
  {
    assert forall i :: 0 <= i < |x| ==> x[i] in x;
    SpanLenIs(x, NotNewline, |x|);
  }

  lemma LoneStep(x: string)
    requires x != "" && x[0] != '\n'
    ensures LoneTitle(x) <==> LoneTitle(x[1..])
  {
    assert x == x[..1] + x[1..];
    if '\n' in x[1..] {
      var j := FirstBreak(x[1..]);
      LoneAt(x[1..], j);
      LoneAt(x, j + 1);
    } else {
      LoneNever(x[1..]);
      LoneNever(x);
    }
  }

  lemma {:induction false} LoneCollapse(x: string)
    ensures LoneTitle(Collapse(x)) <==> LoneTitle(x)
    decreases |x|
  {
    hide Collapse, LoneTitle;
    if x == "" {
      NothingCollapses();
    } else {
      var k, front := CollapseStep(x);
      var y := Collapse(x);
      CollapseStart(x[k..]);
      BreaksAre(x, SpanLen(x, Newline));
      if x[0] != '\n' {
        assert y[1..] == Collapse(x[1..]);
        LoneStep(x);
        LoneStep(y);
        LoneCollapse(x[1..]);
      } else {
        LoneAt(x, 0);
        LoneAt(y, 0);
        assert k >= 2 ==> front == "\n\n" && y[1] == '\n' && x[1] == '\n';
        assert k == 1 ==> front == "\n" && y == "\n" + Collapse(x[1..]);
      }
    }
  }

  lemma LoneTicks(x: string, y: string)
    requires Ticks(x, y)
    ensures LoneTitle(x) <==> LoneTitle(y)
  {
    hide LoneTitle;
    if '\n' in x {
      var j := FirstBreak(x);
      LoneAt(x, j);
      LoneAt(y, j);
    } else {
      LoneNever(x);
      assert forall c | c in y :: c in x || c == 'x';
      LoneNever(y);
    }
  }

  /** Tidying keeps whether an empty line follows the title. */
  lemma LoneTidied(a: string)
    requires Standing(a, "")
    ensures LoneTitle(Stood(CheckAll(Collapse(a)), "")) <==> LoneTitle(Stood(a, ""))
  {
    hide LoneTitle, Collapse, CheckAll, NoMark, Stood, Ticks;
    NothingCollapses();
    CollapseStood(a, "");
    LoneCollapse(Stood(a, ""));
    var c := Collapse(a);
    CheckStood(c, "");
    NothingChecks();
    CheckAllTicks(Stood(c, ""));
    LoneTicks(Stood(c, ""), CheckAll(Stood(c, "")));
  }

  lemma NothingChecks()
    ensures CheckAll("") == ""
  {
  }

  lemma NoLineAtEnd(head: string, a: string)
    requires Bare(head) && Standing(a, "")
    ensures NoStatusLine(head + Stood(a, ""))
  {
    hide Marked, StatusLineLen, DONE_LINE, NoMark, Stood, Bare;
    DoneShape();
    var s, k := head + Stood(a, ""), |head| + |a|;
    StoodSplit(a, "");
    assert DONE_LINE + "" == DONE_LINE && s[k..] == Stood(a, "")[|a|..];
    forall i | 0 <= i <= |s| ensures StatusLineLen(s[i..]).None? {
      if i < k {
        LineMarked(s[i..]);
        StoodAt(head, a, "", i);
        assert From(s, i) == s[i..];
      } else {
        LineBreak(s[i..]);
        assert s[i..] == DONE_LINE[i - k..];
      }
    }
  }

  /** A section that ends at its done line is at rest exactly when an empty line follows its title, or nothing. */
  lemma RestsAlone(head: string, id: string, a: string)
    requires TaskHead(head, id) && Standing(a, "") && NoMark(Stood(a, ""), BLOCKED) && Laid(Stood(a, ""), "", true)
    ensures AtRest(head, Stood(a, "") + "", true) <==> !LoneTitle(Stood(a, ""))
  {
    var w := Stood(a, "");
    hide *;
    HeadBare(head, id);
    LaidEnd(w, "", true);
    AtRestIs(head, w, "", true);
    StoodIsDone(a, "");
    DoneRests(w);
    NoLineAtEnd(head, a);
    assert w + "" == w;
    AnchorIs(head, id, w);
    if '\n' in w {
      var j := FirstBreak(w);
      TitleEndHere(w, j);
      NotNewlineIs(w);
      LoneAt(w, j);
    } else {
      LoneNever(w);
      BlockPlaceIs(head, id, w);
      PlaceBreak(head, w);
    }
  }

  lemma NotNewlineIs(x: string)
    ensures forall k :: 0 <= k < |x| ==> (NotNewline(x[k]) <==> x[k] != '\n')
  {
  }

  lemma PlaceBreak(head: string, w: string)
    requires '\n' !in w
    requires match BlockPlace(head, w) case None => true case Some(k) => 0 < k <= |w| && w[k - 1] == '\n'
    ensures BlockPlace(head, w) == None
  {
    hide BlockPlace;
    assert forall i :: 0 <= i < |w| ==> w[i] in w;
  }

  lemma TitleEndHere(w: string, j: nat)
    requires j == SpanLen(w, NotNewline) && j < |w| && w[j] == '\n'
    ensures var k := TitleEnd(w); j < k <= |w| && (k >= 2 && w[k - 2] == '\n' <==> j + 1 < |w| && w[j + 1] == '\n')
  {
    hide SpanLen;
    SpanParts(w, 0, NotNewline);
    assert w[0..] == w;
    SpanParts(w, j, Newline);
    var k := TitleEnd(w);
    assert j < k;
    if k == j + 1 && k >= 2 { assert NotNewline(w[j - 1]); }
  }

  lemma SpacesUnmarked(b: string)
    requires Spaces(b)
    ensures NoMark(b, BLOCKED) && DropBlocked(b) == b && Tidied(b) == ""
  {
    hide Marked, DropBlocked, Space;
    StarPlain();
    forall i | 0 <= i <= |b| ensures !Marked(b[i..], BLOCKED) {
      assert i < |b| ==> b[i..][0] == b[i] && Space(b[i]);
      UnmarkedStart(b[i..]);
    }
    NothingToDrop(b);
    TidiedNothing(b);
  }

  /** What completing makes of an unblocked section with nothing but spaces behind the place of its status. */
  lemma EndedAlone(head: string, u: string, a: string, b: string)
    requires Bare(head) && Literal(u) && DonePlace(head, u) == Between(a, b) && NoMark(a + "**", BLOCKED) && Spaces(b)
    ensures var a' := CheckAll(Collapse(a));
            && Standing(a, b) && Ended(head, u) == Stood(a', "") && Standing(a', "")
            && NoMark(Stood(a', ""), BLOCKED) && (LoneTitle(Stood(a', "")) <==> LoneTitle(Stood(a, "")))
  {
    hide DonePlace, NoMark, Literal, Bare, DropBlocked, Tidied, Stood, LoneTitle, Collapse, CheckAll, MarkerCount,
      Spaces;
    SetDoneIs(head, u);
    SpacesUnmarked(b);
    DropBehind(a, b);
    EndedIs(head, u, a, b);
    TidiedStood(a, b);
    LoneTidied(a);
    AroundIs(head, u, a, b);
    CountZero(a + "**");
    CountZero(b);
    EndedCount(head, u);
    CountZero(Ended(head, u));
  }

  /** With nothing behind what completion sees, nothing stands behind it once it is completed. */
  lemma NothingBehind(d: Document, k: nat, id: string, w: string, t: string)
    requires k < |d.pieces| && Served(d, k, id) && Removable(d.pieces[k].body)
    requires var p, last := d.pieces[k], Last(d, k);
             |Seen(p, last)| == |Cleared(p)| && w == Ended(p.head, Seen(p, last)) && w + t == CompletedText(p, last)
             && Laid(w, t, last)
    ensures t == "" && Last(d, k)
  {
    var p, last := d.pieces[k], Last(d, k);
    var x := Cleared(p);
    assert Seen(p, last) == x[..Cut(x, last)] && CompletedText(p, last) == Completed(p.head, x, last);
    assert x == Collapse(RemoveBlocks(p.body));
    hide *;
    var v, s := CompletedLaid(d, k, id);
    CompletedPlain(d, k, id);
    BodySplits(x, last);
    RunningHead(d, k, id);
    WholeText(x, Cut(x, last));
    CompletedIs(p.head, x[..Cut(x, last)], x[Cut(x, last)..], last);
    NothingAdded(w, t);
    LaidEnd(w, t, last);
  }

  lemma WholeText(x: string, n: nat)
    requires n == |x|
    ensures x[..n] == x && x[n..] == ""
  {
  }

  lemma NothingAdded(w: string, t: string)
    ensures w + t == w + "" ==> t == ""
  {
    assert w + "" == w;
    if w + t == w { assert |w + t| == |w|; }
  }

  /**
   A last task without a blocked marker, nothing but spaces behind its status line: a second verification with the
   same evidence changes nothing exactly when an empty line follows the task's title, or the status stands in it.
   */
  lemma RestsAtEnd(d: Document, k: nat, id: string, es: seq<Item>, isDate: string -> bool)
    requires k < |d.pieces| && Served(d, k, id) && Removable(d.pieces[k].body)
    requires Refusal(es, isDate) == None && Contained(es)
    requires var p, last := d.pieces[k], Last(d, k);
             && |Seen(p, last)| == |Cleared(p)| && DonePlace(p.head, Seen(p, last)).Between?
             && NoMark(DonePlace(p.head, Seen(p, last)).before + "**", BLOCKED)
             && Spaces(DonePlace(p.head, Seen(p, last)).behind)
    ensures var c, a := Call(id, es), DonePlace(d.pieces[k].head, Seen(d.pieces[k], Last(d, k))).before;
            Apply(Apply(Render(d), c, isDate), c, isDate) == Apply(Render(d), c, isDate) <==> !LoneTitle(Stood(a, ""))
  {
    hide *;
    var p, last := d.pieces[k], Last(d, k);
    var a, b := DonePlace(p.head, Seen(p, last)).before, DonePlace(p.head, Seen(p, last)).behind;
    ContainedParts(es);
    var d1, w, t := OnceLaid(d, k, id, es, isDate);
    EndedAlone(p.head, Seen(p, last), a, b);
    NothingBehind(d, k, id, w, t);
    RestsAlone(p.head, id, CheckAll(Collapse(a)));
    var d2 := AppliedAgain(d1, k, id, es, isDate, w, t);
  }
}
