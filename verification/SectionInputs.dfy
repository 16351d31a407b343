/**
 Sections at which promises about their status, their blocked markers and their bytes fail, in any document.
 */
module SectionInputs {
  import opened Text
  import opened Markdown
  import opened Evidence
  import opened Verification
  import opened Documents
  import opened Sections
  import opened SectionEdits
  import opened Blocks
  import opened Ledger
  import opened Tidy
  import opened Markers
  import opened DoneLines
  import opened Completing
  import opened Remains
  import opened Outcomes
  import opened Reinserting
  import opened Resting
  import opened Reapplying
  import opened Repeating
  import opened Samples
  import opened SmallSections

  // ---------------------------------------------------------------------
  // Statuses that completion does not leave done
  // ---------------------------------------------------------------------

  /** An empty blocked reason right before the status: the pattern's spaces run on to the next line. */
  const SWALLOWED: string := " a\n**Blocked:**\n\n**Status:** todo"
  const SWALLOWED_FRONT: string := " a\n**Blocked:**\n\n"

  /** A status mark without a value. */
  const UNVALUED: string := " a\n**Status:**"

  lemma SwallowedText()
    ensures SWALLOWED == SWALLOWED_FRONT + (STATUS_MARK + "todo" + "")
    ensures |SWALLOWED_FRONT| == 17 && SWALLOWED_FRONT[3..15] == "**Blocked:**" && SWALLOWED_FRONT[..2] == " a"
    ensures SWALLOWED_FRONT[2] == '\n' && SWALLOWED_FRONT[15] == '\n' && SWALLOWED_FRONT[16] == '\n'
    ensures Starless(SWALLOWED_FRONT[..3]) && Word("todo")
  {
  }

  lemma SwallowedMarks()
    ensures var x := SWALLOWED_FRONT + "**"; NoMark(x, STATUS) && FirstMarker(x, 2, 3, 19)
  {
    hide SWALLOWED_FRONT, Marked, Space;
    SwallowedText();
    MarkShapes();
    BlockedMarkShape();
    StarPlain();
    SpaceIsBreak();
    var x := SWALLOWED_FRONT + "**";
    assert x[3..15] == "**Blocked:**";
    SwallowedMatch(x[3..]);
    forall i | 0 <= i < 3 ensures !Marked(x[i..], BLOCKED) {
      assert x[i..][0] == SWALLOWED_FRONT[..3][i];
      UnmarkedStart(x[i..]);
    }
    forall i | 0 <= i <= 19 ensures !Marked(x[i..], STATUS) {
      SwallowedNoStatus(x, i);
    }
  }

  lemma SwallowedMatch(x: string)
    requires |x| == 16 && x[..12] == "**Blocked:**" && x[12] == '\n' && x[13] == '\n' && x[14] == '*' && x[15] == '*'
    ensures Marked(x, BLOCKED) && BlockedLineLen(x) == 16
  {
    hide BlockedLineLen, Space;
    StarPlain();
    SpaceIsBreak();
    assert Lower("**Blocked:**") == BLOCKED;
    PartsMatch(x, 14, 16, 16);
  }

  lemma SwallowedNoStatus(x: string, i: nat)
    requires |x| == 19 && i <= 19 && x[3..15] == "**Blocked:**" && x[15] == '\n' && x[16] == '\n' && Starless(x[..3])
    ensures !Marked(x[i..], STATUS)
  {
    MarkShapes();
    StarLower();
    MarkedChars(x[i..], STATUS);
    if i + 11 <= 19 {
      assert x[i..][0] == x[i] && x[i..][2] == x[i + 2] && x[i..][1] == x[i + 1];
      assert i < 3 ==> x[i] == x[..3][i];
      assert 3 <= i < 15 ==> x[i] == x[3..15][i - 3];
      assert 3 <= i + 2 < 15 ==> x[i + 2] == x[3..15][i - 1];
      assert "**Blocked:**"[2] == 'B' && LowerChar('B') == 'b';
      assert forall k :: 1 < k < 10 ==> "**Blocked:**"[k] != '*';
      assert x[i..][1] == x[i + 1];
      assert i == 4 ==> x[5] == x[3..15][2];
    }
  }

  /** Of that section nothing but the title is left: its status is gone. */
  lemma SwallowedStatus(head: string)
    requires Bare(head)
    ensures Ended(head, SWALLOWED) == " a" && NoMark(" a", STATUS) && !DoneStays(head, SWALLOWED)
  {
    hide SWALLOWED, SWALLOWED_FRONT, DonePlace, TakesDone, TakenFrom, DropBlocked, Marked, Tidied, IsDone, STATUS_MARK,
      NoMark, FirstMarker,
      Bare, First;
    SwallowedText();
    SwallowedMarks();
    var a := SWALLOWED_FRONT;
    ValuePlace(head, a, "todo", "");
    TakesIs(a, 2, 3, 19);
    EndedIs(head, SWALLOWED, a, "");
    DropThrough(a, "");
    SwallowedRest();
    assert Left("") == Tidied("");
    NothingLeft();
  }

  lemma NothingLeft()
    ensures !IsDone(Tidied("")) && ""[SpanLen("", Newline)..] == ""
  {
    hide Tidied, DONE_LINE;
    NothingSpaces();
    TidiedNothing("");
    DoneShape();
  }

  lemma SwallowedRest()
    ensures " a" + "\n" + "" == " a" + "\n" && Tidied(" a" + "\n") == " a" && NoMark(" a", STATUS)
  {
    hide Tidied, NoMark;
    SpaceIsBreak();
    MarkShapes();
    TidyText(" a", "\n");
    StarlessUnmarked(" a", STATUS);
  }

  lemma UnvaluedText()
    ensures |UNVALUED| == 14 && UNVALUED[..3] == " a\n" && UNVALUED[3..] == "**Status:**"
    ensures Lower("**Status:**") == STATUS
    ensures Starless(UNVALUED[..3]) && Dashless(UNVALUED)
  {
  }

  lemma UnvaluedChars()
    ensures NoTriple(UNVALUED) && !Space(UNVALUED[13]) && Literal(UNVALUED)
  {
  }

  lemma StatusMarked()
    ensures Marked("**Status:**", STATUS)
  {
    assert "**Status:**"[..11] == "**Status:**";
    assert Lower("**Status:**") == STATUS;
  }

  lemma UnvaluedRests()
    ensures Unvalued(UNVALUED) && !IsDone(UNVALUED) && NoMark(UNVALUED, BLOCKED) && Tidied(UNVALUED) == UNVALUED
  {
    hide UNVALUED, Marked, Unvalued, IsDone, Tidied, NoTriple, Dashless, Space, Literal;
    UnvaluedText();
    UnvaluedChars();
    MarkShapes();
    var x := UNVALUED;
    assert x[3..][..11] == x[3..];
    StarlessUnmarked(x[..3], STATUS);
    StatusMarked();
    TrailingUnvalued(x, 3);
    NothingSpaces();
    assert x + "" == x;
    TidyText(x, "");
    forall i | 0 <= i <= |x| ensures !Marked(x[i..], BLOCKED) {
      UnvaluedNoMarker(x, i);
    }
  }

  lemma UnvaluedNoMarker(x: string, i: nat)
    requires |x| == 14 && x[..3] == " a\n" && i <= 14
    ensures !Marked(x[i..], BLOCKED)
  {
    MarkShapes();
    if i < 3 { assert x[i..][0] == x[i] == x[..3][i]; }
    UnstarredOrShort(x[i..]);
  }

  lemma UnstarredOrShort(x: string)
    requires x == "" || x[0] != '*' || |x| < 12
    ensures !Marked(x, BLOCKED)
  {
    MarkShapes();
    if x == "" || |x| < 12 { MarkedChars(x, BLOCKED); } else { UnmarkedStart(x); }
  }

  /** That section stays as it is. */
  lemma UnvaluedStatus(head: string)
    requires Bare(head)
    ensures Ended(head, UNVALUED) == UNVALUED && !IsDone(UNVALUED) && !DoneStays(head, UNVALUED)
  {
    hide UNVALUED, DonePlace, Unvalued, IsDone, Tidied, NoMark, Literal, Bare;
    UnvaluedChars();
    UnvaluedRests();
    EndedRests(head, UNVALUED);
    KeptExactly(head, UNVALUED);
  }

  /** In a document, behind a verification that succeeds: no status is done. */
  lemma StatusNotDone(d: Document, k: nat, id: string, u: string, es: seq<Item>, isDate: string -> bool)
    requires k < |d.pieces| && Served(d, k, id) && !Last(d, k)
    requires (u == SWALLOWED || u == UNVALUED) && d.pieces[k].body == u + "\n"
    requires Refusal(es, isDate) == None && Literal(SerializeBlock(es))
    ensures var v := if u == SWALLOWED then " a" else u;
            && !IsDone(v)
            && ApplyVerification(Render(d), id, es, isDate)
               == Success(Render(WithBody(d, k, WithBlock(d.pieces[k].head, v + "\n", SerializeBlock(es)))))
  {
    var p, last, block := d.pieces[k], Last(d, k), SerializeBlock(es);
    var v := if u == SWALLOWED then " a" else u;
    hide *;
    SwallowedTidy();
    UnvaluedTidy();
    BreakBeyond();
    SimpleSeen(p, u, "\n", last);
    RunningHead(d, k, id);
    SwallowedStatus(p.head);
    UnvaluedStatus(p.head);
    TitleNotDone();
    CompletedSeen(p, u, "\n", last);
    RecordedIs(d, k, id, block);
    var f, g := RecordText(d, k, id, es, isDate);
  }

  lemma TitleNotDone()
    ensures !IsDone(" a")
  {
    hide DONE_LINE;
    DoneShape();
  }

  lemma SwallowedTidy()
    ensures Simple(SWALLOWED + "\n") && NoTriple(SWALLOWED + "\n")
  {
  }

  lemma UnvaluedTidy()
    ensures Simple(UNVALUED + "\n") && NoTriple(UNVALUED + "\n")
  {
  }

  // ---------------------------------------------------------------------
  // Markers that stay
  // ---------------------------------------------------------------------

  const TWO_MARKERS: string := "\n**Blocked:** x\n**Blocked:** y"

  lemma TwoMarkersText()
    ensures TWO_MARKERS == "\n" + (BLOCKED_MARK + "x" + ("\n" + (BLOCKED_MARK + "y" + ("" + ""))))
    ensures Starless("\n") && Starless("") && AllBreaks("\n") && AllBreaks("") && Word("x") && Word("y")
    ensures BLOCKED_MARK[0] == '*'
  {
  }

  /** Of two markers clearing takes out one, so that clearing again takes out the other. */
  lemma SecondMarkerStays()
    ensures MarkerCount(TWO_MARKERS) == 2 && MarkerCount(ClearBlocked(TWO_MARKERS)) == 1
    ensures ClearBlocked(ClearBlocked(TWO_MARKERS)) != ClearBlocked(TWO_MARKERS)
  {
    hide TWO_MARKERS, ClearBlocked, MarkerCount, BLOCKED_MARK, FirstMarker, Word, Solid;
    TwoMarkersText();
    BlockedMarkShape();
    var second := BLOCKED_MARK + "y" + ("" + "");
    MarkerLine("", "y", "", "");
    assert "" + second == second;
    MarkerLine("\n", "x", "\n", second);
    StarsCount();
    CountClear(TWO_MARKERS);
    ClearingTwice(TWO_MARKERS);
  }

  // ---------------------------------------------------------------------
  // Bytes that change again
  // ---------------------------------------------------------------------

  /** One line feed behind the status line. */
  const TIGHT: string := " a\n**Status:** todo\nb"

  const THREE_MARKERS: string := " a\n\n" + (STATUS_MARK + "todo" + THREE_BEHIND)
  const THREE_BEHIND: string := "\n\n" + Blocked("x", Blocked("y", Blocked("z", "b")))

  lemma TightText()
    ensures TIGHT == " a\n" + (STATUS_MARK + "todo" + "\nb") && Word("todo") && Starless(" a\n") && Starless("\nb")
    ensures Simple(TIGHT + "\n") && NoTriple(TIGHT + "\n") && LineTerm("\nb"[0]) && !("\n\n" <= "\nb")
    ensures "\nb"[0] == '\n'
    ensures "\nb"[1] == 'b' && !Space('b')
  {
    assert "\nb"[1] == 'b' && "\n\n"[1] == '\n';
  }

  lemma TightKeeps(p: Piece, id: string)
    requires Bare(p.head) && p.body == TIGHT + "\n"
    ensures Removable(p.body) && KeepsDone(p, false) && MarkersAround(p.head, Seen(p, false)) == 0
    ensures !BlankFollows(p, false)
  {
    hide TIGHT, DonePlace, Marked, NoMark, RunsOut, MarkerCount, Bare, Cleared, Seen, Simple, NoTriple, STATUS_MARK,
      Word, Space, Solid,
      Starless, Removable, DropBlocked, Plain, LineTerm;
    TightText();
    BreakBeyond();
    MarkShapes();
    SimpleSeen(p, TIGHT, "\n", false);
    StarlessCount(" a\n");
    StarlessCount("\nb");
    StarlessUnmarked("\nb", BLOCKED);
    ValuePlace(p.head, " a\n", "todo", "\nb");
    AroundIs(p.head, TIGHT, " a\n", "\nb");
    NothingToDrop("\nb");
  }

  lemma ThreeText()
    ensures THREE_MARKERS == " a\n\n" + (STATUS_MARK + "todo" + THREE_BEHIND) && Word("todo") && Starless(" a\n\n")
    ensures THREE_BEHIND[0] == '\n'
  {
  }

  lemma ThreeTidy()
    ensures Simple(THREE_MARKERS + "\n") && NoTriple(THREE_MARKERS + "\n")
  {
    hide Simple, NoTriple, BLOCKED_MARK, STATUS_MARK;
    ThreeParts();
    var m := BLOCKED_MARK;
    var last, third := "\nb\n", "\n" + m + "z";
    TidyJoin(third, last);
    var second := "\n" + m + "y";
    TidyJoin(second, third + last);
    var first := "\n\n" + m + "x";
    TidyJoin(first, second + (third + last));
    var front := " a\n\n" + STATUS_MARK + "todo";
    TidyJoin(front, first + (second + (third + last)));
    assert THREE_MARKERS + "\n" == front + (first + (second + (third + last)));
  }

  lemma ThreeParts()
    ensures var x := "\n\n" + BLOCKED_MARK + "x"; Simple(x) && NoTriple(x) && x[|x| - 1] != '\n'
    ensures var x := "\n" + BLOCKED_MARK + "y"; Simple(x) && NoTriple(x) && x[|x| - 1] != '\n'
    ensures var x := "\n" + BLOCKED_MARK + "z"; Simple(x) && NoTriple(x) && x[|x| - 1] != '\n'
    ensures Simple("\nb\n") && NoTriple("\nb\n")
    ensures var x := " a\n\n" + STATUS_MARK + "todo"; Simple(x) && NoTriple(x) && x[|x| - 1] != '\n'
  {
  }

  lemma ThreeWords()
    ensures Starless("\n\n") && Starless("") && Starless("b") && AllBreaks("\n") && Word("x") && Word("y") && Word("z")
    ensures BLOCKED_MARK[0] == '*' && "b"[0] == 'b'
  {
  }

  lemma ThreeCount()
    ensures MarkerCount(THREE_BEHIND) == 3
  {
    hide MarkerCount, BLOCKED_MARK, FirstMarker, Word, Solid, Starless, AllBreaks;
    ThreeWords();
    BlockedMarkShape();
    StarlessCount("b");
    var third := Blocked("z", "b");
    var second := Blocked("y", third);
    MarkerLine("", "z", "\n", "b");
    MarkerLine("", "y", "\n", third);
    assert "" + third == third && "" + second == second;
    MarkerLine("\n\n", "x", "\n", second);
  }

  lemma ThreeKeeps(p: Piece)
    requires Bare(p.head) && p.body == THREE_MARKERS + "\n"
    ensures Removable(p.body) && KeepsDone(p, false) && MarkersAround(p.head, Seen(p, false)) == 3
  {
    hide THREE_MARKERS, THREE_BEHIND, DonePlace, Marked, NoMark, RunsOut, MarkerCount, Bare, Cleared, Seen, Simple,
      NoTriple, STATUS_MARK,
      Word, Solid, Starless, Removable, Plain;
    ThreeText();
    ThreeTidy();
    ThreeCount();
    BreakBeyond();
    NewlineTerm();
    SimpleSeen(p, THREE_MARKERS, "\n", false);
    StarlessCount(" a\n\n");
    ValuePlace(p.head, " a\n\n", "todo", THREE_BEHIND);
    AroundIs(p.head, THREE_MARKERS, " a\n\n", THREE_BEHIND);
  }

  // The blocked task of the repository's own tests: one marker, an empty line behind everything that stands out.
  const BLOCKED_TASK: string := " First task\n\n" + (STATUS_MARK + "blocked" + BLOCKED_BEHIND)
  const BLOCKED_BEHIND: string := "\n\n" + (BLOCKED_MARK + "waiting on proof" + ("\n\n" + ACCEPTANCE))
  const ACCEPTANCE: string := "**Acceptance:**" + CRITERIA
  const CRITERIA: string := "\n- [ ] First criterion" + ("\n- [ ] Second criterion" + "\n\nBody paragraph.\n")

  lemma BlockedTaskFront()
    ensures var x := " First task\n\n" + STATUS_MARK + "blocked"; Simple(x) && NoTriple(x) && x[|x| - 1] != '\n'
  {
  }

  lemma BlockedTaskParts()
    ensures var x := "\n\n" + BLOCKED_MARK + "waiting on proof"; Simple(x) && NoTriple(x) && x[|x| - 1] != '\n'
    ensures var x := "\n\n**Acceptance:**"; Simple(x) && NoTriple(x) && x[|x| - 1] != '\n'
  {
  }

  lemma CriteriaParts()
    ensures var x := "\n- [ ] First criterion"; Simple(x) && NoTriple(x) && Starless(x) && x[|x| - 1] != '\n'
    ensures var x := "\n- [ ] Second criterion"; Simple(x) && NoTriple(x) && Starless(x) && x[|x| - 1] != '\n'
    ensures var x := "\n\nBody paragraph.\n"; Simple(x) && NoTriple(x) && Starless(x)
  {
  }

  lemma BlockedTaskTidy()
    ensures Simple(BLOCKED_TASK) && NoTriple(BLOCKED_TASK)
  {
    hide Simple, NoTriple, BLOCKED_MARK, STATUS_MARK, Starless;
    BlockedTaskFront();
    BlockedTaskParts();
    CriteriaParts();
    var body, second, first := "\n\nBody paragraph.\n", "\n- [ ] Second criterion", "\n- [ ] First criterion";
    TidyJoin(second, body);
    TidyJoin(first, second + body);
    var acceptance := "\n\n**Acceptance:**";
    TidyJoin(acceptance, first + (second + body));
    var marker := "\n\n" + BLOCKED_MARK + "waiting on proof";
    TidyJoin(marker, acceptance + (first + (second + body)));
    var front := " First task\n\n" + STATUS_MARK + "blocked";
    TidyJoin(front, marker + (acceptance + (first + (second + body))));
    assert BLOCKED_TASK == front + (marker + (acceptance + (first + (second + body)))) by {
      assert "\n\n" + ACCEPTANCE == acceptance + (first + (second + body));
    }
  }

  lemma BlockedTaskWords()
    ensures Starless("\n\n") && Starless(" First task\n\n") && AllBreaks("\n\n") && Word("waiting on proof")
    ensures Word("blocked")
    ensures |"**Acceptance:**"| == 15 && "**Acceptance:**"[0] == '*' && "**Acceptance:**"[2] == 'A'
    ensures forall k :: 1 < k < 13 ==> "**Acceptance:**"[k] != '*'
    ensures EndsLine("\n\n") && BLOCKED_BEHIND[0] == '\n'
  {
  }

  lemma CriteriaStarless()
    ensures Starless(CRITERIA) && CRITERIA != "" && CRITERIA[0] == '\n'
  {
    hide Simple, NoTriple;
    CriteriaParts();
  }

  lemma AcceptanceStays()
    ensures NoMark(ACCEPTANCE, BLOCKED) && Solid(ACCEPTANCE) && ACCEPTANCE[0] == '*'
  {
    hide CRITERIA, Marked, Solid, Space;
    BlockedTaskWords();
    CriteriaStarless();
    StarPlain();
    var x := ACCEPTANCE;
    forall i | 0 <= i <= |x| ensures !Marked(x[i..], BLOCKED) {
      NoMarkerAt(x, CRITERIA, i);
    }
    assert x[0..] == x;
    SolidOn(x);
  }

  lemma NoMarkerAt(x: string, rest: string, i: nat)
    requires x == "**Acceptance:**" + rest && Starless(rest) && rest != "" && rest[0] == '\n' && i <= |x|
    ensures !Marked(x[i..], BLOCKED)
  {
    BlockedTaskWords();
    MarkShapes();
    StarLower();
    MarkedChars(x[i..], BLOCKED);
    if i + 12 <= |x| {
      assert x[i..][0] == x[i] && x[i..][1] == x[i + 1] && x[i..][2] == x[i + 2];
      assert i >= 15 ==> x[i] == rest[i - 15];
      assert i + 1 >= 15 ==> x[i + 1] == rest[i - 14];
      assert i == 13 ==> x[i + 2] == rest[0];
    }
  }

  lemma BlockedTaskMarkers()
    ensures MarkerCount(BLOCKED_BEHIND) == 1 && Solid(BLOCKED_BEHIND) && "\n\n" <= DropBlocked(BLOCKED_BEHIND)
  {
    hide BLOCKED_MARK, ACCEPTANCE, Word, Marked, MarkerCount, Solid, Space, AllBreaks, BlockedLineLen, DropBlocked,
      NoMark;
    BlockedTaskWords();
    BlockedMarkShape();
    AcceptanceStays();
    UnmarkedCount(ACCEPTANCE);
    MarkerLine("\n\n", "waiting on proof", "\n\n", ACCEPTANCE);
    var b := BLOCKED_BEHIND;
    FirstMarkerIs(b, 1, 2, 2 + 13 + |"waiting on proof"| + 2);
    assert b[..1] == "\n";
  }

  lemma BlockedTaskText()
    ensures BLOCKED_TASK == " First task\n\n" + (STATUS_MARK + "blocked" + BLOCKED_BEHIND)
  {
    hide BLOCKED_BEHIND;
  }

  lemma BlockedTaskKeeps(p: Piece)
    requires Bare(p.head) && p.body == BLOCKED_TASK
    ensures Removable(p.body) && KeepsDone(p, true) && MarkersAround(p.head, Seen(p, true)) == 1
    ensures BlankFollows(p, true)
  {
    hide BLOCKED_TASK, BLOCKED_BEHIND, DonePlace, Marked, NoMark, RunsOut, MarkerCount, Bare, Cleared, Seen, Simple,
      NoTriple, STATUS_MARK,
      Word, Solid, Starless, Removable, Plain, DropBlocked, AllBreaks, EndsLine;
    BlockedTaskTidy();
    BlockedTaskWords();
    BlockedTaskMarkers();
    NewlineTerm();
    BlockedTaskText();
    assert BLOCKED_TASK + "" == BLOCKED_TASK && Beyond("", true);
    SimpleSeen(p, BLOCKED_TASK, "", true);
    StarlessCount(" First task\n\n");
    ValuePlace(p.head, " First task\n\n", "blocked", BLOCKED_BEHIND);
    AroundIs(p.head, BLOCKED_TASK, " First task\n\n", BLOCKED_BEHIND);
  }

  /** At the end of a document the blocked task of the tests rests after its first verification. */
  lemma BlockedTaskRests(d: Document, k: nat, id: string, es: seq<Item>, isDate: string -> bool)
    requires k < |d.pieces| && Served(d, k, id) && Last(d, k) && d.pieces[k].body == BLOCKED_TASK
    requires Refusal(es, isDate) == None && Contained(es)
    ensures var c := Call(id, es);
            RunCalls(Render(d), Repeated(c, 2), isDate) == RunCalls(Render(d), Repeated(c, 1), isDate)
  {
    hide *;
    RunningHead(d, k, id);
    BlockedTaskKeeps(d.pieces[k]);
    RestsAfter(d, k, id, es, isDate, 1);
  }

  /** A lone line feed behind the status line: the second verification changes the bytes, the third does not. */
  lemma TightChangesOnce(d: Document, k: nat, id: string, es: seq<Item>, isDate: string -> bool)
    requires k < |d.pieces| && Served(d, k, id) && !Last(d, k) && d.pieces[k].body == TIGHT + "\n"
    requires Refusal(es, isDate) == None && Contained(es)
    ensures var c := Call(id, es);
            && RunCalls(Render(d), Repeated(c, 2), isDate) != RunCalls(Render(d), Repeated(c, 1), isDate)
            && RunCalls(Render(d), Repeated(c, 3), isDate) == RunCalls(Render(d), Repeated(c, 2), isDate)
  {
    hide *;
    RunningHead(d, k, id);
    TightKeeps(d.pieces[k], id);
    RestsAfter(d, k, id, es, isDate, 1);
    RestsAfter(d, k, id, es, isDate, 2);
  }

  /** Three blocked markers: the second and the third verification change the bytes, the fourth does not. */
  lemma ThreeMarkersChangeTwice(d: Document, k: nat, id: string, es: seq<Item>, isDate: string -> bool)
    requires k < |d.pieces| && Served(d, k, id) && !Last(d, k)
    requires d.pieces[k].body == THREE_MARKERS + "\n"
    requires Refusal(es, isDate) == None && Contained(es)
    ensures var c := Call(id, es);
            && RunCalls(Render(d), Repeated(c, 2), isDate) != RunCalls(Render(d), Repeated(c, 1), isDate)
            && RunCalls(Render(d), Repeated(c, 3), isDate) != RunCalls(Render(d), Repeated(c, 2), isDate)
            && RunCalls(Render(d), Repeated(c, 4), isDate) == RunCalls(Render(d), Repeated(c, 3), isDate)
  {
    hide *;
    RunningHead(d, k, id);
    ThreeKeeps(d.pieces[k]);
    RestsAfter(d, k, id, es, isDate, 1);
    RestsAfter(d, k, id, es, isDate, 2);
    RestsAfter(d, k, id, es, isDate, 3);
  }
}
