/**
 Evidence that never comes to rest, and evidence that does at once, on a plain section in any document.
 */
module RestlessInputs {
  import opened Text
  import opened Markdown
  import opened Evidence
  import opened Splicing
  import opened Verification
  import opened Documents
  import opened Sections
  import opened SectionEdits
  import opened Blocks
  import opened Ledger
  import opened ReadBack
  import opened Tidy
  import opened Markers
  import opened DoneLines
  import opened Completing
  import opened Remains
  import opened Outcomes
  import opened Reinserting
  import opened Resting
  import opened Reapplying
  import opened Repeating
  import opened Growing
  import opened Restless
  import opened Lengthening
  import opened EndOfFile
  import opened Samples
  import opened SmallSections
  import opened Astray

  /** A task's text as authors write it: title, status line, body, empty lines between them. */
  const TODO_TASK: string := " a\n\n" + (STATUS_MARK + "todo" + TODO_BEHIND)
  const TODO_BEHIND: string := "\n\nbody\n"

  lemma TodoText()
    ensures TODO_TASK == " a\n\n" + (STATUS_MARK + "todo" + TODO_BEHIND) && Word("todo") && Starless(" a\n\n")
    ensures TODO_BEHIND[0] == '\n' && "\n\n" <= TODO_BEHIND && Starless(TODO_BEHIND)
  {
  }

  lemma TodoTidy()
    ensures Simple(TODO_TASK + "\n") && NoTriple(TODO_TASK + "\n")
  {
  }

  lemma TodoSolid()
    ensures Solid(TODO_BEHIND)
  {
    hide Solid, Marked, Space;
    assert !Space('b') by { LetterNotSpace(); }
    var x := TODO_BEHIND;
    assert x[2..][0] == 'b';
    forall i | 0 <= i < 2 ensures !Marked(x[i..], BLOCKED) {
      assert x[i..][0] == '\n';
      UnmarkedStart(x[i..]);
    }
    UnmarkedStart(x[2..]);
    SolidFrom(x, 2);
    SolidOn(x[2..]);
  }

  lemma LetterNotSpace()
    ensures !Space('b')
  {
  }

  lemma TodoKeeps(p: Piece)
    requires Bare(p.head) && p.body == TODO_TASK + "\n"
    ensures Removable(p.body) && KeepsDone(p, false) && MarkersAround(p.head, Seen(p, false)) == 0
    ensures BlankFollows(p, false)
  {
    hide TODO_TASK, TODO_BEHIND, DonePlace, Marked, NoMark, RunsOut, MarkerCount, Bare, Cleared, Seen, Simple, NoTriple,
      STATUS_MARK, Word, Space, Solid, Starless, Removable, DropBlocked, Plain, LineTerm;
    TodoText();
    TodoTidy();
    TodoSolid();
    BreakBeyond();
    MarkShapes();
    NewlineTerm();
    SimpleSeen(p, TODO_TASK, "\n", false);
    StarlessCount(" a\n\n");
    StarlessCount(TODO_BEHIND);
    StarlessUnmarked(TODO_BEHIND, BLOCKED);
    ValuePlace(p.head, " a\n\n", "todo", TODO_BEHIND);
    AroundIs(p.head, TODO_TASK, " a\n\n", TODO_BEHIND);
    NothingToDrop(TODO_BEHIND);
  }

  /**
   Evidence whose description spells a heading behind a line separator is accepted, and every application of it
   after the first makes the document longer.
   */
  lemma SeparatorGrows(d: Document, k: nat, id: string, heading: string, ts: string, isDate: string -> bool, n: nat)
    requires k < |d.pieces| && Served(d, k, id) && !Last(d, k) && d.pieces[k].body == TODO_TASK + "\n" && n > 0
    requires isDate(ts) && MildWord(ts) && Boundary(heading) && AllUnescaped(heading) && Literal(heading)
    ensures var es := [Witnessed([SEPARATOR] + heading, ts)];
            var c := Call(id, es);
            && Refusal(es, isDate) == None
            && |RunCalls(Render(d), Repeated(c, n + 1), isDate)| > |RunCalls(Render(d), Repeated(c, n), isDate)|
  {
    var es := [Witnessed([SEPARATOR] + heading, ts)];
    hide *;
    SeparatedLiteral(heading);
    WitnessedAccepted([SEPARATOR] + heading, ts, isDate);
    WitnessedLiteral([SEPARATOR] + heading, ts);
    SeparatedInBlock(heading, ts);
    BoundaryExtends(heading, BlockCloses(ts));
    FakesThere(SerializeBlock(es), |BlockOpens()| + 1);
    RunningHead(d, k, id);
    TodoKeeps(d.pieces[k]);
    GrowsEachTime(d, k, id, es, isDate, n);
  }

  /** Evidence that spells a later task's heading within a line rests at once. */
  lemma MentionRests(d: Document, k: nat, id: string, isDate: string -> bool)
    requires k < |d.pieces| && Served(d, k, id) && !Last(d, k) && d.pieces[k].body == TODO_TASK + "\n" && isDate(STAMP)
    ensures var es := [Witnessed(MENTION, STAMP)];
            var c := Call(id, es);
            && Refusal(es, isDate) == None
            && RunCalls(Render(d), Repeated(c, 2), isDate) == RunCalls(Render(d), Repeated(c, 1), isDate)
  {
    var es := [Witnessed(MENTION, STAMP)];
    hide *;
    MentionText();
    WitnessedAccepted(MENTION, STAMP, isDate);
    MentionLiteral();
    NoFakingMention();
    ContainedFrom(es);
    RunningHead(d, k, id);
    TodoKeeps(d.pieces[k]);
    RestsAfter(d, k, id, es, isDate, 1);
  }

  /** Such a heading, in a well-formed document of two tasks. */
  lemma PhaseGrows(isDate: string -> bool, n: nat)
    requires isDate(STAMP) && n > 0
    ensures var d, es := Sample(TODO_TASK + "\n", SECOND), [Witnessed([SEPARATOR] + "### Phase", STAMP)];
            var c := Call("1.1", es);
            && Wellformed(d) && Refusal(es, isDate) == None
            && |RunCalls(Render(d), Repeated(c, n + 1), isDate)| > |RunCalls(Render(d), Repeated(c, n), isDate)|
  {
    var d := Sample(TODO_TASK + "\n", SECOND);
    hide *;
    TodoTidy();
    SecondText();
    TodoEnds();
    SampleKept(TODO_TASK + "\n", SECOND);
    SampleBodies(TODO_TASK + "\n", SECOND, SECOND);
    WellformedServes(d, 0, "1.1");
    PhaseHeading();
    StampMild();
    SeparatorGrows(d, 0, "1.1", "### Phase", STAMP, isDate, n);
  }

  lemma TodoEnds()
    ensures EndsLine(TODO_TASK + "\n")
  {
  }

  // ---------------------------------------------------------------------
  // At the end of the document
  // ---------------------------------------------------------------------

  /** A last task that ends at its status line, without a line feed. */
  const LAST_TASK: string := " a\n\n" + (STATUS_MARK + "todo" + "")

  lemma LastText()
    ensures LAST_TASK == " a\n\n" + (STATUS_MARK + "todo" + "") && LAST_TASK + "" == LAST_TASK && Word("todo")
    ensures Starless(" a\n\n") && Dashless(" a\n\n") && NoTriple(" a\n\n") && EndsLine(" a\n\n")
    ensures Simple(LAST_TASK) && NoTriple(LAST_TASK)
  {
  }

  lemma LastTitle()
    ensures TitleEnd(" a\n\n") == 4
  {
    var x := " a\n\n";
    assert x[2..] == "\n\n";
    SpanLenIs(x, NotNewline, 2);
    SpanLenIs(x[2..], Newline, 2);
  }

  lemma LastEnds(p: Piece)
    requires Bare(p.head) && p.body == LAST_TASK
    ensures Removable(p.body) && Settles(p, true) && CompletedText(p, true) == Stood(" a\n\n", "")
    ensures Standing(" a\n\n", "")
  {
    var a := " a\n\n";
    hide *;
    LastText();
    AtEnd();
    SimpleSeen(p, LAST_TASK, "", true);
    StarlessCount(a);
    NothingUnmarkedBlocked();
    UnmarkedCount("");
    ValuePlace(p.head, a, "todo", "");
    AroundIs(p.head, LAST_TASK, a, "");
    PlainLiteral(LAST_TASK);
    SimplePlain(LAST_TASK);
    NothingSpaces();
    EndedAlone(p.head, LAST_TASK, a, "");
    CollapseKeeps(a);
    DashesNone(a);
    DashlessStays(a);
    CompletedSeen(p, LAST_TASK, "", true);
    NothingMore(Stood(a, ""));
    NoTakes(a);
    SettlesFrom(p, a, "");
  }

  lemma AtEnd()
    ensures Beyond("", true)
  {
  }

  lemma NoTakes(a: string)
    requires NoMark(a + "**", BLOCKED)
    ensures !TakesDone(a)
  {
    hide NoMark;
    if TakesDone(a) { TakesMarked(a); }
  }

  lemma SettlesFrom(p: Piece, a: string, b: string)
    requires DonePlace(p.head, Seen(p, true)) == Between(a, b) && !TakesDone(a)
    requires MarkersAround(p.head, Seen(p, true)) == 0
    ensures Settles(p, true)
  {
    hide DonePlace, Seen, TakesDone, MarkersAround;
  }

  lemma LastBehindTitle(p: Piece)
    requires Bare(p.head) && CompletedText(p, true) == Stood(" a\n\n", "") && Standing(" a\n\n", "")
    ensures BehindTitle(p, true)
  {
    hide CompletedText, NoStatusLine, NoMark, Bare, TitleEnd, DONE_LINE, Starless;
    var a := " a\n\n";
    LastText();
    LastTitle();
    DoneShape();
    NoLineAtEnd(p.head, a);
    assert Stood(a, "") == a + DONE_LINE;
    TitleEndStays(a, DONE_LINE);
    assert (a + DONE_LINE)[..4] == a;
    MarkShapes();
    StarlessUnmarked(a, STATUS);
  }

  /** Evidence without an asterisk in its description spells no status mark. */
  lemma StarlessBlock(description: string, ts: string)
    requires AllUnescaped(description) && MildWord(ts) && Starless(description)
    ensures NoMark(SerializeBlock([Witnessed(description, ts)]), STATUS)
  {
    var es := [Witnessed(description, ts)];
    var json := CanonicalList(es);
    var b := BlockText(json);
    hide *;
    SerializeIs(es);
    WitnessedText(description, ts);
    EscapeKeeps(description);
    MildFrame(ts);
    MildStarless(JsonOpens(), description, JsonCloses(ts));
    OpeningUnmarked();
    BlockOpening(json, "");
    NothingMore(b);
    PrefixSplit(b, OPENING);
    RestStarless(json);
    MarkShapes();
    StarlessUnmarked(b[18..], STATUS);
    NoMarkJoin(OPENING, b[18..], STATUS);
  }

  lemma MildStarless(x: string, y: string, z: string)
    requires Mild(x) && Starless(y) && Mild(z)
    ensures Starless(x + y + z)
  {
  }

  lemma RestStarless(json: string)
    requires Starless(json)
    ensures |BlockText(json)| >= 18 && Starless(BlockText(json)[18..])
  {
    hide BlockText;
    BlockLayout(json);
    var b, r := BlockText(json), BlockText(json)[18..];
    forall i | 0 <= i < |r| ensures r[i] != '*' {
      assert r[i] == b[i + 18];
      if 44 <= i + 18 < 44 + |json| { assert b[i + 18] == json[i + 18 - 44]; }
    }
  }

  /** Such evidence grows a document that ends at its last task's status line, too. */
  lemma LastTaskGrows(d: Document, k: nat, id: string, heading: string, ts: string, isDate: string -> bool, n: nat)
    requires k < |d.pieces| && Served(d, k, id) && Last(d, k) && d.pieces[k].body == LAST_TASK && n > 0
    requires isDate(ts) && MildWord(ts) && Boundary(heading) && AllUnescaped(heading) && Literal(heading)
    requires Starless(heading)
    ensures var es := [Witnessed([SEPARATOR] + heading, ts)];
            var c := Call(id, es);
            && Refusal(es, isDate) == None
            && |RunCalls(Render(d), Repeated(c, n + 1), isDate)| > |RunCalls(Render(d), Repeated(c, n), isDate)|
  {
    var es := [Witnessed([SEPARATOR] + heading, ts)];
    hide *;
    SeparatedLiteral(heading);
    WitnessedAccepted([SEPARATOR] + heading, ts, isDate);
    WitnessedLiteral([SEPARATOR] + heading, ts);
    SeparatedInBlock(heading, ts);
    BoundaryExtends(heading, BlockCloses(ts));
    FakesThere(SerializeBlock(es), |BlockOpens()| + 1);
    SeparatedStarless(heading);
    StarlessBlock([SEPARATOR] + heading, ts);
    RunningHead(d, k, id);
    LastEnds(d.pieces[k]);
    LastBehindTitle(d.pieces[k]);
    GrowsBehindTitle(d, k, id, es, isDate, n);
  }

  lemma SeparatedStarless(heading: string)
    requires Starless(heading)
    ensures Starless([SEPARATOR] + heading)
  {
  }
}
