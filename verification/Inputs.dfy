/**
 Inputs at which documented promises fail.
 */
module Inputs {
  import opened Text
  import opened Markdown
  import opened Json
  import opened Evidence
  import opened Splicing
  import opened Verification
  import opened Documents
  import opened Sections
  import opened SectionEdits
  import opened Blocks
  import opened Completion
  import opened BlockEnds
  import opened Ledger
  import opened ReadBack
  import opened Neighbours
  import opened DoneLines
  import opened Reinserting
  import opened Samples

  // ---------------------------------------------------------------------
  // Evidence that hides another task
  // ---------------------------------------------------------------------

  function Shadow(other: string): string
  {
    Heading(other) + " z"
  }

  lemma ShadowText(other: string)
    requires TaskId(other)
    ensures AllUnescaped(Shadow(other)) && Literal(Shadow(other))
  {
    var x := Shadow(other);
    forall i | 0 <= i < |x| ensures Unescaped(x[i]) && x[i] != '$' {
      if i < 10 { assert x[i] == "#### Task "[i]; } else if i < 10 + |other| { assert x[i] == other[i - 10]; }
    }
  }

  /** A description that spells a later task's heading behind a line separator takes that task's evidence away. */
  lemma ShadowingEvidence(d: Document, k: nat, id: string, j: nat, other: string, ts: string, isDate: string -> bool)
    requires k < |d.pieces| && Wellformed(d) && IsTask(d, k, id) && Removable(d.pieces[k].body)
    requires IsTask(d, j, other) && k < j && isDate(ts) && MildWord(ts)
    ensures var r := ApplyVerification(Render(d), id, [Witnessed([SEPARATOR] + Shadow(other), ts)], isDate);
            r.Success? && ReadTaskVerification(r.markdown, other, isDate) == None
  {
    var description := [SEPARATOR] + Shadow(other);
    var es := [Witnessed(description, ts)];
    hide *;
    WellformedServes(d, k, id);
    ServedIndex(d, k, id);
    LedParts(d, k, id);
    TaskFacts(d, j, other);
    ShadowText(other);
    SeparatedLiteral(Shadow(other));
    WitnessedAccepted(description, ts, isDate);
    WitnessedLiteral(description, ts);
    SeparatedInBlock(Shadow(other), ts);
    ShadowMatches(other, BlockCloses(ts));
    ShadowedBlock(SerializeBlock(es), |BlockOpens()| + 1, k, j, other);
    var d' := OthersExactly(d, k, id, es, j, other, isDate);
  }

  lemma ShadowMatches(other: string, rest: string)
    requires TaskId(other)
    ensures Matches(ByHeader, Shadow(other) + rest, other)
  {
    HeadingHeader(other, " z" + rest);
    assert Shadow(other) + rest == Heading(other) + (" z" + rest);
    hide HeaderLen;
  }

  lemma ShadowedBlock(b: string, i: nat, k: nat, j: nat, other: string)
    requires k < j && 0 < i < |b| && LineTerm(b[i - 1]) && Matches(ByHeader, b[i..], other)
    ensures Overshadows(k, b, j, other)
  {
    hide Matches;
  }

  // ---------------------------------------------------------------------
  // Replacement patterns
  // ---------------------------------------------------------------------

  const PRICED: string := "pid $$ here"
  const CHEAPER: string := "pid $ here"

  lemma {:induction false} ExpandJoin(a: string, b: string, m: string, before: string, after: string)
    requires Literal(a) && (a == "" || a[|a| - 1] != '$')
    ensures Expand(a + b, m, before, after) == a + Expand(b, m, before, after)
  {
    hide Expand;
    if a == "" {
      assert a + b == b;
    } else {
      ExpandStep(a + b, a, m, before, after);
      assert (a + b)[1..] == a[1..] + b && (a + b)[..1] == a[..1];
      LiteralPart(a, 1, |a|);
      ExpandJoin(a[1..], b, m, before, after);
      assert a == a[..1] + a[1..];
    }
  }

  lemma ExpandStep(x: string, a: string, m: string, before: string, after: string)
    requires a <= x && a != "" && Literal(a) && a[|a| - 1] != '$'
    ensures Expand(x, m, before, after) == x[..1] + Expand(x[1..], m, before, after)
  {
    assert x[0] == a[0];
    if a[0] == '$' { assert |a| >= 2 && !PatternEnd(a[1]) && x[1] == a[1]; }
  }

  lemma ExpandPriced(rest: string, m: string, before: string, after: string)
    ensures Expand(PRICED + rest, m, before, after) == CHEAPER + Expand(rest, m, before, after)
  {
    var a := "pid ";
    assert PRICED + rest == a + ("$$" + (" here" + rest));
    ExpandJoin(a, "$$" + (" here" + rest), m, before, after);
    var x := "$$" + (" here" + rest);
    assert x[2..] == " here" + rest;
    ExpandJoin(" here", rest, m, before, after);
    assert CHEAPER == a + ("$" + " here");
  }

  lemma BlockOpensLiteral(ts: string)
    requires MildWord(ts)
    ensures Literal(BlockOpens()) && Literal(BlockCloses(ts)) && BlockOpens() != ""
    ensures BlockOpens()[|BlockOpens()| - 1] == '"'
  {
    hide Mild, JsonOpens, JsonCloses, VERIFICATION_BLOCK_HEADER, FENCE, CLOSE, Literal;
    MildFrame(ts);
    MildLiteral(JsonOpens());
    MildLiteral(JsonCloses(ts));
    OpensQuoted();
    ClosesQuoted(ts);
    FrameLiteral();
    LiteralConcat(VERIFICATION_BLOCK_HEADER + "\n\n" + FENCE, JsonOpens());
    LiteralConcat(JsonCloses(ts), CLOSE);
  }

  lemma FrameLiteral()
    ensures var x := VERIFICATION_BLOCK_HEADER + "\n\n" + FENCE;
            Literal(x) && Literal(CLOSE) && x != "" && x[|x| - 1] == '\n'
  {
    hide VERIFICATION_BLOCK_HEADER, FENCE, CLOSE;
    FrameQuiet();
    FenceEnds();
    var x := VERIFICATION_BLOCK_HEADER + "\n\n" + FENCE;
    assert forall c | c in x :: c in VERIFICATION_BLOCK_HEADER || c == '\n' || c in FENCE;
    assert forall i :: 0 <= i < |x| ==> x[i] in x;
    assert forall i :: 0 <= i < |CLOSE| ==> CLOSE[i] in CLOSE;
    assert x[|x| - 1] == FENCE[|FENCE| - 1];
  }

  lemma PlainDescriptions()
    ensures AllUnescaped(PRICED) && AllUnescaped(CHEAPER) && Literal(CHEAPER) && !Literal(PRICED)
  {
    assert PRICED[4] == '$' && PRICED[5] == '$' && PatternEnd(PRICED[5]);
  }

  lemma PricedBlocks(ts: string)
    ensures SerializeBlock([Witnessed(PRICED, ts)]) == BlockOpens() + PRICED + BlockCloses(ts)
    ensures SerializeBlock([Witnessed(CHEAPER, ts)]) == BlockOpens() + CHEAPER + BlockCloses(ts)
  {
    hide BlockOpens, BlockCloses, SerializeBlock, Escape;
    PlainDescriptions();
    WitnessedBlock(PRICED, ts);
    WitnessedBlock(CHEAPER, ts);
    EscapeKeeps(PRICED);
    EscapeKeeps(CHEAPER);
  }

  /** Behind text that is literal, the expanded block is the block of other evidence. */
  lemma PricedExpands(m: string, ts: string, before: string, after: string)
    requires MildWord(ts) && Literal(m) && EndsLine(m)
    ensures var x, y := SerializeBlock([Witnessed(PRICED, ts)]), SerializeBlock([Witnessed(CHEAPER, ts)]);
            Expand(m + x + "\n\n", m, before, after) == m + y + "\n\n"
            && Expand(m + y + "\n\n", m, before, after) == m + y + "\n\n"
  {
    hide Expand, SerializeBlock, BlockOpens, BlockCloses, Literal, MildWord, PRICED, CHEAPER;
    PricedBlocks(ts);
    PlainDescriptions();
    BlockOpensLiteral(ts);
    var o, c := BlockOpens(), BlockCloses(ts);
    LiteralBreaks(c);
    ExpandLiteral(c + "\n\n", m, before, after);
    assert m + (o + PRICED + c) + "\n\n" == m + (o + (PRICED + (c + "\n\n")));
    ExpandJoin(m, o + (PRICED + (c + "\n\n")), m, before, after);
    ExpandJoin(o, PRICED + (c + "\n\n"), m, before, after);
    ExpandPriced(c + "\n\n", m, before, after);
    assert m + (o + (CHEAPER + (c + "\n\n"))) == m + (o + CHEAPER + c) + "\n\n";
    LiteralConcat(o, CHEAPER);
    CheaperEnds();
    LiteralConcat(o + CHEAPER, c + "\n\n");
    LiteralConcat(m, o + CHEAPER + (c + "\n\n"));
    assert m + (o + CHEAPER + (c + "\n\n")) == m + (o + CHEAPER + c) + "\n\n";
    ExpandLiteral(m + (o + CHEAPER + c) + "\n\n", m, before, after);
  }

  lemma CheaperEnds()
    ensures CHEAPER != "" && CHEAPER[|CHEAPER| - 1] == 'e'
  {
  }

  lemma InsertExpands(head: string, id: string, x: string, ts: string)
    requires TaskHead(head, id) && Literal(x) && '\n' in x && MildWord(ts)
    ensures InsertBlock(head + x, SerializeBlock([Witnessed(PRICED, ts)]))
         == InsertBlock(head + x, SerializeBlock([Witnessed(CHEAPER, ts)]))
  {
    hide BlockPlace, TaskHead, NoStatusLine, BlockAnchor, Find, StatusAnchor, SpanLen, SerializeBlock, Literal, Expand,
      MildWord, Bare,
      InsertBlock, PRICED, CHEAPER, EndsLine;
    var s := head + x;
    HeadBare(head, id);
    AnchorIs(head, id, x);
    LiteralSection(head, x);
    match BlockAnchor(s)
    case Behind(i, m) =>
      AnchorLiteral(s, i, m);
      var p := Find(s, m, 0);
      PricedExpands(m, ts, s[..p], s[p + |m|..]);
      InsertsAt(s, i, m, SerializeBlock([Witnessed(PRICED, ts)]));
      InsertsAt(s, i, m, SerializeBlock([Witnessed(CHEAPER, ts)]));
  }

  lemma InsertsAt(s: string, i: nat, m: string, block: string)
    requires BlockAnchor(s) == Anchor.Behind(i, m) && Find(s, m, 0) != -1
    ensures var p := Find(s, m, 0);
            InsertBlock(s, block) == s[..p] + Expand(m + block + "\n\n", m, s[..p], s[p + |m|..]) + s[p + |m|..]
  {
    hide BlockAnchor, Find, Expand;
  }

  lemma AnchorLiteral(s: string, i: nat, m: string)
    requires At(s, i, m) && Literal(s)
    ensures Literal(m) && Find(s, m, 0) != -1 && 0 <= Find(s, m, 0) && Find(s, m, 0) + |m| <= |s|
  {
    LiteralPart(s, i, i + |m|);
    hide Literal;
  }

  /**
   `$$` in accepted evidence is recorded, and read back, as `$`: in every document in which a heading follows the task.
   */
  lemma DollarEvidence(d: Document, k: nat, id: string, ts: string, isDate: string -> bool)
    requires k + 1 < |d.pieces| && Served(d, k, id) && Removable(d.pieces[k].body)
    requires isDate(ts) && MildWord(ts)
    ensures Refusal([Witnessed(PRICED, ts)], isDate) == None
    ensures var r := ApplyVerification(Render(d), id, [Witnessed(PRICED, ts)], isDate);
            r.Success? && ReadTaskVerification(r.markdown, id, isDate) == Some([Witnessed(CHEAPER, ts)])
  {
    hide *;
    DescriptionsNonempty();
    PlainDescriptions();
    WitnessedAccepted(PRICED, ts, isDate);
    WitnessedAccepted(CHEAPER, ts, isDate);
    WitnessedLiteral(CHEAPER, ts);
    NoHashFakes(CHEAPER, ts);
    ReadsBackExactly(d, k, id, [Witnessed(CHEAPER, ts)], isDate);
    SameRecord(d, k, id, ts, isDate);
  }

  lemma DescriptionsNonempty()
    ensures PRICED != "" && CHEAPER != "" && '#' !in CHEAPER
  {
  }

  /** Evidence without a hash in its description opens no section. */
  lemma NoHashFakes(description: string, ts: string)
    requires AllUnescaped(description) && MildWord(ts) && '#' !in description
    ensures !FakesHeading(SerializeBlock([Witnessed(description, ts)]))
  {
    hide JsonOpens, JsonCloses, CanonicalList, Escape, MildWord, BlockText, Boundary;
    WitnessedText(description, ts);
    EscapeKeeps(description);
    MildFrame(ts);
    var json := CanonicalList([Witnessed(description, ts)]);
    var b := BlockText(json);
    assert '#' !in json;
    BlockHashes(json);
    forall i | 0 < i < |b| ensures !Boundary(b[i..]) {
      BoundaryHash(b, i);
    }
  }

  lemma BoundaryHash(b: string, i: nat)
    requires i < |b|
    ensures Boundary(b[i..]) ==> '#' in b
  {
    hide Boundary;
    if Boundary(b[i..]) {
      BoundaryOpens(b[i..]);
      assert b[i..][0] == b[i];
    }
  }

  lemma BlockHashes(json: string)
    requires '#' !in json
    ensures '#' !in BlockText(json)
  {
    hide VERIFICATION_BLOCK_HEADER, FENCE, CLOSE;
    FrameQuiet();
    var x := BlockText(json);
    assert forall c | c in x :: c in VERIFICATION_BLOCK_HEADER || c == '\n' || c in FENCE || c in json || c in CLOSE;
  }

  /** Both kinds of evidence give the same document. */
  lemma SameRecord(d: Document, k: nat, id: string, ts: string, isDate: string -> bool)
    requires k + 1 < |d.pieces| && Served(d, k, id) && Removable(d.pieces[k].body)
    requires isDate(ts) && MildWord(ts)
    requires Refusal([Witnessed(PRICED, ts)], isDate) == None && Refusal([Witnessed(CHEAPER, ts)], isDate) == None
    ensures ApplyVerification(Render(d), id, [Witnessed(PRICED, ts)], isDate)
         == ApplyVerification(Render(d), id, [Witnessed(CHEAPER, ts)], isDate)
  {
    var p, last := d.pieces[k], Last(d, k);
    var b1 := Collapse(RemoveBlocks(p.body));
    var b2 := Completed(p.head, b1, last);
    var d1, d2 := WithBody(d, k, b1), WithBody(d, k, b2);
    var x, y := SerializeBlock([Witnessed(PRICED, ts)]), SerializeBlock([Witnessed(CHEAPER, ts)]);
    hide *;
    Sections.Place(d, k, id);
    RemoveStepDoc(d, k, id);
    WithTwice(d, k, b1, b2);
    CompleteStep(d1, k, id);
    WithTwice(d, k, b2, b2);
    ReadyParts(d2, k, id);
    StillBefore(d, k);
    InsertExpands(p.head, id, b2, ts);
    SectionMapped(d2, k, id, x, y);
    Unfold(d, k, id, [Witnessed(PRICED, ts)], isDate, Render(d1), Render(d2));
    Unfold(d, k, id, [Witnessed(CHEAPER, ts)], isDate, Render(d1), Render(d2));
  }

  lemma StillBefore(d: Document, k: nat)
    requires k + 1 < |d.pieces|
    ensures !Last(d, k)
  {
  }

  lemma ReadyParts(d: Document, k: nat, id: string)
    requires Ready(d, k, id)
    ensures k < |d.pieces| && Served(d, k, id) && TaskHead(d.pieces[k].head, id)
    ensures Literal(d.pieces[k].body)
    ensures !Last(d, k) ==> '\n' in d.pieces[k].body
  {
    hide Led, Quiet, TaskHead, Literal, Plain;
    LedParts(d, k, id);
    PlainLiteral(d.pieces[k].body);
    if !Last(d, k) { var body := d.pieces[k].body; assert body[|body| - 1] in body; }
  }

  /** Two edits that agree on a task's section agree on the document. */
  lemma SectionMapped(d: Document, k: nat, id: string, x: string, y: string)
    requires k < |d.pieces| && Served(d, k, id)
    requires InsertBlock(d.pieces[k].head + d.pieces[k].body, x) == InsertBlock(d.pieces[k].head + d.pieces[k].body, y)
    ensures MapTaskSection(Render(d), id, Inserter(x)) == MapTaskSection(Render(d), id, Inserter(y))
  {
    hide Led, Quiet, TaskSection, InsertBlock, Render;
    AroundSame(d, k);
    Sections.Place(d, k, id);
    Cuts(Before(d, k), d.pieces[k].head + d.pieces[k].body, After(d, k));
  }
}
