/**
 Two tasks and two verifications: evidence for the first spells the heading of the second, and completing the
 second then edits the first one's block.
 */
module Astray {
  import opened Text
  import opened Markdown
  import opened Json
  import opened JsonRoundTrip
  import opened Evidence
  import opened Splicing
  import opened Verification
  import opened Documents
  import opened Sections
  import opened SectionEdits
  import opened Blocks
  import opened BlockEnds
  import opened Ledger
  import opened ReadBack
  import opened Tidy
  import opened Markers
  import opened DoneLines
  import opened Completing
  import opened Outcomes
  import opened Reinserting
  import opened Resting
  import opened Reapplying
  import opened Repeating
  import opened Samples
  import opened SmallSections

  const FIRST: string := " a\n\n**Status:** done\n"
  const SECOND: string := " b\n\n**Status:** todo\n\n"
  const MENTION: string := "see #### Task 1.2: b for more"

  // ---------------------------------------------------------------------
  // The first verification
  // ---------------------------------------------------------------------

  lemma FirstText()
    ensures FIRST == " a\n\n" + (STATUS_MARK + "done" + "") + "\n" && FIRST == Stood(" a\n\n", "") + "\n"
    ensures Starless(" a\n\n") && Starless("") && Word("done") && Dashless(Stood(" a\n\n", "")) && EndsLine(FIRST)
  {
  }

  lemma FirstTidy()
    ensures Simple(FIRST) && NoTriple(FIRST) && !Space(Stood(" a\n\n", "")[|Stood(" a\n\n", "")| - 1])
  {
  }

  lemma SecondText()
    ensures Simple(SECOND) && NoTriple(SECOND)
  {
  }

  lemma FirstRests()
    ensures var u := Stood(" a\n\n", ""); NoMark(u, BLOCKED) && Rests(u) && Tidied(u) == u && Standing(" a\n\n", "")
  {
    hide DONE_LINE, Marked, NoMark, Tidied, Rests, IsDone, Space, NoTriple, Dashless, Simple, Stood, MarkerCount;
    FirstText();
    FirstTidy();
    StarlessCount(" a\n\n");
    StarsCount();
    var u := Stood(" a\n\n", "");
    StoodIsDone(" a\n\n", "");
    DoneRests(u);
    NothingSpaces();
    assert u + "" == u;
    PrefixNoTriple(u, "\n");
    TidyText(u, "");
    CountStood(" a\n\n", "");
    CountZero(u);
  }

  lemma PrefixNoTriple(x: string, y: string)
    requires NoTriple(x + y)
    ensures NoTriple(x)
  {
    NoTriplePrefix(x + y, |x|);
    assert (x + y)[..|x|] == x;
  }

  /** The first verification puts its block at the end of its task. */
  lemma FirstRecorded(p: Piece, block: string)
    requires p == Piece(HEAD1, FIRST, Some("1.1")) && Literal(block)
    ensures CompletedText(p, false) == FIRST && WithBlock(HEAD1, FIRST, block) == FIRST + (block + "\n\n")
  {
    var u := Stood(" a\n\n", "");
    hide *;
    FirstLine();
    FirstTidy();
    FirstRests();
    HeadsBare();
    BreakBeyond();
    SimpleSeen(p, u, "\n", false);
    CompletedSeen(p, u, "\n", false);
    SimplePlain(u);
    PlainLiteral(u);
    EndedRests(HEAD1, u);
    FirstPlace();
    BlockAtEnd(HEAD1, FIRST, block);
  }

  lemma FirstLine()
    ensures FIRST == Stood(" a\n\n", "") + "\n"
  {
    FirstText();
    hide FIRST, Stood;
  }

  lemma BlockAtEnd(head: string, x: string, block: string)
    requires BlockPlace(head, x) == Some(|x|)
    ensures WithBlock(head, x, block) == x + (block + "\n\n")
  {
    hide BlockPlace;
    assert x[..|x|] == x && x[|x|..] == "";
    assert x + (block + ("\n\n" + "")) == x + (block + "\n\n");
  }

  lemma HeadsBare()
    ensures Bare(HEAD1) && Bare(HEAD2)
  {
    hide TaskHead, Bare;
    SampleHeads();
    HeadBare(HEAD1, "1.1");
    HeadBare(HEAD2, "1.2");
  }

  lemma FirstPlace()
    ensures BlockPlace(HEAD1, FIRST) == Some(|FIRST|)
  {
    hide *;
    FirstLine();
    FirstRests();
    HeadsBare();
    BlockBehindDone(HEAD1, " a\n\n");
  }

  lemma BlockBehindDone(head: string, a: string)
    requires Bare(head) && Standing(a, "")
    ensures BlockPlace(head, Stood(a, "") + "\n") == Some(|Stood(a, "") + "\n"|)
  {
    hide DONE_LINE, BlockPlace, NoMark, Stood, Bare;
    NewlineTerm();
    StoodMore(a, "", "\n");
    assert "" + "\n" == "\n";
    SpanLenIs("\n", Newline, 1);
    PlaceBehindDone(head, a, "\n");
    StoodSplit(a, "\n");
  }

  // ---------------------------------------------------------------------
  // The text of its block
  // ---------------------------------------------------------------------

  predicate Hashless(x: string)
  {
    forall i :: 0 <= i < |x| ==> x[i] != '#'
  }

  /** The first task's text up to the heading in the evidence, and the block's text behind that heading. */
  function Lead(): string
  {
    FIRST + (BlockOpens() + "see ")
  }

  function Line(): string
  {
    " b for more" + JsonCloses(STAMP)
  }

  const FENCE_END: string := "\n```"

  lemma MentionText()
    ensures MENTION == "see " + (HEAD2 + " b for more") && MENTION != "" && CLOSE == FENCE_END
  {
  }

  lemma MentionChars()
    ensures AllUnescaped(MENTION) && Literal(MENTION) && MildWord(STAMP)
  {
    hide AllUnescaped, Literal, MENTION, MildWord;
    MentionUnescaped();
    MentionLiterally();
    StampMild();
  }

  lemma MentionUnescaped()
    ensures AllUnescaped(MENTION)
  {
  }

  lemma MentionLiterally()
    ensures Literal(MENTION)
  {
  }

  lemma StampMild()
    ensures MildWord(STAMP)
  {
  }

  lemma MentionLiteral()
    ensures Literal(SerializeBlock([Witnessed(MENTION, STAMP)]))
  {
    hide SerializeBlock, MENTION, Literal, STAMP;
    MentionText();
    MentionChars();
    WitnessedLiteral(MENTION, STAMP);
  }

  lemma MentionBlock()
    ensures SerializeBlock([Witnessed(MENTION, STAMP)]) == BlockOpens() + ("see " + (HEAD2 + Line())) + FENCE_END
    ensures CanonicalList([Witnessed(MENTION, STAMP)]) == JsonOpens() + ("see " + (HEAD2 + Line()))
  {
    hide BlockOpens, JsonOpens, JsonCloses, SerializeBlock, CanonicalList, MENTION, CLOSE, HEAD2, STAMP;
    MentionText();
    MentionChars();
    WitnessedText(MENTION, STAMP);
    WitnessedBlock(MENTION, STAMP);
    EscapeKeeps(MENTION);
    assert MENTION + JsonCloses(STAMP) == "see " + (HEAD2 + Line());
  }

  lemma BlockLead(block: string)
    requires block == BlockOpens() + ("see " + (HEAD2 + Line())) + FENCE_END
    ensures FIRST + (block + "\n\n") == Lead() + (HEAD2 + (Line() + "\n```\n")) + "\n"
  {
    hide BlockOpens, Line, FIRST;
    var o, l := BlockOpens(), Line();
    assert FENCE_END + "\n\n" == "\n```\n" + "\n";
    assert FIRST + (o + ("see " + (HEAD2 + l)) + FENCE_END + "\n\n")
        == FIRST + (o + "see ") + (HEAD2 + (l + (FENCE_END + "\n\n")));
    assert l + ("\n```\n" + "\n") == l + "\n```\n" + "\n";
  }

  lemma LineChars()
    ensures LineText(Line()) && Line() != "" && Line()[|Line()| - 1] == ']'
  {
    MentionChars();
    MildFrame(STAMP);
    ClosesQuoted(STAMP);
    LineOpens();
    hide JsonCloses, STAMP, Mild, LineChar, MildWord;
    MildLine(JsonCloses(STAMP));
    LineJoin(" b for more", JsonCloses(STAMP));
  }

  lemma LineJoin(x: string, y: string)
    requires LineText(x) && LineText(y) && y != "" && y[|y| - 1] == ']'
    ensures LineText(x + y) && x + y != "" && (x + y)[|x + y| - 1] == ']'
  {
    hide LineChar;
  }

  lemma LineOpens()
    ensures LineText(" b for more")
  {
  }

  lemma MildLine(x: string)
    requires Mild(x)
    ensures LineText(x)
  {
  }

  /** A character on the block's line that no edit looks for. */
  predicate LineChar(c: char)
  {
    ' ' <= c <= '~' && c != '#' && c != '*' && c != '$' && c != '`' && c != '-'
  }

  predicate LineText(x: string)
  {
    forall i :: 0 <= i < |x| ==> LineChar(x[i])
  }

  lemma HashlessJoin(x: string, y: string)
    requires Hashless(x) && Hashless(y)
    ensures Hashless(x + y)
  {
  }

  lemma HashlessWords()
    ensures Hashless("see ") && Hashless(FIRST) && Hashless("\n\n") && "see "[3] == ' '
  {
    FirstTidy();
  }

  lemma HashlessFrame()
    ensures Hashless(VERIFICATION_BLOCK_HEADER) && Hashless(FENCE)
  {
    hide VERIFICATION_BLOCK_HEADER, FENCE;
    FrameQuiet();
    assert forall i :: 0 <= i < |FENCE| ==> FENCE[i] in FENCE;
    var h := VERIFICATION_BLOCK_HEADER;
    assert forall i :: 0 <= i < |h| ==> h[i] in h;
  }

  lemma HashlessJson()
    ensures Hashless(JsonOpens())
  {
    hide JsonOpens, STAMP;
    MentionChars();
    MildFrame(STAMP);
  }

  lemma LeadChars()
    ensures Hashless(Lead()) && Lead() != "" && Lead()[|Lead()| - 1] == ' '
  {
    hide JsonOpens, VERIFICATION_BLOCK_HEADER, FENCE, FIRST, Hashless;
    HashlessWords();
    HashlessFrame();
    HashlessJson();
    HashlessJoin(VERIFICATION_BLOCK_HEADER, "\n\n");
    HashlessJoin(VERIFICATION_BLOCK_HEADER + "\n\n", FENCE);
    HashlessJoin(VERIFICATION_BLOCK_HEADER + "\n\n" + FENCE, JsonOpens());
    HashlessJoin(BlockOpens(), "see ");
    HashlessJoin(FIRST, BlockOpens() + "see ");
    assert Lead()[|Lead()| - 1] == "see "[3];
  }

  // ---------------------------------------------------------------------
  // The edits for the second task
  // ---------------------------------------------------------------------

  lemma NoHashNoMatch(x: string, id: string)
    requires x == "" || x[0] != '#'
    ensures TaskMatchLen(x, id) == None
  {
    hide TaskIdLen;
  }

  /** The second task's pattern is found in the block, and its region ends before the second task. */
  lemma StrayRegion(h1: string, h2: string, v: string, u: string, rest: string)
    requires TaskHead(h1, "1.1") && TaskHead(h2, "1.2") && Hashless(v) && Hashless(u)
    ensures var tail := "\n" + (h2 + rest);
            var s, a := h1 + (v + (h2 + u + tail)), |h1| + |v|;
            TaskRegion(s, "1.2") == Region(a, a + |h2| + |u|)
  {
    hide HeaderLen, TaskMatchLen, TaskHead, TaskRegion, First, Find;
    var tail := "\n" + (h2 + rest);
    var s, a := h1 + (v + (h2 + u + tail)), |h1| + |v|;
    assert s[a..] == h2 + (u + tail);
    HeadIdsFor(h2, "1.2", u + tail);
    assert TaskId("1.2");
    forall i: nat | i < a ensures TaskMatchLen(s[i..], "1.2").None? {
      StrayAhead(h1, v, h2 + u + tail, i);
    }
    TaskAtIs(s, "1.2", a);
    HashesOpen(h2, "1.2");
    StrayEnds(s, u, tail, a + |h2|, a + |h2| + |u|);
    RegionIs(s, "1.2", a, |h2|, |u|);
  }

  lemma HashesOpen(head: string, id: string)
    requires TaskHead(head, id)
    ensures "####" <= head
  {
  }

  lemma StrayAhead(h1: string, v: string, x: string, i: nat)
    requires TaskHead(h1, "1.1") && Hashless(v) && i < |h1| + |v|
    ensures TaskMatchLen((h1 + (v + x))[i..], "1.2").None?
  {
    hide HeaderLen, TaskMatchLen, TaskHead;
    var s := h1 + (v + x);
    assert TaskId("1.2");
    if i < |h1| {
      HeadFree(Piece(h1, "", Some("1.1")), v + x, "1.2", i);
    } else {
      assert s[i..][0] == v[i - |h1|];
      NoHashNoMatch(s[i..], "1.2");
    }
  }

  lemma StrayEnds(s: string, u: string, tail: string, e: nat, m: nat)
    requires Hashless(u) && e <= m <= |s| && m == e + |u| && s[e..] == u + tail && "\n####" <= tail
    ensures Find(s, H3, e) == m
  {
    hide Find;
    assert s[m..] == tail;
    H3Chars(s, m);
    assert s[m] == tail[0] && s[m + 1] == tail[1] && s[m + 2] == tail[2] && s[m + 3] == tail[3];
    assert "\n####"[0] == '\n' && "\n####"[1] == '#' && "\n####"[2] == '#' && "\n####"[3] == '#';
    forall j: nat | e <= j < m ensures !At(s, j, H3) {
      H3Chars(s, j);
      assert s[j + 1] == if j + 1 < m then u[j + 1 - e] else '\n';
    }
    FindIs(s, H3, e, m);
  }

  lemma StrayEdit(h1: string, h2: string, v: string, u: string, rest: string, f: string -> string, w: string)
    requires TaskHead(h1, "1.1") && TaskHead(h2, "1.2") && Hashless(v) && Hashless(u) && f(h2 + u) == h2 + w
    ensures var tail := "\n" + (h2 + rest);
            OnRegion(h1 + (v + (h2 + u + tail)), "1.2", f) == h1 + (v + (h2 + w + tail))
  {
    hide TaskRegion, TaskHead, Hashless;
    StrayRegion(h1, h2, v, u, rest);
    var tail := "\n" + (h2 + rest);
    var s, a, m := h1 + (v + (h2 + u + tail)), |h1| + |v|, |h1| + |v| + |h2| + |u|;
    assert s[..a] == h1 + v && s[a..m] == h2 + u && s[m..] == tail;
    assert h1 + v + (h2 + w) + tail == h1 + (v + (h2 + w + tail));
  }

  /** The block's own line takes the done line behind it. */
  lemma StrayPlace()
    ensures DonePlace(HEAD2, Line() + "\n```\n") == Between(Line() + "\n", "\n\n```\n")
  {
    hide Line, TaskHead, TitleLen, TitleAnchor, First, Find, Marked, Bare, HEAD1, HEAD2, DonePlace, NoMark, TitleEnd;
    LineChars();
    SampleHeads();
    HeadsBare();
    var u, j := Line() + "\n```\n", |Line()|;
    var s := HEAD2 + u;
    StrayTitle();
    TitleIs(HEAD2, "1.2", u);
    var n := |HEAD2| + j + 1;
    TitleFirst(s, n);
    MarkShapes();
    StarlessUnmarked(u, STATUS);
    HeadedNoMark(HEAD2, u, STATUS);
    NoFirst(s);
    assert |s[..n]| == n;
    assert From(s[..n], |HEAD2|) == Line() + "\n" && From(s, n) == "```\n";
    PlaceThere(HEAD2, u, n);
  }

  lemma StrayTitle()
    ensures var u := Line() + "\n```\n"; TitleEnd(u) == |Line()| + 1 && '\n' in u && Starless(u)
  {
    hide Line, SpanLen;
    LineChars();
    var u, j := Line() + "\n```\n", |Line()|;
    assert u[j] == '\n' && u[j..] == "\n```\n";
    assert forall i :: 0 <= i < j ==> u[i] == Line()[i];
    SpanLenIs(u, NotNewline, j);
    SpanLenIs("\n```\n", Newline, 1);
    assert Starless("\n```\n");
  }

  lemma PlaceThere(head: string, u: string, n: nat)
    requires var s := head + u;
             && |head| <= n <= |s| && First(0, |s|, StatusMarkAt(s)) == -1 && TitleAnchor(s) == Anchor.Behind(0, s[..n])
             && Find(s, s[..n], 0) == 0
    ensures DonePlace(head, u) == Between(From((head + u)[..n], |head|), "\n\n" + From(head + u, n))
  {
    hide TitleAnchor, First, Find;
  }

  /** What the three edits make of the block's end. */
  function Stray(): string
  {
    Stood(Line() + "\n", "\n\n```")
  }

  lemma StrayTidy()
    ensures var v := Stood(Line() + "\n", "\n\n```\n");
            && v == Stray() + "\n" && NoTriple(v) && Hashless(v) && Dashless(Stray()) && Literal(Line() + "\n```\n")
            && Stray() != "" && !Space(Stray()[|Stray()| - 1])
  {
    hide Line;
    LineChars();
    var w, d, b := Line(), "\n" + DONE_LINE, "\n\n```\n";
    assert NoTriple(b) && NoTriple(d) && d[|d| - 1] == 'e' && Hashless(d)
       && Hashless(b) && Dashless(d) && Dashless("\n\n```");
    assert NoTriple(w);
    NoTripleAcross(d, b);
    NoTripleAcross(w, d + b);
    assert Stood(w + "\n", b) == w + (d + b);
    assert Stray() == w + (d + "\n\n```");
    assert Stray()[|Stray()| - 1] == "\n\n```"[4];
  }

  lemma StrayCompleted()
    ensures Ended(HEAD2, Line() + "\n```\n") == Stray()
    ensures var v := Stood(Line() + "\n", "\n\n```\n");
            WithDone(DonePlace(HEAD2, Line() + "\n```\n"), Line() + "\n```\n") == v
            && TrimEnd(Collapse(DropBlocked(v))) == Stray()
  {
    hide Line, DonePlace, NoMark, DropBlocked, Stood, NoTriple, Dashless, Space, Literal, Marked, MarkerCount,
      Collapse, TrimEnd, Tidied;
    StrayPlace();
    StrayTidy();
    LineChars();
    var a, b := Line() + "\n", "\n\n```\n";
    assert Starless(a) && Starless(b);
    StarlessCount(a);
    StarlessCount(b);
    NewlineTerm();
    CountStood(a, b);
    CountZero(Stood(a, b));
    NothingToDrop(Stood(a, b));
    BreaksSpaces("\n");
    TidyText(Stray(), "\n");
    EndedIs(HEAD2, Line() + "\n```\n", a, b);
  }

  lemma StrayHashless()
    ensures Hashless(Line() + "\n```\n") && Hashless(Stray())
  {
    hide Line;
    LineChars();
    StrayTidy();
    assert forall i :: 0 <= i < |Stray()| ==> Stray()[i] == (Stray() + "\n")[i];
  }

  /** Completing the second task edits the end of the first one's block, and nothing else. */
  lemma StrayCompletion(rest: string)
    ensures var tail := "\n" + (HEAD2 + rest);
            CompleteTask(HEAD1 + (Lead() + (HEAD2 + (Line() + "\n```\n") + tail)), "1.2")
            == HEAD1 + (Lead() + (HEAD2 + Stray() + tail))
  {
    var u := Line() + "\n```\n";
    var v := Stood(Line() + "\n", "\n\n```\n");
    hide *;
    SampleHeads();
    HeadsBare();
    LeadChars();
    StrayTidy();
    StrayHashless();
    StrayCompleted();
    FrontIs(HEAD2, u);
    StrayEdit(HEAD1, HEAD2, Lead(), u, rest, SetDone, v);
    StrayEdit(HEAD1, HEAD2, Lead(), v, rest, ClearBlocked, Stray());
    StrayEdit(HEAD1, HEAD2, Lead(), Stray(), rest, CheckAll, Stray());
    CompletionUnfolds(HEAD1 + (Lead() + (HEAD2 + u + ("\n" + (HEAD2 + rest)))), "1.2");
  }

  lemma CompletionUnfolds(s: string, id: string)
    ensures CompleteTask(s, id) == OnRegion(OnRegion(OnRegion(s, id, SetDone), id, ClearBlocked), id, CheckAll)
  {
    hide OnRegion;
  }

  // ---------------------------------------------------------------------
  // The documents
  // ---------------------------------------------------------------------

  lemma SampleText(first: string, second: string)
    ensures Render(Sample(first, second)) == HEAD1 + first + (HEAD2 + second)
  {
    hide HEAD1, HEAD2;
    var ps := Sample(first, second).pieces;
    assert ps[1..] == [ps[1]] && ps[1..][1..] == [];
    assert Pieces(ps[1..]) == HEAD2 + second + "";
    assert Pieces(ps) == HEAD1 + first + Pieces(ps[1..]);
  }

  /** A heading inside a line opens no section. */
  lemma StrayQuiet(v: string, h: string, u: string)
    requires Hashless(v) && v != "" && v[|v| - 1] == ' ' && Hashless(u) && |h| > 4 && h[..4] == "####"
    requires Hashless(h[4..])
    ensures Quiet(v + (h + u))
  {
    hide Boundary;
    var x := v + (h + u);
    forall y: string, i: nat | i < |x| && LineStart(x, i) && (y == "" || EndsLine(x)) ensures !Boundary((x + y)[i..]) {
      StrayStart(v, h, u, i);
      assert (x + y)[i..][0] == x[i];
      NoHashNoBoundary((x + y)[i..]);
    }
  }

  lemma StrayStart(v: string, h: string, u: string, i: nat)
    requires Hashless(v) && v != "" && v[|v| - 1] == ' ' && Hashless(u) && |h| > 4 && h[..4] == "####"
    requires Hashless(h[4..])
    requires i < |v + (h + u)| && LineStart(v + (h + u), i)
    ensures (v + (h + u))[i] != '#'
  {
    var x, n := v + (h + u), |v|;
    assert forall m :: 0 <= m < 4 ==> h[m] == h[..4][m] == '#';
    assert forall m :: 4 <= m < |h| ==> h[m] == h[4..][m - 4];
    assert x[n - 1] == ' ' && !LineTerm(' ') && !LineTerm('#');
    assert forall m :: n <= m < n + 3 ==> x[m] == h[m - n];
  }

  lemma NoHashNoBoundary(x: string)
    requires x == "" || x[0] != '#'
    ensures !Boundary(x)
  {
  }

  lemma NoFaking(b: string, v: string, h: string, u: string)
    requires Hashless(v) && v != "" && v[|v| - 1] == ' ' && Hashless(u) && |h| > 4 && h[..4] == "####"
    requires Hashless(h[4..])
    requires b == v + (h + u)
    ensures !FakesHeading(b)
  {
    hide Boundary;
    forall i | 0 < i < |b| && LineTerm(b[i - 1]) ensures !Boundary(b[i..]) {
      StrayStart(v, h, u, i);
      NoHashNoBoundary(b[i..]);
    }
  }

  lemma SecondHead()
    ensures |HEAD2| > 4 && HEAD2[..4] == "####" && Hashless(HEAD2[4..])
  {
  }

  lemma NoFakingMention()
    ensures !FakesHeading(SerializeBlock([Witnessed(MENTION, STAMP)]))
  {
    hide *;
    MentionBlock();
    SecondHead();
    StrayHashless();
    var o, l := BlockOpens(), Line();
    assert o + ("see " + (HEAD2 + l)) + FENCE_END == (o + "see ") + (HEAD2 + (l + FENCE_END));
    OpensChars();
    CloseHashless();
    NoFaking(o + ("see " + (HEAD2 + l)) + FENCE_END, o + "see ", HEAD2, l + FENCE_END);
  }

  lemma OpensChars()
    ensures var v := BlockOpens() + "see "; Hashless(v) && v != "" && v[|v| - 1] == ' '
  {
    hide BlockOpens;
    LeadChars();
    var v := BlockOpens() + "see ";
    assert forall i :: 0 <= i < |v| ==> v[i] == Lead()[|FIRST| + i];
  }

  lemma CloseHashless()
    ensures Hashless(Line() + FENCE_END)
  {
    hide Line;
    LineChars();
    assert Hashless(FENCE_END);
  }

  /** A document of both tasks whose first text holds that heading in a line. */
  lemma StrayDocument(u: string)
    requires Hashless(u) && EndsLine(u)
    ensures var d := Sample(Lead() + (HEAD2 + u), SECOND);
            && Formed(d) && Still(d) && Free(ByHeader, Before(d, 1), "1.2") && Free(ByHeader, Before(d, 0), "1.1")
  {
    var first := Lead() + (HEAD2 + u);
    var d := Sample(first, SECOND);
    hide Lead, HEAD1, HEAD2, SECOND, Hashless, Quiet, Free, Formed, Plain, Simple, TaskHead, Shape;
    LeadChars();
    SecondHead();
    StrayQuiet(Lead(), HEAD2, u);
    SampleFormed(first, SECOND);
    SecondText();
    SimplePlain(SECOND);
    CalmIsQuiet(SECOND);
    NothingSimple();
    CalmIsQuiet("");
    NothingFree(ByHeader, "1.1");
    assert d.pieces[..0] == [] && Before(d, 0) == "";
    StillIsFree(d, 1, "1.2");
    FormedAhead(d);
    BeforeFree(d, 1, ByHeader, "1.2");
  }

  lemma FormedAhead(d: Document)
    requires |d.pieces| == 2 && d.pieces[0].id == Some("1.1")
    ensures Absent(d.pieces[..1], "1.2") && TaskId("1.2")
  {
  }

  /** An edit of a section that no other text is taken for. */
  lemma MapStill(d: Document, k: nat, id: string, f: string -> string, body: string)
    requires Formed(d) && Still(d) && IsTask(d, k, id) && Free(ByHeader, Before(d, k), id)
    requires f(d.pieces[k].head + d.pieces[k].body) == d.pieces[k].head + body
    ensures MapTaskSection(Render(d), id, f) == Render(WithBody(d, k, body)) && FindHeader(Render(d), id) != -1
  {
    hide Formed, TaskSection, Quiet, Free, ReadTaskSection;
    AroundSame(d, k);
    Around(d, k, body);
    SectionPlace(d, k, id);
    Cuts(Before(d, k), d.pieces[k].head + d.pieces[k].body, After(d, k));
    SectionFound(Render(d), id);
  }

  lemma SectionFound(s: string, id: string)
    requires TaskSection(s, id).Region?
    ensures FindHeader(s, id) != -1
  {
    hide FindHeader;
  }

  // ---------------------------------------------------------------------
  // What is left of the evidence
  // ---------------------------------------------------------------------

  /** The text between the fences once the done line is in. */
  function Spoiled(): string
  {
    CanonicalList([Witnessed(MENTION, STAMP)]) + ("\n" + DONE_LINE + "\n")
  }

  /** The first task's text once the second one is completed. */
  function SpoiledBody(): string
  {
    FIRST + (BlockText(Spoiled()) + "\n")
  }

  lemma SpoiledIs()
    ensures SpoiledBody() == Lead() + (HEAD2 + (Stray() + "\n"))
  {
    hide Line, JsonOpens, VERIFICATION_BLOCK_HEADER, FENCE, CLOSE, DONE_LINE, HEAD2, FIRST, CanonicalList, MENTION;
    MentionBlock();
    MentionText();
    var o, l, d := VERIFICATION_BLOCK_HEADER + "\n\n" + FENCE, Line(), DONE_LINE;
    var j := JsonOpens();
    SpoiledSeam(o, j, HEAD2 + l, d);
    SpoiledTail(FIRST, o + j, HEAD2, l, d);
  }

  lemma SpoiledSeam(o: string, j: string, x: string, d: string)
    ensures o + (j + ("see " + x) + ("\n" + d + "\n")) + "\n```" == (o + j) + ("see " + (x + ("\n" + d + "\n\n```")))
  {
    assert "\n" + d + "\n" + "\n```" == "\n" + d + "\n\n```";
  }

  lemma SpoiledTail(a: string, o: string, h: string, l: string, d: string)
    ensures a + (o + ("see " + (h + l + ("\n" + d + "\n\n```"))) + "\n")
            == a + (o + "see ") + (h + (l + "\n" + d + "\n\n```" + "\n"))
  {
  }

  lemma FenceFoundIn(x: string, t: nat, json: string, g: string)
    requires t <= |x| && x[t..] == json + FENCE_END + g && Fenceless(json)
    ensures Find(x, FENCE_END, t) == t + |json|
  {
    hide Find;
    var e := t + |json|;
    assert x[e..e + 4] == x[t..][|json|..|json| + 4] == FENCE_END;
    forall j: nat | t <= j < e ensures !At(x, j, FENCE_END) {
      var m := j + 1 - t;
      assert x[j + 1] == x[t..][m] == (json + FENCE_END + g)[m];
      assert m < |json| ==> (json + FENCE_END + g)[m] == json[m];
      assert m == |json| ==> (json + FENCE_END + g)[m] == FENCE_END[0];
      assert FENCE_END[0] == '\n' && FENCE_END[1] == '`' && x[j + 1] != '`';
      if j + 4 <= |x| { assert x[j..j + 4][1] == x[j + 1]; }
    }
    FindIs(x, FENCE_END, t, e);
  }

  /** Between the fences the reader takes everything, the done line too. */
  lemma SpoiledCaptured(json: string, g: string)
    requires Fenceless(json)
    ensures CapturedJson(BlockText(json) + g) == Some(json)
  {
    hide VERIFICATION_BLOCK_HEADER, FENCE, CLOSE, BlockText, SpanLen, Find;
    var x := BlockText(json) + g;
    MentionText();
    FenceOpens(json, g);
    var t := |VERIFICATION_BLOCK_HEADER| + 2 + |FENCE|;
    FenceFoundIn(x, t, json, g);
    assert x[t..t + |json|] == x[t..][..|json|] == json;
  }

  lemma SpoiledFirst(head: string, f: string, json: string, g: string)
    requires Bare(head) && EndsLine(f) && !Run(true, Idle, f).Dead? && Fenceless(json)
    ensures FirstJson(head + (f + (BlockText(json) + g))) == Some(json)
  {
    hide BlockText, CapturedJson, Run, Next, Find, Bare;
    var y := BlockText(json) + g;
    var s, k := head + (f + y), |head| + |f|;
    forall i: nat | i < k ensures !JsonAt(s)(i) {
      assert From(s, i) == s[i..];
      if i < |head| {
        BareAt(head, f + y, i);
      } else {
        assert s[i..] == f[i - |head|..] + y;
        NoHeaderAhead(Idle, f, i - |head|, y);
      }
      NotCaptured(s[i..]);
    }
    assert s[k..] == y && From(s, k) == y;
    SpoiledCaptured(json, g);
    FirstIs(|s|, JsonAt(s), k);
  }

  /** JSON with more than spaces behind it is no JSON text. */
  lemma TrailingText(es: seq<Item>, isDate: string -> bool, rest: string)
    requires ValidList(es, isDate) && rest != "" && !NumberChar(rest[0]) && SkipWs(rest) != ""
    ensures ReadList(CanonicalList(es) + rest, isDate) == None
  {
    hide ParseValue, Print, SkipWs, Sorted, SortedList, WellFormed, Decode;
    var v := Arr(SortedList(es));
    CanonicalWellFormed(es, isDate);
    PrintOpens(v);
    ParsePrint(v, rest);
    SkipNothing(Print(v) + rest);
  }

  lemma SkipNothing(s: string)
    requires s != "" && !IsWs(s[0])
    ensures SkipWs(s) == s
  {
  }

  lemma CanonicalWellFormed(es: seq<Item>, isDate: string -> bool)
    requires ValidList(es, isDate)
    ensures WellFormed(Arr(SortedList(es)))
  {
    hide Sorted, Decode, Valid;
    var vs := SortedList(es);
    SortedListAt(es, 0);
    forall i | 0 <= i < |vs| ensures WellFormed(vs[i]) {
      SortedListAt(es, i);
      DecodeSorted(es[i], isDate);
    }
  }

  /** Text in which no fence can stand. */
  predicate Fenceless(x: string)
  {
    forall i :: 0 <= i < |x| ==> x[i] != '`'
  }

  lemma FencelessJoin(x: string, y: string)
    requires Fenceless(x) && Fenceless(y)
    ensures Fenceless(x + y)
  {
  }

  lemma FencelessParts()
    ensures Fenceless("see ") && Fenceless(HEAD2) && Fenceless(JsonOpens()) && Fenceless(Line())
  {
    hide JsonOpens, Line, STAMP, Fenceless, MildWord, Mild, LineText;
    MentionChars();
    MildFrame(STAMP);
    LineChars();
    FencelessWords();
    MildFenceless(JsonOpens());
    LineFenceless(Line());
  }

  lemma FencelessWords()
    ensures Fenceless("see ") && Fenceless(HEAD2)
  {
  }

  lemma MildFenceless(x: string)
    requires Mild(x)
    ensures Fenceless(x)
  {
  }

  lemma LineFenceless(x: string)
    requires LineText(x)
    ensures Fenceless(x)
  {
  }

  lemma SpoiledChars()
    ensures Fenceless(Spoiled())
  {
    hide *;
    MentionBlock();
    FencelessParts();
    DoneChars();
    FencelessJoin(HEAD2, Line());
    FencelessJoin("see ", HEAD2 + Line());
    FencelessJoin(JsonOpens(), "see " + (HEAD2 + Line()));
    FencelessJoin(JsonOpens() + ("see " + (HEAD2 + Line())), "\n" + DONE_LINE + "\n");
    SpoiledUnfolds();
  }

  lemma SpoiledUnfolds()
    ensures Spoiled() == CanonicalList([Witnessed(MENTION, STAMP)]) + ("\n" + DONE_LINE + "\n")
  {
    hide CanonicalList;
  }

  lemma DoneChars()
    ensures var d := "\n" + DONE_LINE + "\n";
            d != "" && d[0] == '\n' && !NumberChar(d[0]) && SkipWs(d) != "" && Fenceless(d)
  {
    var d := "\n" + DONE_LINE + "\n";
    assert d[1..] == DONE_LINE + "\n" && d[1..][0] == '*';
  }

  lemma SpoiledAnswer(isDate: string -> bool)
    requires isDate(STAMP)
    ensures ParseBlock(HEAD1 + SpoiledBody(), isDate) == None
  {
    hide FIRST, BlockText, CanonicalList, HEAD1, DONE_LINE, MENTION, STAMP, Run, ReadList, FirstJson, Bare, SkipWs,
      ValidList, Simple, Plain;
    MentionText();
    FirstText();
    FirstTidy();
    SimplePlain(FIRST);
    PlainAlive(FIRST);
    HeadsBare();
    SpoiledChars();
    DoneChars();
    var es := [Witnessed(MENTION, STAMP)];
    WitnessedAccepted(MENTION, STAMP, isDate);
    AcceptedValid(es, isDate);
    SpoiledFirst(HEAD1, FIRST, Spoiled(), "\n");
    TrailingText(es, isDate, "\n" + DONE_LINE + "\n");
  }

  lemma PlainAlive(x: string)
    requires Plain(x)
    ensures !Run(true, Idle, x).Dead?
  {
  }

  lemma AcceptedValid(es: seq<Item>, isDate: string -> bool)
    requires Refusal(es, isDate) == None
    ensures ValidList(es, isDate)
  {
  }

  // ---------------------------------------------------------------------
  // The second verification
  // ---------------------------------------------------------------------

  lemma Bodies()
    ensures EndsLine(Line() + "\n```\n" + "\n") && Hashless(Line() + "\n```\n" + "\n")
    ensures EndsLine(Stray() + "\n") && Hashless(Stray() + "\n")
  {
    hide Line, Stray;
    StrayHashless();
  }

  /** The second task's text with a block in it. */
  function SecondWith(k: nat, block: string): string
  {
    if k <= |SECOND| then SECOND[..k] + (block + ("\n\n" + SECOND[k..])) else SECOND
  }

  /** The first task's text with its evidence recorded. */
  function FirstBody(): string
  {
    Lead() + (HEAD2 + (Line() + "\n```\n" + "\n"))
  }

  lemma FirstBodyIs()
    ensures FirstBody() == Lead() + (HEAD2 + (Line() + "\n```\n" + "\n"))
  {
    hide Lead, Line, HEAD2;
  }

  lemma SecondUnblocked()
    ensures WithoutBlocks(HEAD2 + SECOND) == HEAD2 + SECOND && Plain(SECOND) && '\n' in SECOND
  {
    hide Simple, NoTriple, Removable, RemoveBlocks, Collapse, Plain, Bare, HEAD2;
    SecondText();
    SimplePlain(SECOND);
    PlainRemoves(SECOND);
    CollapseKeeps(SECOND);
    HeadsBare();
    WithoutKeeps(HEAD2, SECOND);
    assert SECOND[2] == '\n';
  }

  /** Where the second task's block goes. */
  lemma SecondInsert(block: string) returns (k: nat)
    requires Literal(block)
    ensures k <= |SECOND| && InsertBlock(HEAD2 + SECOND, block) == HEAD2 + SecondWith(k, block)
  {
    hide *;
    SampleHeads();
    SecondUnblocked();
    PlainLiteral(SECOND);
    AnchorIs(HEAD2, "1.2", SECOND);
    k := BlockPlace(HEAD2, SECOND).value;
    InsertIs(HEAD2, "1.2", SECOND, block);
    WithBlockAt(HEAD2, SECOND, block, k);
    SecondWithIs(k, block);
  }

  lemma SecondWithIs(k: nat, block: string)
    requires k <= |SECOND|
    ensures SecondWith(k, block) == SECOND[..k] + (block + ("\n\n" + SECOND[k..]))
  {
    hide SECOND;
  }

  lemma SampleBodies(x: string, y: string, z: string)
    ensures WithBody(Sample(x, y), 0, z) == Sample(z, y) && WithBody(Sample(x, y), 1, z) == Sample(x, z)
    ensures IsTask(Sample(x, y), 0, "1.1") && IsTask(Sample(x, y), 1, "1.2") && |Sample(x, y).pieces| == 2
    ensures Sample(x, y).pieces[0] == Piece(HEAD1, x, Some("1.1"))
    ensures Sample(x, y).pieces[1] == Piece(HEAD2, y, Some("1.2"))
    ensures !Last(Sample(x, y), 0)
  {
  }

  /** The document in between, as completion of the second task finds it. */
  lemma StrayText(u: string, rest: string)
    ensures Render(Sample(Lead() + (HEAD2 + (u + "\n")), rest))
            == HEAD1 + (Lead() + (HEAD2 + u + ("\n" + (HEAD2 + rest))))
  {
    hide HEAD1, HEAD2, Lead;
    SampleText(Lead() + (HEAD2 + (u + "\n")), rest);
    assert HEAD1 + (Lead() + (HEAD2 + (u + "\n"))) + (HEAD2 + rest)
        == HEAD1 + (Lead() + (HEAD2 + u + ("\n" + (HEAD2 + rest))));
  }

  /** The first verification's document. */
  lemma FirstVerified(isDate: string -> bool) returns (d1: Document)
    requires isDate(STAMP)
    ensures var d, es := Sample(FIRST, SECOND), [Witnessed(MENTION, STAMP)];
            && d1 == Sample(FirstBody(), SECOND)
            && Wellformed(d) && ApplyVerification(Render(d), "1.1", es, isDate) == Success(Render(d1))
            && ReadTaskVerification(Render(d1), "1.1", isDate) == Some(es)
  {
    var d, es := Sample(FIRST, SECOND), [Witnessed(MENTION, STAMP)];
    hide *;
    FirstText();
    FirstTidy();
    SecondText();
    SampleKept(FIRST, SECOND);
    SampleBodies(FIRST, SECOND, FIRST + (SerializeBlock(es) + "\n\n"));
    WellformedServes(d, 0, "1.1");
    MentionText();
    WitnessedAccepted(MENTION, STAMP, isDate);
    MentionLiteral();
    NoFakingMention();
    FirstRecorded(d.pieces[0], SerializeBlock(es));
    RecordedIs(d, 0, "1.1", SerializeBlock(es));
    var f, g := RecordText(d, 0, "1.1", es, isDate);
    ReadsBackExactly(d, 0, "1.1", es, isDate);
    MentionBlock();
    BlockLead(SerializeBlock(es));
    FirstSeam(Lead(), HEAD2, Line() + "\n```\n");
    FirstBodyIs();
    d1 := Sample(FIRST + (SerializeBlock(es) + "\n\n"), SECOND);
  }

  lemma FirstSeam(a: string, h: string, u: string)
    ensures a + (h + u) + "\n" == a + (h + (u + "\n"))
  {
  }

  lemma SecondVerified(later: seq<Item>, isDate: string -> bool) returns (k: nat)
    requires Refusal(later, isDate) == None && Literal(SerializeBlock(later))
    ensures k <= |SECOND|
    ensures ApplyVerification(Render(Sample(FirstBody(), SECOND)), "1.2", later, isDate)
            == Success(Render(Sample(SpoiledBody(), SecondWith(k, SerializeBlock(later)))))
  {
    var u, block := Line() + "\n```\n", SerializeBlock(later);
    var x1, x2 := Lead() + (HEAD2 + (u + "\n")), Lead() + (HEAD2 + (Stray() + "\n"));
    var d1, d2 := Sample(x1, SECOND), Sample(x2, SECOND);
    hide *;
    Bodies();
    StrayDocument(u + "\n");
    StrayDocument(Stray() + "\n");
    SampleBodies(x1, SECOND, SECOND);
    SecondUnblocked();
    MapStill(d1, 1, "1.2", WithoutBlocks, SECOND);
    StrayText(u, SECOND);
    StrayText(Stray(), SECOND);
    StrayCompletion(SECOND);
    k := SecondInsert(block);
    var third := SecondWith(k, block);
    FirstBodyIs();
    SampleBodies(x2, SECOND, third);
    Inserts(block, HEAD2 + SECOND);
    MapStill(d2, 1, "1.2", Inserter(block), third);
    Unfold(d1, 1, "1.2", later, isDate, Render(d1), Render(d2));
    SpoiledIs();
  }

  lemma Inserts(block: string, s: string)
    ensures Inserter(block)(s) == InsertBlock(s, block)
  {
    hide InsertBlock;
  }

  lemma SpoiledReads(third: string, isDate: string -> bool)
    requires isDate(STAMP)
    ensures ReadTaskVerification(Render(Sample(SpoiledBody(), third)), "1.1", isDate) == None
  {
    var d := Sample(SpoiledBody(), third);
    hide *;
    Bodies();
    SpoiledIs();
    LeadChars();
    SecondHead();
    SampleHeads();
    StrayQuiet(Lead(), HEAD2, Stray() + "\n");
    SpoiledEnds();
    SampleFormed(SpoiledBody(), third);
    SampleBodies(SpoiledBody(), third, third);
    NothingBefore(SpoiledBody(), third);
    NothingFree(ByHeader, "1.1");
    SectionPlace(d, 0, "1.1");
    SpoiledAnswer(isDate);
    SectionReads(Render(d), "1.1", HEAD1 + SpoiledBody(), isDate);
  }

  lemma SpoiledEnds()
    ensures EndsLine(SpoiledBody())
  {
    hide BlockText, Spoiled;
  }

  lemma NothingBefore(x: string, y: string)
    ensures Before(Sample(x, y), 0) == "" && PieceText(Sample(x, y).pieces[0]) == HEAD1 + x
  {
    assert Sample(x, y).pieces[..0] == [];
  }

  lemma SectionReads(s: string, id: string, section: string, isDate: string -> bool)
    requires ReadTaskSection(s, id) == Some(section)
    ensures ReadTaskVerification(s, id, isDate) == ParseBlock(section, isDate)
  {
    hide ReadTaskSection, ParseBlock;
  }

  /**
   A verification of task 1.1 whose description spells the heading of task 1.2 reads back. Then verifying task 1.2
   succeeds, but writes its done line between the first block's fences, so that task 1.1 reads as nothing, while the
   text of task 1.2 keeps its status and gets no more than its block.
   */
  lemma StrayVerification(later: seq<Item>, isDate: string -> bool) returns (k: nat)
    requires isDate(STAMP) && Refusal(later, isDate) == None && Literal(SerializeBlock(later))
    ensures var d, es := Sample(FIRST, SECOND), [Witnessed(MENTION, STAMP)];
            var once := ApplyVerification(Render(d), "1.1", es, isDate);
            && Wellformed(d) && once.Success? && ReadTaskVerification(once.markdown, "1.1", isDate) == Some(es)
            && k <= |SECOND|
            && var twice := Render(Sample(SpoiledBody(), SecondWith(k, SerializeBlock(later))));
               && ApplyVerification(once.markdown, "1.2", later, isDate) == Success(twice)
               && ReadTaskVerification(twice, "1.1", isDate) == None
  {
    hide *;
    var d1 := FirstVerified(isDate);
    k := SecondVerified(later, isDate);
    SpoiledReads(SecondWith(k, SerializeBlock(later)), isDate);
  }
}
