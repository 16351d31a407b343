/**
 Applying the same evidence again: what happens to the bytes of the whole document
 (src/blueprint/verification.ts).
 */
module Reapplying {
  import opened Text
  import opened Markdown
  import opened Evidence
  import opened Splicing
  import opened Verification
  import opened Documents
  import opened Sections
  import opened SectionEdits
  import opened Blocks
  import opened Completion
  import opened BlockEnds
  import opened Ledger
  import opened Tidy
  import opened Markers
  import opened DoneLines
  import opened Completing
  import opened Outcomes
  import opened Reinserting
  import opened Resting

  // ---------------------------------------------------------------------
  // One verification, on the text without blocks
  // ---------------------------------------------------------------------

  /** A section's text without its blocks. */
  function Cleared(p: Piece): string
  {
    Collapse(RemoveBlocks(p.body))
  }

  /** The part of it that completion sees, behind the heading. */
  function Seen(p: Piece, last: bool): string
  {
    Cleared(p)[..Cut(Cleared(p), last)]
  }

  /** What a task's text is when it is completed, its blocks taken out. */
  function CompletedText(p: Piece, last: bool): string
  {
    Completed(p.head, Cleared(p), last)
  }

  lemma CompletedPlain(d: Document, k: nat, id: string)
    requires Served(d, k, id) && Removable(d.pieces[k].body)
    ensures var p := d.pieces[k];
            && PlainLines(Cleared(p), Last(d, k))
            && PlainLines(Completed(p.head, Cleared(p), Last(d, k)), Last(d, k))
  {
    var p, last := d.pieces[k], Last(d, k);
    var x0 := Cleared(p);
    WithTwice(d, k, x0, x0);
    WithTwice(d, k, Completed(p.head, x0, last), x0);
    hide Led, Quiet, Removable, Render, CompleteTask, Completed, MapTaskSection, PlainLines, Collapse, RemoveBlocks,
      Last, Bare;
    RemoveStepDoc(d, k, id);
    CompleteStep(WithBody(d, k, x0), k, id);
    WithTwice(WithBody(d, k, x0), k, Completed(p.head, x0, last), x0);
  }

  lemma SuffixNoTriple(x: string, n: nat)
    requires NoTriple(x) && n <= |x|
    ensures NoTriple(x[n..])
  {
    NoTripleTail(x, n);
  }

  /** Trimmed text ends in no break, so none join up behind it. */
  lemma SettledJoin(u: string, t: string)
    requires NoTriple(u) && TrimEnd(u) == u && NoTriple(t)
    ensures NoTriple(u + t)
  {
    TrimTwice(u);
    hide TrimEnd, NoTriple, Space;
    SpaceIsBreak();
    if u == "" {
      assert u + t == t;
    } else {
      assert u[|u| - 1] != '\n';
      NoTripleAcross(u, t);
    }
  }

  lemma NoTripleAcross(u: string, t: string)
    requires NoTriple(u) && NoTriple(t) && u != "" && u[|u| - 1] != '\n'
    ensures NoTriple(u + t)
  {
    var x := u + t;
    forall i | 0 <= i < |x| - 2 ensures !(x[i] == '\n' && x[i + 1] == '\n' && x[i + 2] == '\n') {
      if i + 2 < |u| {
        assert !(u[i] == '\n' && u[i + 1] == '\n' && u[i + 2] == '\n');
      } else if i >= |u| {
        assert !(t[i - |u|] == '\n' && t[i - |u| + 1] == '\n' && t[i - |u| + 2] == '\n');
      } else {
        assert x[|u| - 1] == u[|u| - 1];
      }
    }
  }

  /** Once completed, a section is tidy as far as completion sees, and the rest as it was. */
  lemma CompletedLaid(d: Document, k: nat, id: string) returns (w: string, t: string)
    requires k < |d.pieces| && Served(d, k, id) && Removable(d.pieces[k].body)
    ensures var p, last := d.pieces[k], Last(d, k);
            && CompletedText(p, last) == w + t && w == Ended(p.head, Seen(p, last)) && Laid(w, t, last) && Plain(w + t)
            && Bare(p.head) && TaskHead(p.head, id) && Literal(Seen(p, last))
  {
    var p, last := d.pieces[k], Last(d, k);
    var x := Cleared(p);
    w, t := Ended(p.head, Seen(p, last)), x[Cut(x, last)..];
    assert CompletedText(p, last) == Completed(p.head, x, last) && Seen(p, last) == x[..Cut(x, last)];
    assert x == Collapse(RemoveBlocks(p.body));
    hide *;
    ServedIndex(d, k, id);
    LedParts(d, k, id);
    HeadBare(p.head, id);
    CompletedPlain(d, k, id);
    BodySplits(x, last);
    CompletedIs(p.head, x[..Cut(x, last)], t, last);
    EndedTidy(p.head, Seen(p, last));
    FrontLiteral(w, t, last);
    PlainLinesPlain(w + t, last);
    CollapseNoTriple(RemoveBlocks(p.body));
    SuffixNoTriple(x, Cut(x, last));
    SettledJoin(w, t);
    LaidFrom(w, t, last);
  }

  lemma PlainLinesPlain(x: string, last: bool)
    requires PlainLines(x, last)
    ensures Plain(x)
  {
  }

  lemma LaidFrom(w: string, t: string, last: bool)
    requires Tidied(w) == w && NoH3(w) && Beyond(t, last) && Literal(w) && NoTriple(w + t)
    ensures Laid(w, t, last)
  {
    hide Tidied, NoH3, Beyond, Literal, NoTriple;
  }

  /** Recording puts the block where blocks go in the completed text. */
  lemma RecordedIs(d: Document, k: nat, id: string, block: string)
    requires k < |d.pieces| && Served(d, k, id) && Removable(d.pieces[k].body) && Literal(block)
    ensures var p, last := d.pieces[k], Last(d, k);
            Recorded(p, last, block) == WithBlock(p.head, CompletedText(p, last), block)
  {
    var p, last := d.pieces[k], Last(d, k);
    RecordedUnfolds(p, last, block);
    hide *;
    var w, t := CompletedLaid(d, k, id);
    PlainLiteral(w + t);
    InsertIs(p.head, id, w + t, block);
    FromHead(p.head, WithBlock(p.head, w + t, block));
  }

  lemma RecordedUnfolds(p: Piece, last: bool, block: string)
    ensures Recorded(p, last, block) == From(InsertBlock(p.head + CompletedText(p, last), block), |p.head|)
  {
    hide Completed, InsertBlock, RemoveBlocks, Collapse;
  }

  /** A verification that is recorded, as an edit of one piece of a document the ledger is kept in. */
  lemma Records(d: Document, k: nat, id: string, es: seq<Item>, isDate: string -> bool, body: string)
    requires k < |d.pieces| && Served(d, k, id) && Removable(d.pieces[k].body)
    requires Refusal(es, isDate) == None && Literal(SerializeBlock(es))
    requires body == Recorded(d.pieces[k], Last(d, k), SerializeBlock(es))
    ensures var d' := WithBody(d, k, body);
            && Apply(Render(d), Call(id, es), isDate) == Render(d')
            && Led(d', k, id) && (!FakesHeading(SerializeBlock(es)) ==> Served(d', k, id))
            && Removable(d'.pieces[k].body) && Last(d', k) == Last(d, k) && d'.pieces[k] == d.pieces[k].(body := body)
  {
    SerializeIs(es);
    hide *;
    var json := CanonicalList(es);
    var f, g := RecordText(d, k, id, es, isDate);
    AcceptedLine(es, isDate);
    LineUnbroken(json);
    SealedCanonical(f, json, g);
    ServedIndex(d, k, id);
    LedWith(d, k, id, body);
    if !FakesHeading(SerializeBlock(es)) {
      SealedQuiet(f, json, g);
      ServedWith(d, k, id, body);
    }
    WithTwice(d, k, body, body);
    AppliedIs(Render(d), id, es, isDate, Render(WithBody(d, k, body)));
  }

  lemma AppliedIs(markdown: string, id: string, es: seq<Item>, isDate: string -> bool, after: string)
    requires ApplyVerification(markdown, id, es, isDate) == Success(after)
    ensures Apply(markdown, Call(id, es), isDate) == after
  {
    hide ApplyVerification;
  }

  lemma LineUnbroken(json: string)
    requires ListLine(json)
    ensures NoBreak(json)
  {
  }

  // ---------------------------------------------------------------------
  // A section that holds its block
  // ---------------------------------------------------------------------

  /** A section's text with its block taken out the way it went in. */
  function Unblocked(body: string, block: string): string
  {
    var i := Find(body, block, 0);
    if i == -1 then body else Unsided(body[..i], body[i + |block|..])
  }

  lemma UnblockedIs(head: string, id: string, x: string, json: string)
    requires TaskHead(head, id) && Plain(x)
    ensures Unblocked(WithBlock(head, x, BlockText(json)), BlockText(json)) == x
  {
    hide TaskHead, Plain, BlockText, WithBlock, BlockPlace, Unsided, Find;
    var f, g := WithBlockSides(head, id, x);
    var b := BlockText(json);
    var body := f + (b + g);
    SidesText(head, x, f, g);
    assert body[|f|..|f| + |b|] == b;
    forall j: nat | j < |f| ensures !At(body, j, b) {
      BlockNotBefore(f, json, g, j);
    }
    FindIs(body, b, 0, |f|);
    assert body[..|f|] == f && body[|f| + |b|..] == g;
  }

  lemma BlockNotBefore(f: string, json: string, g: string, j: nat)
    requires Sides(f, g) && j < |f|
    ensures !At(f + (BlockText(json) + g), j, BlockText(json))
  {
    hide Run, Plain, VERIFICATION_BLOCK_HEADER, FENCE, CLOSE;
    var b := BlockText(json);
    var body := f + (b + g);
    NoHeaderAhead(Idle, f, j, b + g);
    assert body[j..] == f[j..] + (b + g);
    HeaderOpens(json);
    assert b + "" == b;
    AtOpens(body, j, VERIFICATION_BLOCK_HEADER, b);
  }

  lemma AtOpens(x: string, j: nat, h: string, b: string)
    requires h <= b && j <= |x|
    ensures At(x, j, b) ==> h <= x[j..]
  {
    assert At(x, j, b) ==> x[j..][..|b|] == b;
  }

  lemma RecordedNext(p: Piece, id: string, x: string, last: bool, json: string)
    requires TaskHead(p.head, id) && Plain(x) && NoTriple(x) && NoBreak(json)
    requires p.body == WithBlock(p.head, x, BlockText(json))
    ensures CompletedText(p, last) == Completed(p.head, Respaced(p.head, x), last)
  {
    hide Completed, RemoveBlocks, Collapse, WithBlock, Respaced, TaskHead, Plain, NoTriple, NoBreak, BlockText;
    RespacedIs(p.head, id, x, json);
  }

  /** Recording again gives the same section exactly when the section is at rest. */
  lemma RecordedAgain(d: Document, k: nat, id: string, w: string, t: string, json: string)
    requires k < |d.pieces| && Served(d, k, id) && Removable(d.pieces[k].body)
    requires NoBreak(json) && Literal(BlockText(json)) && Laid(w, t, Last(d, k)) && Plain(w + t)
    requires d.pieces[k].body == WithBlock(d.pieces[k].head, w + t, BlockText(json))
    ensures var p, last := d.pieces[k], Last(d, k);
            && (Recorded(p, last, BlockText(json)) == p.body <==> AtRest(p.head, w + t, last))
            && Recorded(p, last, BlockText(json))
               == WithBlock(p.head, Completed(p.head, Respaced(p.head, w + t), last), BlockText(json))
  {
    hide *;
    var p, last := d.pieces[k], Last(d, k);
    LaidParts(w, t, last);
    var v, s := CompletedLaid(d, k, id);
    RecordedIs(d, k, id, BlockText(json));
    RecordedNext(p, id, w + t, last, json);
    WithBlockInjective(p.head, id, v + s, w + t, json);
    RestsExactly(p.head, id, w, t, last);
  }

  // ---------------------------------------------------------------------
  // Applying the same evidence again
  // ---------------------------------------------------------------------

  lemma OneBody(d: Document, k: nat, body: string)
    requires k < |d.pieces|
    ensures k < |WithBody(d, k, body).pieces| && WithBody(d, k, body).pieces[k].body == body
  {
  }

  lemma ApplyStays(d: Document, k: nat, body: string)
    requires k < |d.pieces|
    ensures Render(WithBody(d, k, body)) == Render(d) <==> body == d.pieces[k].body
  {
    hide Render;
    BodiesDiffer(d, k, body, d.pieces[k].body);
    assert d.pieces[k := d.pieces[k].(body := d.pieces[k].body)] == d.pieces;
  }

  /** The section of a task that a verification has just recorded. */
  lemma OnceLaid(d: Document, k: nat, id: string, es: seq<Item>, isDate: string -> bool)
    returns (d1: Document, w: string, t: string)
    requires k < |d.pieces| && Served(d, k, id) && Removable(d.pieces[k].body)
    requires Refusal(es, isDate) == None && Literal(SerializeBlock(es))
    ensures var p, last, json := d.pieces[k], Last(d, k), CanonicalList(es);
            && Apply(Render(d), Call(id, es), isDate) == Render(d1)
            && d1 == WithBody(d, k, WithBlock(p.head, w + t, BlockText(json))) && SerializeBlock(es) == BlockText(json)
            && Led(d1, k, id) && (!FakesHeading(SerializeBlock(es)) ==> Served(d1, k, id))
            && k < |d1.pieces| && Removable(d1.pieces[k].body)
            && Last(d1, k) == last && d1.pieces[k] == p.(body := WithBlock(p.head, w + t, BlockText(json)))
            && w == Ended(p.head, Seen(p, last)) && w + t == CompletedText(p, last)
            && Laid(w, t, last) && Plain(w + t) && Literal(Seen(p, last))
            && NoBreak(json) && Literal(BlockText(json)) && TaskHead(p.head, id) && Bare(p.head)
  {
    hide *;
    var p, last, json := d.pieces[k], Last(d, k), CanonicalList(es);
    SerializeIs(es);
    AcceptedEvidence(es, isDate);
    w, t := CompletedLaid(d, k, id);
    RecordedIs(d, k, id, BlockText(json));
    d1 := WithBody(d, k, WithBlock(p.head, w + t, BlockText(json)));
    Records(d, k, id, es, isDate, WithBlock(p.head, w + t, BlockText(json)));
    OneBody(d, k, WithBlock(p.head, w + t, BlockText(json)));
  }

  lemma SerializeIs(es: seq<Item>)
    ensures SerializeBlock(es) == BlockText(CanonicalList(es))
  {
  }

  lemma ContainedParts(es: seq<Item>)
    requires Contained(es)
    ensures Literal(SerializeBlock(es)) && !FakesHeading(SerializeBlock(es))
  {
  }

  /** One more verification of a section that holds its block. */
  lemma AppliedAgain(d: Document, k: nat, id: string, es: seq<Item>, isDate: string -> bool, w: string, t: string)
    returns (d': Document)
    requires k < |d.pieces| && Served(d, k, id) && Removable(d.pieces[k].body)
    requires Refusal(es, isDate) == None && Contained(es)
    requires d.pieces[k].body == WithBlock(d.pieces[k].head, w + t, SerializeBlock(es)) && Laid(w, t, Last(d, k))
    requires Plain(w + t)
    ensures var p, last := d.pieces[k], Last(d, k);
            && Apply(Render(d), Call(id, es), isDate) == Render(d')
            && (Render(d') == Render(d) <==> AtRest(p.head, w + t, last))
            && d' == WithBody(d, k,
                     WithBlock(p.head, Completed(p.head, Respaced(p.head, w + t), last), SerializeBlock(es)))
            && Served(d', k, id)
            && k < |d'.pieces| && Removable(d'.pieces[k].body) && Last(d', k) == last && d'.pieces[k].head == p.head
            && d'.pieces[k].body
               == WithBlock(p.head, Completed(p.head, Respaced(p.head, w + t), last), SerializeBlock(es))
  {
    hide *;
    var p, last, json := d.pieces[k], Last(d, k), CanonicalList(es);
    SerializeIs(es);
    ContainedParts(es);
    AcceptedEvidence(es, isDate);
    RecordedAgain(d, k, id, w, t, json);
    var body := Recorded(p, last, BlockText(json));
    Records(d, k, id, es, isDate, body);
    d' := WithBody(d, k, body);
    OneBody(d, k, body);
    ApplyStays(d, k, body);
  }

  /**
   Verifying a task again with the same evidence leaves every byte of the document as it is exactly when the
   section it finds is at rest: no blocked marker stands in what completion sees, the status there is settled,
   and an empty line follows the line that the block stands behind, or nothing that completion sees.
   */
  lemma ReapplyingExactly(d: Document, k: nat, id: string, es: seq<Item>, isDate: string -> bool) returns (d1: Document)
    requires k < |d.pieces| && Served(d, k, id) && Removable(d.pieces[k].body)
    requires Refusal(es, isDate) == None && Contained(es)
    ensures var c := Call(id, es);
            && Apply(Render(d), c, isDate) == Render(d1) && k < |d1.pieces| && d1.pieces[k].head == d.pieces[k].head
            && (Apply(Render(d1), c, isDate) == Render(d1)
                <==> AtRest(d1.pieces[k].head, Unblocked(d1.pieces[k].body, SerializeBlock(es)), Last(d1, k)))
  {
    var w, t;
    hide *;
    ContainedParts(es);
    d1, w, t := OnceLaid(d, k, id, es, isDate);
    UnblockedIs(d.pieces[k].head, id, w + t, CanonicalList(es));
    var d2 := AppliedAgain(d1, k, id, es, isDate, w, t);
  }

  lemma UnmarkedEnds(head: string, u: string)
    requires Bare(head) && Literal(u) && NoMark(u, BLOCKED)
    ensures NoMark(Ended(head, u), BLOCKED) && Rests(Ended(head, u))
  {
    hide DonePlace, NoMark, Literal, Bare, Rests, DropBlocked, Tidied, Ended, Stood, MarkerCount, TakesDone;
    UnmarkedSides(head, u);
    EndedCount(head, u);
    CountZero(Ended(head, u));
    EndedStatus(head, u);
  }

  lemma UnmarkedSides(head: string, u: string)
    requires Bare(head) && Literal(u) && NoMark(u, BLOCKED)
    ensures MarkersAround(head, u) == 0 && StatusSettles(head, u)
  {
    hide NoMark, Literal, Bare, DropBlocked, Tidied, Stood, MarkerCount, DonePlace;
    SetDoneIs(head, u);
    CountZero(u);
    match DonePlace(head, u)
    case Between(a, b) =>
      SidesUnmarked(head, u, a, b);
      CountZero(a + "**");
      CountZero(b);
      if TakesDone(a) { TakesMarked(a); }
    case Kept =>
      NothingToDrop(u);
      KeptExactly(head, u);
      NoFirst(u);
  }

  /** What stands around the place of the done line holds no marker that the section does not hold. */
  lemma SidesUnmarked(head: string, u: string, a: string, b: string)
    requires Bare(head) && Literal(u) && NoMark(u, BLOCKED) && DonePlace(head, u) == Between(a, b)
    ensures NoMark(a + "**", BLOCKED) && NoMark(b, BLOCKED)
  {
    hide *;
    var s := head + u;
    if First(0, |s|, StatusMarkAt(s)) == -1 {
      var k := TitleSides(head, u);
      match k {
        case Some(n) => InsertedUnmarked(u, n);
        case None => AppendedUnmarked(u);
      }
    } else {
      var k, n := ValueSides(head, u);
      ReplacedUnmarked(u, k, n);
    }
  }

  /** Where the done line goes when there is a mark with a value. */
  lemma ValueSides(head: string, u: string) returns (k: nat, n: nat)
    requires Bare(head) && Literal(u) && First(0, |head + u|, StatusMarkAt(head + u)) != -1
    requires DonePlace(head, u).Between?
    ensures k + n <= |u| && "**" <= u[k..k + n] && DonePlace(head, u) == Between(u[..k], u[k + n..])
    ensures Marked(u[k..], STATUS)
  {
    hide StatusValueLen, Bare, Literal, NoMark, NoH3, TitleAnchor, First, Find, DONE_LINE, Marked;
    var s := head + u;
    var i := First(0, |s|, StatusValueAt(s));
    StatusBehindHead(head, u);
    ValueThere(s, i);
    n := StatusValueLen(From(s, i)).value;
    ReplacePlace(head, u, i, n);
    k := i - |head|;
    ValueMarked(From(s, i));
    assert From(s, i) == u[k..];
  }

  lemma InsertedUnmarked(u: string, k: nat)
    requires k <= |u| && EndsLine(u[..k]) && NoMark(u, BLOCKED)
    ensures NoMark(u[..k] + "**", BLOCKED) && NoMark("\n\n" + u[k..], BLOCKED)
  {
    hide NoMark;
    MarkShapes();
    assert u == u[..k] + u[k..];
    NoMarkPrefix(u[..k], u[k..], BLOCKED);
    StarsBehind(u[..k]);
    BreaksAhead(u[k..]);
  }

  lemma AppendedUnmarked(u: string)
    requires NoMark(u, BLOCKED)
    ensures NoMark(u + "\n" + "**", BLOCKED) && NoMark("\n", BLOCKED)
  {
    hide NoMark;
    MarkShapes();
    BreakUnmarked(u, BLOCKED);
    StarsBehind(u + "\n");
    LoneBreakUnmarked();
  }

  lemma ReplacedUnmarked(u: string, k: nat, n: nat)
    requires k + n <= |u| && "**" <= u[k..k + n] && NoMark(u, BLOCKED)
    ensures NoMark(u[..k] + "**", BLOCKED) && NoMark(u[k + n..], BLOCKED)
  {
    hide NoMark;
    MarkShapes();
    assert u[k..k + n][..2] == "**";
    var x := u[..k] + "**";
    assert u == x + u[k + 2..];
    NoMarkPrefix(x, u[k + 2..], BLOCKED);
    assert u == u[..k + n] + u[k + n..];
    NoMarkPrefix(u[..k + n], u[k + n..], BLOCKED);
  }

  lemma LoneBreakUnmarked()
    ensures NoMark("\n", BLOCKED)
  {
    MarkShapes();
    NothingUnmarkedBlocked();
    BreakUnmarked("", BLOCKED);
    assert "" + "\n" == "\n";
  }

  lemma NothingUnmarkedBlocked()
    ensures NoMark("", BLOCKED)
  {
    MarkShapes();
  }

  lemma StarsBehind(u: string)
    requires EndsLine(u) && NoMark(u, BLOCKED)
    ensures NoMark(u + "**", BLOCKED)
  {
    hide NoMark;
    MarkShapes();
    StarsCount();
    CountZero("**");
    NoMarkJoin(u, "**", BLOCKED);
  }

  lemma BreaksAhead(u: string)
    requires NoMark(u, BLOCKED)
    ensures NoMark("\n\n" + u, BLOCKED)
  {
    hide NoMark;
    MarkShapes();
    LoneBreakUnmarked();
    var x := "\n";
    BreakUnmarked(x, BLOCKED);
    assert x + "\n" == "\n\n";
    NoMarkJoin("\n\n", u, BLOCKED);
  }

  /**
   Without a blocked marker in what completion sees of a section, the bytes no longer change from the second
   verification on, whatever its status and its line ends are.
   */
  lemma UnblockedSettles(d: Document, k: nat, id: string, es: seq<Item>, isDate: string -> bool)
    requires k < |d.pieces| && Served(d, k, id) && Removable(d.pieces[k].body)
    requires Refusal(es, isDate) == None && Contained(es) && NoMark(Seen(d.pieces[k], Last(d, k)), BLOCKED)
    ensures var c := Call(id, es);
            var twice := Apply(Apply(Render(d), c, isDate), c, isDate);
            Apply(twice, c, isDate) == twice
  {
    hide *;
    var head, last := d.pieces[k].head, Last(d, k);
    ContainedParts(es);
    var d1, w, t := OnceLaid(d, k, id, es, isDate);
    UnmarkedEnds(head, Seen(d.pieces[k], last));
    var d2 := AppliedAgain(d1, k, id, es, isDate, w, t);
    if !AtRest(head, w + t, last) {
      NextRests(head, id, w, t, last);
      var v, s := CompletedLaid(d1, k, id);
      LaidParts(w, t, last);
      RecordedNext(d1.pieces[k], id, w + t, last, CanonicalList(es));
      WithTwice(d1, k, WithBlock(head, v + s, SerializeBlock(es)), "");
      var d3 := AppliedAgain(d2, k, id, es, isDate, v, s);
    }
  }
}
