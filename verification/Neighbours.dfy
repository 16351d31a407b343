/**
 What a verification does to the other tasks of a document, whatever text its evidence holds. The header
 of a task is looked for at the start of a line, the pattern that completes it anywhere; a block can hold
 a match of either.
 */
module Neighbours {
  import opened Text
  import opened Markdown
  import opened Evidence
  import opened Splicing
  import opened Verification
  import opened Documents
  import opened Sections
  import opened SectionEdits
  import opened Blocks
  import opened Completion
  import opened BlockEnds
  import opened Ledger

  // ---------------------------------------------------------------------
  // A document whose piece `k` holds a block
  // ---------------------------------------------------------------------

  /** A document, well-formed but for the block in the piece of task `id`. */
  ghost predicate Holding(d: Document, k: nat, id: string, f: string, json: string, g: string)
  {
    && IsTask(d, k, id) && Formed(d) && Sides(f, g) && ListLine(json)
    && d.pieces[k].body == f + (BlockText(json) + g)
    && Quiet(d.pre) && (forall j :: 0 <= j < |d.pieces| && j != k ==> Quiet(d.pieces[j].body))
    && (forall j :: 0 <= j < |d.pieces| && d.pieces[j].id.Some? ==> FreeButAt(d, k, j, ByPattern, d.pieces[j].id.value))
  }

  /** A search finds nothing before piece `j`, piece `k` left aside. */
  ghost predicate FreeButAt(d: Document, k: nat, j: nat, how: Search, id: string)
    requires j <= |d.pieces|
  {
    Free(how, d.pre, id) && forall i :: 0 <= i < j && i != k ==> Free(how, d.pieces[i].body, id)
  }

  lemma HoldingFrom(d: Document, k: nat, id: string, f: string, json: string, g: string)
    requires Wellformed(d) && IsTask(d, k, id) && Sides(f, g) && ListLine(json)
    requires Last(d, k) || EndsLine(f + (BlockText(json) + g))
    ensures Holding(WithBody(d, k, f + (BlockText(json) + g)), k, id, f, json, g)
  {
    hide BlockText, Quiet, Free, Formed, Sides, ListLine;
    FormedWith(d, k, f + (BlockText(json) + g));
  }

  lemma HeadersFree(d: Document, k: nat, j: nat, id: string, f: string, json: string, g: string, other: string)
    requires Holding(d, k, id, f, json, g) && j <= |d.pieces|
    ensures FreeButAt(d, k, j, ByHeader, other)
  {
    hide Quiet, Free, Formed, Sides, ListLine;
    QuietIsFree(d.pre, other);
    forall i | 0 <= i < j && i != k ensures Free(ByHeader, d.pieces[i].body, other) {
      QuietIsFree(d.pieces[i].body, other);
    }
  }

  /** Before another task's piece a search finds nothing, unless the block stands there and holds a match. */
  lemma BeforeOther(d: Document, k: nat, id: string, f: string, json: string, g: string, j: nat, other: string,
                    how: Search)
    requires Holding(d, k, id, f, json, g) && IsTask(d, j, other) && j != k
    requires !(k < j && Mentions(how, BlockText(json), other))
    ensures Free(how, Before(d, j), other)
  {
    hide Quiet, Free, Formed, Sides, ListLine, BlockText, Mentions, TaskId, TaskHead, Boundary, Before, After;
    TaskFacts(d, j, other);
    if how.ByHeader? { HeadersFree(d, k, j, id, f, json, g, other); }
    if k < j { SealedFree(how, f, json, g, other); }
    assert FreeBefore(d, j, how, other);
    BeforeFree(d, j, how, other);
  }

  /** The text before the block, from the start of the document. */
  function Ahead(d: Document, k: nat, f: string): string
    requires k < |d.pieces|
  {
    Before(d, k) + (d.pieces[k].head + f)
  }

  lemma AheadFree(d: Document, k: nat, id: string, f: string, json: string, g: string, j: nat, other: string,
                  how: Search)
    requires Holding(d, k, id, f, json, g) && IsTask(d, j, other) && k < j
    ensures Free(how, Ahead(d, k, f), other) && EndsLine(Ahead(d, k, f))
  {
    hide Quiet, Free, Sides, ListLine, BlockText, TaskId, HeadOk, Boundary, Shape, TaskHead, After;
    TaskFacts(d, j, other);
    if how.ByHeader? { HeadersFree(d, k, k, id, f, json, g, other); }
    assert FreeBefore(d, k, how, other);
    FrontAbsent(d, k, j, other);
    BeforeFree(d, k, how, other);
    BeforeEndsLine(d, k);
    ShapeAt(d.pieces, k);
    SidesCalm(f, g);
    CalmIsFree(how, f, other);
    var p := Piece(d.pieces[k].head, f, d.pieces[k].id);
    assert HeadOk(p) by { HeadOkAgain(d.pieces[k], f); }
    PieceFree(how, p, other);
    FreeJoin(how, Before(d, k), d.pieces[k].head + f, other);
    EndsLineAfter(d.pieces[k].head, f);
    EndsLineAfter(Before(d, k), d.pieces[k].head + f);
  }

  lemma HeadOkAgain(p: Piece, body: string)
    requires HeadOk(p)
    ensures HeadOk(p.(body := body))
  {
    hide TaskHead, PhaseHead;
  }

  lemma FrontAbsent(d: Document, k: nat, j: nat, other: string)
    requires k < j < |d.pieces| && Absent(d.pieces[..j], other)
    ensures Absent(d.pieces[..k], other) && d.pieces[k].id != Some(other)
  {
    assert forall i :: 0 <= i < k ==> d.pieces[..k][i] == d.pieces[..j][i];
    assert d.pieces[..j][k] == d.pieces[k];
  }

  lemma SidesCalm(f: string, g: string)
    requires Sides(f, g)
    ensures Calm(f) && EndsLine(f) && f != "" && g != "" && g[0] == '\n' && Plain(g)
  {
    PlainIsCalm(f);
  }

  /** The document around its block. */
  lemma AroundBlock(d: Document, k: nat, f: string, block: string, g: string)
    requires k < |d.pieces| && d.pieces[k].body == f + (block + g)
    ensures Render(d) == Ahead(d, k, f) + (block + (g + After(d, k)))
  {
    AroundHead(d, k);
    BlockCuts(Before(d, k), d.pieces[k].head, f, block, g, After(d, k));
  }

  lemma BlockCuts(a: string, h: string, f: string, b: string, g: string, next: string)
    ensures a + (h + (f + (b + g) + next)) == (a + (h + f)) + (b + (g + next))
  {
  }

  // ---------------------------------------------------------------------
  // What one verification does to another task
  // ---------------------------------------------------------------------

  /** The block of task `k` holds, behind a line terminator of its own, the header of a task that comes later. */
  predicate Overshadows(k: nat, block: string, j: nat, other: string)
  {
    k < j && Mentions(ByHeader, block, other)
  }

  /** A task's section lies where its piece lies. */
  predicate AtItsPiece(d: Document, j: nat, id: string)
    requires j < |d.pieces|
  {
    TaskSection(Render(d), id) == Region(|Before(d, j)|, |Before(d, j)| + |PieceText(d.pieces[j])|)
  }

  lemma OtherSection(d: Document, k: nat, id: string, f: string, json: string, g: string, j: nat, other: string)
    requires Holding(d, k, id, f, json, g) && IsTask(d, j, other) && j != k
    requires !Overshadows(k, BlockText(json), j, other)
    ensures AtItsPiece(d, j, other) && ReadTaskSection(Render(d), other) == Some(PieceText(d.pieces[j]))
  {
    hide Quiet, Free, Formed, Sides, ListLine, BlockText, Mentions, TaskSection, ReadTaskSection, Render, Before;
    BeforeOther(d, k, id, f, json, g, j, other, ByHeader);
    SectionPlace(d, j, other);
  }

  lemma OvershadowedSection(d: Document, k: nat, id: string, f: string, json: string, g: string, j: nat, other: string)
    requires Holding(d, k, id, f, json, g) && IsTask(d, j, other) && Overshadows(k, BlockText(json), j, other)
    ensures !AtItsPiece(d, j, other)
    ensures ReadTaskSection(Render(d), other).Some? && FirstJson(ReadTaskSection(Render(d), other).value) == None
  {
    var next := After(d, k);
    hide Quiet, Free, Sides, ListLine, BlockText, Mentions, TaskSection, ReadTaskSection, Render, Before, After, Ahead,
      FirstJson,
      Formed, TaskId, TaskHead, Boundary, EndsLine, FindHeader;
    TaskFacts(d, k, id);
    TaskFacts(d, j, other);
    SidesCalm(f, g);
    EndsBehind(f, BlockText(json), g);
    AheadFree(d, k, id, f, json, g, j, other, ByHeader);
    AroundBlock(d, k, f, BlockText(json), g);
    FakedSection(Ahead(d, k, f), json, g, next, other);
    SectionStart(Render(d), other);
    LaterStart(d, k, f, BlockText(json), g, j);
  }

  lemma SectionStart(s: string, id: string)
    ensures TaskSection(s, id).Region? ==> TaskSection(s, id).start == FindHeader(s, id)
  {
    hide FindHeader, HeaderLen, SectionRest;
  }

  lemma LaterStart(d: Document, k: nat, f: string, block: string, g: string, j: nat)
    requires k < j < |d.pieces| && d.pieces[k].body == f + (block + g)
    ensures |Before(d, j)| >= |Ahead(d, k, f)| + |block| + |g|
  {
    TextPrefix(d.pieces[..j], k);
    assert d.pieces[..j][..k] == d.pieces[..k];
    var rest := d.pieces[..j][k..];
    assert rest[0] == d.pieces[k];
    assert Pieces(rest) == PieceText(d.pieces[k]) + Pieces(rest[1..]);
  }

  lemma OtherAnswers(d: Document, d': Document, k: nat, id: string, f: string, json: string, g: string, j: nat,
                     other: string, isDate: string -> bool)
    requires Holding(d', k, id, f, json, g) && IsTask(d', j, other) && j != k
    requires ReadTaskSection(Render(d), other) == Some(PieceText(d'.pieces[j]))
    ensures AtItsPiece(d', j, other) <==> !Overshadows(k, BlockText(json), j, other)
    ensures !Overshadows(k, BlockText(json), j, other)
            ==> ReadTaskSection(Render(d'), other) == ReadTaskSection(Render(d), other)
    ensures ReadTaskVerification(Render(d'), other, isDate)
            == if Overshadows(k, BlockText(json), j, other) then None
               else ReadTaskVerification(Render(d), other, isDate)
  {
    hide *;
    if Overshadows(k, BlockText(json), j, other) {
      OvershadowedSection(d', k, id, f, json, g, j, other);
      NoJsonReads(Render(d'), other, isDate);
    } else {
      OtherSection(d', k, id, f, json, g, j, other);
      SameSectionReads(Render(d), Render(d'), other, isDate);
    }
  }

  lemma SameSectionReads(s: string, t: string, id: string, isDate: string -> bool)
    requires ReadTaskSection(s, id) == ReadTaskSection(t, id)
    ensures ReadTaskVerification(s, id, isDate) == ReadTaskVerification(t, id, isDate)
  {
    hide ReadTaskSection, ParseBlock;
  }

  lemma OneBodyChanged(d: Document, k: nat, body: string)
    requires k < |d.pieces|
    ensures SameOutline(d, WithBody(d, k, body))
    ensures forall j :: 0 <= j < |d.pieces| && j != k ==> WithBody(d, k, body).pieces[j] == d.pieces[j]
  {
  }

  /**
   After a verification, another task's section lies where its piece lies, and reads as it did, exactly
   when its piece stands before the verified one or the block holds no header of it behind a line
   terminator of its own. Otherwise the section starts inside the block and nothing is read from it.
   */
  lemma OthersExactly(d: Document, k: nat, id: string, es: seq<Item>, j: nat, other: string, isDate: string -> bool)
    returns (d': Document)
    requires Wellformed(d) && IsTask(d, k, id) && Removable(d.pieces[k].body) && IsTask(d, j, other) && j != k
    requires Refusal(es, isDate) == None && Literal(SerializeBlock(es))
    ensures ApplyVerification(Render(d), id, es, isDate) == Success(Render(d'))
    ensures SameOutline(d, d') && d'.pieces[j] == d.pieces[j]
    ensures AtItsPiece(d', j, other) <==> !Overshadows(k, SerializeBlock(es), j, other)
    ensures !Overshadows(k, SerializeBlock(es), j, other)
            ==> ReadTaskSection(Render(d'), other) == ReadTaskSection(Render(d), other)
    ensures ReadTaskVerification(Render(d'), other, isDate)
            == if Overshadows(k, SerializeBlock(es), j, other) then None
               else ReadTaskVerification(Render(d), other, isDate)
  {
    var json := CanonicalList(es);
    var body := Recorded(d.pieces[k], Last(d, k), SerializeBlock(es));
    assert SerializeBlock(es) == BlockText(json);
    hide *;
    WellformedServes(d, k, id);
    var f, g := RecordText(d, k, id, es, isDate);
    AcceptedLine(es, isDate);
    HoldingFrom(d, k, id, f, json, g);
    d' := WithBody(d, k, body);
    OneBodyChanged(d, k, body);
    TaskKept(d, d', j, other);
    OldSection(d, j, other);
    OtherAnswers(d, d', k, id, f, json, g, j, other, isDate);
  }

  lemma TaskKept(d: Document, d': Document, j: nat, other: string)
    requires IsTask(d, j, other) && j < |d'.pieces| && d'.pieces[j] == d.pieces[j]
    ensures IsTask(d', j, other)
  {
  }

  lemma OldSection(d: Document, j: nat, other: string)
    requires Wellformed(d) && IsTask(d, j, other)
    ensures ReadTaskSection(Render(d), other) == Some(PieceText(d.pieces[j]))
  {
    hide Wellformed, Served, ReadTaskSection, Render;
    WellformedServes(d, j, other);
    Place(d, j, other);
  }

  lemma NoJsonReads(s: string, id: string, isDate: string -> bool)
    requires ReadTaskSection(s, id).Some? && FirstJson(ReadTaskSection(s, id).value) == None
    ensures ReadTaskVerification(s, id, isDate) == None
  {
    hide ReadTaskSection, FirstJson;
  }

  // ---------------------------------------------------------------------
  // Exactly when the document still serves all its tasks
  // ---------------------------------------------------------------------

  /** Both regexes find task `id` at its own piece. */
  predicate Found(d: Document, j: nat, id: string)
    requires j < |d.pieces|
  {
    AtItsPiece(d, j, id) && TaskRegion(Render(d), id).Region? && TaskRegion(Render(d), id).start == |Before(d, j)|
  }

  /** A match of a task's pattern in the block is found before the task itself. */
  lemma PatternInBlock(d: Document, k: nat, id: string, f: string, json: string, g: string, j: nat, other: string)
    returns (at: nat, end: nat)
    requires Holding(d, k, id, f, json, g) && IsTask(d, j, other) && k < j
    requires Mentions(ByPattern, BlockText(json), other)
    ensures |f| <= at < |f| + |BlockText(json)| && at <= end <= |d.pieces[k].body|
    ensures var a := |Before(d, k)| + |d.pieces[k].head|; TaskRegion(Render(d), other) == Region(a + at, a + end)
  {
    var b, next := BlockText(json), After(d, k);
    var lead := Ahead(d, k, f);
    hide *;
    HoldingFacts(d, k, id, f, json, g, j, other);
    AheadFree(d, k, id, f, json, g, j, other, ByPattern);
    AroundBlock(d, k, f, b, g);
    var i := FirstMention(lead, json, g + next, other);
    BoundaryOpens(next);
    end := RegionStops(lead, b, g, next, i, other);
    at, end := |f| + i, |f| + end;
    AheadSize(d, k, f);
  }

  /** What stands around a block before another task. */
  lemma HoldingFacts(d: Document, k: nat, id: string, f: string, json: string, g: string, j: nat, other: string)
    requires Holding(d, k, id, f, json, g) && IsTask(d, j, other) && k < j
    ensures k < |d.pieces| && d.pieces[k].body == f + (BlockText(json) + g) && ListLine(json) && TaskId(other)
    ensures g != "" && EndsLine(g) && Boundary(After(d, k))
  {
    hide Quiet, Free, Sides, ListLine, BlockText, After, Formed, TaskId, TaskHead, Boundary, EndsLine, FreeButAt;
    TaskFacts(d, k, id);
    TaskFacts(d, j, other);
    SidesCalm(f, g);
    EndsBehind(f, BlockText(json), g);
  }

  lemma AheadSize(d: Document, k: nat, f: string)
    requires k < |d.pieces|
    ensures |Ahead(d, k, f)| == |Before(d, k)| + |d.pieces[k].head| + |f|
  {
  }

  /** Where a pattern is found that nothing before the block matches. */
  lemma FirstMention(a: string, json: string, rest: string, id: string) returns (i: nat)
    requires ListLine(json) && TaskId(id) && Free(ByPattern, a, id) && EndsLine(a)
    requires Mentions(ByPattern, BlockText(json), id)
    ensures i < |BlockText(json)| && Matches(ByPattern, BlockText(json)[i..], id)
    ensures var s := a + (BlockText(json) + rest);
            First(0, |s|, TaskAt(s, id)) == |a| + i && TaskMatchLen(s[|a| + i..], id).Some?
            && |a| + i + TaskMatchLen(s[|a| + i..], id).value <= |a| + |BlockText(json)|
  {
    hide *;
    BlockFenced(json);
    i := FirstIn(BlockText(json), id);
    MentionAt(a, BlockText(json), rest, id, i);
    FirstThere(a, BlockText(json), rest, id, i);
  }

  lemma FirstIn(b: string, id: string) returns (i: nat)
    requires Mentions(ByPattern, b, id)
    ensures i < |b| && Matches(ByPattern, b[i..], id) && forall k: nat :: k < i ==> !Matches(ByPattern, b[k..], id)
  {
    hide Matches;
    var p := (i: nat) => i < |b| && Matches(ByPattern, b[i..], id);
    var k: nat :| k < |b| && Matches(ByPattern, b[k..], id);
    assert p(k);
    i := First(0, |b|, p);
    forall m: nat | m < i ensures !Matches(ByPattern, b[m..], id) {
      assert !p(m);
    }
  }

  lemma FirstThere(a: string, b: string, rest: string, id: string, i: nat)
    requires Fenced(b) && TaskId(id) && Free(ByPattern, a, id) && EndsLine(a) && i < |b|
    requires forall k: nat :: k < i ==> !Matches(ByPattern, b[k..], id)
    requires TaskMatchLen((a + (b + rest))[|a| + i..], id).Some?
    ensures var s := a + (b + rest); First(0, |s|, TaskAt(s, id)) == |a| + i
  {
    hide TaskMatchLen, Fenced, Free, TaskId, EndsLine;
    var s := a + (b + rest);
    forall m: nat | m < |a| + i ensures TaskMatchLen(s[m..], id).None? {
      if m < |a| {
        FreeAt(ByPattern, a, id, b + rest, m);
      } else {
        MentionAt(a, b, rest, id, m - |a|);
      }
    }
    TaskAtIs(s, id, |a| + i);
  }

  lemma MentionAt(a: string, b: string, rest: string, id: string, i: nat)
    requires Fenced(b) && TaskId(id) && i < |b|
    ensures var s := a + (b + rest);
            (TaskMatchLen(s[|a| + i..], id).Some? <==> Matches(ByPattern, b[i..], id))
            && (Matches(ByPattern, b[i..], id) ==> i + TaskMatchLen(s[|a| + i..], id).value <= |b|)
  {
    hide TaskIdLen, Fenced, TaskId;
    SuffixFrom(a, b, rest, i);
    FencedTail(b, i);
    IdFenced(b[i..], rest, id);
  }

  /** The region behind a match in the block ends before the next piece. */
  lemma RegionStops(a: string, b: string, g: string, next: string, i: nat, id: string) returns (end: nat)
    requires g != "" && EndsLine(g) && "###" <= next && i <= |b|
    requires var s := a + (b + (g + next));
             First(0, |s|, TaskAt(s, id)) == |a| + i && TaskMatchLen(s[|a| + i..], id).Some?
             && |a| + i + TaskMatchLen(s[|a| + i..], id).value <= |a| + |b|
    ensures i <= end <= |b + g| && TaskRegion(a + (b + (g + next)), id) == Region(|a| + i, |a| + end)
  {
    hide First, TaskMatchLen, TaskAt, Find;
    var s := a + (b + (g + next));
    assert From(s, |a| + i) == s[|a| + i..];
    var e := |a| + i + TaskMatchLen(s[|a| + i..], id).value;
    var n := |a| + |b| + |g| - 1;
    H3AtEnd(g, next);
    assert s[|a| + |b|..] == g + next;
    AtShift(g + next, s, |a| + |b|, |g| - 1, H3);
    var r := Find(s, H3, e);
    end := r - |a|;
  }

  /**
   After a verification both regexes still find every task at its own piece exactly when its block was
   harmless: it opens no section, and the pattern of no later task matches in it.
   */
  lemma ServesExactly(d: Document, k: nat, id: string, es: seq<Item>, isDate: string -> bool) returns (d': Document)
    requires Wellformed(d) && IsTask(d, k, id) && Removable(d.pieces[k].body)
    requires Refusal(es, isDate) == None && Literal(SerializeBlock(es))
    ensures ApplyVerification(Render(d), id, es, isDate) == Success(Render(d'))
    ensures SameOutline(d, d') && forall j :: 0 <= j < |d.pieces| && j != k ==> d'.pieces[j] == d.pieces[j]
    ensures (forall j, other :: IsTask(d', j, other) ==> Found(d', j, other)) <==> Harmless(d, id, SerializeBlock(es))
  {
    var json := CanonicalList(es);
    hide Wellformed, Served, Render, ApplyVerification, Plain, Removable, Recorded, CanonicalList, BlockText, Last,
      Sides, Literal, Refusal, NoBreak, ListLine, Holding, Found, Harmless;
    WellformedServes(d, k, id);
    var f, g := RecordText(d, k, id, es, isDate);
    AcceptedLine(es, isDate);
    d' := WithBody(d, k, f + (BlockText(json) + g));
    if Harmless(d, id, BlockText(json)) {
      SealedWith(d, k, id, f, json, g);
      forall j, other | IsTask(d', j, other) ensures Found(d', j, other) {
        FoundInWellformed(d', j, other);
      }
    } else {
      HoldingFrom(d, k, id, f, json, g);
      var j, other := NotFoundAfter(d, d', k, id, f, json, g);
    }
  }

  lemma FoundInWellformed(d: Document, j: nat, id: string)
    requires Wellformed(d) && IsTask(d, j, id)
    ensures Found(d, j, id)
  {
    hide Wellformed, Served, Render, Before, TaskSection, TaskRegion, Cut;
    WellformedServes(d, j, id);
    Place(d, j, id);
  }

  lemma NotFoundAfter(d: Document, d': Document, k: nat, id: string, f: string, json: string, g: string)
    returns (j: nat, other: string)
    requires Wellformed(d) && IsTask(d, k, id) && Holding(d', k, id, f, json, g) && SameOutline(d, d')
    requires !Harmless(d, id, BlockText(json))
    ensures IsTask(d', j, other) && !Found(d', j, other)
  {
    hide Formed, Still, Apart, Render, BlockText, Sides, ListLine, Mentions, FakesHeading, TaskSection, TaskRegion,
      Before, PieceText,
      Quiet, Free, FreeButAt;
    if FakesHeading(BlockText(json)) {
      j, other := k, id;
      CutShortSection(d', k, id, f, json, g);
    } else {
      var i;
      i, j :| 0 <= i < j < |d.pieces| && d.pieces[i].id == Some(id) && d.pieces[j].id.Some?
              && Mentions(ByPattern, BlockText(json), d.pieces[j].id.value);
      SameTask(d, i, k, id);
      other := d.pieces[j].id.value;
      var at, end := PatternInBlock(d', k, id, f, json, g, j, other);
      LaterStart(d', k, f, BlockText(json), g, j);
      AheadSize(d', k, f);
    }
  }

  lemma SameTask(d: Document, i: nat, k: nat, id: string)
    requires Wellformed(d) && IsTask(d, i, id) && IsTask(d, k, id)
    ensures i == k
  {
    hide Shape, Still, Apart;
  }

  lemma RestCut(f: string, json: string, g: string, next: string)
    requires Sides(f, g) && ListLine(json) && (next == "" || EndsLine(g)) && FakesHeading(BlockText(json))
    ensures SectionRest(f + (BlockText(json) + g) + next) < |f + (BlockText(json) + g)|
  {
    hide BlockText, Boundary, LineStart, Fenced, NoBreak, Run;
    var b := BlockText(json);
    BlockFenced(json);
    var i :| 0 < i < |b| && LineTerm(b[i - 1]) && Boundary(b[i..]);
    EndsOnlyInBlock(f, b, g, next, |f| + i);
    RestHits(f + (b + g) + next);
  }

  /** A block that opens a section ends its own. */
  lemma CutShortSection(d: Document, k: nat, id: string, f: string, json: string, g: string)
    requires Holding(d, k, id, f, json, g) && FakesHeading(BlockText(json))
    ensures !AtItsPiece(d, k, id)
  {
    var p, next := d.pieces[k], After(d, k);
    hide Formed, Render, BlockText, Sides, ListLine, TaskSection, Before, After, Quiet, Free, FreeButAt, Boundary,
      TaskHead,
      TaskId, EndsLine, FakesHeading, SectionRest;
    TaskFacts(d, k, id);
    OwnLead(d, k, id, f, json, g);
    BeforeEndsLine(d, k);
    AroundHead(d, k);
    SectionOf(Before(d, k), p.head, id, p.body + next);
    SidesCalm(f, g);
    EndsBehind(f, BlockText(json), g);
    RestCut(f, json, g, next);
  }

  lemma OwnLead(d: Document, k: nat, id: string, f: string, json: string, g: string)
    requires Holding(d, k, id, f, json, g)
    ensures Free(ByHeader, Before(d, k), id)
  {
    hide Formed, BlockText, Sides, ListLine, Quiet, Free, TaskHead, TaskId, Before, After, Boundary;
    TaskFacts(d, k, id);
    HeadersFree(d, k, k, id, f, json, g, id);
    assert FreeBefore(d, k, ByHeader, id);
    BeforeFree(d, k, ByHeader, id);
  }

  /**
   Completing a later task whose pattern matches in the block: every edit rewrites the verified piece
   instead, from the match on, and the task's own piece stays as it is.
   */
  lemma EditsGoAstray(d: Document, k: nat, id: string, f: string, json: string, g: string, j: nat, other: string,
                      edit: string -> string) returns (at: nat, end: nat)
    requires Holding(d, k, id, f, json, g) && IsTask(d, j, other) && k < j
    requires Mentions(ByPattern, BlockText(json), other)
    ensures var body := d.pieces[k].body;
            && |f| <= at < |f| + |BlockText(json)| && at <= end <= |body|
            && OnRegion(Render(d), other, edit)
               == Render(WithBody(d, k, body[..at] + edit(body[at..end]) + body[end..]))
  {
    hide Holding, Render, BlockText, Mentions, TaskRegion, Before, After;
    at, end := PatternInBlock(d, k, id, f, json, g, j, other);
    var body := d.pieces[k].body;
    var edited := body[..at] + edit(body[at..end]) + body[end..];
    AroundSame(d, k);
    Around(d, k, edited);
    AstrayCuts(Before(d, k), d.pieces[k].head, body, After(d, k), at, end, edit(body[at..end]));
  }

  lemma AstrayCuts(a: string, h: string, body: string, next: string, at: nat, end: nat, x: string)
    requires at <= end <= |body|
    ensures var s, m := a + (h + body) + next, |a| + |h|;
            && m + end <= |s| && s[m + at..m + end] == body[at..end]
            && s[..m + at] + x + s[m + end..] == a + (h + (body[..at] + x + body[end..])) + next
  {
    var s, m := a + (h + body) + next, |a| + |h|;
    assert s[..m + at] == a + h + body[..at];
    assert s[m + end..] == body[end..] + next;
    assert a + h + body[..at] + x + (body[end..] + next) == a + (h + (body[..at] + x + body[end..])) + next;
  }
}
