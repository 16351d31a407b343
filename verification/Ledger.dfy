/**
 The ledger's promises: a verification rewrites one task's piece of the document, reads back as the
 evidence it was given, and no later call for another task changes it.
 */
module Ledger {
  import opened Text
  import opened Markdown
  import opened JsonRoundTrip
  import opened Evidence
  import opened Splicing
  import opened Verification
  import opened Documents
  import opened Sections
  import opened SectionEdits
  import opened Blocks
  import opened Completion
  import opened BlockEnds

  /**
   What keeps a block from being taken for headings: it opens no section, and the pattern of no later
   task matches in it.
   */
  predicate Harmless(d: Document, id: string, block: string)
  {
    && !FakesHeading(block)
    && forall k, j :: 0 <= k < j < |d.pieces| && d.pieces[k].id == Some(id) && d.pieces[j].id.Some?
                      ==> !Mentions(ByPattern, block, d.pieces[j].id.value)
  }

  /** Evidence for task `id` whose block is harmless in `d` and holds no replacement pattern. */
  predicate Recordable(d: Document, id: string, es: seq<Item>)
  {
    Literal(SerializeBlock(es)) && Harmless(d, id, SerializeBlock(es))
  }

  /** Evidence whose block goes in as it is and opens no section of its own. */
  predicate Contained(es: seq<Item>)
  {
    Literal(SerializeBlock(es)) && !FakesHeading(SerializeBlock(es))
  }

  lemma Unfold(d: Document, k: nat, id: string, es: seq<Item>, isDate: string -> bool, m1: string, m2: string)
    requires Refusal(es, isDate) == None && FindHeader(Render(d), id) != -1
    requires m1 == MapTaskSection(Render(d), id, WithoutBlocks) && m2 == CompleteTask(m1, id)
    ensures ApplyVerification(Render(d), id, es, isDate)
            == Success(MapTaskSection(m2, id, Inserter(SerializeBlock(es))))
  {
    hide Refusal, Render, MapTaskSection, CompleteTask, Inserter, SerializeBlock, FindHeader;
  }

  /** A verification is an edit of one piece, which then holds that one block. */
  lemma RecordText(d: Document, k: nat, id: string, es: seq<Item>, isDate: string -> bool)
    returns (f: string, g: string)
    requires Served(d, k, id) && Removable(d.pieces[k].body)
    requires Refusal(es, isDate) == None && Literal(SerializeBlock(es))
    ensures var body := Recorded(d.pieces[k], Last(d, k), SerializeBlock(es));
            && ApplyVerification(Render(d), id, es, isDate) == Success(Render(WithBody(d, k, body)))
            && Sides(f, g) && body == f + (SerializeBlock(es) + g) && (Last(d, k) || EndsLine(body))
  {
    var p, last, json := d.pieces[k], Last(d, k), CanonicalList(es);
    hide Formed, Free, Before, Quiet, Render, MapTaskSection, CompleteTask, FindHeader, Completed, InsertBlock, Plain,
      Removable, CanonicalList, BlockText, Last, Ready, Sides, Literal, Refusal;
    var b1 := Collapse(RemoveBlocks(p.body));
    var b2 := Completed(p.head, b1, last);
    var d1, d2 := WithBody(d, k, b1), WithBody(d, k, b2);
    Place(d, k, id);
    RemoveStepDoc(d, k, id);
    WithTwice(d, k, b1, b2);
    CompleteStep(d1, k, id);
    f, g := InsertStep(d2, k, id, json);
    var body := Recorded(p, last, SerializeBlock(es));
    assert d2.pieces[k] == p.(body := b2);
    WithTwice(d, k, b2, body);
    Unfold(d, k, id, es, isDate, Render(d1), Render(d2));
  }

  lemma AcceptedLine(es: seq<Item>, isDate: string -> bool)
    requires Refusal(es, isDate) == None
    ensures ListLine(CanonicalList(es)) && ReadList(CanonicalList(es), isDate) == Some(es)
  {
    AcceptedEvidence(es, isDate);
    hide ReadList, Refusal, SortedList, NoBreak;
    assert CanonicalList(es)[|CanonicalList(es)| - 1] == ']';
  }

  /** A piece whose block is harmless keeps a document well-formed. */
  lemma SealedWith(d: Document, k: nat, id: string, f: string, json: string, g: string)
    requires k < |d.pieces| && Wellformed(d) && IsTask(d, k, id) && Sides(f, g) && ListLine(json)
    requires Harmless(d, id, BlockText(json)) && (Last(d, k) || EndsLine(f + (BlockText(json) + g)))
    ensures Wellformed(WithBody(d, k, f + (BlockText(json) + g)))
  {
    var b := BlockText(json);
    hide Formed, Still, Apart, FakesHeading, Mentions, BlockText, Sides, ListLine, Quiet, Free, Last, EndsLine;
    SealedQuiet(f, json, g);
    forall j | k < j < |d.pieces| && d.pieces[j].id.Some? ensures Free(ByPattern, f + (b + g), d.pieces[j].id.value) {
      TaskFacts(d, j, d.pieces[j].id.value);
      SealedFree(ByPattern, f, json, g, d.pieces[j].id.value);
    }
    WellformedWith(d, k, f + (b + g));
  }

  /** With recordable evidence, the document stays one the ledger can be kept in. */
  lemma RecordIs(d: Document, k: nat, id: string, es: seq<Item>, isDate: string -> bool)
    requires k < |d.pieces| && Wellformed(d) && IsTask(d, k, id) && Removable(d.pieces[k].body)
    requires Refusal(es, isDate) == None && Recordable(d, id, es)
    ensures var body := Recorded(d.pieces[k], Last(d, k), SerializeBlock(es));
            && ApplyVerification(Render(d), id, es, isDate) == Success(Render(WithBody(d, k, body)))
            && Wellformed(WithBody(d, k, body)) && Sealed(body, CanonicalList(es)) && Removable(body)
  {
    var json := CanonicalList(es);
    hide Wellformed, Render, ApplyVerification, Plain, Harmless, Removable, Recorded, CanonicalList, BlockText, Last,
      Sides,
      Literal, Refusal, NoBreak;
    WellformedServes(d, k, id);
    var f, g := RecordText(d, k, id, es, isDate);
    AcceptedLine(es, isDate);
    SealedCanonical(f, json, g);
    SealedWith(d, k, id, f, json, g);
  }

  /** A task's evidence is read from its own piece. */
  lemma ReadIs(d: Document, k: nat, id: string, isDate: string -> bool)
    requires Served(d, k, id)
    ensures ReadTaskVerification(Render(d), id, isDate) == ParseBlock(PieceText(d.pieces[k]), isDate)
  {
    hide Formed, Free, Before, Quiet, Render, ParseBlock, ReadTaskSection;
    Place(d, k, id);
  }

  lemma OneLineUnbroken(json: string)
    requires OneLine(json)
    ensures NoBreak(json)
  {
    forall i | 0 <= i < |json| ensures json[i] != '\n' {
      assert json[i] in json;
    }
  }

  /** parseVerificationBlock undoes serializeVerificationBlock. */
  lemma ParseSerialized(es: seq<Item>, isDate: string -> bool)
    requires ValidList(es, isDate)
    ensures ParseBlock(SerializeBlock(es), isDate) == Some(es)
  {
    hide BlockText, FirstJson, ReadList, CanonicalList, ValidList;
    CanonicalListReads(es, isDate);
    OneLineUnbroken(CanonicalList(es));
    BlockReads(CanonicalList(es));
  }

  lemma AcceptedEvidence(es: seq<Item>, isDate: string -> bool)
    requires Refusal(es, isDate) == None
    ensures NoBreak(CanonicalList(es)) && ReadList(CanonicalList(es), isDate) == Some(es) && Passing(es)
  {
    hide CanonicalList, ReadList;
    CanonicalListReads(es, isDate);
    OneLineUnbroken(CanonicalList(es));
  }

  /** A sealed piece answers with exactly its evidence. */
  lemma SealedAnswers(d: Document, k: nat, id: string, es: seq<Item>, isDate: string -> bool)
    requires Wellformed(d) && IsTask(d, k, id) && Sealed(d.pieces[k].body, CanonicalList(es))
    requires Refusal(es, isDate) == None
    ensures ReadTaskVerification(Render(d), id, isDate) == Some(es) && HasPassingEvidence(Render(d), id, isDate)
  {
    var p, json := d.pieces[k], CanonicalList(es);
    hide Wellformed, Render, ReadTaskVerification, ParseBlock, CanonicalList, BlockText, Sides, Bare, ReadList,
      TaskHead,
      Boundary, Refusal, Passing, Calm, NoBreak;
    TaskFacts(d, k, id);
    HeadBare(p.head, id);
    WellformedServes(d, k, id);
    ReadIs(d, k, id, isDate);
    AcceptedEvidence(es, isDate);
    var f, g :| Sides(f, g) && p.body == f + (BlockText(json) + g);
    SealedReads(p.head, f, json, g);
  }

  /** A task that the document does not have is not found in it. */
  lemma NoSuchTask(d: Document, id: string)
    requires Wellformed(d) && TaskId(id) && Absent(d.pieces, id)
    ensures FindHeader(Render(d), id) == -1
  {
    var n := |d.pieces|;
    hide Formed, Still, Apart, TaskId, FindHeader, Free, FreeBefore;
    assert d.pieces[..n] == d.pieces;
    StillIsFree(d, n, id);
    BeforeFree(d, n, ByHeader, id);
    FindHeaderNone(Render(d), id);
  }

  // ---------------------------------------------------------------------
  // Runs
  // ---------------------------------------------------------------------

  datatype Call = Call(id: string, evidence: seq<Item>)

  /** What a caller of applyVerification keeps: the new text, or the old one when the call is refused. */
  function Apply(markdown: string, c: Call, isDate: string -> bool): string
  {
    match ApplyVerification(markdown, c.id, c.evidence, isDate)
    case Success(m) => m
    case Failed(_) => markdown
  }

  /** The file behind writeVerification, how often it was written, and how often the projection was rebuilt. */
  class BlueprintFile {
    var content: string
    var writes: nat
    var reingests: nat

    constructor (content: string)
      ensures this.content == content && writes == 0 && reingests == 0
    {
      this.content, writes, reingests := content, 0, 0;
    }

    method WriteVerification(id: string, es: seq<Item>, isDate: string -> bool) returns (r: VerificationResult)
      modifies this
      ensures r == ApplyVerification(old(content), id, es, isDate)
      ensures content == Apply(old(content), Call(id, es), isDate)
      ensures writes == old(writes) + if content != old(content) then 1 else 0
      ensures reingests == old(reingests) + if r.Success? then 1 else 0
    {
      r := ApplyVerification(content, id, es, isDate);
      if r.Failed? { return; }
      if r.markdown != content {
        content := r.markdown;
        writes := writes + 1;
      }
      reingests := reingests + 1;
    }
  }

  function RunCalls(markdown: string, calls: seq<Call>, isDate: string -> bool): string
  {
    if calls == [] then markdown
    else Apply(RunCalls(markdown, calls[..|calls| - 1], isDate), calls[|calls| - 1], isDate)
  }

  /** The evidence of the last call for task `id` that is not refused. */
  function Latest(calls: seq<Call>, id: string, isDate: string -> bool): Option<seq<Item>>
  {
    if calls == [] then None
    else
      var c := calls[|calls| - 1];
      if c.id == id && Refusal(c.evidence, isDate) == None then Some(c.evidence)
      else Latest(calls[..|calls| - 1], id, isDate)
  }

  /**
   Well-formed documents in which, in the sections of the tasks `ids`, those that are to be verified,
   every verification block is one the removal pattern takes.
   */
  ghost predicate Kept(d: Document, ids: set<string>)
  {
    && Wellformed(d)
    && forall k ::
         0 <= k < |d.pieces| && d.pieces[k].id.Some? && d.pieces[k].id.value in ids ==> Removable(d.pieces[k].body)
  }

  /** A call may always be refused; one that is not names a task of `ids` and brings evidence that `d` can hold. */
  predicate Expected(d: Document, c: Call, ids: set<string>, isDate: string -> bool)
  {
    && TaskId(c.id)
    && (Refusal(c.evidence, isDate) == None && !Absent(d.pieces, c.id) ==>
        c.id in ids && Recordable(d, c.id, c.evidence))
  }

  /** `d` and `d'` have the same headings and preamble. */
  predicate SameOutline(d: Document, d': Document)
  {
    && d'.pre == d.pre && |d'.pieces| == |d.pieces|
    && forall k :: 0 <= k < |d.pieces| ==> d'.pieces[k].head == d.pieces[k].head && d'.pieces[k].id == d.pieces[k].id
  }

  /** What a call may bring depends on the headings alone. */
  lemma ExpectedAgain(d: Document, d': Document, c: Call, ids: set<string>, isDate: string -> bool)
    requires SameOutline(d, d') && Expected(d, c, ids, isDate)
    ensures Expected(d', c, ids, isDate)
  {
    hide TaskId, Refusal, Literal, FakesHeading, Mentions, SerializeBlock;
    if Refusal(c.evidence, isDate) == None && !Absent(d'.pieces, c.id) {
      var k :| 0 <= k < |d'.pieces| && d'.pieces[k].id == Some(c.id);
      assert d.pieces[k].id == Some(c.id);
    }
  }

  /** Replacing one body in a well-kept document. */
  lemma EditedPiece(d: Document, ids: set<string>, k: nat, id: string, body: string)
    requires k < |d.pieces| && Kept(d, ids) && IsTask(d, k, id) && Wellformed(WithBody(d, k, body)) && Removable(body)
    ensures Kept(WithBody(d, k, body), ids) && SameOutline(d, WithBody(d, k, body))
    ensures WithBody(d, k, body).pieces[k].body == body
    ensures forall j ::
              0 <= j < |d.pieces| && d.pieces[j].id != Some(id) ==> WithBody(d, k, body).pieces[j] == d.pieces[j]
    ensures forall j :: 0 <= j < |d.pieces| && d.pieces[j].id == Some(id) ==> j == k
  {
    hide Removable, Shape, Still, Apart;
  }

  /** What one call does to the pieces: its own task's holds a block for its evidence, if it is not refused. */
  ghost predicate Stepped(d: Document, d': Document, c: Call, isDate: string -> bool)
  {
    && |d'.pieces| == |d.pieces|
    && (forall k :: 0 <= k < |d.pieces| && (d.pieces[k].id != Some(c.id) || Refusal(c.evidence, isDate).Some?)
                    ==> d'.pieces[k] == d.pieces[k])
    && forall k :: 0 <= k < |d.pieces| && d.pieces[k].id == Some(c.id) && Refusal(c.evidence, isDate).None?
                   ==> Sealed(d'.pieces[k].body, CanonicalList(c.evidence))
  }

  /** One call: what it says, and that it edits at most the piece of its own task. */
  lemma ApplyIs(d: Document, ids: set<string>, c: Call, isDate: string -> bool) returns (d': Document)
    requires Kept(d, ids) && Expected(d, c, ids, isDate)
    ensures Apply(Render(d), c, isDate) == Render(d') && Kept(d', ids) && SameOutline(d, d')
    ensures Stepped(d, d', c, isDate)
    ensures ApplyVerification(Render(d), c.id, c.evidence, isDate).Success?
            <==> Refusal(c.evidence, isDate) == None && !Absent(d.pieces, c.id)
  {
    hide Render, ApplyVerification, FindHeader, Refusal, TaskId, Recordable, Removable, Sealed, CanonicalList,
      Recorded, Last,
      Wellformed, WithBody;
    d' := d;
    if Refusal(c.evidence, isDate).Some? {
      Refused(Render(d), c, isDate);
    } else if Absent(d.pieces, c.id) {
      NoSuchTask(d, c.id);
      NotFound(Render(d), c, isDate);
    } else {
      var k :| 0 <= k < |d.pieces| && d.pieces[k].id == Some(c.id);
      d' := ApplyAt(d, ids, k, c, isDate);
    }
  }

  lemma ApplyAt(d: Document, ids: set<string>, k: nat, c: Call, isDate: string -> bool) returns (d': Document)
    requires Kept(d, ids) && c.id in ids && IsTask(d, k, c.id)
    requires Refusal(c.evidence, isDate) == None && Recordable(d, c.id, c.evidence)
    ensures ApplyVerification(Render(d), c.id, c.evidence, isDate) == Success(Render(d')) && Kept(d', ids)
    ensures SameOutline(d, d')
    ensures Stepped(d, d', c, isDate)
  {
    hide Render, ApplyVerification, Refusal, Recordable, Removable, Sealed, CanonicalList, Recorded, Last, Wellformed,
      WithBody;
    RecordIs(d, k, c.id, c.evidence, isDate);
    var body := Recorded(d.pieces[k], Last(d, k), SerializeBlock(c.evidence));
    EditedPiece(d, ids, k, c.id, body);
    d' := WithBody(d, k, body);
  }

  /** Verifying one task leaves every other task's section, and what is read from it, as it was. */
  lemma OthersUntouched(d: Document, ids: set<string>, c: Call, k: nat, id: string, isDate: string -> bool)
    requires k < |d.pieces| && Kept(d, ids) && Expected(d, c, ids, isDate) && IsTask(d, k, id) && id != c.id
    ensures var md := Apply(Render(d), c, isDate);
            && ReadTaskSection(md, id) == ReadTaskSection(Render(d), id) == Some(PieceText(d.pieces[k]))
            && ReadTaskVerification(md, id, isDate) == ReadTaskVerification(Render(d), id, isDate)
  {
    hide Apply, Render, ReadTaskSection, Expected, Wellformed, Removable, Refusal, Sealed, ParseBlock;
    var d' := ApplyIs(d, ids, c, isDate);
    WellformedServes(d, k, id);
    WellformedServes(d', k, id);
    Place(d, k, id);
    Place(d', k, id);
    ReadIs(d, k, id, isDate);
    ReadIs(d', k, id, isDate);
  }

  lemma NotFound(markdown: string, c: Call, isDate: string -> bool)
    requires FindHeader(markdown, c.id) == -1
    ensures ApplyVerification(markdown, c.id, c.evidence, isDate).Failed?
  {
    hide FindHeader, Refusal;
  }

  lemma Refused(markdown: string, c: Call, isDate: string -> bool)
    requires Refusal(c.evidence, isDate).Some?
    ensures ApplyVerification(markdown, c.id, c.evidence, isDate).Failed?
  {
    hide FindHeader, Refusal;
  }

  /** What a run has made of each task. */
  ghost predicate Tracks(d: Document, d': Document, calls: seq<Call>, isDate: string -> bool)
  {
    forall k :: 0 <= k < |d.pieces| && k < |d'.pieces| ==>
      if d.pieces[k].id.None? || Latest(calls, d.pieces[k].id.value, isDate).None?
      then d'.pieces[k] == d.pieces[k]
      else Sealed(d'.pieces[k].body, CanonicalList(Latest(calls, d.pieces[k].id.value, isDate).value))
  }

  lemma TracksNone(d: Document, isDate: string -> bool)
    ensures Tracks(d, d, [], isDate) && SameOutline(d, d)
  {
  }

  lemma TracksStep(d: Document, e: Document, d': Document, calls: seq<Call>, c: Call, isDate: string -> bool)
    requires SameOutline(d, e) && Tracks(d, e, calls, isDate) && SameOutline(e, d') && Stepped(e, d', c, isDate)
    ensures SameOutline(d, d') && Tracks(d, d', calls + [c], isDate)
  {
    hide Sealed, CanonicalList, Refusal;
    assert (calls + [c])[..|calls + [c]| - 1] == calls;
  }

  /** A run rewrites the pieces of the tasks it verifies, each into one that holds a block for the latest evidence. */
  lemma {:induction false} RunIs(d: Document, ids: set<string>, calls: seq<Call>, isDate: string -> bool)
    returns (d': Document)
    requires Kept(d, ids) && forall c | c in calls :: Expected(d, c, ids, isDate)
    ensures RunCalls(Render(d), calls, isDate) == Render(d') && Kept(d', ids) && SameOutline(d, d')
    ensures Tracks(d, d', calls, isDate)
    decreases |calls|
  {
    hide Render, Apply, Kept, Expected, Tracks, Stepped, SameOutline;
    if calls == [] {
      d' := d;
      TracksNone(d, isDate);
    } else {
      var n := |calls| - 1;
      var e := RunIs(d, ids, calls[..n], isDate);
      ExpectedAgain(d, e, calls[n], ids, isDate);
      d' := ApplyIs(e, ids, calls[n], isDate);
      TracksStep(d, e, d', calls[..n], calls[n], isDate);
      assert calls == calls[..n] + [calls[n]];
    }
  }

  lemma {:induction false} LatestPasses(calls: seq<Call>, id: string, isDate: string -> bool)
    requires Latest(calls, id, isDate).Some?
    ensures Refusal(Latest(calls, id, isDate).value, isDate) == None
    decreases |calls|
  {
    hide Refusal;
    var c := calls[|calls| - 1];
    if !(c.id == id && Refusal(c.evidence, isDate) == None) {
      LatestPasses(calls[..|calls| - 1], id, isDate);
    }
  }

  /**
   After any sequence of calls, every task with a call that was not refused reads back exactly the
   evidence of its latest one and passes the assertion; every other task answers what it answered before.
   */
  lemma RunReadsLatest(d: Document, ids: set<string>, calls: seq<Call>, k: nat, id: string, isDate: string -> bool)
    requires Kept(d, ids) && (forall c | c in calls :: Expected(d, c, ids, isDate)) && IsTask(d, k, id)
    ensures var md := RunCalls(Render(d), calls, isDate);
            match Latest(calls, id, isDate)
            case Some(es) => ReadTaskVerification(md, id, isDate) == Some(es) && HasPassingEvidence(md, id, isDate)
            case None => ReadTaskVerification(md, id, isDate) == ReadTaskVerification(Render(d), id, isDate)
  {
    var d' := RunIs(d, ids, calls, isDate);
    hide Render, RunCalls, ReadTaskVerification, HasPassingEvidence, Sealed, CanonicalList, Refusal, Wellformed, Served,
      ParseBlock, Removable, Expected;
    match Latest(calls, id, isDate)
    case Some(es) =>
      LatestPasses(calls, id, isDate);
      SealedAnswers(d', k, id, es, isDate);
    case None =>
      WellformedServes(d, k, id);
      WellformedServes(d', k, id);
      ReadIs(d, k, id, isDate);
      ReadIs(d', k, id, isDate);
  }

  /** The assertion over a list of tasks holds after a run that verified each of them. */
  lemma RunPassesAll(d: Document, verified: set<string>, calls: seq<Call>, ids: seq<string>, isDate: string -> bool)
    requires Kept(d, verified) && forall c | c in calls :: Expected(d, c, verified, isDate)
    requires forall id | id in ids :: !Absent(d.pieces, id) && Latest(calls, id, isDate).Some?
    ensures AllHavePassingEvidence(RunCalls(Render(d), calls, isDate), ids, isDate)
  {
    hide Kept, Expected, Render, RunCalls, HasPassingEvidence, Latest;
    forall id | id in ids ensures HasPassingEvidence(RunCalls(Render(d), calls, isDate), id, isDate) {
      var k :| 0 <= k < |d.pieces| && d.pieces[k].id == Some(id);
      RunReadsLatest(d, verified, calls, k, id, isDate);
    }
  }
}
