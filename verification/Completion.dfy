/**
 Recording a block in one task's piece: remove, complete, insert. On documents with well-formed pieces
 the three text searches of the source come to an edit of that one piece.
 */
module Completion {
  import opened Text
  import opened Markdown
  import opened Splicing
  import opened Documents
  import opened Sections
  import opened SectionEdits
  import opened Blocks

  // ---------------------------------------------------------------------
  // A verification on one piece
  // ---------------------------------------------------------------------

  /** An edit of the part of a task's text that the completion edits see. */
  function OnFront(head: string, body: string, last: bool, f: string -> string): string
  {
    var cut := Cut(body, last);
    From(f(head + body[..cut]), |head|) + body[cut..]
  }

  function Completed(head: string, body: string, last: bool): string
  {
    OnFront(head, OnFront(head, OnFront(head, body, last, SetDone), last, ClearBlocked), last, CheckAll)
  }

  /** A task's text with its evidence recorded. `last` tells whether no heading follows. */
  function Recorded(p: Piece, last: bool, block: string): string
  {
    From(InsertBlock(p.head + Completed(p.head, Collapse(RemoveBlocks(p.body)), last), block), |p.head|)
  }

  /** Plain text up to the next heading, if there is one. */
  predicate PlainLines(body: string, last: bool)
  {
    Plain(body) && (last || EndsLine(body))
  }

  lemma FromHead(head: string, v: string)
    ensures From(head + v, |head|) == v
  {
  }

  lemma CutStops(body: string, last: bool)
    requires last || EndsLine(body)
    ensures var cut := Cut(body, last); cut < |body| ==> body[cut] == '\n'
    ensures !last ==> Cut(body, last) < |body|
  {
    var e := Find(body, H3, 0);
    if e != -1 {
      assert body[e..e + |H3|][0] == body[e];
    }
  }

  lemma FrontPlain(body: string, last: bool)
    requires PlainLines(body, last)
    ensures Plain(body[..Cut(body, last)])
  {
    var cut := Cut(body, last);
    CutStops(body, last);
    assert body == body[..cut] + body[cut..];
    FrontFine(true, body[..cut], body[cut..]);
  }

  /** Edits that keep the heading and plain text keep both in the whole piece. */
  lemma OnFrontKeeps(head: string, body: string, last: bool, f: string -> string, v: string)
    requires PlainLines(body, last) && f(head + body[..Cut(body, last)]) == head + v && Plain(v)
    ensures OnFront(head, body, last, f) == v + body[Cut(body, last)..]
    ensures PlainLines(OnFront(head, body, last, f), last)
  {
    hide Cut, Run;
    var cut := Cut(body, last);
    var tail := body[cut..];
    FromHead(head, v);
    CutStops(body, last);
    FrontPlain(body, last);
    assert body == body[..cut] + tail;
    SwapFront(true, body[..cut], v, tail);
  }

  lemma WithTwice(d: Document, k: nat, x: string, y: string)
    requires k < |d.pieces|
    ensures WithBody(WithBody(d, k, x), k, y) == WithBody(d, k, y)
    ensures Last(WithBody(d, k, x), k) == Last(d, k) && WithBody(d, k, x).pieces[k] == d.pieces[k].(body := x)
  {
  }

  /** What a step between two edits can rely on. */
  ghost predicate Ready(d: Document, k: nat, id: string)
  {
    Served(d, k, id) && PlainLines(d.pieces[k].body, Last(d, k)) && Bare(d.pieces[k].head)
  }

  lemma ReadyWith(d: Document, k: nat, id: string, body: string)
    requires Served(d, k, id) && PlainLines(body, Last(d, k))
    ensures Ready(WithBody(d, k, body), k, id)
  {
    hide Formed, Free, Before, Quiet, Calm, Plain, Bare, TaskHead;
    PlainIsCalm(body);
    CalmIsQuiet(body);
    ServedWith(d, k, id, body);
    WithTwice(d, k, body, body);
    LedParts(d, k, id);
    HeadBare(d.pieces[k].head, id);
  }

  lemma FrontStep(d: Document, k: nat, id: string, f: string -> string, v: string)
    requires Ready(d, k, id)
    requires f(d.pieces[k].head + d.pieces[k].body[..Cut(d.pieces[k].body, Last(d, k))]) == d.pieces[k].head + v
    requires Plain(v)
    ensures var d' := WithBody(d, k, OnFront(d.pieces[k].head, d.pieces[k].body, Last(d, k), f));
            OnRegion(Render(d), id, f) == Render(d') && Ready(d', k, id)
  {
    hide Formed, Free, Before, Quiet, Render, WithBody, OnRegion, OnFront, Plain, Cut;
    var p := d.pieces[k];
    RegionStep(d, k, id, f, v);
    OnFrontKeeps(p.head, p.body, Last(d, k), f, v);
    ReadyWith(d, k, id, OnFront(p.head, p.body, Last(d, k), f));
  }

  lemma DoneStep(d: Document, k: nat, id: string)
    requires Ready(d, k, id)
    ensures var d' := WithBody(d, k, OnFront(d.pieces[k].head, d.pieces[k].body, Last(d, k), SetDone));
            OnRegion(Render(d), id, SetDone) == Render(d') && Ready(d', k, id)
  {
    var p := d.pieces[k];
    var front := p.body[..Cut(p.body, Last(d, k))];
    FrontPlain(p.body, Last(d, k));
    var v := SetDoneKeeps(p.head, front);
    FrontStep(d, k, id, SetDone, v);
  }

  lemma ClearStep(d: Document, k: nat, id: string)
    requires Ready(d, k, id)
    ensures var d' := WithBody(d, k, OnFront(d.pieces[k].head, d.pieces[k].body, Last(d, k), ClearBlocked));
            OnRegion(Render(d), id, ClearBlocked) == Render(d') && Ready(d', k, id)
  {
    var p := d.pieces[k];
    var front := p.body[..Cut(p.body, Last(d, k))];
    FrontPlain(p.body, Last(d, k));
    var v := ClearKeeps(p.head, front);
    FrontStep(d, k, id, ClearBlocked, v);
  }

  lemma TickStep(d: Document, k: nat, id: string)
    requires Ready(d, k, id)
    ensures var d' := WithBody(d, k, OnFront(d.pieces[k].head, d.pieces[k].body, Last(d, k), CheckAll));
            OnRegion(Render(d), id, CheckAll) == Render(d') && Ready(d', k, id)
  {
    var p := d.pieces[k];
    var front := p.body[..Cut(p.body, Last(d, k))];
    FrontPlain(p.body, Last(d, k));
    CheckKeeps(p.head, front);
    FrontStep(d, k, id, CheckAll, CheckAll(front));
  }

  /** Completing a task rewrites its own piece. */
  lemma CompleteStep(d: Document, k: nat, id: string)
    requires Ready(d, k, id)
    ensures var d' := WithBody(d, k, Completed(d.pieces[k].head, d.pieces[k].body, Last(d, k)));
            CompleteTask(Render(d), id) == Render(d') && Ready(d', k, id)
  {
    var p, last := d.pieces[k], Last(d, k);
    hide Ready, Render, OnRegion, OnFront, Last;
    var b1 := OnFront(p.head, p.body, last, SetDone);
    var b2 := OnFront(p.head, b1, last, ClearBlocked);
    DoneStep(d, k, id);
    WithTwice(d, k, b1, b2);
    ClearStep(WithBody(d, k, b1), k, id);
    WithTwice(d, k, b2, Completed(p.head, p.body, last));
    TickStep(WithBody(d, k, b2), k, id);
  }

  lemma RemoveStepDoc(d: Document, k: nat, id: string)
    requires Served(d, k, id) && Removable(d.pieces[k].body)
    ensures var d' := WithBody(d, k, Collapse(RemoveBlocks(d.pieces[k].body)));
            MapTaskSection(Render(d), id, WithoutBlocks) == Render(d') && Ready(d', k, id)
  {
    hide *;
    ServedIndex(d, k, id);
    LedParts(d, k, id);
    var p := d.pieces[k];
    HeadBare(p.head, id);
    PieceEnds(d, k);
    WithoutKeeps(p.head, p.body);
    MapStep(d, k, id, WithoutBlocks, Collapse(RemoveBlocks(p.body)));
    LinesPlain(Collapse(RemoveBlocks(p.body)), Last(d, k));
    ReadyWith(d, k, id, Collapse(RemoveBlocks(p.body)));
  }

  lemma PieceEnds(d: Document, k: nat)
    requires Formed(d) && k < |d.pieces|
    ensures Last(d, k) || EndsLine(d.pieces[k].body)
  {
    hide HeadOk;
    ShapeAt(d.pieces, k);
  }

  lemma LinesPlain(body: string, last: bool)
    requires Plain(body) && (last || EndsLine(body))
    ensures PlainLines(body, last)
  {
  }

  lemma SealedEnds(f: string, json: string, g: string)
    requires g != ""
    ensures EndsLine(g) ==> EndsLine(f + (BlockText(json) + g))
  {
    hide BlockText;
  }

  lemma InsertStep(d: Document, k: nat, id: string, json: string) returns (f: string, g: string)
    requires Ready(d, k, id) && Literal(BlockText(json))
    ensures Sides(f, g)
    ensures var p := d.pieces[k];
            var body := From(InsertBlock(p.head + p.body, BlockText(json)), |p.head|);
            && body == f + (BlockText(json) + g) && (Last(d, k) || EndsLine(body))
            && MapTaskSection(Render(d), id, Inserter(BlockText(json))) == Render(WithBody(d, k, body))
  {
    var p := d.pieces[k];
    hide Formed, Free, Before, Quiet, Render, MapTaskSection, InsertBlock, Literal, BlockText, Plain, Bare;
    f, g := InsertSeals(p.head, p.body, json);
    var body := f + (BlockText(json) + g);
    FromHead(p.head, body);
    MapStep(d, k, id, Inserter(BlockText(json)), body);
    SealedEnds(f, json, g);
  }
}
