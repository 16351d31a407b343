/**
 A document of two tasks, and evidence for it, spelled out: the ground on which the inputs stand at which
 promises fail.
 */
module Samples {
  import opened Text
  import opened Markdown
  import opened Json
  import opened Evidence
  import opened Splicing
  import opened Verification
  import opened Documents
  import opened Blocks
  import opened Ledger

  const HEAD1: string := "#### Task 1.1:"
  const HEAD2: string := "#### Task 1.2:"
  const STAMP: string := "2026"

  /** Two tasks and their text. */
  function Sample(first: string, second: string): Document
  {
    Document("", [Piece(HEAD1, first, Some("1.1")), Piece(HEAD2, second, Some("1.2"))])
  }

  // ---------------------------------------------------------------------
  // Headings
  // ---------------------------------------------------------------------

  /** The heading of a task without a lane. */
  function Heading(id: string): string
  {
    "#### Task " + id + ":"
  }

  lemma HeadingPrefix(rest: string)
    ensures TaskPrefixLen("#### Task" + rest) == Some(9)
  {
    hide SpanLen;
    var x := "#### Task" + rest;
    assert x[4..] == " Task" + rest && x[4..][0] == ' ' && x[4..][1] == 'T';
    SpanLenIs(x[4..], Space, 1);
    assert x[5..] == "Task" + rest;
    LaneNone(x[5..]);
  }

  lemma LaneNone(x: string)
    requires "Task" <= x
    ensures LaneTaskLen(x) == Some(4)
  {
    NoLaneAtTask(x);
    hide LaneLen;
  }

  lemma HeadingHeader(id: string, rest: string)
    requires TaskId(id)
    ensures HeaderLen(Heading(id) + rest, id) == Some(|Heading(id)|)
  {
    hide TaskPrefixLen, SpanLen, TaskIdLen;
    var x := Heading(id) + rest;
    HeadingParts(id, rest);
    HeadingPrefix(" " + id + ":" + rest);
    OneSpace(id, ":" + rest);
    TaskIdIs(x, id, 9, 1);
  }

  lemma HeadingParts(id: string, rest: string)
    ensures var x := Heading(id) + rest;
            && x == "#### Task" + (" " + id + ":" + rest) && x[9..] == " " + (id + (":" + rest))
            && x[10..] == id + (":" + rest)
            && id <= x[10..] && |x| >= 11 + |id| == |Heading(id)| && x[10 + |id|] == ':'
  {
    var x := Heading(id) + rest;
    assert x == "#### Task" + (" " + id + ":" + rest);
    assert x == "#### Task " + (id + (":" + rest));
    assert x[9..] == " " + (id + (":" + rest));
  }

  lemma OneSpace(id: string, rest: string)
    requires TaskId(id)
    ensures SpanLen(" " + (id + rest), Space) == 1
  {
    SpanLenIs(" " + (id + rest), Space, 1);
  }

  lemma HeadingIsHead(id: string)
    requires TaskId(id)
    ensures TaskHead(Heading(id), id)
  {
    hide HeaderLen;
    HeadingHeader(id, "");
    var h := Heading(id);
    assert h + "" == h;
    assert forall i :: 4 <= i < |h| ==> h[4..][i - 4] == h[i];
    forall i | 0 <= i < |h[4..]| ensures HeadChar(h[4..][i]) {
      HeadingChar(id, i + 4);
    }
    forall i: nat ensures !At(h, i, BOX) {
      HeadingNoBox(id, i);
    }
    FindNone(h, BOX, 0);
  }

  lemma HeadingChar(id: string, i: nat)
    requires TaskId(id) && 4 <= i < |Heading(id)|
    ensures HeadChar(Heading(id)[i])
  {
    var h := Heading(id);
    if i < 10 {
      assert h[i] == "#### Task "[i];
    } else if i < |h| - 1 {
      assert h[i] == id[i - 10];
    }
  }

  lemma HeadingNoBox(id: string, i: nat)
    requires TaskId(id)
    ensures !At(Heading(id), i, BOX)
  {
    var h := Heading(id);
    if i < |h| { HeadingNoDash(id, i); }
    assert BOX[0] == '-';
    assert i + |BOX| <= |h| ==> h[i..i + |BOX|][0] == h[i];
  }

  lemma HeadingNoDash(id: string, i: nat)
    requires TaskId(id) && i < |Heading(id)|
    ensures Heading(id)[i] != '-'
  {
    var h := Heading(id);
    if i < 10 {
      assert h[i] == "#### Task "[i];
    } else if i < |h| - 1 {
      assert h[i] == id[i - 10];
    }
  }

  lemma SampleHeads()
    ensures TaskHead(HEAD1, "1.1") && TaskHead(HEAD2, "1.2") && TaskId("1.1") && TaskId("1.2")
    ensures HEAD1 == Heading("1.1") && HEAD2 == Heading("1.2")
  {
    hide TaskHead;
    assert TaskId("1.1") && TaskId("1.2");
    HeadingIsHead("1.1");
    HeadingIsHead("1.2");
    assert HEAD1 == Heading("1.1") && HEAD2 == Heading("1.2");
  }

  // ---------------------------------------------------------------------
  // Quiet text
  // ---------------------------------------------------------------------

  /** Text without hashes, dollar signs and a capital that could open a block's header. */
  predicate Simple(x: string)
  {
    forall i :: 0 <= i < |x| ==> x[i] != '#' && x[i] != '$' && x[i] != 'V'
  }

  lemma {:induction false} SimpleRuns(q: State, x: string)
    requires Simple(x) && (q == Idle || q == Header(1) || q == Header(2))
    ensures var r := Run(true, q, x); r == Idle || r == Header(1) || r == Header(2)
    decreases |x|
  {
    if x != "" {
      SimpleNext(q, x[0]);
      SimpleRuns(Next(true, q, x[0]), x[1..]);
    }
  }

  lemma SimpleNext(q: State, c: char)
    requires c != '#' && c != '$' && c != 'V' && (q == Idle || q == Header(1) || q == Header(2))
    ensures var r := Next(true, q, c); r == Idle || r == Header(1) || r == Header(2)
  {
    assert VERIFICATION_BLOCK_HEADER[2] == 'V';
  }

  lemma SimplePlain(x: string)
    requires Simple(x)
    ensures Plain(x) && Calm(x)
  {
    SimpleRuns(Idle, x);
    PlainIsCalm(x);
  }

  lemma SampleFormed(first: string, second: string)
    requires EndsLine(first)
    ensures Formed(Sample(first, second))
  {
    hide TaskHead;
    SampleHeads();
    var ps := Sample(first, second).pieces;
    assert ps[1..] == [ps[1]] && ps[1..][1..] == [];
    assert Shape(ps[1..][1..]);
    assert Shape(ps[1..]);
    assert Shape(ps);
    assert "1.1"[2] == '1' && "1.2"[2] == '2';
    assert Unique(ps);
  }

  /** Simple text of two tasks makes a document that the ledger can be kept in. */
  lemma SampleKept(first: string, second: string)
    requires Simple(first) && Simple(second) && EndsLine(first)
    ensures var d := Sample(first, second); Wellformed(d) && Removable(first) && Removable(second)
  {
    var d := Sample(first, second);
    hide Plain, Calm, Free, Quiet, Formed, Next, RemoveBlocks, Simple;
    SimplePlain(first);
    SimplePlain(second);
    SampleFormed(first, second);
    NothingSimple();
    CalmIsQuiet("");
    CalmIsQuiet(first);
    CalmIsQuiet(second);
    forall how: Search, id: string ensures Free(how, "", id) && Free(how, first, id) {
      CalmIsFree(how, "", id);
      CalmIsFree(how, first, id);
    }
    PlainRemoves(first);
    PlainRemoves(second);
  }

  lemma NothingSimple()
    ensures Calm("")
  {
  }

  lemma PlainRemoves(x: string)
    requires Plain(x)
    ensures RemoveBlocks(x) == x && Removable(x)
  {
    NothingToRemove(Idle, x);
  }
}
