/**
 A task's section in a well-formed document: the ledger's two ways of editing one (mapTaskSection of
 src/blueprint/verification.ts and the task pattern of src/blueprint/markdown/helpers.ts) both change
 that one piece's text and nothing else.
 */
module Sections {
  import opened Text
  import opened Markdown
  import opened Splicing
  import opened Documents

  function Before(d: Document, k: nat): string
    requires k <= |d.pieces|
  {
    d.pre + Pieces(d.pieces[..k])
  }

  function After(d: Document, k: nat): string
    requires k < |d.pieces|
  {
    Pieces(d.pieces[k + 1..])
  }

  predicate Last(d: Document, k: nat)
  {
    k + 1 == |d.pieces|
  }

  /** `d` with piece `k`'s body replaced. */
  function WithBody(d: Document, k: nat, body: string): Document
    requires k < |d.pieces|
  {
    d.(pieces := d.pieces[k := d.pieces[k].(body := body)])
  }

  lemma Around(d: Document, k: nat, body: string)
    requires k < |d.pieces|
    ensures Render(WithBody(d, k, body)) == Before(d, k) + (d.pieces[k].head + body) + After(d, k)
  {
    var ps := d.pieces[k := d.pieces[k].(body := body)];
    TextPrefix(ps, k);
    assert ps[..k] == d.pieces[..k] && ps[k..][0] == ps[k] && ps[k..][1..] == d.pieces[k + 1..];
  }

  lemma AroundSame(d: Document, k: nat)
    requires k < |d.pieces|
    ensures Render(d) == Before(d, k) + (d.pieces[k].head + d.pieces[k].body) + After(d, k)
  {
    assert d.pieces[k := d.pieces[k].(body := d.pieces[k].body)] == d.pieces;
    Around(d, k, d.pieces[k].body);
  }

  lemma {:induction false} ShapeAt(ps: seq<Piece>, k: nat)
    requires Shape(ps) && k < |ps|
    ensures Shaped(ps[k], k + 1 == |ps|) && Shape(ps[k + 1..])
  {
    hide HeadOk;
    if k > 0 {
      ShapeAt(ps[1..], k - 1);
      assert ps[1..][k..] == ps[k + 1..];
    }
  }

  lemma {:induction false} ShapeWith(ps: seq<Piece>, k: nat, p: Piece)
    requires Shape(ps) && k < |ps| && Shaped(p, k + 1 == |ps|)
    ensures Shape(ps[k := p])
  {
    hide HeadOk;
    if k > 0 {
      ShapeWith(ps[1..], k - 1, p);
      assert ps[k := p][1..] == ps[1..][k - 1 := p];
    } else {
      assert ps[0 := p][1..] == ps[1..];
    }
  }

  lemma FormedWith(d: Document, k: nat, body: string)
    requires Formed(d) && k < |d.pieces| && (Last(d, k) || EndsLine(body))
    ensures Formed(WithBody(d, k, body))
  {
    hide TaskHead, PhaseHead, Shape;
    ShapeAt(d.pieces, k);
    ShapeWith(d.pieces, k, d.pieces[k].(body := body));
  }

  /** A body may be replaced by one in which no section opens and no later task's pattern matches. */
  lemma WellformedWith(d: Document, k: nat, body: string)
    requires Wellformed(d) && k < |d.pieces| && Quiet(body) && (Last(d, k) || EndsLine(body))
    requires forall j :: k < j < |d.pieces| && d.pieces[j].id.Some? ==> Free(ByPattern, body, d.pieces[j].id.value)
    ensures Wellformed(WithBody(d, k, body))
  {
    FormedWith(d, k, body);
    hide Formed, Free, Quiet;
  }

  /** The pieces before the end of a list that goes on are whole lines. */
  lemma {:induction false} PiecesEndLine(ps: seq<Piece>, k: nat)
    requires Shape(ps) && 0 < k < |ps|
    ensures EndsLine(Pieces(ps[..k]))
  {
    hide HeadOk;
    assert ps[..k][0] == ps[0] && ps[..k][1..] == ps[1..][..k - 1];
    if k > 1 {
      PiecesEndLine(ps[1..], k - 1);
    }
  }

  lemma BeforeEndsLine(d: Document, k: nat)
    requires Formed(d) && k < |d.pieces|
    ensures Before(d, k) == "" || EndsLine(Before(d, k))
  {
    if k > 0 { PiecesEndLine(d.pieces, k); }
  }

  /** A search for a task that is none of the first `k` pieces finds nothing in them. */
  lemma BeforeFree(d: Document, k: nat, how: Search, id: string)
    requires Formed(d) && k <= |d.pieces| && Absent(d.pieces[..k], id) && TaskId(id) && FreeBefore(d, k, how, id)
    ensures Free(how, Before(d, k), id)
  {
    hide Free, TaskId, Shape;
    ShapeFront(d.pieces, k);
    PiecesFree(how, d.pieces[..k], id);
    FreeJoin(how, d.pre, Pieces(d.pieces[..k]), id);
  }

  lemma StillIsFree(d: Document, k: nat, id: string)
    requires Still(d) && k <= |d.pieces|
    ensures FreeBefore(d, k, ByHeader, id)
  {
    hide Quiet, Free;
    QuietIsFree(d.pre, id);
    forall i | 0 <= i < k ensures Free(ByHeader, d.pieces[i].body, id) {
      QuietIsFree(d.pieces[i].body, id);
    }
  }

  /** Where a task's header is found. */
  lemma FindHeaderIs(s: string, id: string, r: nat)
    requires r <= |s| && LineStart(s, r) && HeaderLen(s[r..], id).Some?
    requires forall i: nat :: i < r ==> !(LineStart(s, i) && HeaderLen(s[i..], id).Some?)
    ensures FindHeader(s, id) == r
  {
    hide LineStart, HeaderLen;
    forall i: nat | i < r ensures !HeaderAt(s, id)(i) {
      assert From(s, i) == s[i..];
    }
    FirstIs(|s|, HeaderAt(s, id), r);
  }

  lemma FindHeaderNone(s: string, id: string)
    requires Free(ByHeader, s, id)
    ensures FindHeader(s, id) == -1
  {
    hide LineStart, HeaderLen;
    NoHeaderAtEnd(id);
    forall i: nat | i <= |s| ensures !HeaderAt(s, id)(i) {
      assert From(s, i) == s[i..];
      if i < |s| && LineStart(s, i) {
        FreeAt(ByHeader, s, id, "", i);
        assert s + "" == s;
      }
    }
    FirstNone(|s|, HeaderAt(s, id));
  }

  lemma NoHeaderAtEnd(id: string)
    ensures HeaderLen("", id) == None
  {
  }

  lemma TaskAtIs(s: string, id: string, r: nat)
    requires r <= |s| && TaskMatchLen(s[r..], id).Some?
    requires forall i: nat :: i < r ==> TaskMatchLen(s[i..], id).None?
    ensures First(0, |s|, TaskAt(s, id)) == r
  {
    hide TaskMatchLen;
    forall i: nat | i < r ensures !TaskAt(s, id)(i) {
      assert From(s, i) == s[i..];
    }
    FirstIs(|s|, TaskAt(s, id), r);
  }

  lemma SectionRestIs(rest: string, n: nat)
    requires n <= |rest| && (forall i: nat :: i < n ==> !(LineStart(rest, i) && Boundary(rest[i..])))
    requires n < |rest| ==> LineStart(rest, n) && Boundary(rest[n..])
    ensures SectionRest(rest) == n
  {
    hide LineStart;
    assert !Boundary("");
    hide Boundary;
    forall i: nat | i < n ensures !BoundaryAt(rest)(i) {
      assert From(rest, i) == rest[i..];
    }
    if n < |rest| {
      FirstIs(|rest|, BoundaryAt(rest), n);
    } else {
      assert From(rest, n) == "";
      FirstNone(|rest|, BoundaryAt(rest));
    }
  }

  const H3: string := "\n###"

  /** How much of a task's text the completion edits see: up to the first line that opens with `###`. */
  function Cut(body: string, last: bool): (n: nat)
    ensures n <= |body|
  {
    var e := Find(body, H3, 0);
    if e != -1 then e else if last || body == "" then |body| else |body| - 1
  }

  /** An occurrence in the middle of three texts, seen from outside. */
  lemma AtShift(x: string, s: string, k: nat, j: nat, w: string)
    requires k <= |s| && s[k..] == x
    ensures At(s, k + j, w) <==> At(x, j, w)
  {
    if j + |w| <= |x| {
      var t, u := s[k + j..k + j + |w|], x[j..j + |w|];
      assert forall m :: 0 <= m < |w| ==> t[m] == u[m];
    }
  }

  lemma H3Across(body: string, next: string, j: nat)
    requires next == "" || (EndsLine(body) && "###" <= next)
    requires At(body + next, j, H3) && j < |body|
    ensures At(body, j, H3) || (next != "" && j == |body| - 1)
  {
    var x := body + next;
    assert x[j..j + 4] == H3;
    if j + 4 <= |body| {
      assert x[j..j + 4] == body[j..j + 4];
    } else {
      var i := |body| - 1 - j;
      assert x[j..j + 4][i] == body[|body| - 1] == '\n';
      assert forall m :: 1 <= m < 4 ==> H3[m] == '#';
    }
  }

  lemma H3AtEnd(body: string, next: string)
    requires EndsLine(body) && "###" <= next
    ensures At(body + next, |body| - 1, H3)
  {
    var n := |body| - 1;
    assert (body + next)[n..n + 4] == ['\n'] + next[..3];
  }

  lemma CutIs(s: string, e: nat, body: string, next: string)
    requires e <= |s| && s[e..] == body + next
    requires next == "" || (EndsLine(body) && "###" <= next)
    ensures var end := Find(s, H3, e);
            (if end == -1 then |s| else end) == e + Cut(body, next == "")
  {
    var x := body + next;
    var n := Cut(body, next == "");
    forall j: nat | e <= j && At(s, j, H3) ensures j >= e + n && (next == "" ==> Find(body, H3, 0) != -1) {
      AtShift(x, s, e, j - e, H3);
      if j - e < |body| {
        H3Across(body, next, j - e);
      }
    }
    if Find(body, H3, 0) != -1 {
      AtLeftOf(body, next, n, H3);
      AtShift(x, s, e, n, H3);
      FindIs(s, H3, e, e + n);
    } else if next == "" {
      FindNone(s, H3, e);
    } else {
      H3AtEnd(body, next);
      AtShift(x, s, e, n, H3);
      FindIs(s, H3, e, e + n);
    }
  }

  lemma AtLeftOf(a: string, b: string, i: int, w: string)
    requires At(a, i, w)
    ensures At(a + b, i, w)
  {
    assert (a + b)[i..i + |w|] == a[i..i + |w|];
  }

  predicate IsTask(d: Document, k: nat, id: string)
  {
    k < |d.pieces| && d.pieces[k].id == Some(id)
  }

  lemma NoBoundaryAtEnd()
    ensures !Boundary("")
  {
  }

  lemma TaskFacts(d: Document, k: nat, id: string)
    requires Formed(d) && IsTask(d, k, id)
    ensures Absent(d.pieces[..k], id) && TaskHead(d.pieces[k].head, id) && TaskId(id)
    ensures After(d, k) == "" <==> Last(d, k)
    ensures !Last(d, k) ==> EndsLine(d.pieces[k].body) && Boundary(After(d, k))
  {
    hide HeaderLen, Boundary, Shape;
    ShapeAt(d.pieces, k);
    if !Last(d, k) {
      TextOpens(d.pieces[k + 1..]);
      NoBoundaryAtEnd();
    } else {
      assert d.pieces[k + 1..] == [];
    }
  }

  lemma BoundaryOpens(x: string)
    requires Boundary(x)
    ensures "###" <= x
  {
    assert "####" <= x ==> "###" <= x;
  }

  lemma SectionIs(s: string, id: string, a: nat, h: nat, n: nat)
    requires FindHeader(s, id) == a && a + h <= |s| && HeaderLen(s[a..], id) == Some(h) && SectionRest(s[a + h..]) == n
    ensures TaskSection(s, id) == Region(a, a + h + n)
  {
    hide FindHeader, HeaderLen, SectionRest;
    assert From(s, a) == s[a..];
  }

  lemma RegionIs(s: string, id: string, a: nat, h: nat, n: nat)
    requires First(0, |s|, TaskAt(s, id)) == a && a + h <= |s| && TaskMatchLen(s[a..], id) == Some(h)
    requires var end := Find(s, H3, a + h); (if end == -1 then |s| else end) == a + h + n
    ensures TaskRegion(s, id) == Region(a, a + h + n)
  {
    hide First, TaskMatchLen, Find;
    assert From(s, a) == s[a..];
  }

  lemma HeadCut(a: string, h: string, y: string)
    ensures var s := a + (h + y); |a| + |h| <= |s| && s[|a|..] == h + y && s[|a| + |h|..] == y
  {
  }

  lemma HeadCuts(a: string, h: string, y: string)
    ensures var s := a + (h + y);
            |a| + |h| <= |s| && s[|a|..] == h + y && s[|a| + |h|..] == y
            && forall i: nat :: i <= |a| ==> s[i..] == a[i..] + (h + y)
  {
  }

  /** Where a task's header and its pattern are found, whatever stands behind its heading. */
  lemma FoundAt(a: string, head: string, id: string, y: string)
    requires TaskHead(head, id) && (a == "" || EndsLine(a)) && Free(ByHeader, a, id)
    ensures var s := a + (head + y); FindHeader(s, id) == |a| && HeaderLen(s[|a|..], id) == Some(|head|)
  {
    hide TaskHead, HeaderLen, TaskMatchLen, LineStart, EndsLine, Free;
    var s := a + (head + y);
    HeadIdsFor(head, id, y);
    HeadCuts(a, head, y);
    LineStartBehind(a, head + y);
    forall i: nat | i < |a| ensures !(LineStart(s, i) && HeaderLen(s[i..], id).Some?) {
      if LineStart(s, i) {
        LineStartWithin(a, head + y, i);
        FreeAt(ByHeader, a, id, head + y, i);
      }
    }
    FindHeaderIs(s, id, |a|);
  }

  lemma HeadIdsFor(head: string, id: string, rest: string)
    requires TaskHead(head, id)
    ensures HeaderLen(head + rest, id) == Some(|head|) && TaskMatchLen(head + rest, id) == Some(|head|)
  {
    HeadIds(head, id, rest, id);
  }

  lemma LineStartWithin(a: string, y: string, i: nat)
    requires i <= |a|
    ensures LineStart(a + y, i) <==> LineStart(a, i)
  {
  }

  lemma PatternAt(a: string, head: string, id: string, y: string)
    requires TaskHead(head, id) && (a == "" || EndsLine(a)) && Free(ByPattern, a, id)
    ensures var s := a + (head + y); First(0, |s|, TaskAt(s, id)) == |a| && TaskMatchLen(s[|a|..], id) == Some(|head|)
  {
    hide TaskHead, HeaderLen, TaskMatchLen, EndsLine, Free;
    var s := a + (head + y);
    HeadIdsFor(head, id, y);
    HeadCuts(a, head, y);
    forall i: nat | i < |a| ensures TaskMatchLen(s[i..], id).None? {
      FreeAt(ByPattern, a, id, head + y, i);
    }
    TaskAtIs(s, id, |a|);
  }

  lemma LineStartBehind(a: string, x: string)
    requires a == "" || EndsLine(a)
    ensures LineStart(a + x, |a|)
  {
  }

  /** A task's section when its text behind the heading is `y`, whatever that is. */
  lemma SectionOf(a: string, head: string, id: string, y: string)
    requires TaskHead(head, id) && (a == "" || EndsLine(a)) && Free(ByHeader, a, id)
    ensures TaskSection(a + (head + y), id) == Region(|a|, |a| + |head| + SectionRest(y))
    ensures ReadTaskSection(a + (head + y), id) == Some(head + y[..SectionRest(y)])
  {
    var s := a + (head + y);
    hide *;
    FoundAt(a, head, id, y);
    HeadCut(a, head, y);
    SectionIs(s, id, |a|, |head|, SectionRest(y));
    SectionText(a, head, y, SectionRest(y), id);
  }

  lemma SectionText(a: string, h: string, y: string, n: nat, id: string)
    requires n <= |y| && TaskSection(a + (h + y), id) == Region(|a|, |a| + |h| + n)
    ensures ReadTaskSection(a + (h + y), id) == Some(h + y[..n])
  {
    hide TaskSection;
    assert (a + (h + y))[|a|..|a| + |h| + n] == h + y[..n];
  }

  lemma AroundHead(d: Document, k: nat)
    requires k < |d.pieces|
    ensures Render(d) == Before(d, k) + (d.pieces[k].head + (d.pieces[k].body + After(d, k)))
  {
    AroundSame(d, k);
    assert Before(d, k) + (d.pieces[k].head + d.pieces[k].body) + After(d, k)
        == Before(d, k) + (d.pieces[k].head + (d.pieces[k].body + After(d, k)));
  }

  /** A task's section is its piece when its header is not found earlier and no section opens in it. */
  lemma SectionPlace(d: Document, k: nat, id: string)
    requires Formed(d) && IsTask(d, k, id) && Free(ByHeader, Before(d, k), id) && Quiet(d.pieces[k].body)
    ensures var a, p := |Before(d, k)|, d.pieces[k];
            TaskSection(Render(d), id) == Region(a, a + |PieceText(p)|)
            && ReadTaskSection(Render(d), id) == Some(PieceText(p))
  {
    var p, y := d.pieces[k], d.pieces[k].body + After(d, k);
    hide *;
    TaskIndex(d, k, id);
    TaskFacts(d, k, id);
    BeforeEndsLine(d, k);
    AroundHead(d, k);
    PieceRest(p.body, After(d, k));
    SectionOf(Before(d, k), p.head, id, y);
    assert y[..|p.body|] == p.body && |PieceText(p)| == |p.head| + |p.body|;
  }

  lemma TaskIndex(d: Document, k: nat, id: string)
    requires IsTask(d, k, id)
    ensures k < |d.pieces| && PieceText(d.pieces[k]) == d.pieces[k].head + d.pieces[k].body
  {
  }

  lemma RegionOf(a: string, head: string, id: string, body: string, next: string)
    requires TaskHead(head, id) && (a == "" || EndsLine(a)) && Free(ByPattern, a, id)
    requires next == "" || (EndsLine(body) && "###" <= next)
    ensures TaskRegion(a + (head + (body + next)), id) == Region(|a|, |a| + |head| + Cut(body, next == ""))
  {
    var s, y := a + (head + (body + next)), body + next;
    hide *;
    PatternAt(a, head, id, y);
    HeadCut(a, head, y);
    CutIs(s, |a| + |head|, body, next);
    RegionIs(s, id, |a|, |head|, Cut(body, next == ""));
  }

  /** Its region is the first part of that when its pattern matches nothing earlier. */
  lemma RegionPlace(d: Document, k: nat, id: string)
    requires Formed(d) && IsTask(d, k, id) && Free(ByPattern, Before(d, k), id)
    ensures var a, p := |Before(d, k)|, d.pieces[k];
            TaskRegion(Render(d), id) == Region(a, a + |p.head| + Cut(p.body, Last(d, k)))
  {
    hide Formed, TaskHead, Boundary, Free, TaskRegion, Render, After, Before, EndsLine, Cut;
    TaskFacts(d, k, id);
    BeforeEndsLine(d, k);
    AroundHead(d, k);
    if After(d, k) != "" { BoundaryOpens(After(d, k)); }
    RegionOf(Before(d, k), d.pieces[k].head, id, d.pieces[k].body, After(d, k));
  }

  /** Piece `k` is task `id`, and neither search for it finds anything before that piece. */
  ghost predicate Led(d: Document, k: nat, id: string)
  {
    Formed(d) && IsTask(d, k, id) && Free(ByPattern, Before(d, k), id)
  }

  /** Nor does a section open in the piece's text. */
  ghost predicate Served(d: Document, k: nat, id: string)
  {
    Led(d, k, id) && Quiet(d.pieces[k].body)
  }

  /** Every task of a well-formed document is such a piece. */
  lemma WellformedServes(d: Document, k: nat, id: string)
    requires Wellformed(d) && IsTask(d, k, id)
    ensures Served(d, k, id)
  {
    hide Formed, TaskHead, Free, Quiet, TaskId;
    TaskFacts(d, k, id);
    BeforeFree(d, k, ByPattern, id);
  }

  lemma LedParts(d: Document, k: nat, id: string)
    requires Led(d, k, id)
    ensures Formed(d) && IsTask(d, k, id) && k < |d.pieces| && TaskHead(d.pieces[k].head, id)
    ensures Free(ByPattern, Before(d, k), id) && Free(ByHeader, Before(d, k), id)
    ensures Before(d, k) == "" || EndsLine(Before(d, k))
  {
    hide Formed, TaskHead, Free, EndsLine, Boundary, TaskId, Before;
    TaskFacts(d, k, id);
    PatternIsWider(Before(d, k), id);
    BeforeEndsLine(d, k);
  }

  /** Its body may be replaced by whole lines, whatever they are. */
  lemma LedWith(d: Document, k: nat, id: string, body: string)
    requires Led(d, k, id) && (Last(d, k) || EndsLine(body))
    ensures Led(WithBody(d, k, body), k, id) && Before(WithBody(d, k, body), k) == Before(d, k)
  {
    hide Formed, Free, EndsLine;
    FormedWith(d, k, body);
    assert WithBody(d, k, body).pieces[..k] == d.pieces[..k];
  }

  lemma ServedWith(d: Document, k: nat, id: string, body: string)
    requires Led(d, k, id) && Quiet(body) && (Last(d, k) || EndsLine(body))
    ensures Served(WithBody(d, k, body), k, id)
  {
    hide Formed, Free, Before, Quiet, EndsLine;
    LedWith(d, k, id, body);
    BodyWith(d, k, body);
  }

  lemma BodyWith(d: Document, k: nat, body: string)
    requires k < |d.pieces|
    ensures k < |WithBody(d, k, body).pieces| && WithBody(d, k, body).pieces[k] == d.pieces[k].(body := body)
    ensures Last(WithBody(d, k, body), k) <==> Last(d, k)
    ensures After(WithBody(d, k, body), k) == After(d, k)
  {
    assert WithBody(d, k, body).pieces[k + 1..] == d.pieces[k + 1..];
  }

  lemma ServedIndex(d: Document, k: nat, id: string)
    requires Served(d, k, id)
    ensures k < |d.pieces| && Led(d, k, id)
  {
    hide Formed, Free, Before, Quiet;
  }

  /** Where the regexes find task `id`: its piece is its section, and its region is the first part of that. */
  lemma Place(d: Document, k: nat, id: string)
    requires Served(d, k, id)
    ensures var a, head, body := |Before(d, k)|, d.pieces[k].head, d.pieces[k].body;
            && FindHeader(Render(d), id) == a
            && TaskSection(Render(d), id) == Region(a, a + |head + body|)
            && ReadTaskSection(Render(d), id) == Some(head + body)
            && TaskRegion(Render(d), id) == Region(a, a + |head| + Cut(body, Last(d, k)))
  {
    var y := d.pieces[k].body + After(d, k);
    hide Formed, TaskHead, Boundary, Free, TaskSection, ReadTaskSection, FindHeader, TaskRegion, Render, After, Before,
      EndsLine, Led, Find, Cut, Quiet, HeaderLen, TaskId;
    LedParts(d, k, id);
    AroundHead(d, k);
    FoundAt(Before(d, k), d.pieces[k].head, id, y);
    SectionPlace(d, k, id);
    RegionPlace(d, k, id);
  }

  lemma PieceRest(body: string, next: string)
    requires Quiet(body) && (next == "" || (EndsLine(body) && Boundary(next)))
    ensures SectionRest(body + next) == |body|
  {
    hide Boundary, LineStart;
    var rest := body + next;
    forall i: nat | i < |body| ensures !(LineStart(rest, i) && Boundary(rest[i..])) {
      LineStartWithin(body, next, i);
    }
    assert rest[|body|..] == next;
    if next != "" { LineStartBehind(body, next); }
    SectionRestIs(rest, |body|);
  }

  /** mapTaskSection rewrites the task's own piece. */
  lemma MapStep(d: Document, k: nat, id: string, f: string -> string, body: string)
    requires Served(d, k, id)
    requires f(d.pieces[k].head + d.pieces[k].body) == d.pieces[k].head + body
    ensures MapTaskSection(Render(d), id, f) == Render(WithBody(d, k, body))
  {
    hide Formed, Free, Before, Quiet, TaskSection;
    AroundSame(d, k);
    Around(d, k, body);
    Place(d, k, id);
    Cuts(Before(d, k), d.pieces[k].head + d.pieces[k].body, After(d, k));
  }

  lemma Cuts(a: string, m: string, b: string)
    ensures var s := a + m + b; s[..|a|] == a && s[|a|..|a| + |m|] == m && s[|a| + |m|..] == b
  {
  }

  /** Or to its front, when a section opens in it. */
  lemma MapFront(d: Document, k: nat, id: string, f: string -> string, n: nat, front: string)
    requires Led(d, k, id) && n <= |d.pieces[k].body| && SectionRest(d.pieces[k].body + After(d, k)) == n
    requires f(d.pieces[k].head + d.pieces[k].body[..n]) == d.pieces[k].head + front
    ensures MapTaskSection(Render(d), id, f) == Render(WithBody(d, k, front + d.pieces[k].body[n..]))
    ensures FindHeader(Render(d), id) != -1
  {
    hide *;
    LedParts(d, k, id);
    var p := d.pieces[k];
    var u, t := p.body[..n], p.body[n..];
    assert p.body == u + t;
    AroundHead(d, k);
    SectionOf(Before(d, k), p.head, id, p.body + After(d, k));
    FoundAt(Before(d, k), p.head, id, p.body + After(d, k));
    AroundSame(d, k);
    Around(d, k, front + t);
    Regroup(Before(d, k), p.head, u, t, After(d, k));
    Regroup(Before(d, k), p.head, front, t, After(d, k));
    SectionEdit(Before(d, k), p.head + u, t + After(d, k), id, f);
  }

  /** An edit of the text that a task's header finds. */
  lemma SectionEdit(a: string, m: string, b: string, id: string, f: string -> string)
    requires TaskSection(a + m + b, id) == Region(|a|, |a| + |m|)
    ensures MapTaskSection(a + m + b, id, f) == a + f(m) + b
  {
    hide TaskSection;
    Cuts(a, m, b);
  }

  /** The completion edits rewrite the first part of the task's own piece. */
  lemma RegionStep(d: Document, k: nat, id: string, f: string -> string, front: string)
    requires Led(d, k, id)
    requires var cut := Cut(d.pieces[k].body, Last(d, k));
             f(d.pieces[k].head + d.pieces[k].body[..cut]) == d.pieces[k].head + front
    ensures var cut := Cut(d.pieces[k].body, Last(d, k));
            OnRegion(Render(d), id, f) == Render(WithBody(d, k, front + d.pieces[k].body[cut..]))
  {
    hide *;
    LedParts(d, k, id);
    var p := d.pieces[k];
    var cut := Cut(p.body, Last(d, k));
    var tail := p.body[cut..];
    AroundSame(d, k);
    Around(d, k, front + tail);
    RegionPlace(d, k, id);
    assert p.body == p.body[..cut] + tail;
    Regroup(Before(d, k), p.head, p.body[..cut], tail, After(d, k));
    Regroup(Before(d, k), p.head, front, tail, After(d, k));
    RegionEdit(Before(d, k), p.head + p.body[..cut], tail + After(d, k), id, f);
  }

  /** An edit of the text that a task's pattern finds. */
  lemma RegionEdit(a: string, m: string, b: string, id: string, f: string -> string)
    requires TaskRegion(a + m + b, id) == Region(|a|, |a| + |m|)
    ensures OnRegion(a + m + b, id, f) == a + f(m) + b
  {
    hide TaskRegion;
    Cuts(a, m, b);
  }

  lemma Regroup(a: string, h: string, u: string, t: string, b: string)
    ensures a + (h + (u + t)) + b == a + (h + u) + (t + b)
    ensures a + (h + u) + (t + b) == a + (h + u) + t + b
  {
  }
}
