/**
 Evidence whose block opens a section: the second application never leaves the bytes as they are.
 */
module Restless {
  import opened Text
  import opened Markdown
  import opened Evidence
  import opened Splicing
  import opened Verification
  import opened Documents
  import opened Sections
  import opened SectionEdits
  import opened Blocks
  import opened Completion
  import opened BlockEnds
  import opened Ledger
  import opened Tidy
  import opened Markers
  import opened DoneLines
  import opened Completing
  import opened Outcomes
  import opened Reinserting
  import opened Resting
  import opened Reapplying
  import opened Cutting
  import opened Repeating
  import opened Growing

  // ---------------------------------------------------------------------
  // One block in a section
  // ---------------------------------------------------------------------

  lemma BlockAtStart(json: string, rest: string)
    ensures var y := BlockText(json) + rest;
            && VERIFICATION_BLOCK_HEADER <= y && |y| >= 48 && y[0] == y[1] == '*' && y[2] == 'V'
            && (forall k :: 0 <= k < 17 ==> y[k] != '\n') && y[17] == y[18] == '\n'
  {
    hide BlockText, VERIFICATION_BLOCK_HEADER;
    BlockLayout(json);
    HeaderOpens(json);
    HeaderUnbroken(BlockText(json) + rest);
  }

  lemma HeaderUnbroken(y: string)
    requires VERIFICATION_BLOCK_HEADER <= y
    ensures |y| >= 17 && forall k :: 0 <= k < 17 ==> y[k] != '\n'
  {
    assert forall k :: 0 <= k < 17 ==> y[k] == VERIFICATION_BLOCK_HEADER[k];
  }

  /** Inside a block no other one starts. */
  lemma NoBlockInside(json: string, z: string, j: nat, rest: string)
    requires ListLine(json) && 0 < j < |BlockText(json)|
    ensures (BlockText(json) + z)[j..] != BlockText(json) + rest
  {
    hide BlockText, VERIFICATION_BLOCK_HEADER, ListLine;
    var x, y := BlockText(json) + z, BlockText(json) + rest;
    BlockAtStart(json, rest);
    if x[j..] == y { InsideNot(json, x, j); }
    Shifted(x, j, y);
  }

  lemma Shifted(x: string, j: nat, y: string)
    requires j <= |x|
    ensures x[j..] == y ==> forall k :: j <= k < j + |y| ==> x[k] == y[k - j]
  {
  }

  lemma InsideNot(json: string, x: string, j: nat)
    requires ListLine(json) && 0 < j < |BlockText(json)| && BlockText(json) <= x && |x| >= j + 19
    ensures !(x[j] == '*' && x[j + 1] == '*' && x[j + 2] == 'V' && x[j + 17] == '\n' && x[j + 18] == '\n'
              && forall k :: j <= k < j + 17 ==> x[k] != '\n')
  {
    hide BlockText;
    var b, e := BlockText(json), 44 + |json|;
    BlockLayout(json);
    assert forall k :: 0 <= k < |b| ==> x[k] == b[k];
    assert forall k :: 44 <= k < e ==> x[k] == json[k - 44];
    assert x[e] == '\n' && x[e + 1] == '`';
  }

  lemma TailFurther(f: string, y: string, j: nat)
    requires j <= |y|
    ensures (f + y)[|f| + j..] == y[j..]
  {
  }

  /** The block stands in such a text once. */
  lemma OneBlock(f: string, json: string, z: string, f': string, z': string)
    requires Sides(f, z) && ListLine(json) && f + (BlockText(json) + z) == f' + (BlockText(json) + z')
    ensures f == f' && z == z'
  {
    hide BlockText, Run, Plain, VERIFICATION_BLOCK_HEADER, ListLine;
    var b := BlockText(json);
    var y := f + (b + z);
    SplitAt(f', b + z');
    SplitAt(f, b + z);
    if |f'| < |f| {
      BlockNotBefore(f, json, z, |f'|);
      OpensAt(y, |f'|, b, z');
    } else if |f'| > |f| {
      var j := |f'| - |f|;
      BlockAtStart(json, z');
      TailFurther(f, b + z, j);
      if j < |b| {
        NoBlockInside(json, z, j, z');
      } else {
        TailFurther(b, z, j - |b|);
        HeaderInRest(z, j - |b|);
      }
    } else {
      SplitAt(b, z);
      SplitAt(b, z');
    }
  }

  lemma OpensAt(y: string, i: nat, b: string, rest: string)
    requires i <= |y| && y[i..] == b + rest
    ensures At(y, i, b)
  {
    assert y[i..i + |b|] == y[i..][..|b|];
  }

  /** Where a block was put in, its two sides. */
  lemma TwoSides(head: string, id: string, c: string, n: nat, block: string) returns (f: string, g: string)
    requires TaskHead(head, id) && n <= |c|
    ensures WithBlock(head, c[..n], block) + c[n..] == f + (block + g)
    ensures (|f| <= |c| && f == c[..|f|] && g == "\n\n" + c[|f|..]) || (f == c[..n] + "\n\n" && g == "\n" + c[n..])
  {
    hide TaskHead, NoStatusLine, BlockAnchor, Find, StatusAnchor, SpanLen, BlockPlace;
    var x, rest := c[..n], c[n..];
    AnchorIs(head, id, x);
    match BlockPlace(head, x)
    case None =>
      f, g := x + "\n\n", "\n" + rest;
      assert x + "\n\n" + (block + "\n") + rest == f + (block + g);
    case Some(k) =>
      f, g := x[..k], "\n\n" + c[k..];
      FrontOfFront(c, n, k);
      assert x[..k] + (block + ("\n\n" + x[k..])) + rest == f + (block + ("\n\n" + (x[k..] + rest)));
  }

  lemma FrontOfFront(c: string, n: nat, k: nat)
    requires k <= n <= |c|
    ensures c[..n][..k] == c[..k] && c[..n][k..] + c[n..] == c[k..]
  {
  }

  /** With the header still in the completed text, one more block makes another text. */
  lemma HeaderDiffers(head: string, id: string, f: string, json: string, z: string, c: string, n: nat)
    requires TaskHead(head, id) && Sides(f, z) && ListLine(json) && n <= |c|
    requires f + VERIFICATION_BLOCK_HEADER <= c
    ensures WithBlock(head, c[..n], BlockText(json)) + c[n..] != f + (BlockText(json) + z)
  {
    hide BlockText, WithBlock, TaskHead, ListLine, VERIFICATION_BLOCK_HEADER, Run, Plain;
    var f', z' := TwoSides(head, id, c, n, BlockText(json));
    if f' + (BlockText(json) + z') == f + (BlockText(json) + z) {
      OneBlock(f, json, z, f', z');
      HeaderBehind(f, c);
      if z == "\n\n" + c[|f|..] {
        SplitAt("\n\n", c[|f|..]);
        HeaderInRest(z, 2);
      } else {
        EndTail(f, c, n);
        HeaderInRest(z, 3);
      }
    }
  }

  lemma EndTail(f: string, c: string, n: nat)
    requires n <= |c| && |f| <= |c| && f == c[..n] + "\n\n"
    ensures ("\n" + c[n..])[3..] == c[|f|..]
  {
  }

  lemma HeaderBehind(f: string, c: string)
    requires f + VERIFICATION_BLOCK_HEADER <= c
    ensures |f| + 17 <= |c| && VERIFICATION_BLOCK_HEADER <= c[|f|..]
  {
    HeaderCloses();
    hide VERIFICATION_BLOCK_HEADER;
    assert c[|f|..][..|VERIFICATION_BLOCK_HEADER|] == (f + VERIFICATION_BLOCK_HEADER)[|f|..];
  }

  lemma HeaderInRest(z: string, i: nat)
    requires Plain(z) && i < |z|
    ensures !(VERIFICATION_BLOCK_HEADER <= z[i..])
  {
    hide VERIFICATION_BLOCK_HEADER;
    NoHeaderAhead(Idle, z, i, "");
    assert z[i..] + "" == z[i..];
  }

  // ---------------------------------------------------------------------
  // Completing keeps the header of a block
  // ---------------------------------------------------------------------

  /** A block's first line. */
  const OPENING: string := VERIFICATION_BLOCK_HEADER + "\n"

  lemma OpeningUnmarked()
    ensures EndsLine(OPENING) && NoMark(OPENING, STATUS) && NoMark(OPENING, BLOCKED) && |OPENING| == 18
    ensures OPENING[..17] == VERIFICATION_BLOCK_HEADER && OPENING[0] == '*'
  {
    hide Marked;
    OpeningChars();
    MarkShapes();
    forall i | 0 <= i <= |OPENING| ensures !Marked(OPENING[i..], STATUS) && !Marked(OPENING[i..], BLOCKED) {
      OpeningMark(i, STATUS);
      OpeningMark(i, BLOCKED);
    }
  }

  lemma OpeningChars()
    ensures |OPENING| == 18 && OPENING[2] == 'V' && OPENING[16] == '*' && OPENING[17] == '\n' && OPENING[0] == '*'
    ensures OPENING[..17] == VERIFICATION_BLOCK_HEADER && LowerChar('V') == 'v'
    ensures forall k :: 2 <= k < 15 ==> OPENING[k] != '*'
    ensures |STATUS| == 11 && |BLOCKED| == 12 && STATUS[2] == 's' && BLOCKED[2] == 'b' && LowerChar('\n') == '\n'
  {
  }

  lemma OpeningMark(i: nat, mark: string)
    requires i <= |OPENING| && (mark == STATUS || mark == BLOCKED) && MarkShape(mark)
    ensures !Marked(OPENING[i..], mark)
  {
    hide OPENING;
    OpeningChars();
    MarkedChars(OPENING[i..], mark);
    StarLower();
    if i + |mark| <= |OPENING| {
      assert OPENING[i..][0] == OPENING[i] && OPENING[i..][1] == OPENING[i + 1] && OPENING[i..][2] == OPENING[i + 2];
    }
  }

  lemma BlockOpening(json: string, rest: string)
    ensures OPENING <= BlockText(json) + rest
  {
    hide BlockText, VERIFICATION_BLOCK_HEADER;
    var y := BlockText(json) + rest;
    BlockAtStart(json, rest);
    HeaderCloses();
    assert y[..17] == VERIFICATION_BLOCK_HEADER;
    assert y[..18] == VERIFICATION_BLOCK_HEADER + "\n";
  }

  /** Setting the status behind a header. */
  lemma DoneKeepsHeader(head: string, u: string, f: string)
    requires Bare(head) && Literal(u) && EndsLine(f) && f + OPENING <= u && NoMark(f, STATUS) && !NoMark(u, STATUS)
    ensures f + OPENING <= WithDone(DonePlace(head, u), u)
  {
    var p := f + OPENING;
    var r := u[|p|..];
    hide *;
    OpeningUnmarked();
    MarkShapes();
    PrefixSplit(u, p);
    NoMarkJoin(f, OPENING, STATUS);
    EndsLineAfter(f, OPENING);
    NoFirst(u);
    HeadedFirst(head, u);
    if DonePlace(head, u) == Kept {
      KeptIs(u);
    } else {
      HeadedKept(head, u);
      var k, n := ValueSides(head, u);
      FromMark(u, k);
      MarksSplit(p, r, STATUS, k);
      BetweenIs(u[..k], u[k + n..], u);
      StoodStarts(p, u, k, u[k + n..]);
    }
  }

  lemma PrefixSplit(u: string, p: string)
    requires p <= u
    ensures u == p + u[|p|..]
  {
  }

  lemma HeadedKept(head: string, u: string)
    requires DonePlace(head, u) != Kept
    ensures DonePlace(head, u).Between?
  {
    hide DonePlace;
  }

  lemma FromMark(u: string, k: nat)
    requires k <= |u| && Marked(u[k..], STATUS)
    ensures k < |u|
  {
  }

  lemma StoodStarts(p: string, u: string, k: nat, b: string)
    requires p <= u && |p| <= k <= |u|
    ensures p <= Stood(u[..k], b)
  {
    hide DONE_LINE;
    assert u[..k][..|p|] == p;
  }

  /** Clearing behind a header. */
  lemma DropKeepsHeader(f: string, v: string)
    requires EndsLine(f) && f + OPENING <= v && NoMark(f, BLOCKED)
    ensures f + VERIFICATION_BLOCK_HEADER <= DropBlocked(v)
  {
    var p, h := f + OPENING, f + VERIFICATION_BLOCK_HEADER;
    var r := v[|p|..];
    hide *;
    OpeningUnmarked();
    MarkShapes();
    PrefixSplit(v, p);
    NoMarkJoin(f, OPENING, BLOCKED);
    EndsLineAfter(f, OPENING);
    OpeningHeader(f);
    if NoMark(v, BLOCKED) {
      NothingToDrop(v);
    } else {
      var start, q, end := DropParts(v);
      FirstMarkerAt(v, start, q, end);
      MarksSplit(p, r, BLOCKED, q);
      KeptFront(h, p, v, start, end);
    }
  }

  lemma OpeningHeader(f: string)
    ensures f + VERIFICATION_BLOCK_HEADER <= f + OPENING && |f + OPENING| == |f + VERIFICATION_BLOCK_HEADER| + 1
  {
    hide VERIFICATION_BLOCK_HEADER;
    assert OPENING == VERIFICATION_BLOCK_HEADER + "\n";
    assert f + OPENING == f + VERIFICATION_BLOCK_HEADER + "\n";
  }

  lemma FirstMarkerAt(v: string, start: nat, q: nat, end: nat)
    requires FirstMarker(v, start, q, end)
    ensures start <= q < end <= |v| && Marked(v[q..], BLOCKED) && q <= start + 1
  {
    hide Marked, BlockedLineLen;
  }

  lemma KeptFront(h: string, p: string, v: string, start: nat, end: nat)
    requires h <= p <= v && |h| <= start <= end <= |v|
    ensures h <= v[..start] + "\n" + v[end..]
  {
  }

  /** Tidying behind whole lines that are tidy. */
  lemma TidiedKeepsHeader(f: string, x: string)
    requires EndsLine(f) && NoTriple(f) && CheckAll(f) == f && f + VERIFICATION_BLOCK_HEADER <= x
    ensures f + VERIFICATION_BLOCK_HEADER <= Tidied(x)
  {
    var q := x[|f|..];
    hide *;
    HeaderBehind(f, x);
    FrontOf(f, x);
    HeaderTidies(q);
    TidiedSplit(f, q);
    CollapseKeeps(f);
    PrefixBehind(f, VERIFICATION_BLOCK_HEADER, Tidied(q));
  }

  lemma FrontOf(f: string, x: string)
    requires f + VERIFICATION_BLOCK_HEADER <= x
    ensures x == f + x[|f|..]
  {
    hide VERIFICATION_BLOCK_HEADER;
    assert x[..|f|] == (f + VERIFICATION_BLOCK_HEADER)[..|f|] == f;
  }

  lemma PrefixBehind(f: string, h: string, y: string)
    requires h <= y
    ensures f + h <= f + y
  {
  }

  lemma HeaderTidies(q: string)
    requires VERIFICATION_BLOCK_HEADER <= q
    ensures VERIFICATION_BLOCK_HEADER <= Tidied(q) && q != "" && q[0] != '\n' && Tidied(q) != ""
  {
    var h := VERIFICATION_BLOCK_HEADER;
    var r := q[|h|..];
    HeaderCollapses();
    hide *;
    assert !Space('*') by { StarPlain(); }
    PrefixSplit(q, h);
    CollapseHead(h, r);
    TrimBehind(h, Collapse(r));
    TidiedUnfolds(q, h + Collapse(r), h + TrimEnd(Collapse(r)));
    CheckAllTicks(h + TrimEnd(Collapse(r)));
    HeaderTicks(TrimEnd(Collapse(r)), Tidied(q));
  }

  lemma HeaderCollapses()
    ensures var h := VERIFICATION_BLOCK_HEADER;
            |h| == 17 && h[16] == '*' && h[0] == '*' && forall i :: 0 <= i < |h| ==> h[i] != '\n' && h[i] != ' '
  {
  }

  lemma HeaderTicks(r: string, y: string)
    requires Ticks(VERIFICATION_BLOCK_HEADER + r, y)
    ensures VERIFICATION_BLOCK_HEADER <= y && y != ""
  {
    HeaderCollapses();
    hide VERIFICATION_BLOCK_HEADER;
    var h := VERIFICATION_BLOCK_HEADER;
    assert forall k :: 0 <= k < |h| ==> y[k] == (h + r)[k] == h[k];
    assert y[..|h|] == h;
  }

  /** Completing a section keeps a block's header, where no status mark or marker before it runs on into it. */
  lemma EndedKeepsHeader(head: string, u: string, f: string)
    requires Bare(head) && Literal(u) && EndsLine(f) && NoTriple(f) && CheckAll(f) == f && f + OPENING <= u
    requires NoMark(f, BLOCKED) && (Rests(u) || (NoMark(f, STATUS) && !NoMark(u, STATUS)))
    ensures f + VERIFICATION_BLOCK_HEADER <= Ended(head, u)
  {
    var v := WithDone(DonePlace(head, u), u);
    hide *;
    if Rests(u) { RestsStays(head, u); } else { DoneKeepsHeader(head, u, f); }
    DropKeepsHeader(f, v);
    TidiedKeepsHeader(f, DropBlocked(v));
    EndedUnfolds(head, u);
  }

  lemma EndedUnfolds(head: string, u: string)
    ensures Ended(head, u) == Tidied(DropBlocked(WithDone(DonePlace(head, u), u)))
  {
    hide DonePlace, DropBlocked, Tidied;
  }

  // ---------------------------------------------------------------------
  // A status mark that has a block for its value
  // ---------------------------------------------------------------------

  lemma EarlierNone(w: string, y: string, i: nat, m: nat)
    requires i + 11 == |w| && m < i && (forall k: nat :: k < i ==> !Marked(w[k..], STATUS))
    ensures !Marked((w + y)[m..], STATUS)
  {
    hide Marked;
    MarkShapes();
    StatusSize();
    assert (w + y)[m..m + 11] == w[m..m + 11];
    MarkFactor(w + y, m, w, m, STATUS);
  }

  lemma StatusSize()
    ensures |STATUS| == 11
  {
  }

  /** A mark without a value at the end of trimmed text, and the first one there. */
  lemma LoneMark(w: string) returns (i: nat)
    requires Unvalued(w) && TrimEnd(w) == w
    ensures i + 11 == |w| && Marked(w[i..], STATUS) && (forall k: nat :: k < i ==> !Marked(w[k..], STATUS))
  {
    hide NoMark, First, Marked;
    NoFirst(w);
    i := FirstMarkFound(w);
    UnvaluedTail(w, i);
    TrimTwice(w);
  }

  /** With text behind the break the mark has a value. */
  lemma LonePlace(head: string, w: string, y: string, i: nat, q: nat)
    requires Bare(head) && i + 11 == |w| && Marked(w[i..], STATUS) && |w| <= q < |w + y| && !Space((w + y)[q])
    requires forall k: nat :: k < i ==> !Marked(w[k..], STATUS)
    ensures DonePlace(head, w + y).Between? && DonePlace(head, w + y).before == w[..i]
  {
    hide Marked, StatusValueLen, First, Bare, Space, NoMark, DONE_LINE, Find;
    var u := w + y;
    var s, k := head + u, |head| + i;
    MarkShapes();
    StatusSize();
    assert u[i..i + 11] == w[i..i + 11];
    MarkFactor(u, i, w, i, STATUS);
    MarkBefore(u[i..], q - i);
    assert From(s, k) == u[i..];
    forall m: nat | m < k ensures !StatusMarkAt(s)(m) && !StatusValueAt(s)(m) {
      if m < |head| {
        HeadUnmarked(head, u, STATUS, m);
      } else {
        EarlierNone(w, y, i, m - |head|);
        assert From(s, m) == u[m - |head|..];
      }
      ValueMarked(From(s, m));
    }
    assert StatusMarkAt(s)(k) && StatusValueAt(s)(k);
    FirstIs(|s|, StatusMarkAt(s), k);
    FirstIs(|s|, StatusValueAt(s), k);
    assert s[..k] == head + w[..i];
  }

  /** Completion then puts the done line over the mark and the header. */
  lemma LoneEnds(head: string, w: string, y: string, q: nat)
    requires Bare(head) && Literal(w + y) && Unvalued(w) && Tidied(w) == w && NoMark(w, BLOCKED)
    requires |w| <= q < |w + y| && !Space((w + y)[q])
    ensures var e := Ended(head, w + y); |e| > |w| && e[|w|] == ' '
  {
    hide *;
    TidiedParts(w);
    var i := LoneMark(w);
    LonePlace(head, w, y, i, q);
    SetDoneIs(head, w + y);
    var a, b := w[..i], DonePlace(head, w + y).behind;
    StandingOpens(a, b);
    MarkFrontUnmarked(w, i);
    DropBehind(a, b);
    NoTriplePrefix(w, i);
    CollapseKeeps(a);
    CheckAllTicks(a);
    TicksSize(a, CheckAll(a));
    DropStanding(a, b);
    TidiedStood(a, DropBlocked(b));
    PlaceWith(head, w + y, a);
    EndedIs(head, w + y, a, b);
    DoneSpace(CheckAll(a), Tidied(DropBlocked(b)));
  }

  lemma PlaceWith(head: string, u: string, a: string)
    requires DonePlace(head, u).Between? && DonePlace(head, u).before == a
    ensures DonePlace(head, u) == Between(a, DonePlace(head, u).behind)
  {
    hide DonePlace;
  }

  lemma DropStanding(a: string, b: string)
    requires Standing(a, b) && (DropBlocked(b) == "" || LineTerm(DropBlocked(b)[0]))
    ensures Standing(a, DropBlocked(b))
  {
    hide NoMark, DropBlocked;
  }

  lemma MarkFrontUnmarked(w: string, i: nat)
    requires i + 11 == |w| && Marked(w[i..], STATUS) && NoMark(w, BLOCKED)
    ensures NoMark(w[..i] + "**", BLOCKED)
  {
    hide NoMark;
    StatusSize();
    MarkedChars(w[i..], STATUS);
    StarLower();
    MarkShapes();
    hide Marked;
    assert w[i..][0] == '*' && w[i..][1] == '*';
    assert w[..i] + "**" == w[..i + 2];
    MarkNonempty(BLOCKED);
    PrefixNoMark(w, i + 2, BLOCKED);
  }

  lemma DoneSpace(a: string, e: string)
    ensures |Stood(a, e)| >= |a| + 16 && Stood(a, e)[|a| + 11] == ' '
  {
  }

  /** A space where the first section has a break makes another text. */
  lemma SpaceDiffers(head: string, id: string, w: string, s: string, json: string, z: string, c: string, n: nat)
    requires TaskHead(head, id) && Sides(w + s, z) && ListLine(json) && n <= |c| && |c| > |w| && c[|w|] == ' '
    requires s == "\n" || (s == "\n\n" && z == "\n")
    requires w != "" ==> w[|w| - 1] != '\n'
    ensures WithBlock(head, c[..n], BlockText(json)) + c[n..] != w + s + (BlockText(json) + z)
  {
    hide BlockText, WithBlock, TaskHead, ListLine, Run, Plain;
    var f := w + s;
    var f', z' := TwoSides(head, id, c, n, BlockText(json));
    assert f[|w|] == '\n';
    if f' + (BlockText(json) + z') == f + (BlockText(json) + z) {
      OneBlock(f, json, z, f', z');
      SpaceSides(w, s, z, c, n);
    }
  }

  lemma SpaceSides(w: string, s: string, z: string, c: string, n: nat)
    requires n <= |c| && |c| > |w| && c[|w|] == ' ' && (s == "\n" || (s == "\n\n" && z == "\n"))
    requires w != "" ==> w[|w| - 1] != '\n'
    ensures |w + s| <= |c| ==> w + s != c[..|w + s|]
    ensures !(w + s == c[..n] + "\n\n" && z == "\n" + c[n..])
  {
    assert (w + s)[|w|] == '\n';
    assert w != "" ==> (w + s)[|w| - 1] == w[|w| - 1];
    assert (c[..n] + "\n\n")[n] == '\n' && |c[..n] + "\n\n"| == n + 2;
    assert n < |c| ==> |"\n" + c[n..]| > 1;
  }

  // ---------------------------------------------------------------------
  // Where the first block is
  // ---------------------------------------------------------------------

  /** A third-level line before the block: completion does not see the block. */
  lemma HighFront(head: string, id: string, w: string, t: string, last: bool, json: string, k: nat)
    requires TaskHead(head, id) && Laid(w, t, last) && NoMark(w, BLOCKED) && Rests(w)
    requires BlockPlace(head, w + t) == Some(k) && |w| + 4 <= k <= |w + t| && H3 <= t
    ensures var y := WithBlock(head, w + t, BlockText(json)); Completed(head, y, last) == y
  {
    var b, x := BlockText(json), w + t;
    var y := WithBlock(head, x, b);
    var t' := y[|w|..];
    hide *;
    HeadBare(head, id);
    LaidParts(w, t, last);
    WithBlockAt(head, x, b, k);
    HighSplit(w, t, k, b, y);
    BehindHigh(t, t', head, x, b, y, last, w);
    CompletedIs(head, w, t', last);
    EndedRests(head, w);
  }

  lemma HighSplit(w: string, t: string, k: nat, b: string, y: string)
    requires |w| + 4 <= k <= |w + t| && H3 <= t && y == (w + t)[..k] + (b + ("\n\n" + (w + t)[k..]))
    ensures |w| <= |y| && y == w + y[|w|..] && H3 <= y[|w|..]
  {
    assert y[..|w|] == w;
    assert y[|w|..][..4] == t[..4];
  }

  lemma BehindHigh(t: string, t': string, head: string, x: string, b: string, y: string, last: bool, w: string)
    requires x == w + t && y == w + t' && Beyond(t, last) && H3 <= t && H3 <= t' && y == WithBlock(head, x, b)
    ensures Beyond(t', last)
  {
    hide WithBlock;
    if !last {
      assert H3[1] != '\n';
      assert t[1] == H3[1];
      assert EndsLine(t);
      EndsLineAfter(w, t);
      assert x + "" == x && y + "" == y;
      WithBlockEnds(head, x, b, "");
      EndsLineAfter(w, t');
    }
  }

  /** Where the first block goes: at a place completion sees, behind a third-level line, or behind everything. */
  lemma FirstPlace(head: string, id: string, w: string, t: string, last: bool)
    requires TaskHead(head, id) && Laid(w, t, last)
    ensures match BlockPlace(head, w + t)
            case None => t == "" && last
            case Some(k) => k <= |w + t| && (Placing(w, t, k) || (|w| + 4 <= k && H3 <= t))
  {
    hide *;
    LaidParts(w, t, last);
    LaidEnd(w, t, last);
    AnchorIs(head, id, w + t);
    match BlockPlace(head, w + t)
    case None => NoBreakBehind(w, t);
    case Some(k) => PlaceOr(w, t, last, k);
  }

  lemma NoBreakBehind(w: string, t: string)
    requires '\n' !in w + t && (t != "" ==> t[0] == '\n')
    ensures t == ""
  {
  }

  lemma PlaceOr(w: string, t: string, last: bool, k: nat)
    requires 0 < k <= |w + t| && (w + t)[k - 1] == '\n' && (k < |w + t| ==> (w + t)[k] != '\n')
    requires Beyond(t, last) && (w != "" ==> w[|w| - 1] != '\n')
    ensures Placing(w, t, k) || (|w| + 4 <= k && H3 <= t)
  {
    var x := w + t;
    BeyondOne(t, last);
    if k <= |w| {
      assert x[k - 1] == w[k - 1];
      assert k < |w| ==> x[k] == w[k];
    } else {
      assert x[k - 1] == t[k - 1 - |w|];
      if H3 <= t { assert t[1] == '#' && t[2] == '#' && t[3] == '#' by { assert t[..4] == H3; } }
    }
  }

  // ---------------------------------------------------------------------
  // The status around a block
  // ---------------------------------------------------------------------

  /** A status that is set before the block stays set with the block there. */
  lemma DoneBefore(w: string, a: string, b: string, f: string, r: string, y: string)
    requires w == Stood(a, b) && Standing(a, b) && f + r == w + "\n\n" && EndsLine(f) && |f| > |a|
    ensures Rests(f + y)
  {
    hide IsDone, Unvalued, Standing, Stood;
    StoodMore(a, b, "\n\n");
    StandingLonger(a, b);
    BreakOutside(f, r, a, b + "\n\n");
    StoodCutBehind(f, r, a, b + "\n\n");
    var n := |f| - |a| - 16;
    var nl := (b + "\n\n")[..n];
    assert nl != "" && nl[0] == (b + "\n\n")[0];
    FrontStanding(a, nl, b + "\n\n");
    StoodText(a, nl, f);
    StoodOn(f, a, nl, y);
    StoodIsDone(a, nl + y);
  }

  lemma StoodText(a: string, nl: string, f: string)
    requires f == a + DONE_LINE + nl
    ensures f == Stood(a, nl)
  {
  }

  lemma StandingLonger(a: string, b: string)
    requires Standing(a, b)
    ensures Standing(a, b + "\n\n")
  {
    hide NoMark;
    NewlineTerm();
  }

  lemma FrontStanding(a: string, nl: string, b: string)
    requires Standing(a, b) && nl != "" && b != "" && nl[0] == b[0]
    ensures Standing(a, nl)
  {
    hide NoMark;
  }

  lemma StoodMarked(a: string, b: string)
    requires Standing(a, b)
    ensures !NoMark(Stood(a, b), STATUS)
  {
    hide NoMark, Stood, Standing, IsDone, First;
    StoodIsDone(a, b);
    NoFirst(Stood(a, b));
  }

  lemma UnvaluedMarked(w: string)
    requires Unvalued(w)
    ensures !NoMark(w, STATUS)
  {
    hide NoMark, First;
    NoFirst(w);
  }

  /** With the block inside what completion sees, the status rests as it did, or stands behind the block. */
  lemma StatusAround(w: string, k: nat, y: string, u: string, v: string)
    requires Rests(w) && Tidied(w) == w && 0 < k < |w| && w[k - 1] == '\n' && u == y + w[k..] && u == w[..k] + v
    ensures Rests(u) || (NoMark(w[..k], STATUS) && !NoMark(u, STATUS))
  {
    var f, q := w[..k], w[k..];
    hide *;
    MarkShapes();
    TidiedParts(w);
    FrontLine(w, k);
    if NoMark(f, STATUS) {
      RestsMarked(w);
      NoMarkJoin(f, q, STATUS);
      if NoMark(u, STATUS) { NoMarkPrefix(y, q, STATUS); }
    } else if IsDone(w) {
      var a, b := DoneIsStood(w);
      FrontMarked(w, k, a, b);
      Regrouping(f, q, "\n\n");
      DoneBefore(w, a, b, f, q + "\n\n", v);
    } else {
      RestsOr(w);
      var i := LoneMark(w);
      LoneBehind(w, k, i);
    }
  }

  lemma RestsOr(w: string)
    requires Rests(w) && !IsDone(w)
    ensures Unvalued(w)
  {
    hide IsDone, Unvalued;
  }

  lemma RestsMarked(w: string)
    requires Rests(w)
    ensures !NoMark(w, STATUS)
  {
    hide NoMark, First, IsDone, Unvalued, Standing, Stood;
    if IsDone(w) {
      var a, b := DoneIsStood(w);
      StoodMarked(a, b);
    } else {
      UnvaluedMarked(w);
    }
  }

  lemma FrontLine(w: string, k: nat)
    requires 0 < k <= |w| && w[k - 1] == '\n'
    ensures EndsLine(w[..k]) && w == w[..k] + w[k..]
  {
  }

  lemma FrontMarked(w: string, k: nat, a: string, b: string)
    requires w == Stood(a, b) && Standing(a, b) && k <= |w| && !NoMark(w[..k], STATUS)
    ensures k > |a|
  {
    hide NoMark, DONE_LINE;
    MarkShapes();
    MarkNonempty(STATUS);
    if k <= |a| {
      assert (a + "**")[..k] == w[..k];
      PrefixNoMark(a + "**", k, STATUS);
    }
  }

  lemma LoneBehind(w: string, k: nat, i: nat)
    requires i + 11 == |w| && Marked(w[i..], STATUS) && (forall m: nat :: m < i ==> !Marked(w[m..], STATUS))
    requires 0 < k < |w| && w[k - 1] == '\n'
    ensures NoMark(w[..k], STATUS)
  {
    hide Marked;
    StatusSize();
    MarkShapes();
    var f := w[..k];
    forall m | 0 <= m <= |f| ensures !Marked(f[m..], STATUS) {
      MarkedChars(f[m..], STATUS);
      MarkedChars(w[m..], STATUS);
      MarkedChars(w[i..], STATUS);
      if m + 11 <= k {
        assert f[m..m + 11] == w[m..m + 11];
        MarkFactor(f, m, w, m, STATUS);
        assert m < i;
      }
    }
  }

  // ---------------------------------------------------------------------
  // The second verification
  // ---------------------------------------------------------------------

  /** Whole lines before a block, as completion leaves them. */
  predicate Neat(f: string)
  {
    EndsLine(f) && NoTriple(f) && CheckAll(f) == f && NoMark(f, BLOCKED) && NoH3(f) && Literal(f)
  }

  /** What completing makes of a section with a block: the header stays, or a space takes the place of a break. */
  predicate Shows(c: string, f: string, w: string, s: string)
  {
    f + VERIFICATION_BLOCK_HEADER <= c || (f == w + s && |c| > |w| && c[|w|] == ' ')
  }

  lemma ShowsMore(c: string, f: string, w: string, s: string, t: string)
    requires Shows(c, f, w, s)
    ensures Shows(c + t, f, w, s)
  {
    hide VERIFICATION_BLOCK_HEADER;
  }

  lemma HeaderMore(c: string, h: string, t: string)
    requires h <= c
    ensures h <= c + t
  {
  }

  lemma KeepsHeader(head: string, f: string, json: string, u: string)
    requires Bare(head) && Neat(f) && Literal(f + (BlockText(json) + u))
    requires var x := f + (BlockText(json) + u); Rests(x) || (NoMark(f, STATUS) && !NoMark(x, STATUS))
    ensures f + VERIFICATION_BLOCK_HEADER <= Ended(head, f + (BlockText(json) + u))
  {
    var x := f + (BlockText(json) + u);
    hide *;
    NeatParts(f);
    BlockOpening(json, u);
    PrefixBehind(f, OPENING, BlockText(json) + u);
    EndedKeepsHeader(head, x, f);
  }

  lemma HeaderShows(c: string, f: string, w: string, s: string)
    requires f + VERIFICATION_BLOCK_HEADER <= c
    ensures Shows(c, f, w, s)
  {
  }

  lemma NeatParts(f: string)
    requires Neat(f)
    ensures EndsLine(f) && NoTriple(f) && CheckAll(f) == f && NoMark(f, BLOCKED) && NoH3(f) && Literal(f)
  {
    hide NoTriple, CheckAll, NoMark, NoH3, Literal;
  }

  /** The block inside what completion sees. */
  lemma HeaderInside(head: string, w: string, k: nat, json: string)
    requires Bare(head) && Tidied(w) == w && Rests(w) && 0 < k < |w| && w[k - 1] == '\n' && Neat(w[..k])
    requires Literal(BlockText(json)) && Literal("\n\n" + w[k..])
    ensures w[..k] + VERIFICATION_BLOCK_HEADER <= Ended(head, w[..k] + (BlockText(json) + ("\n\n" + w[k..])))
  {
    var f, b := w[..k], BlockText(json);
    hide *;
    NeatParts(f);
    BreaksBefore(f, b, w[k..]);
    LiteralLines(f, b, "\n\n" + w[k..]);
    StatusAround(w, k, f + (b + "\n\n"), f + (b + ("\n\n" + w[k..])), b + ("\n\n" + w[k..]));
    KeepsHeader(head, f, json, "\n\n" + w[k..]);
  }

  lemma BreaksBefore(f: string, b: string, q: string)
    ensures f + (b + ("\n\n" + q)) == f + (b + "\n\n") + q && EndsLine(f + (b + "\n\n"))
    ensures ("\n\n" + q)[0] == '\n'
  {
    var y := f + (b + "\n\n");
    assert y[|y| - 1] == '\n';
  }

  /** The block behind all that completion sees. */
  lemma ShowsBehind(head: string, w: string, s: string, json: string, u: string)
    requires Bare(head) && Tidied(w) == w && Rests(w) && NoMark(w, BLOCKED) && (s == "\n" || s == "\n\n")
    requires Neat(w + s) && Literal(BlockText(json)) && Literal(u) && (u == "" || u[0] == '\n')
    ensures Shows(Ended(head, w + s + (BlockText(json) + u)), w + s, w, s)
  {
    var f, b := w + s, BlockText(json);
    hide *;
    NeatParts(f);
    LiteralLines(f, b, u);
    if IsDone(w) {
      var a, e := DoneIsStood(w);
      StoodShorter(w, a, e);
      BreaksLeft(w, s);
      DoneBefore(w, a, e, f, if s == "\n" then "\n" else "", b + u);
      KeepsHeader(head, f, json, u);
      HeaderShows(Ended(head, f + (b + u)), f, w, s);
    } else {
      RestsOr(w);
      BlockLayout(json);
      StarBehind(w, s, b, u);
      LoneEnds(head, w, s + (b + u), |w| + |s|);
      SpaceShows(Ended(head, w + (s + (b + u))), w, s);
    }
  }

  lemma StoodShorter(w: string, a: string, b: string)
    requires w == Stood(a, b)
    ensures |w| > |a|
  {
  }

  lemma BreaksLeft(w: string, s: string)
    requires s == "\n" || s == "\n\n"
    ensures w + s + (if s == "\n" then "\n" else "") == w + "\n\n" && |w + s| > |w|
  {
  }

  lemma StarBehind(w: string, s: string, b: string, u: string)
    requires b != "" && b[0] == '*'
    ensures w + s + (b + u) == w + (s + (b + u)) && |w| + |s| < |w + (s + (b + u))|
    ensures (w + (s + (b + u)))[|w| + |s|] == '*' && !Space((w + (s + (b + u)))[|w| + |s|])
  {
  }

  lemma SpaceShows(c: string, w: string, s: string)
    requires |c| > |w| && c[|w|] == ' '
    ensures Shows(c, w + s, w, s)
  {
  }

  /** Completing a section that holds its block, in the parts that matter here. */
  lemma CompletesAround(head: string, f: string, json: string, u: string, t: string, last: bool)
    requires Bare(head) && Neat(f) && OpenLine(json) && Literal(BlockText(json)) && Literal(u) && NoH3(u)
    requires Beyond(t, last) && u != "" && u[0] == '\n'
    ensures Completed(head, f + (BlockText(json) + (u + t)), last) == Ended(head, f + (BlockText(json) + u)) + t
  {
    var b := BlockText(json);
    hide *;
    NeatParts(f);
    CutAgain(u, t, last);
    SplitAt(u, t);
    BeyondEnds(u, t, last);
    OpensSame(u, t);
    FrontLow(f, json, u + t, last);
    LiteralLines(f, b, u);
    SideParts(f, b, u, t, u + t);
    CompletedIs(head, f + (b + u), t, last);
  }

  lemma OpensSame(u: string, t: string)
    requires u != "" && u[0] == '\n'
    ensures u + t != "" && (u + t)[0] == '\n'
  {
  }

  lemma PlaceShows(head: string, w: string, t: string, last: bool, json: string, k: nat)
    requires Bare(head) && Laid(w, t, last) && NoMark(w, BLOCKED) && Rests(w) && Placing(w, t, k) && Literal(w + t)
    requires OpenLine(json) && Literal(BlockText(json)) && k <= |w + t|
    ensures var f, z := (w + t)[..k], "\n\n" + (w + t)[k..];
            Shows(Completed(head, f + (BlockText(json) + z), last), f, w, "\n")
  {
    var f, b := (w + t)[..k], BlockText(json);
    hide *;
    LaidParts(w, t, last);
    FirstFront(w, t, last, k);
    NeatFrom(f);
    PlacingRest(w, t, k);
    BreaksLiteral();
    if k < |w| {
      var u := "\n\n" + w[k..];
      RestLow(w, k);
      FrontCut(w, t, k);
      LiteralPart(w, k, |w|);
      WholePart(w, k, k);
      LiteralConcat("\n\n", w[k..]);
      BreaksBefore(f, b, w[k..]);
      CompletesAround(head, f, json, u, t, last);
      HeaderInside(head, w, k, json);
      HeaderMore(Ended(head, f + (b + u)), f + VERIFICATION_BLOCK_HEADER, t);
      HeaderShows(Ended(head, f + (b + u)) + t, f, w, "\n");
    } else {
      LoneLow();
      BehindIs(w, t, k);
      CompletesAround(head, f, json, "\n", t, last);
      ShowsBehind(head, w, "\n", json, "\n");
      ShowsMore(Ended(head, f + (b + "\n")), f, w, "\n", t);
    }
  }

  lemma NeatFrom(f: string)
    requires EndsLine(f) && NoTriple(f) && CheckAll(f) == f && NoMark(f, BLOCKED) && NoH3(f) && Literal(f)
    ensures Neat(f)
  {
    hide NoTriple, CheckAll, NoMark, NoH3, Literal;
  }

  lemma FrontCut(w: string, t: string, k: nat)
    requires k < |w|
    ensures (w + t)[..k] == w[..k]
  {
  }

  lemma BehindIs(w: string, t: string, k: nat)
    requires Placing(w, t, k) && k >= |w| && k <= |w + t|
    ensures (w + t)[..k] == w + "\n"
  {
    assert (w + t)[|w|] == t[0];
  }

  lemma EndShows(head: string, w: string, json: string)
    requires Bare(head) && Tidied(w) == w && NoH3(w) && Literal(w) && NoMark(w, BLOCKED) && Rests(w)
    requires OpenLine(json) && Literal(BlockText(json))
    ensures Shows(Completed(head, w + "\n\n" + (BlockText(json) + "\n"), true), w + "\n\n", w, "\n\n")
  {
    var f, b := w + "\n\n", BlockText(json);
    hide *;
    EndTidy(w);
    BreaksLiteral();
    LoneLow();
    NothingBeyond();
    CompletesAround(head, f, json, "\n", "", true);
    ShowsBehind(head, w, "\n\n", json, "\n");
    NothingMore(Ended(head, f + (b + "\n")));
  }

  lemma NothingBeyond()
    ensures Beyond("", true) && "\n" + "" == "\n"
  {
  }

  lemma NothingMore(x: string)
    ensures x + "" == x
  {
  }

  lemma EndTidy(w: string)
    requires Tidied(w) == w && NoH3(w) && Literal(w) && NoMark(w, BLOCKED)
    ensures Neat(w + "\n\n")
  {
    hide *;
    TidiedParts(w);
    MarkShapes();
    NoTripleSpaced(w, "\n\n");
    NoMarkSpaced(w, "\n\n", BLOCKED);
    SpacedLiteral(w, "\n\n");
    BreakLow(w);
    BreakLow(w + "\n");
    BreakChecks(w);
    BreakChecks(w + "\n");
    TwoEnds(w);
    NeatFrom(w + "\n\n");
  }

  lemma TwoEnds(w: string)
    ensures w + "\n" + "\n" == w + "\n\n" && EndsLine(w + "\n\n")
  {
  }

  lemma ShowsDiffers(head: string, id: string, w: string, s: string, json: string, f: string, z: string, c: string,
                     n: nat)
    requires TaskHead(head, id) && Sides(f, z) && ListLine(json) && n <= |c| && Shows(c, f, w, s)
    requires s == "\n" || (s == "\n\n" && z == "\n")
    requires w != "" ==> w[|w| - 1] != '\n'
    ensures WithBlock(head, c[..n], BlockText(json)) + c[n..] != f + (BlockText(json) + z)
  {
    hide TaskHead, Sides, ListLine, WithBlock, BlockText, VERIFICATION_BLOCK_HEADER;
    if f + VERIFICATION_BLOCK_HEADER <= c {
      HeaderDiffers(head, id, f, json, z, c, n);
    } else {
      SpaceDiffers(head, id, w, s, json, z, c, n);
    }
  }

  lemma BlockShows(f: string, json: string, z: string)
    ensures f + VERIFICATION_BLOCK_HEADER <= f + (BlockText(json) + z)
  {
    hide BlockText, VERIFICATION_BLOCK_HEADER;
    BlockAtStart(json, z);
    PrefixBehind(f, VERIFICATION_BLOCK_HEADER, BlockText(json) + z);
  }

  /** The second verification of a settled section gives another text. */
  lemma SecondDiffers(head: string, id: string, w: string, t: string, last: bool, json: string, c: string, n: nat)
    requires TaskHead(head, id) && Laid(w, t, last) && Plain(w + t) && NoMark(w, BLOCKED) && Rests(w)
    requires OpenLine(json) && Literal(BlockText(json))
    requires c == Completed(head, WithBlock(head, w + t, BlockText(json)), last) && n <= |c|
    ensures WithBlock(head, c[..n], BlockText(json)) + c[n..] != WithBlock(head, w + t, BlockText(json))
  {
    hide *;
    HeadBare(head, id);
    LineParts(json);
    PlainLiteral(w + t);
    LaidEnd(w, t, last);
    LaidParts(w, t, last);
    var f, z := WithBlockSides(head, id, w + t);
    FirstPlace(head, id, w, t, last);
    match BlockPlace(head, w + t)
    case None =>
      EndShows(head, w, json);
      NothingMore(w);
      ShowsDiffers(head, id, w, "\n\n", json, f, z, c, n);
    case Some(k) =>
      if Placing(w, t, k) {
        PlaceShows(head, w, t, last, json, k);
        ShowsDiffers(head, id, w, "\n", json, f, z, c, n);
      } else {
        HighFront(head, id, w, t, last, json, k);
        BlockShows(f, json, z);
        HeaderDiffers(head, id, f, json, z, c, n);
      }
  }

  // ---------------------------------------------------------------------
  // On documents
  // ---------------------------------------------------------------------

  lemma SidesPlain(f: string, z: string)
    requires Sides(f, z)
    ensures Literal(f) && Literal(z) && EndsLine(f) && z != "" && z[0] == '\n' && Run(true, Idle, f) == Idle
  {
    hide Run, Literal, Next;
    PlainLiteral(f);
    PlainLiteral(z);
  }

  lemma SidesFore(head: string, id: string, x: string, f: string, z: string)
    requires TaskHead(head, id) && NoTriple(x) && Sides(f, z)
    requires match BlockPlace(head, x)
             case None => f == x + "\n\n"
             case Some(k) => 0 < k <= |x| && f == x[..k]
    ensures Fore(f)
  {
    hide *;
    AnchorIs(head, id, x);
    SidesPlain(f, z);
    match BlockPlace(head, x) {
      case None =>
        Unbroken(x);
        NoTripleSpaced(x, "\n\n");
      case Some(k) => NoTriplePrefix(x, k);
    }
    ForeFrom(f);
  }

  lemma Unbroken(x: string)
    requires '\n' !in x
    ensures x != "" ==> x[|x| - 1] != '\n'
  {
  }

  lemma ForeFrom(f: string)
    requires EndsLine(f) && Run(true, Idle, f) == Idle && NoTriple(f)
    ensures Fore(f)
  {
  }

  /** At most one match of the blocked pattern, and a status that settles: one completion leaves nothing to do. */
  predicate Settles(p: Piece, last: bool)
  {
    MarkersAround(p.head, Seen(p, last)) <= 1 && StatusSettles(p.head, Seen(p, last))
  }

  /** Without a blocked marker it does. */
  lemma UnmarkedSettles(p: Piece, last: bool)
    requires Bare(p.head) && Literal(Seen(p, last)) && NoMark(Seen(p, last), BLOCKED)
    ensures Settles(p, last)
  {
    hide MarkersAround, StatusSettles, Seen, NoMark, Bare, Literal;
    UnmarkedSides(p.head, Seen(p, last));
  }

  lemma SettledEnds(p: Piece, last: bool)
    requires Settles(p, last) && Bare(p.head) && Literal(Seen(p, last))
    ensures var w := Ended(p.head, Seen(p, last)); NoMark(w, BLOCKED) && Rests(w)
  {
    hide MarkersAround, StatusSettles, Ended, Seen, NoMark, Rests, Bare, Literal;
    EndedCount(p.head, Seen(p, last));
    EndedStatus(p.head, Seen(p, last));
    CountZero(Ended(p.head, Seen(p, last)));
  }

  /** Evidence whose block opens a section changes the bytes of a section that would settle when it is applied again. */
  lemma ChangesAgain(d: Document, k: nat, id: string, es: seq<Item>, isDate: string -> bool)
    requires k < |d.pieces| && Served(d, k, id) && Removable(d.pieces[k].body)
    requires Refusal(es, isDate) == None && Literal(SerializeBlock(es)) && FakesHeading(SerializeBlock(es))
    requires Settles(d.pieces[k], Last(d, k))
    ensures var c := Call(id, es);
            Apply(Apply(Render(d), c, isDate), c, isDate) != Apply(Render(d), c, isDate)
  {
    hide *;
    var p, last, json := d.pieces[k], Last(d, k), CanonicalList(es);
    var d1, w, t := OnceLaid(d, k, id, es, isDate);
    SettledEnds(p, last);
    ListOpens(es, isDate);
    LaidParts(w, t, last);
    var f, z := WithBlockSides(p.head, id, w + t);
    SidesFore(p.head, id, w + t, f, z);
    SidesPlain(f, z);
    LiteralLines(f, SerializeBlock(es), z);
    var d2 := VerifiedAgain(d1, k, id, es, isDate, f, z);
    var body := d1.pieces[k].body;
    var c := Completed(p.head, body, last);
    var n := SectionRest(c + After(d1, k));
    AgainIs(p.head, body, After(d1, k), last, SerializeBlock(es), c, n);
    SecondDiffers(p.head, id, w, t, last, json, c, n);
    ApplyStays(d1, k, Again(p.head, body, After(d1, k), last, SerializeBlock(es)));
  }

  /**
   Verifying a task a second time with the same evidence leaves every byte as it is if and only if the block opens
   no section and the completed section is at rest: all evidence without a replacement pattern, on every section
   that one completion settles.
   */
  lemma RestsExactlyWhen(d: Document, k: nat, id: string, es: seq<Item>, isDate: string -> bool)
    requires k < |d.pieces| && Served(d, k, id) && Removable(d.pieces[k].body)
    requires Refusal(es, isDate) == None && Literal(SerializeBlock(es)) && Settles(d.pieces[k], Last(d, k))
    ensures var c, p := Call(id, es), d.pieces[k];
            Apply(Apply(Render(d), c, isDate), c, isDate) == Apply(Render(d), c, isDate)
            <==> !FakesHeading(SerializeBlock(es)) && AtRest(p.head, CompletedText(p, Last(d, k)), Last(d, k))
  {
    hide *;
    if FakesHeading(SerializeBlock(es)) {
      ChangesAgain(d, k, id, es, isDate);
    } else {
      ContainedFrom(es);
      var d1, w, t := OnceLaid(d, k, id, es, isDate);
      var d2 := AppliedAgain(d1, k, id, es, isDate, w, t);
    }
  }

  lemma ContainedFrom(es: seq<Item>)
    requires Literal(SerializeBlock(es)) && !FakesHeading(SerializeBlock(es))
    ensures Contained(es)
  {
  }
}
