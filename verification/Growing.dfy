/**
 Evidence whose block opens a section: applying it again never comes to rest, the text only grows.
 */
module Growing {
  import opened Text
  import opened Markdown
  import opened Evidence
  import opened Splicing
  import opened Verification
  import opened Documents
  import opened Sections
  import opened SectionEdits
  import opened Blocks
  import opened BlockEnds
  import opened Ledger
  import opened Tidy
  import opened Markers
  import opened DoneLines
  import opened Completing
  import opened Outcomes
  import opened Reinserting
  import opened Resting
  import opened Reapplying
  import opened Cutting
  import opened Repeating

  // ---------------------------------------------------------------------
  // A marker in a block
  // ---------------------------------------------------------------------

  /** The parts of a block by their places. */
  lemma BlockLayout(json: string)
    ensures var b, j := BlockText(json), 44 + |json|;
            && |b| == j + 4 && b[0] == b[1] == b[15] == b[16] == '*' && b[2] == 'V' && b[17] == b[18] == b[43] == '\n'
            && b[j] == '\n' && b[j + 1] == b[j + 2] == b[j + 3] == '`'
            && (forall k :: 1 < k < 15 ==> b[k] != '*') && (forall k :: 17 <= k < 44 ==> b[k] != '*')
            && (forall k :: 0 <= k < |json| ==> b[44 + k] == json[k]) && forall k :: 0 <= k < 44 ==> b[k] != '#'
  {
    var front := VERIFICATION_BLOCK_HEADER + "\n\n" + FENCE;
    LayoutFront();
    var b := BlockText(json);
    assert b == front + (json + CLOSE);
    assert forall k :: 0 <= k < 44 ==> b[k] == front[k];
    assert forall k :: 0 <= k < 4 ==> b[44 + |json| + k] == CLOSE[k];
  }

  lemma LayoutFront()
    ensures var front := VERIFICATION_BLOCK_HEADER + "\n\n" + FENCE;
            && |front| == 44 && front[0] == front[1] == front[15] == front[16] == '*' && front[2] == 'V'
            && front[17] == front[18] == front[43] == '\n'
            && (forall k :: 1 < k < 15 ==> front[k] != '*') && (forall k :: 17 <= k < 44 ==> front[k] != '*')
            && forall k :: 0 <= k < 44 ==> front[k] != '#'
  {
  }

  lemma BlockedChars()
    ensures |BLOCKED| == 12 && BLOCKED[0] == BLOCKED[1] == '*' && BLOCKED[2] == 'b'
    ensures forall k :: 0 <= k < 12 ==> BLOCKED[k] != '\n' && BLOCKED[k] != ']'
    ensures LowerChar('V') == 'v' && LowerChar('\n') == '\n' && LowerChar(']') == ']' && LowerChar('`') == '`'
  {
  }

  /** A marker of a block stands in its JSON, and its match ends before the closing fence. */
  lemma MarkerInBlock(json: string, p: nat)
    requires ListLine(json) && p <= |BlockText(json)| && Marked(BlockText(json)[p..], BLOCKED)
    ensures 44 <= p && p + BlockedLineLen(BlockText(json)[p..]) + 3 <= |BlockText(json)|
  {
    hide BlockText, BlockedLineLen, Marked, Space;
    var b, j := BlockText(json), 44 + |json|;
    BlockLayout(json);
    BlockedChars();
    MarkedChars(b[p..], BLOCKED);
    StarLower();
    assert forall k :: 0 <= k < |b| - p ==> b[p..][k] == b[p + k];
    assert b[p..][0] == b[p] && b[p..][1] == b[p + 1] && b[p..][2] == b[p + 2];
    assert 44 <= p;
    assert b[j - 1] == ']';
    if p <= j { assert b[p..][j - p] == '\n'; }
    assert p + 12 <= j;
    assert b[p..][j - 1 - p] == ']';
    assert p + 12 <= j - 1;
    MatchInLine(b[p..], j - p);
  }

  lemma MatchInLine(x: string, j: nat)
    requires Marked(x, BLOCKED) && 13 <= j < |x| - 1 && x[j - 1] == ']' && x[j] == '\n' && x[j + 1] != '\n'
    ensures BlockedLineLen(x) <= j + 1
  {
    hide Marked, BlockedLineLen;
    NewlineTerm();
    assert !Space(']');
    var w, e := MatchParts(x);
    assert w <= j - 1;
    assert e <= j;
  }

  /** A block, or what clearing has left of one. */
  predicate Cored(b: string)
  {
    b != "" && b[0] == '*' && b[|b| - 1] == '`' && NoTriple(b)
  }

  lemma DropNoTriple(s: string)
    requires NoTriple(s)
    ensures NoTriple(DropBlocked(s))
  {
    hide Marked, DropBlocked, NoMark, BlockedLineLen;
    if NoMark(s, BLOCKED) {
      NothingToDrop(s);
    } else {
      var start, p, end := DropParts(s);
      MarkStops(s[p..]);
      assert end < |s| ==> s[p..][end - p] == s[end];
      DropTriple(s, start, end);
    }
  }

  lemma MarkStops(x: string)
    requires Marked(x, BLOCKED)
    ensures var n := BlockedLineLen(x); n <= |x| && (n < |x| ==> x[n] != '\n')
  {
  }

  lemma DropTriple(s: string, start: nat, end: nat)
    requires NoTriple(s) && start <= end <= |s| && (end < |s| ==> s[end] != '\n')
    requires start < |s| && (s[start] == '\n' || start == 0 || s[start - 1] != '\n')
    ensures NoTriple(s[..start] + "\n" + s[end..])
  {
    var y := s[..start] + "\n" + s[end..];
    forall i | 0 <= i < |y| - 2 ensures !(y[i] == '\n' && y[i + 1] == '\n' && y[i + 2] == '\n') {
      if i + 2 <= start {
        assert !(s[i] == '\n' && s[i + 1] == '\n' && s[i + 2] == '\n');
      } else if i > start {
        var k := i - start - 1 + end;
        assert !(s[k] == '\n' && s[k + 1] == '\n' && s[k + 2] == '\n');
      } else {
        assert y[start + 1] == s[end];
      }
    }
  }

  /** Clearing finds its match in the newest block, or nowhere. */
  lemma DropInBlock(f: string, json: string, z: string) returns (b: string)
    requires EndsLine(f) && NoMark(f, BLOCKED) && ListLine(json) && (z == "" || z[0] == '\n')
    requires NoMark(BlockText(json), BLOCKED) ==> NoMark(z, BLOCKED)
    ensures DropBlocked(f + (BlockText(json) + z)) == f + (b + z) && Cored(b)
    ensures b == DropBlocked(BlockText(json)) && (NoMark(BlockText(json), BLOCKED) ==> b == BlockText(json))
  {
    hide BlockText, Marked, NoMark, DropBlocked, BlockedLineLen, NoTriple, NoBreak;
    var c := BlockText(json);
    b := DropBlocked(c);
    BlockNoTriple(json);
    BlockLayout(json);
    if NoMark(c, BLOCKED) {
      NothingToDrop(c);
      BlockUnmarked(f, c, z);
      NothingToDrop(f + (c + z));
    } else {
      DropNoTriple(c);
      var start, p, end := DropParts(c);
      MarkerInBlock(json, p);
      DropLater(f, c, z, start, p, end);
      assert b[0] == c[0] && b[|b| - 1] == c[|c| - 1];
    }
  }

  /** A mark in two texts that a break parts. */
  lemma PartedUnmarked(b: string, y: string, mark: string)
    requires NoMark(b, mark) && NoMark(y, mark) && MarkShape(mark) && y != "" && y[0] == '\n'
    ensures NoMark(b + y, mark)
  {
    hide NoMark, Marked;
    BreakUnmarked(b, mark);
    assert y == "\n" + y[1..];
    NoMarkPrefix("\n", y[1..], mark);
    assert b + y == b + "\n" + y[1..];
    NoMarkJoin(b + "\n", y[1..], mark);
  }

  lemma BlockUnmarked(f: string, b: string, z: string)
    requires EndsLine(f) && NoMark(f, BLOCKED) && NoMark(b, BLOCKED) && NoMark(z, BLOCKED) && (z == "" || z[0] == '\n')
    ensures NoMark(f + (b + z), BLOCKED)
  {
    hide NoMark;
    MarkShapes();
    if z == "" { assert b + z == b; } else { PartedUnmarked(b, z, BLOCKED); }
    NoMarkJoin(f, b + z, BLOCKED);
  }

  lemma DropLater(f: string, b: string, z: string, start: nat, p: nat, end: nat)
    requires EndsLine(f) && NoMark(f, BLOCKED) && FirstMarker(b, start, p, end) && end < |b|
    requires b[0] == '*' && start > 0 && (z == "" || z[0] == '\n')
    ensures DropBlocked(f + (b + z)) == f + (b[..start] + "\n" + b[end..] + z)
  {
    hide NoMark, Marked, DropBlocked, BlockedLineLen;
    var s, h := f + (b + z), |f|;
    MarkShapes();
    MatchFits(b[p..], z);
    DropCuts(f, b, z, start, p, end);
    forall i | 0 <= i < h + p ensures !Marked(s[i..], BLOCKED) {
      MarksSplit(f, b + z, BLOCKED, i);
      if i >= h { EarlierUnmarkedIn(b, z, p, i - h); }
    }
    FirstMarkerIs(s, h + start, h + p, h + end);
  }

  lemma DropCuts(f: string, b: string, z: string, start: nat, p: nat, end: nat)
    requires start <= p < end < |b| && start > 0
    ensures var s, h := f + (b + z), |f|;
            && h + end < |s| && s[h + p..] == b[p..] + z
            && (s[h + start] == b[start] && s[h + start - 1] == b[start - 1] && s[h + p - 1] == b[p - 1])
            && s[..h + start] + "\n" + s[h + end..] == f + (b[..start] + "\n" + b[end..] + z)
  {
    var s, h := f + (b + z), |f|;
    assert s[..h + start] == f + b[..start] && s[h + end..] == b[end..] + z;
  }

  lemma EarlierUnmarkedIn(b: string, z: string, p: nat, i: nat)
    requires i < p <= |b| && Marked(b[p..], BLOCKED) && !Marked(b[i..], BLOCKED)
    ensures !Marked((b + z)[i..], BLOCKED)
  {
    hide Marked;
    MarkedChars(b[p..], BLOCKED);
    BlockedChars();
    var x := b + z;
    assert p + 12 <= |b|;
    assert x[i..i + 12] == b[i..i + 12];
    MarkFactor(x, i, b, i, BLOCKED);
  }

  lemma MatchFits(x: string, z: string)
    requires Marked(x, BLOCKED) && BlockedLineLen(x) < |x|
    ensures Marked(x + z, BLOCKED) && BlockedLineLen(x + z) == BlockedLineLen(x)
  {
    hide Marked, BlockedLineLen;
    var y := x + z;
    MatchSize(x);
    BlockedChars();
    assert y[0..12] == x[0..12] && y[0..] == y && x[0..] == x;
    MarkFactor(y, 0, x, 0, BLOCKED);
    var w, e := MatchParts(x);
    assert forall k :: 0 <= k < |x| ==> y[k] == x[k];
    PartsMatch(y, w, e, BlockedLineLen(x));
  }

  // ---------------------------------------------------------------------
  // One more verification
  // ---------------------------------------------------------------------

  /** Whole lines that end with the done line and breaks, as completion leaves them. */
  predicate Firm(f: string, a: string, nl: string)
  {
    && f == Stood(a, nl) && Standing(a, nl) && AllBreaks(nl) && nl != ""
    && Fore(f) && NoMark(f, BLOCKED) && NoH3(f) && CheckAll(f) == f && Literal(f)
  }

  /** What may stand behind the newest block: nothing that clearing finds first, and next to no spaces to trim. */
  predicate Trail(z: string, last: bool, json: string)
  {
    && z != "" && z[0] == '\n' && NoTriple(z) && Literal(z) && (last || EndsLine(z))
    && var u := z[..Cut(z, last)];
       && (NoMark(BlockText(json), BLOCKED) ==> NoMark(u, BLOCKED))
       && (|u| <= 2 || !Space(u[|u| - 1]))
  }

  lemma CoredTidies(b: string, u: string) returns (e: string)
    requires Cored(b) && NoTriple(u) && (u == "" || u[0] == '\n') && Literal(b + u)
    ensures Tidied(b + u) == e && Literal(e) && NoTriple(e) && e != "" && e[0] == '*' && !Space(e[|e| - 1])
    ensures |e| == |b| + |TrimEnd(u)|
  {
    hide Collapse, CheckAll, TrimEnd, Ticks, NoTriple, Literal, Tidied;
    assert !Space('`');
    NoTripleAcross(b, u);
    CollapseKeeps(b + u);
    TrimBehind(b, u);
    var r := b + TrimEnd(u);
    TidiedUnfolds(b + u, b + u, r);
    CheckAllTicks(r);
    e := CheckAll(r);
    TidiedLiteral(b + u);
    TidiedEnds(b + u);
    TicksSize(r, e);
    TicksOpen(r, e);
  }

  lemma TidiedEnds(x: string)
    ensures NoTriple(Tidied(x)) && TrimEnd(Tidied(x)) == Tidied(x)
    ensures Tidied(x) != "" ==> !Space(Tidied(x)[|Tidied(x)| - 1])
  {
    hide Tidied, TrimEnd, NoTriple, CheckAll, Space;
    TidiedTidy(x);
    TrimTwice(Tidied(x));
  }

  lemma TicksOpen(x: string, y: string)
    requires Ticks(x, y) && x != "" && x[0] == '*'
    ensures y != "" && y[0] == '*'
  {
  }

  lemma TrimSmall(u: string)
    requires |u| <= 2 || !Space(u[|u| - 1])
    ensures |TrimEnd(u)| + 2 >= |u|
  {
    hide Space;
    if u != "" && !Space(u[|u| - 1]) { assert TrimEnd(u) == u; }
  }

  /** JSON text of a list: on one line, from its bracket on. */
  predicate OpenLine(json: string)
  {
    ListLine(json) && json[0] == '['
  }

  /** No third-level line opens before what stands behind the block. */
  lemma CutBehind(f: string, json: string, z: string, last: bool)
    requires NoH3(f) && OpenLine(json) && z != "" && z[0] == '\n' && EndsLine(f)
    ensures Cut(f + (BlockText(json) + z), last) == |f| + |BlockText(json)| + Cut(z, last)
  {
    hide BlockText, OpenLine;
    var b, h := BlockText(json), |f| + |BlockText(json)|;
    var x := f + (b + z);
    assert x[h..] == z;
    forall i: nat | i < h ensures !At(x, i, H3) {
      LowAt(f, json, z, i);
    }
    forall i: nat ensures At(x, h + i, H3) <==> At(z, i, H3) {
      AtShift(z, x, h, i, H3);
    }
    var e := Find(z, H3, 0);
    if e == -1 {
      forall j: nat ensures !At(x, j, H3) {
        if j >= h { assert !At(z, j - h, H3); }
      }
      FindNone(x, H3, 0);
    } else {
      forall j: nat | j < h + e ensures !At(x, j, H3) {
        if j >= h { assert !At(z, j - h, H3); }
      }
      FindIs(x, H3, 0, h + e);
    }
  }

  lemma LowAt(f: string, json: string, z: string, i: nat)
    requires NoH3(f) && OpenLine(json) && EndsLine(f) && z != "" && i < |f| + |BlockText(json)|
    ensures !At(f + (BlockText(json) + z), i, H3)
  {
    hide BlockText, At;
    var b := BlockText(json);
    var x := f + (b + z);
    BlockLayout(json);
    H3Chars(x, i);
    if i < |f| {
      H3Chars(f, i);
      assert !At(f, i, H3);
      assert x[|f|] == b[0];
      assert x[|f| - 1] == '\n';
    } else {
      var k := i - |f|;
      assert x[i] == b[k];
      assert k + 1 < |b| ==> x[i + 1] == b[k + 1];
      if b[k] == '\n' { BreaksInBlock(json, k); }
    }
  }

  lemma BreaksInBlock(json: string, k: nat)
    requires OpenLine(json) && k < |BlockText(json)| && BlockText(json)[k] == '\n'
    ensures k + 1 < |BlockText(json)| && BlockText(json)[k + 1] != '#'
  {
    hide BlockText;
    BlockLayout(json);
    assert BlockText(json)[44] == json[0];
    assert forall i :: 44 <= i < 44 + |json| ==> BlockText(json)[i] == json[i - 44];
  }

  lemma FirmParts(f: string, a: string, nl: string)
    requires Firm(f, a, nl)
    ensures f == Stood(a, nl) && Standing(a, nl) && AllBreaks(nl) && nl != "" && nl[0] == '\n' && EndsLine(f)
    ensures Fore(f) && NoMark(f, BLOCKED) && NoH3(f) && CheckAll(f) == f && Literal(f) && NoTriple(f)
  {
    hide Stood, Standing, Run, NoTriple, NoMark, NoH3, CheckAll, Literal;
  }

  /** Completing such a section keeps its front, and shortens the newest block at most. */
  lemma GrownEnds(head: string, f: string, a: string, nl: string, json: string, u: string) returns (e: string)
    requires Bare(head) && Firm(f, a, nl) && OpenLine(json) && Literal(BlockText(json))
    requires NoTriple(u) && Literal(u) && (u == "" || u[0] == '\n') && (|u| <= 2 || !Space(u[|u| - 1]))
    requires NoMark(BlockText(json), BLOCKED) ==> NoMark(u, BLOCKED)
    ensures Ended(head, f + (BlockText(json) + u)) == f + e && Literal(f + (BlockText(json) + u))
    ensures Literal(e) && NoTriple(e) && e != "" && e[0] == '*' && !Space(e[|e| - 1]) && |e| + 2 > |u|
    ensures NoMark(BlockText(json), BLOCKED) ==> NoMark(e, BLOCKED)
  {
    var b := BlockText(json);
    hide *;
    FirmParts(f, a, nl);
    LineParts(json);
    LiteralLines(f, b, u);
    StoodOn(f, a, nl, b + u);
    StoodIsDone(a, nl + (b + u));
    DoneRests(f + (b + u));
    RestsStays(head, f + (b + u));
    DroppedIs(head, f + (b + u));
    var c := DropInBlock(f, json, u);
    DropLiteral(f + (b + u));
    LiteralSuffix(f, c + u);
    e := CoredTidies(c, u);
    CoredOpens(c, u);
    TidiedSplit(f, c + u);
    CollapseKeeps(f);
    TrimSmall(u);
    if NoMark(b, BLOCKED) {
      MarkShapes();
      BlockUnmarked(f, b, u);
      NoMarkPrefix(f, b + u, BLOCKED);
      TidiedUnmarked(b + u, BLOCKED);
    }
  }

  lemma LineParts(json: string)
    requires OpenLine(json)
    ensures ListLine(json) && NoBreak(json)
  {
    hide NoBreak;
  }

  lemma LiteralLines(f: string, b: string, u: string)
    requires Literal(f) && Literal(b) && Literal(u) && EndsLine(f) && (u == "" || u[0] == '\n')
    ensures Literal(f + (b + u)) && Literal(b + u)
  {
    hide Literal;
    BreaksLiteral();
    LiteralConcat(b, u);
    LiteralConcat(f, b + u);
  }

  lemma LiteralSuffix(f: string, y: string)
    requires Literal(f + y)
    ensures Literal(y)
  {
    hide Literal;
    LiteralPart(f + y, |f|, |f + y|);
    assert (f + y)[|f|..|f + y|] == y;
  }

  lemma StoodOn(f: string, a: string, nl: string, y: string)
    requires f == Stood(a, nl) && Standing(a, nl) && nl != ""
    ensures f + y == Stood(a, nl + y) && Standing(a, nl + y)
  {
    hide NoMark;
    StoodMore(a, nl, y);
    assert (nl + y)[0] == nl[0];
  }

  lemma CoredOpens(c: string, u: string)
    requires Cored(c)
    ensures c + u != "" && (c + u)[0] != '\n' && |c| > 0
  {
    hide NoTriple;
  }

  /** The block goes behind the done line again. */
  lemma GrownPlace(head: string, f: string, a: string, nl: string, r: string)
    requires Bare(head) && Firm(f, a, nl) && (r == "" || r[0] != '\n')
    ensures BlockPlace(head, f + r) == Some(|f|)
  {
    hide *;
    FirmParts(f, a, nl);
    StoodOn(f, a, nl, r);
    BreaksOpen(nl, r);
    PlaceBehindDone(head, a, nl + r);
    StoodSplit(a, nl);
  }

  lemma BreaksOpen(nl: string, r: string)
    requires AllBreaks(nl) && nl != "" && (r == "" || r[0] != '\n')
    ensures "\n" <= nl + r && SpanLen(nl + r, Newline) == |nl|
  {
    assert (nl + r)[0] == nl[0];
    SpanLenIs(nl + r, Newline, |nl|);
  }

  lemma PlacedBlock(head: string, f: string, y: string, n: nat, block: string)
    requires |f| <= n <= |f + y| && BlockPlace(head, (f + y)[..n]) == Some(|f|)
    ensures WithBlock(head, (f + y)[..n], block) + (f + y)[n..] == f + (block + ("\n\n" + y))
  {
    hide *;
    var x, r := (f + y)[..n], (f + y)[n..];
    PlacedCuts(f, y, n);
    WithBlockAt(head, x, block, |f|);
    PlacedGroups(f, block, x[|f|..], r);
  }

  lemma PlacedCuts(f: string, y: string, n: nat)
    requires |f| <= n <= |f + y|
    ensures (f + y)[..n][..|f|] == f && (f + y)[..n][|f|..] + (f + y)[n..] == y
  {
  }

  lemma PlacedGroups(f: string, block: string, x: string, r: string)
    ensures f + (block + ("\n\n" + x)) + r == f + (block + ("\n\n" + (x + r)))
  {
  }

  /** Putting the block into a completed section leaves the old one behind it. */
  lemma GrownInserts(head: string, f: string, a: string, nl: string, y: string, next: string, block: string)
    returns (n: nat)
    requires Bare(head) && Firm(f, a, nl) && y != "" && y[0] == '*'
    requires next == "" || (EndsLine(f + y) && Boundary(next))
    ensures n == SectionRest(f + y + next) <= |f + y|
    ensures WithBlock(head, (f + y)[..n], block) + (f + y)[n..] == f + (block + ("\n\n" + y))
  {
    hide *;
    FirmParts(f, a, nl);
    Regrouping(f, y, next);
    ReachesFore(f, y + next);
    StopsAtNext(f + y, next);
    n := SectionRest(f + y + next);
    CutFront(f, y, n);
    GrownPlace(head, f, a, nl, y[..n - |f|]);
    PlacedBlock(head, f, y, n, block);
  }

  lemma Regrouping(f: string, y: string, next: string)
    ensures f + y + next == f + (y + next)
  {
  }

  lemma CutFront(f: string, y: string, n: nat)
    requires |f| <= n <= |f + y| && y != "" && y[0] == '*'
    ensures (f + y)[..n] == f + y[..n - |f|]
    ensures var r := y[..n - |f|]; r == "" || r[0] != '\n'
  {
  }

  lemma TrailParts(z: string, last: bool, json: string) returns (u: string, t: string)
    requires Trail(z, last, json)
    ensures u == z[..Cut(z, last)] && z == u + t && NoH3(u) && Beyond(t, last) && Literal(u) && Literal(t)
    ensures NoTriple(u) && NoTriple(t) && (u == "" || u[0] == '\n') && (|u| <= 2 || !Space(u[|u| - 1]))
    ensures NoMark(BlockText(json), BLOCKED) ==> NoMark(u, BLOCKED)
    ensures z != "" && z[0] == '\n' && Literal(z) && (last || EndsLine(z))
  {
    hide Literal, NoTriple, NoMark, Cut, Beyond, NoH3, BlockText, Space;
    u, t := z[..Cut(z, last)], z[Cut(z, last)..];
    FrontAndTail(z, last);
    NoTriplePrefix(z, Cut(z, last));
    SuffixNoTriple(z, Cut(z, last));
  }

  /** What a verification leaves behind the newest block is such a text again. */
  lemma TrailNext(e: string, t: string, last: bool, json: string)
    requires Literal(e) && NoTriple(e) && e != "" && e[0] == '*' && !Space(e[|e| - 1]) && NoH3(e)
    requires NoMark(BlockText(json), BLOCKED) ==> NoMark(e, BLOCKED)
    requires Beyond(t, last) && Literal(t) && NoTriple(t)
    ensures Trail("\n\n" + (e + t), last, json)
  {
    hide *;
    var u := "\n\n" + e;
    SpaceIsBreak();
    TailLiteral(e, t, last);
    BreaksLiteral();
    LiteralConcat("\n\n", e + t);
    NoTripleAcross(e, t);
    OpensStar(e, t);
    NoTripleJoin("\n\n", e + t);
    BreaksLow(e);
    CutAgain(u, t, last);
    SplitAt(u, t);
    BeyondEnds(u, t, last);
    if NoMark(BlockText(json), BLOCKED) { BreaksAhead(e); }
    TrailFrom(e, t, last, json);
  }

  lemma OpensStar(e: string, t: string)
    requires e != "" && e[0] == '*'
    ensures e + t != "" && (e + t)[0] != '\n' && "\n\n" + (e + t) == "\n\n" + e + t
    ensures |"\n\n" + e| > 0 && ("\n\n" + e)[|"\n\n" + e| - 1] == e[|e| - 1]
  {
  }

  lemma BreaksLow(e: string)
    requires NoH3(e) && e != "" && e[0] == '*'
    ensures NoH3("\n\n" + e)
  {
    hide At;
    var x := "\n\n" + e;
    forall i | 0 <= i <= |x| ensures !At(x, i, H3) {
      H3Chars(x, i);
      if i >= 2 {
        H3Chars(e, i - 2);
        assert !At(e, i - 2, H3);
      } else {
        assert x[i + 1] == if i == 0 then '\n' else e[0];
      }
    }
  }

  lemma TrailFrom(e: string, t: string, last: bool, json: string)
    requires var z, u := "\n\n" + (e + t), "\n\n" + e;
             && z == u + t && Cut(u + t, last) == |u| && (u + t)[..|u|] == u
             && NoTriple(z) && Literal(z) && (last || EndsLine(u + t))
             && (NoMark(BlockText(json), BLOCKED) ==> NoMark(u, BLOCKED)) && !Space(u[|u| - 1])
    ensures Trail("\n\n" + (e + t), last, json)
  {
    hide NoTriple, Literal, NoMark, BlockText, Cut, Space;
    assert ("\n\n" + (e + t))[0] == '\n';
  }

  /** Another verification puts one more block in, and what it takes out elsewhere is less than that. */
  lemma GrownAgain(head: string, f: string, a: string, nl: string, z: string, last: bool, json: string, next: string)
    returns (z': string)
    requires Bare(head) && Firm(f, a, nl) && Trail(z, last, json) && OpenLine(json) && Literal(BlockText(json))
    requires (next == "" || Boundary(next)) && (next == "" <==> last)
    ensures Again(head, f + (BlockText(json) + z), next, last, BlockText(json)) == f + (BlockText(json) + z')
    ensures Trail(z', last, json) && |z'| > |z|
  {
    var b := BlockText(json);
    var body := f + (b + z);
    hide *;
    var u, t := TrailParts(z, last, json);
    FirmParts(f, a, nl);
    LineParts(json);
    var e := GrownEnds(head, f, a, nl, json, u);
    FrontLow(f, json, z, last);
    SideParts(f, b, u, t, z);
    CompletedIs(head, f + (b + u), t, last);
    LowSuffix(f, e);
    Regrouping(f, e, t);
    if !last { BeyondEnds(f + e, t, last); }
    OpensStar(e, t);
    StarFirst(e, t);
    var n := GrownInserts(head, f, a, nl, e + t, next, b);
    AgainIs(head, body, next, last, b, f + (e + t), n);
    z' := "\n\n" + (e + t);
    TrailNext(e, t, last, json);
  }

  lemma StarFirst(e: string, t: string)
    requires e != "" && e[0] == '*'
    ensures (e + t)[0] == '*' && |"\n\n" + (e + t)| == 2 + |e| + |t|
  {
  }

  lemma SideParts(f: string, b: string, u: string, t: string, z: string)
    requires z == u + t
    ensures f + (b + z) == f + (b + u) + t && |z| == |u| + |t|
  {
  }

  lemma FrontLow(f: string, json: string, z: string, last: bool)
    requires NoH3(f) && EndsLine(f) && OpenLine(json) && z != "" && z[0] == '\n' && (last || EndsLine(z))
    ensures NoH3(f + (BlockText(json) + z[..Cut(z, last)]))
  {
    var b := BlockText(json);
    var body, n := f + (b + z), |f| + |b| + Cut(z, last);
    hide *;
    CutBehind(f, json, z, last);
    EndsBehind(f, b, z);
    CutSplits(body, last);
    PartOf(f, b, z, Cut(z, last));
  }

  lemma PartOf(f: string, b: string, z: string, n: nat)
    requires n <= |z|
    ensures (f + (b + z))[..|f| + |b| + n] == f + (b + z[..n])
  {
  }

  lemma LowSuffix(f: string, e: string)
    requires NoH3(f + e)
    ensures NoH3(e)
  {
    hide At;
    var x := f + e;
    forall i | 0 <= i <= |e| ensures !At(e, i, H3) {
      H3Chars(e, i);
      H3Chars(x, |f| + i);
      assert !At(x, |f| + i, H3);
    }
  }

  // ---------------------------------------------------------------------
  // The first verification
  // ---------------------------------------------------------------------

  /** The block's place: inside what completion sees, or right behind the break that follows it. */
  predicate Placing(w: string, t: string, k: nat)
  {
    || (0 < k < |w| && w[k - 1] == '\n' && w[k] != '\n')
    || (k == |w| + 1 && t != "" && t[0] == '\n' && (|t| == 1 || t[1] != '\n'))
  }

  lemma PlaceEither(w: string, t: string, a: string, b: string, k: nat)
    requires |w| == |a| + 16 + |b| && k == |a| + 16 + SpanLen(b + t, Newline) && Stood(a, b) + t == Stood(a, b + t)
    requires w == Stood(a, b) && (w != "" ==> w[|w| - 1] != '\n') && (b == "" ==> SpanLen(b + t, Newline) == 1)
    requires k <= |w + t| && (t != "" ==> t[0] == '\n' && (|t| == 1 || t[1] != '\n'))
    requires SpanLen(b + t, Newline) >= 1 && (w + t)[k - 1] == '\n' && (k < |w + t| ==> (w + t)[k] != '\n')
    ensures Placing(w, t, k)
  {
    hide SpanLen, Stood;
    var n := SpanLen(b + t, Newline);
    BreaksAre(b + t, n);
    StoodSplit(a, b);
    assert b != "" ==> (b + t)[|b| - 1] == b[|b| - 1] == w[|w| - 1];
  }

  lemma FirstFront(w: string, t: string, last: bool, k: nat)
    requires Laid(w, t, last) && NoMark(w, BLOCKED) && Placing(w, t, k) && Literal(w + t)
    ensures k <= |w + t|
    ensures var f := (w + t)[..k];
            NoMark(f, BLOCKED) && NoH3(f) && CheckAll(f) == f && Literal(f) && NoTriple(f) && EndsLine(f)
  {
    var x, y := w + t, w + "\n";
    hide *;
    LaidParts(w, t, last);
    TidiedParts(w);
    PlacingFront(w, t, k);
    BreakUnmarkedHere(w);
    PrefixNoMark(y, k, BLOCKED);
    BreakLow(w);
    PrefixNoH3(y, k);
    LiteralPart(x, 0, k);
    WholePart(x, k, k);
    NoTriplePrefix(x, k);
    BreakChecks(w);
    WholeCut(y, k);
    CheckLines(y[..k], y[k..]);
    SameParts(y[..k], y[k..]);
  }

  lemma BreakUnmarkedHere(w: string)
    requires NoMark(w, BLOCKED)
    ensures NoMark(w + "\n", BLOCKED) && |BLOCKED| > 0 && MarkShape(BLOCKED)
  {
    hide NoMark;
    MarkShapes();
    BreakUnmarked(w, BLOCKED);
  }

  lemma BreakChecks(w: string)
    requires CheckAll(w) == w
    ensures CheckAll(w + "\n") == w + "\n"
  {
    hide CheckAll;
    CheckSplit(w, "\n");
    DashlessStays("\n");
  }

  lemma SameParts(f: string, r: string)
    requires CheckAll(f) + CheckAll(r) == f + r
    ensures CheckAll(f) == f
  {
    hide CheckAll, Ticks;
    CheckAllTicks(f);
    TicksSize(f, CheckAll(f));
    assert (CheckAll(f) + CheckAll(r))[..|f|] == CheckAll(f) && (f + r)[..|f|] == f;
  }

  lemma PlacingFront(w: string, t: string, k: nat)
    requires Placing(w, t, k)
    ensures k <= |w + t| && k <= |w + "\n"| && (w + t)[..k] == (w + "\n")[..k] && EndsLine((w + t)[..k])
    ensures k > 0
  {
    var f := (w + t)[..k];
    assert f[|f| - 1] == (w + t)[k - 1];
  }

  lemma FirstDone(w: string, t: string, a: string, b: string, k: nat, nl: string)
    requires Stood(a, b) + t == Stood(a, b + t) && w == Stood(a, b) && k == |a| + 16 + SpanLen(b + t, Newline)
    requires nl == (b + t)[..SpanLen(b + t, Newline)] && SpanLen(b + t, Newline) >= 1 && k <= |w + t|
    ensures (w + t)[..k] == Stood(a, nl) && AllBreaks(nl) && nl != ""
  {
    hide SpanLen, DONE_LINE;
    DoneShape();
    BreaksAre(b + t, SpanLen(b + t, Newline));
    assert w + t == a + DONE_LINE + (b + t);
  }

  lemma FirmFrom(f: string, g: string, a: string, b: string, nl: string)
    requires f == Stood(a, nl) && Standing(a, b) && AllBreaks(nl) && nl != "" && Sides(f, g)
    requires NoMark(f, BLOCKED) && NoH3(f) && CheckAll(f) == f && Literal(f) && NoTriple(f) && EndsLine(f)
    ensures Firm(f, a, nl)
  {
    hide Stood, NoMark, NoH3, CheckAll, Literal, NoTriple, Run, Plain;
    NewlineTerm();
    assert nl[0] == '\n';
  }

  lemma FirstTrail(w: string, t: string, last: bool, k: nat, json: string)
    requires Laid(w, t, last) && NoMark(w, BLOCKED) && Placing(w, t, k) && Literal(w + t) && k <= |w + t|
    ensures Trail("\n\n" + (w + t)[k..], last, json)
  {
    hide *;
    LaidParts(w, t, last);
    TidiedEnds(w);
    TidyEnd(w);
    LiteralPart(w + t, k, |w + t|);
    WholePart(w + t, k, k);
    BreaksLiteral();
    LiteralConcat("\n\n", (w + t)[k..]);
    SuffixNoTriple(w + t, k);
    PlacingRest(w, t, k);
    NoTripleJoin("\n\n", (w + t)[k..]);
    if k < |w| {
      RestLow(w, k);
      BehindFront(w, k);
      NoMarkBehind(w, k);
      CutAgain("\n\n" + w[k..], t, last);
      SplitAt("\n\n" + w[k..], t);
      BeyondEnds("\n\n" + w[k..], t, last);
      TrailIs("\n\n" + w[k..], t, last, json);
    } else {
      LoneBreakUnmarked();
      LoneLow();
      CutAgain("\n", t, last);
      SplitAt("\n", t);
      BeyondEnds("\n", t, last);
      TrailIs("\n", t, last, json);
    }
  }

  lemma TidyEnd(w: string)
    requires Tidied(w) == w && (Tidied(w) != "" ==> !Space(Tidied(w)[|Tidied(w)| - 1]))
    ensures w != "" ==> !Space(w[|w| - 1])
  {
  }

  lemma PlacingRest(w: string, t: string, k: nat)
    requires Placing(w, t, k) && k <= |w + t|
    ensures (w + t)[k..] == "" || (w + t)[k..][0] != '\n'
    ensures k < |w| ==> 0 < k && w[k - 1] == '\n'
    ensures k < |w| ==> "\n\n" + (w + t)[k..] == "\n\n" + w[k..] + t
    ensures k >= |w| ==> "\n\n" + (w + t)[k..] == "\n" + t
  {
    if k < |w| {
      assert (w + t)[k..] == w[k..] + t;
    } else {
      assert (w + t)[k..] == t[1..];
      assert t == "\n" + t[1..];
    }
  }

  lemma RestLow(w: string, k: nat)
    requires NoH3(w) && 0 < k < |w| && w[k - 1] == '\n'
    ensures NoH3("\n\n" + w[k..])
  {
    hide At;
    var e := w[k - 1..];
    assert w == w[..k - 1] + e;
    LowSuffix(w[..k - 1], e);
    assert "" + e == e;
    BreakLowAt("", e);
    assert "" + "\n" + e == "\n\n" + w[k..];
  }

  lemma BehindFront(w: string, k: nat)
    requires k < |w|
    ensures w == w[..k] + w[k..] && ("\n\n" + w[k..])[|"\n\n" + w[k..]| - 1] == w[|w| - 1] && "\n\n" + w[k..] != ""
    ensures ("\n\n" + w[k..])[0] == '\n'
  {
  }

  lemma NoMarkBehind(w: string, k: nat)
    requires NoMark(w, BLOCKED) && k <= |w|
    ensures NoMark("\n\n" + w[k..], BLOCKED)
  {
    hide NoMark;
    MarkShapes();
    assert w == w[..k] + w[k..];
    NoMarkPrefix(w[..k], w[k..], BLOCKED);
    BreaksAhead(w[k..]);
  }

  lemma LoneLow()
    ensures NoH3("\n")
  {
  }

  lemma TrailIs(u: string, t: string, last: bool, json: string)
    requires u != "" && u[0] == '\n' && NoTriple(u + t) && Literal(u + t) && (last || EndsLine(u + t))
    requires Cut(u + t, last) == |u| && (u + t)[..|u|] == u && NoMark(u, BLOCKED)
    requires |u| <= 2 || !Space(u[|u| - 1])
    ensures Trail(u + t, last, json)
  {
    hide NoTriple, Literal, NoMark, BlockText, Cut, Space;
    assert (u + t)[0] == u[0];
  }

  /** Behind the done line of a completed section: where the block goes in, and what follows it there. */
  lemma FirstGrown(head: string, id: string, w: string, t: string, last: bool, a: string, b: string, json: string)
    returns (f: string, nl: string, z: string)
    requires TaskHead(head, id) && Placed(w, t, last, a, b) && Plain(w + t) && MarkerCount(w) == 0
    ensures WithBlock(head, w + t, BlockText(json)) == f + (BlockText(json) + z)
    ensures Firm(f, a, nl) && Trail(z, last, json)
  {
    var k := |a| + 16 + SpanLen(b + t, Newline);
    hide *;
    HeadBare(head, id);
    PlacedParts(w, t, last, a, b);
    PlacedBreaks(w, t, last, a, b);
    PlaceBehindDone(head, a, b + t);
    var f1, g1 := WithBlockSides(head, id, w + t);
    f, z := f1, g1;
    nl := (b + t)[..SpanLen(b + t, Newline)];
    LaidParts(w, t, last);
    LaidEnd(w, t, last);
    AnchorIs(head, id, w + t);
    CountZero(w);
    SteadyParts(a, b);
    BeyondOne(t, last);
    PlainLiteral(w + t);
    PlaceEither(w, t, a, b, k);
    FirstFront(w, t, last, k);
    FirstDone(w, t, a, b, k, nl);
    FirmFrom(f, g1, a, b, nl);
    FirstTrail(w, t, last, k, json);
  }

  // ---------------------------------------------------------------------
  // On documents
  // ---------------------------------------------------------------------

  /** Task `k` of a document after some verifications: its newest block, the front before it, the rest behind it. */
  ghost predicate Grown(d: Document, k: nat, id: string, es: seq<Item>, f: string, a: string, nl: string, z: string)
  {
    && k < |d.pieces| && Led(d, k, id) && d.pieces[k].body == f + (SerializeBlock(es) + z) && Firm(f, a, nl)
    && Trail(z, Last(d, k), CanonicalList(es))
  }

  lemma GrownParts(d: Document, k: nat, id: string, es: seq<Item>, f: string, a: string, nl: string, z: string)
    requires Grown(d, k, id, es, f, a, nl, z)
    ensures k < |d.pieces| && Led(d, k, id) && d.pieces[k].body == f + (SerializeBlock(es) + z) && Firm(f, a, nl)
    ensures Trail(z, Last(d, k), CanonicalList(es))
  {
    hide Led, Firm, Trail;
  }

  lemma GrownFrom(d: Document, k: nat, id: string, es: seq<Item>, f: string, a: string, nl: string, z: string)
    requires k < |d.pieces| && Led(d, k, id) && d.pieces[k].body == f + (SerializeBlock(es) + z) && Firm(f, a, nl)
    requires Trail(z, Last(d, k), CanonicalList(es))
    ensures Grown(d, k, id, es, f, a, nl, z)
  {
    hide Led, Firm, Trail;
  }

  lemma ListOpens(es: seq<Item>, isDate: string -> bool)
    requires Refusal(es, isDate) == None
    ensures OpenLine(CanonicalList(es))
  {
    hide ListLine, Refusal;
    AcceptedLine(es, isDate);
    ListBracket(es);
  }

  lemma ListBracket(es: seq<Item>)
    ensures CanonicalList(es) != "" && CanonicalList(es)[0] == '['
  {
  }

  lemma LongerBody(d: Document, k: nat, body: string)
    requires k < |d.pieces| && |body| > |d.pieces[k].body|
    ensures |Render(WithBody(d, k, body))| > |Render(d)|
  {
    Around(d, k, body);
    AroundSame(d, k);
    hide Render, WithBody, Before, After;
  }

  lemma Longer(f: string, b: string, z: string, z': string)
    requires |z'| > |z|
    ensures |f + (b + z')| > |f + (b + z)|
  {
  }

  /** One more verification. */
  lemma GrowsOn(d: Document, k: nat, id: string, es: seq<Item>, isDate: string -> bool, f: string, a: string,
                nl: string, z: string) returns (d': Document, z': string)
    requires Refusal(es, isDate) == None && Literal(SerializeBlock(es)) && FakesHeading(SerializeBlock(es))
    requires Grown(d, k, id, es, f, a, nl, z)
    ensures Apply(Render(d), Call(id, es), isDate) == Render(d') && |Render(d')| > |Render(d)|
    ensures Grown(d', k, id, es, f, a, nl, z')
  {
    SerializeIs(es);
    hide *;
    GrownParts(d, k, id, es, f, a, nl, z);
    FirmParts(f, a, nl);
    var u, t := TrailParts(z, Last(d, k), CanonicalList(es));
    ListOpens(es, isDate);
    HeadForms(d, k, id);
    LiteralLines(f, SerializeBlock(es), z);
    NextIs(d, k, id);
    LastIs(d, k, id);
    z' := GrownAgain(d.pieces[k].head, f, a, nl, z, Last(d, k), CanonicalList(es), After(d, k));
    d' := VerifiedAgain(d, k, id, es, isDate, f, z);
    Longer(f, SerializeBlock(es), z, z');
    LongerBody(d, k, f + (SerializeBlock(es) + z'));
    BodyWith(d, k, f + (SerializeBlock(es) + z'));
    GrownFrom(d', k, id, es, f, a, nl, z');
  }

  lemma LastIs(d: Document, k: nat, id: string)
    requires Led(d, k, id)
    ensures k < |d.pieces| && (After(d, k) == "" <==> Last(d, k))
  {
    hide *;
    LedParts(d, k, id);
    TaskFacts(d, k, id);
  }

  /** The first verification. */
  lemma GrowsFirst(d: Document, k: nat, id: string, es: seq<Item>, isDate: string -> bool)
    returns (d': Document, f: string, a: string, nl: string, z: string)
    requires k < |d.pieces| && Served(d, k, id) && Removable(d.pieces[k].body)
    requires Refusal(es, isDate) == None && Literal(SerializeBlock(es)) && KeepsDone(d.pieces[k], Last(d, k))
    requires MarkersAround(d.pieces[k].head, Seen(d.pieces[k], Last(d, k))) <= 1
    ensures Apply(Render(d), Call(id, es), isDate) == Render(d') && Grown(d', k, id, es, f, a, nl, z)
  {
    hide *;
    var w, t, b;
    d', w, t := OnceLaid(d, k, id, es, isDate);
    a, b := FirstPlaced(d.pieces[k], Last(d, k), w, t);
    f, nl, z := FirstGrown(d.pieces[k].head, id, w, t, Last(d, k), a, b, CanonicalList(es));
    GrownFrom(d', k, id, es, f, a, nl, z);
  }

  lemma {:induction false} RunsGrown(d: Document, k: nat, id: string, es: seq<Item>, isDate: string -> bool, n: nat)
    returns (d': Document, f: string, a: string, nl: string, z: string)
    requires k < |d.pieces| && Served(d, k, id) && Removable(d.pieces[k].body) && n > 0
    requires Refusal(es, isDate) == None && Literal(SerializeBlock(es)) && FakesHeading(SerializeBlock(es))
    requires KeepsDone(d.pieces[k], Last(d, k))
    requires MarkersAround(d.pieces[k].head, Seen(d.pieces[k], Last(d, k))) <= 1
    ensures RunCalls(Render(d), Repeated(Call(id, es), n), isDate) == Render(d') && Grown(d', k, id, es, f, a, nl, z)
    decreases n
  {
    hide *;
    RunRepeated(Render(d), Call(id, es), n, isDate);
    if n == 1 {
      RunNone(Render(d), Call(id, es), isDate);
      d', f, a, nl, z := GrowsFirst(d, k, id, es, isDate);
    } else {
      var e, y;
      e, f, a, nl, y := RunsGrown(d, k, id, es, isDate, n - 1);
      d', z := GrowsOn(e, k, id, es, isDate, f, a, nl, y);
    }
  }

  /**
   Evidence whose block opens a section is never at rest in a section that keeps its done line and holds at most
   one match of the blocked pattern: every application after the first makes the document longer.
   */
  lemma GrowsEachTime(d: Document, k: nat, id: string, es: seq<Item>, isDate: string -> bool, n: nat)
    requires k < |d.pieces| && Served(d, k, id) && Removable(d.pieces[k].body) && n > 0
    requires Refusal(es, isDate) == None && Literal(SerializeBlock(es)) && FakesHeading(SerializeBlock(es))
    requires KeepsDone(d.pieces[k], Last(d, k))
    requires MarkersAround(d.pieces[k].head, Seen(d.pieces[k], Last(d, k))) <= 1
    ensures var c := Call(id, es);
            |RunCalls(Render(d), Repeated(c, n + 1), isDate)| > |RunCalls(Render(d), Repeated(c, n), isDate)|
  {
    hide *;
    var d', f, a, nl, z := RunsGrown(d, k, id, es, isDate, n);
    RunRepeated(Render(d), Call(id, es), n + 1, isDate);
    var e, y := GrowsOn(d', k, id, es, isDate, f, a, nl, z);
  }
}
