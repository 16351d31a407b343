/**
 Taking a block out of a section and putting it back: where it goes, and what text that leaves.
 */
module Reinserting {
  import opened Text
  import opened Markdown
  import opened Splicing
  import opened Documents
  import opened SectionEdits
  import opened Blocks
  import opened Tidy
  import opened Markers
  import opened DoneLines
  import opened Completing
  import opened Outcomes

  // ---------------------------------------------------------------------
  // Where a block goes
  // ---------------------------------------------------------------------

  /** The end of the line that a block goes behind, with the breaks there; none if it goes behind all of `x`. */
  function BlockPlace(head: string, x: string): Option<nat>
  {
    match BlockAnchor(head + x)
    case Nowhere => None
    case Behind(i, m) => if i + |m| >= |head| then Some(i + |m| - |head|) else None
  }

  /** A status line matches in front of other text too. */
  lemma StatusLineAgain(m: string, x: string, y: string)
    requires StatusLineLen(m + x) == Some(|m|)
    ensures StatusLineLen(m + y).Some?
  {
    hide Marked, SpanLen, LineFrom, LineLen;
    MarkShapes();
    var s := m + x;
    var w := 11 + SpanLen(s[11..], Space);
    var k := LastLine(s, 11, w);
    LineInside(m, x, y, k);
    MarkedAgain(m, x, y);
    SpacesReach(m, x, y, k);
    LineFound(m + y, k);
  }

  lemma LineFound(x: string, k: nat)
    requires Marked(x, STATUS) && 11 <= k <= 11 + SpanLen(x[11..], Space) && LineFrom(x, k)
    ensures StatusLineLen(x).Some?
  {
    hide Marked, SpanLen, LineFrom, LineLen;
    MarkShapes();
  }

  lemma SpacesReach(m: string, x: string, y: string, k: nat)
    requires 11 <= k < |m| && k <= 11 + SpanLen((m + x)[11..], Space)
    ensures k <= 11 + SpanLen((m + y)[11..], Space)
  {
    hide SpanLen, Space;
    var s, r := m + x, m + y;
    SpanParts(s, 11, Space);
    SpanParts(r, 11, Space);
    assert forall i :: 11 <= i < k ==> r[i] == s[i];
  }

  lemma MarkedAgain(m: string, x: string, y: string)
    requires |m| >= 11 && Marked(m + x, STATUS)
    ensures Marked(m + y, STATUS) && |STATUS| == 11
  {
    MarkShapes();
    assert (m + x)[..11] == m[..11] == (m + y)[..11];
  }

  lemma LineInside(m: string, x: string, y: string, k: nat)
    requires LineFrom(m + x, k) && LineLen(m + x, k) == |m|
    ensures LineFrom(m + y, k) && k < |m|
  {
    hide SpanLen;
    var s, r := m + x, m + y;
    var e := k + SpanLen(s[k..], NotLineTerm);
    SpanParts(s, k, NotLineTerm);
    SpanParts(s, e, Newline);
    NotLineTermIs(s);
    assert e < |m|;
    assert forall i :: k <= i <= e ==> r[i] == s[i];
    SpanIs(r, k, NotLineTerm, e);
  }

  /** The end of a section's first line and the breaks behind it. */
  function TitleEnd(x: string): nat
  {
    var j := SpanLen(x, NotNewline);
    j + SpanLen(x[j..], Newline)
  }

  lemma TitleEndIs(x: string)
    requires '\n' in x
    ensures var k := TitleEnd(x); 0 < k <= |x| && x[k - 1] == '\n' && (k < |x| ==> x[k] != '\n')
  {
    hide SpanLen;
    var j := SpanLen(x, NotNewline);
    assert x[0..] == x;
    SpanParts(x, 0, NotNewline);
    SpanParts(x, j, Newline);
    var i :| 0 <= i < |x| && x[i] == '\n';
  }

  lemma TitleLenIs(s: string, n: nat, k: nat, e: nat)
    requires TaskPrefixLen(s) == Some(n) && n < k <= e < |s| && n + SpanLen(s[n..], Space) == k && s[k] != '\n'
    requires k + SpanLen(s[k..], NotNewline) == e
    ensures TitleLen(s) == Some(e + SpanLen(s[e..], Newline))
  {
    hide TaskPrefixLen, SpanLen;
    assert TitleFrom(s, k);
    assert LastTitle(s, n + 1, k) == k;
  }

  /** The title of a task is its heading's line. */
  lemma TitleIs(head: string, id: string, x: string)
    requires TaskHead(head, id) && '\n' in x
    ensures TitleLen(head + x) == Some(|head| + TitleEnd(x))
  {
    hide *;
    var s := head + x;
    var n, w := HeadSplit(head, id);
    PrefixBounds(head, n);
    TaskPrefixExtends(head, x);
    BehindSpan(head, x, n, Space);
    HeadBare(head, id);
    TaskIdOf(head, id);
    IdOpens(id, head, n + w);
    var j := FirstBreak(x);
    SpanOver(head, x, n + w, j);
    TitleLenIs(s, n, n + w, |head| + j);
    TitleEndAt(head, x, j);
  }

  lemma PrefixBounds(x: string, n: nat)
    requires TaskPrefixLen(x) == Some(n)
    ensures n <= |x|
  {
  }

  lemma TaskIdOf(head: string, id: string)
    requires TaskHead(head, id)
    ensures TaskId(id)
  {
  }

  lemma TitleEndAt(head: string, x: string, j: nat)
    requires j == SpanLen(x, NotNewline) && j <= |x|
    ensures |head| + j + SpanLen((head + x)[|head| + j..], Newline) == |head| + TitleEnd(x)
  {
    hide SpanLen;
    assert (head + x)[|head| + j..] == x[j..];
  }

  lemma SpanOver(head: string, x: string, k: nat, j: nat)
    requires Bare(head) && k < |head| && j < |x| && x[j] == '\n' && forall i :: 0 <= i < j ==> NotNewline(x[i])
    ensures (head + x)[k] != '\n' && k + SpanLen((head + x)[k..], NotNewline) == |head| + j
  {
    hide Bare, SpanLen;
    var s := head + x;
    HeadUnbroken(head);
    assert forall i :: k <= i < |head| + j ==> NotNewline(s[i]) by {
      assert forall i :: 0 <= i < |s| ==> s[i] == if i < |head| then head[i] else x[i - |head|];
    }
    SpanIs(s, k, NotNewline, |head| + j);
  }

  lemma FirstBreak(x: string) returns (j: nat)
    requires '\n' in x
    ensures j == SpanLen(x, NotNewline) && j < |x| && x[j] == '\n' && !NotNewline(x[j])
    ensures forall i :: 0 <= i < j ==> NotNewline(x[i])
  {
    hide SpanLen;
    j := SpanLen(x, NotNewline);
    var i :| 0 <= i < |x| && x[i] == '\n';
  }

  lemma IdOpens(id: string, head: string, k: nat)
    requires TaskId(id) && k < |head| && head[k..] == id + ":"
    ensures head[k] != '\n'
  {
    assert head[k] == head[k..][0] == id[0];
  }

  lemma HeadUnbroken(head: string)
    requires Bare(head)
    ensures forall i :: 0 <= i < |head| ==> head[i] != '\n' && NotNewline(head[i])
  {
    hide Find;
  }

  lemma TitleBreak(x: string)
    ensures TitleLen(x).Some? ==> '\n' in x
  {
    hide TaskPrefixLen;
    if TitleLen(x).Some? { assert x[TitleLen(x).value - 1] == '\n'; }
  }

  lemma LineBreak(x: string)
    ensures StatusLineLen(x).Some? ==> '\n' in x
  {
    hide Marked;
    if StatusLineLen(x).Some? { assert x[StatusLineLen(x).value - 1] == '\n'; }
  }

  predicate NoStatusLine(s: string)
  {
    forall i :: 0 <= i <= |s| ==> StatusLineLen(s[i..]).None?
  }

  lemma StatusAnchorIs(s: string)
    ensures StatusAnchor(s).Nowhere? <==> NoStatusLine(s)
    ensures StatusAnchor(s).Behind? ==>
              var i, m := StatusAnchor(s).start, StatusAnchor(s).text;
              && i + |m| <= |s| && s[i..i + |m|] == m && StatusLineLen(s[i..]) == Some(|m|)
              && forall j :: 0 <= j < i ==> StatusLineLen(s[j..]).None?
  {
    hide StatusLineLen, First;
    var i := First(0, |s|, StatusLineAt(s));
    if i != -1 {
      assert StatusLineAt(s)(i) && From(s, i) == s[i..];
      LineSize(s[i..]);
      forall j | 0 <= j < i ensures StatusLineLen(s[j..]).None? {
        assert !StatusLineAt(s)(j) && From(s, j) == s[j..];
      }
    } else {
      forall j | 0 <= j <= |s| ensures StatusLineLen(s[j..]).None? {
        assert !StatusLineAt(s)(j) && From(s, j) == s[j..];
      }
    }
  }

  lemma LineSize(x: string)
    ensures StatusLineLen(x).Some? ==> 0 < StatusLineLen(x).value <= |x|
  {
  }

  /** A block goes behind the first status line; without one, behind the title; without a break, behind everything. */
  lemma AnchorIs(head: string, id: string, x: string)
    requires TaskHead(head, id)
    ensures match BlockPlace(head, x)
            case None => NoStatusLine(head + x) && '\n' !in x && BlockAnchor(head + x) == Anchor.Nowhere
            case Some(k) =>
              && 0 < k <= |x| && x[k - 1] == '\n' && (k < |x| ==> x[k] != '\n')
              && BlockAnchor(head + x).Behind?
              && var m := BlockAnchor(head + x).text;
                 At(head + x, BlockAnchor(head + x).start, m) && EndsLine(m) && Find(head + x, m, 0) + |m| == |head| + k
    ensures NoStatusLine(head + x) && '\n' in x ==> BlockPlace(head, x) == Some(TitleEnd(x))
    ensures !NoStatusLine(head + x) ==>
              StatusAnchor(head + x).Behind?
              && BlockPlace(head, x) == Some(StatusAnchor(head + x).start + |StatusAnchor(head + x).text| - |head|)
  {
    hide StatusLineLen, StatusAnchor, TitleLen, First, Find, TaskHead, NoStatusLine, Bare, SpanLen;
    var s := head + x;
    HeadBare(head, id);
    BareEnds(head);
    StatusAnchorIs(s);
    if StatusAnchor(s).Behind? {
      StatusAnchorEnd(head, x);
    } else if '\n' in x {
      TitleIs(head, id, x);
      TitleEndIs(x);
      TitleFirst(s, |head| + TitleEnd(x));
      assert s[|head| + TitleEnd(x) - 1] == x[TitleEnd(x) - 1];
    } else {
      forall i: nat | i <= |s| ensures !TitleAt(s)(i) {
        TitleBreak(From(s, i));
        HeadUnbroken(head);
      }
      FirstNone(|s|, TitleAt(s));
    }
  }

  lemma TitleFirst(s: string, n: nat)
    requires TitleLen(s) == Some(n) && n <= |s|
    ensures TitleAnchor(s) == Anchor.Behind(0, s[..n]) && At(s, 0, s[..n]) && Find(s, s[..n], 0) == 0
  {
    hide TitleLen;
    assert From(s, 0) == s;
    FirstIs(|s|, TitleAt(s), 0);
    assert s[0..n] == s[..n];
    FindIs(s, s[..n], 0, 0);
  }

  lemma StatusAnchorEnd(head: string, x: string)
    requires Bare(head) && StatusAnchor(head + x).Behind?
    ensures var s, i, m := head + x, StatusAnchor(head + x).start, StatusAnchor(head + x).text;
            && |head| < i + |m| <= |s| && At(s, i, m) && EndsLine(m) && Find(s, m, 0) == i
            && s[i + |m| - 1] == '\n' && (i + |m| < |s| ==> s[i + |m|] != '\n')
  {
    hide StatusLineLen, StatusAnchor, First, Find, Bare, Marked;
    var s, i, m := head + x, StatusAnchor(head + x).start, StatusAnchor(head + x).text;
    StatusAnchorIs(s);
    LineEnd(s[i..], |m|);
    assert s[i..][|m| - 1] == s[i + |m| - 1] == m[|m| - 1];
    assert i + |m| < |s| ==> s[i..][|m|] == s[i + |m|];
    MarkShapes();
    LineMarked(s[i..]);
    if i < |head| { HeadUnmarked(head, x, STATUS, i); }
    forall j: nat | j < i ensures !At(s, j, m) {
      if At(s, j, m) {
        assert s[i..] == m + s[i + |m|..] && s[j..] == m + s[j + |m|..];
        StatusLineAgain(m, s[i + |m|..], s[j + |m|..]);
      }
    }
    FindIs(s, m, 0, i);
  }

  lemma LineEnd(x: string, n: nat)
    requires StatusLineLen(x) == Some(n)
    ensures 11 < n <= |x| && x[n - 1] == '\n' && (n < |x| ==> x[n] != '\n')
  {
    MarkShapes();
  }

  lemma LineMarked(x: string)
    ensures StatusLineLen(x).Some? ==> Marked(x, STATUS)
  {
  }

  // ---------------------------------------------------------------------
  // Putting a block in and taking it out
  // ---------------------------------------------------------------------

  /** A section's text with a block where blocks go. */
  function WithBlock(head: string, x: string, block: string): string
  {
    match BlockPlace(head, x)
    case None => x + "\n\n" + (block + "\n")
    case Some(k) => if k <= |x| then x[..k] + (block + ("\n\n" + x[k..])) else x
  }

  lemma WithBlockAt(head: string, x: string, block: string, k: nat)
    requires BlockPlace(head, x) == Some(k) && k <= |x|
    ensures WithBlock(head, x, block) == x[..k] + (block + ("\n\n" + x[k..]))
  {
    hide BlockPlace;
  }

  lemma InsertIs(head: string, id: string, x: string, block: string)
    requires TaskHead(head, id) && Literal(x) && Literal(block)
    ensures InsertBlock(head + x, block) == head + WithBlock(head, x, block)
  {
    hide BlockAnchor, Find, TaskHead, Literal, ReplaceFirst, Bare, NoStatusLine, SpanLen, StatusAnchor;
    HeadBare(head, id);
    AnchorIs(head, id, x);
    match BlockAnchor(head + x)
    case Nowhere =>
      assert head + x + "\n\n" + block + "\n" == head + (x + "\n\n" + (block + "\n"));
    case Behind(i, m) =>
      LiteralBreaks(block);
      var k := InsertSplits(head, x, i, m, block + "\n\n");
      assert m + block + "\n\n" == m + (block + "\n\n");
      assert x[..k] + (block + "\n\n") + x[k..] == x[..k] + (block + ("\n\n" + x[k..]));
  }

  /** The text left when the block is taken out again: the breaks at its place are two. */
  function Respaced(head: string, x: string): string
  {
    match BlockPlace(head, x)
    case None => x + "\n\n"
    case Some(k) => if k <= |x| && !(k >= 2 && x[k - 2] == '\n') then x[..k] + "\n" + x[k..] else x
  }

  lemma WithBlockSides(head: string, id: string, x: string) returns (f: string, g: string)
    requires TaskHead(head, id) && Plain(x)
    ensures Sides(f, g) && forall block :: WithBlock(head, x, block) == f + (block + g)
    ensures match BlockPlace(head, x)
            case None => f == x + "\n\n" && g == "\n"
            case Some(k) => 0 < k <= |x| && f == x[..k] && g == "\n\n" + x[k..]
  {
    hide TaskHead, Plain, NoStatusLine, BlockAnchor, Find, StatusAnchor, SpanLen, Sides;
    AnchorIs(head, id, x);
    match BlockPlace(head, x)
    case None =>
      f, g := x + "\n\n", "\n";
      EndSides(x);
    case Some(k) =>
      f, g := x[..k], "\n\n" + x[k..];
      assert f[|f| - 1] == x[k - 1];
      SplitSides(x, k);
  }

  lemma {:induction false} StrippedIs(r: string, nl: string)
    requires AllBreaks(nl) && (r == "" || r[|r| - 1] != '\n')
    ensures Stripped(r + nl) == r
    decreases |nl|
  {
    var f := r + nl;
    if nl == "" {
      assert f == r;
    } else {
      assert f[|f| - 1] == nl[|nl| - 1];
      assert f[..|f| - 1] == r + nl[..|nl| - 1];
      StrippedIs(r, nl[..|nl| - 1]);
    }
  }

  lemma DoubledNoTriple(x: string, k: nat)
    requires NoTriple(x) && 0 < k <= |x| && x[k - 1] == '\n' && (k < |x| ==> x[k] != '\n')
    requires !(k >= 2 && x[k - 2] == '\n')
    ensures NoTriple(x[..k] + "\n" + x[k..])
  {
    var y := x[..k] + "\n" + x[k..];
    forall i | 0 <= i < |y| - 2 ensures !(y[i] == '\n' && y[i + 1] == '\n' && y[i + 2] == '\n') {
      if i + 2 < k {
        assert !(x[i] == '\n' && x[i + 1] == '\n' && x[i + 2] == '\n');
      } else if i > k {
        assert !(x[i - 1] == '\n' && x[i] == '\n' && x[i + 1] == '\n');
      }
    }
  }

  lemma TripleAt(x: string, i: nat)
    requires NoTriple(x) && i + 2 < |x|
    ensures x[i] == '\n' && x[i + 1] == '\n' ==> x[i + 2] != '\n'
  {
  }

  lemma StrippedFront(x: string, k: nat)
    requires NoTriple(x) && 0 < k <= |x| && x[k - 1] == '\n' && (k < |x| ==> x[k] != '\n')
    ensures var two := k >= 2 && x[k - 2] == '\n';
            Stripped(x[..k]) + ("\n\n" + x[k..]) == if two then x else x[..k] + "\n" + x[k..]
  {
    hide NoTriple, Stripped;
    if k >= 2 && x[k - 2] == '\n' {
      if k >= 3 { TripleAt(x, k - 3); }
      StrippedAt(x, k, 2);
    } else {
      StrippedAt(x, k, 1);
    }
  }

  lemma StrippedAt(x: string, k: nat, n: nat)
    requires 0 < n <= 2 && n <= k <= |x| && (forall i :: k - n <= i < k ==> x[i] == '\n')
    requires (k > n ==> x[k - n - 1] != '\n')
    ensures Stripped(x[..k]) + ("\n\n" + x[k..]) == if n == 2 then x else x[..k] + "\n" + x[k..]
  {
    hide Stripped;
    var r, nl := x[..k - n], x[k - n..k];
    assert x[..k] == r + nl;
    StrippedIs(r, nl);
    assert nl == if n == 2 then "\n\n" else "\n";
    BreaksPutBack(x, r, nl, k);
  }

  lemma BreaksPutBack(x: string, r: string, nl: string, k: nat)
    requires k <= |x| && x[..k] == r + nl
    ensures nl == "\n\n" ==> r + ("\n\n" + x[k..]) == x
    ensures nl == "\n" ==> r + ("\n\n" + x[k..]) == x[..k] + "\n" + x[k..]
  {
    assert x == x[..k] + x[k..];
  }

  lemma {:induction false} StrippedSame(x: string)
    requires '\n' !in x
    ensures Stripped(x) == x
  {
  }

  lemma UnbrokenTriple(x: string)
    requires '\n' !in x
    ensures NoTriple(x + "\n\n")
  {
    assert forall i :: 0 <= i < |x| ==> (x + "\n\n")[i] == x[i] && x[i] in x;
  }

  /** Taking the block out again leaves the text it was put into, an empty line at its place. */
  lemma RespacedIs(head: string, id: string, x: string, json: string)
    requires TaskHead(head, id) && Plain(x) && NoTriple(x) && NoBreak(json)
    ensures Collapse(RemoveBlocks(WithBlock(head, x, BlockText(json)))) == Respaced(head, x)
    ensures Removable(WithBlock(head, x, BlockText(json)))
  {
    hide TaskHead, Plain, NoStatusLine, BlockAnchor, BlockText, RemoveBlocks, NoBreak, Stripped, NoTriple, Collapse,
      SpanLen, Find,
      StatusAnchor, Sides;
    AnchorIs(head, id, x);
    var f, g := WithBlockSides(head, id, x);
    SealedRemoves(f, json, g);
    SealedCanonical(f, json, g);
    match BlockPlace(head, x)
    case None =>
      StrippedSame(x);
      BreaksAll();
      StrippedIs(x, "\n\n");
      SpanLenIs("\n", Newline, 1);
      assert "\n"[1..] == "" && "\n\n" + "" == "\n\n";
      UnbrokenTriple(x);
      CollapseKeeps(x + "\n\n");
    case Some(k) =>
      SpanLenIs(g, Newline, 2);
      assert g[2..] == x[k..];
      StrippedFront(x, k);
      if !(k >= 2 && x[k - 2] == '\n') { DoubledNoTriple(x, k); }
      CollapseKeeps(Respaced(head, x));
  }

  lemma BreaksAll()
    ensures AllBreaks("\n\n")
  {
  }

  /** Where a block starts in a section is where its header is first met. */
  lemma SidesUnique(f: string, g: string, f': string, g': string, json: string)
    requires Sides(f, g) && Sides(f', g') && f + (BlockText(json) + g) == f' + (BlockText(json) + g') && |f| <= |f'|
    ensures f == f' && g == g'
  {
    hide Run, Plain, BlockText, VERIFICATION_BLOCK_HEADER;
    var b := BlockText(json);
    HeaderOpens(json);
    SplitAt(f, b + g);
    SplitAt(f', b + g');
    if |f| < |f'| {
      SplitBefore(f', b + g', |f|);
      NoHeaderAhead(Idle, f', |f|, b + g');
    } else {
      SplitAt(b, g);
      SplitAt(b, g');
    }
  }

  lemma SplitAt(u: string, t: string)
    ensures (u + t)[..|u|] == u && (u + t)[|u|..] == t
  {
  }

  lemma SplitBefore(u: string, t: string, i: nat)
    requires i <= |u|
    ensures (u + t)[i..] == u[i..] + t
  {
  }

  lemma HeaderOpens(json: string)
    ensures forall g :: VERIFICATION_BLOCK_HEADER <= BlockText(json) + g
  {
    hide VERIFICATION_BLOCK_HEADER, FENCE, CLOSE;
    forall g ensures VERIFICATION_BLOCK_HEADER <= BlockText(json) + g {
      BlockShape(json, g);
    }
  }

  /** Sections with a block determine the text without it. */
  lemma WithBlockInjective(head: string, id: string, x: string, y: string, json: string)
    requires TaskHead(head, id) && Plain(x) && Plain(y)
    ensures WithBlock(head, x, BlockText(json)) == WithBlock(head, y, BlockText(json)) <==> x == y
  {
    hide TaskHead, Plain, BlockText, WithBlock, BlockPlace, Sides;
    var f, g := WithBlockSides(head, id, x);
    var f', g' := WithBlockSides(head, id, y);
    if WithBlock(head, x, BlockText(json)) == WithBlock(head, y, BlockText(json)) {
      if |f| <= |f'| { SidesUnique(f, g, f', g', json); } else { SidesUnique(f', g', f, g, json); }
      SidesText(head, x, f, g);
      SidesText(head, y, f', g');
    }
  }

  /** The text without the block, from its two sides. */
  function Unsided(f: string, g: string): string
  {
    if |g| >= 2 then f + g[2..] else if |f| >= 2 then f[..|f| - 2] else ""
  }

  lemma SidesText(head: string, x: string, f: string, g: string)
    requires match BlockPlace(head, x)
             case None => f == x + "\n\n" && g == "\n"
             case Some(k) => 0 < k <= |x| && f == x[..k] && g == "\n\n" + x[k..]
    ensures Unsided(f, g) == x
  {
    hide BlockPlace;
    match BlockPlace(head, x)
    case None =>
    case Some(k) => assert ("\n\n" + x[k..])[2..] == x[k..];
  }

  // ---------------------------------------------------------------------
  // The same place with one more break
  // ---------------------------------------------------------------------

  lemma {:induction false} LastLineIs(x: string, p: nat, w: nat, k: nat)
    requires p <= k <= w <= |x| && LineFrom(x, k) && forall j :: k < j <= w ==> !LineFrom(x, j)
    ensures LastLine(x, p, w) == k
    decreases w
  {
    hide LineFrom;
    if k < w { LastLineIs(x, p, w - 1, k); }
  }

  lemma LineFromSame(m: string, x: string, y: string, k: nat)
    requires EndsLine(m) && k < |m|
    ensures LineFrom(m + x, k) <==> LineFrom(m + y, k)
    ensures k + SpanLen((m + x)[k..], NotLineTerm) == k + SpanLen((m + y)[k..], NotLineTerm) < |m|
  {
    hide SpanLen;
    var s, r := m + x, m + y;
    SpanParts(s, k, NotLineTerm);
    SpanParts(r, k, NotLineTerm);
    assert s[|m| - 1] == m[|m| - 1] == r[|m| - 1] == '\n';
    assert !NotLineTerm('\n');
    var e := k + SpanLen(s[k..], NotLineTerm);
    assert forall i :: 0 <= i < |m| ==> s[i] == m[i] == r[i];
    SpanIs(r, k, NotLineTerm, e);
  }

  lemma LineFromShift(a: string, z: string, k: nat)
    ensures LineFrom(a + z, |a| + k) <==> LineFrom(z, k)
  {
    hide SpanLen;
    var x := a + z;
    if k <= |z| { assert x[|a| + k..] == z[k..]; }
    if k < |z| { SpanParts(z, k, NotLineTerm); }
  }

  /** The spaces behind a mark, with one more break among them or not. */
  lemma SpacesDoubled(m: string, r: string)
    requires EndsLine(m) && |m| >= 11
    ensures var w, v := 11 + SpanLen((m + r)[11..], Space), 11 + SpanLen((m + "\n" + r)[11..], Space);
            w <= |m + r| && v <= |m + "\n" + r| && (if w < |m| then v == w else v == w + 1)
  {
    hide SpanLen, Space;
    var x, y := m + r, m + "\n" + r;
    SpanParts(x, 11, Space);
    SpanParts(y, 11, Space);
    SpaceIsBreak();
    var w := 11 + SpanLen(x[11..], Space);
    assert forall i :: 0 <= i < |m| ==> x[i] == y[i];
    assert forall i :: |m| <= i < |x| ==> x[i] == y[i + 1];
    assert y[|m|] == '\n';
    if w < |m| {
      SpanIs(y, 11, Space, w);
    } else {
      assert forall i :: |m| < i < w + 1 ==> y[i] == x[i - 1];
      SpanIs(y, 11, Space, w + 1);
    }
  }

  lemma LineDoubledAt(m: string, r: string, k: nat)
    requires EndsLine(m)
    ensures k < |m| ==> (LineFrom(m + "\n" + r, k) <==> LineFrom(m + r, k))
    ensures k >= |m| ==> (LineFrom(m + "\n" + r, k + 1) <==> LineFrom(m + r, k))
    ensures !LineFrom(m + "\n" + r, |m|)
  {
    hide SpanLen;
    assert m + "\n" + r == m + ("\n" + r);
    if k < |m| { LineFromSame(m, r, "\n" + r, k); }
    if k >= |m| {
      LineFromShift(m, r, k - |m|);
      LineFromShift(m + "\n", r, k - |m|);
    }
    assert (m + "\n" + r)[|m|] == '\n';
  }

  /** One more break behind a break makes and breaks no status line. */
  lemma StatusLineDoubled(m: string, r: string)
    requires EndsLine(m)
    ensures StatusLineLen(m + "\n" + r).Some? <==> StatusLineLen(m + r).Some?
  {
    hide *;
    var x, y := m + r, m + "\n" + r;
    MarkedDoubled(m, r);
    LineMarked(x);
    LineMarked(y);
    if Marked(x, STATUS) {
      SpacesDoubled(m, r);
      var w, v := 11 + SpanLen(x[11..], Space), 11 + SpanLen(y[11..], Space);
      StatusLineFrom(x, w);
      StatusLineFrom(y, v);
      if StatusLineLen(x).Some? {
        var k := LastLine(x, 11, w);
        LineDoubledAt(m, r, k);
        assert LineFrom(y, if k < |m| then k else k + 1);
      }
      if StatusLineLen(y).Some? {
        var l := LastLine(y, 11, v);
        LineDoubledAt(m, r, if l < |m| then l else l - 1);
        assert LineFrom(x, if l < |m| then l else l - 1);
      }
    }
  }

  /** A marked text has a status line exactly when a line starts among the spaces behind the mark. */
  lemma StatusLineFrom(x: string, w: nat)
    requires Marked(x, STATUS) && |x| >= 11 && w == 11 + SpanLen(x[11..], Space) && w <= |x|
    ensures StatusLineLen(x).Some? <==> LastLine(x, 11, w) != -1
    ensures StatusLineLen(x).Some? ==> 11 <= LastLine(x, 11, w) <= w && LineFrom(x, LastLine(x, 11, w))
    ensures StatusLineLen(x).None? ==> forall i :: 11 <= i <= w ==> !LineFrom(x, i)
  {
    hide Marked, SpanLen, LineFrom, LineLen;
    MarkShapes();
  }

  lemma MarkedDoubled(m: string, r: string)
    requires EndsLine(m)
    ensures Marked(m + "\n" + r, STATUS) <==> Marked(m + r, STATUS)
    ensures Marked(m + r, STATUS) ==> |m| >= 12
  {
    var x, y := m + r, m + "\n" + r;
    MarkShapes();
    MarkedChars(x, STATUS);
    MarkedChars(y, STATUS);
    StatusChars();
    assert x[|m| - 1] == y[|m| - 1] == '\n';
    if |m| >= 11 { assert forall k :: 0 <= k < 11 ==> x[k] == m[k] == y[k]; }
  }

  lemma {:induction false} LastLineMax(x: string, p: nat, w: nat)
    requires w <= |x|
    ensures forall j :: LastLine(x, p, w) < j <= w && p <= j ==> !LineFrom(x, j)
    decreases w
  {
    hide LineFrom;
    if p <= w && !LineFrom(x, w) && w > 0 { LastLineMax(x, p, w - 1); }
  }

  lemma LastLineGrows(m: string, r: string, w: nat, v: nat, k: nat)
    requires EndsLine(m) && 11 <= k < |m| && k <= w <= |m + r| && v <= |m + "\n" + r|
    requires (if w < |m| then v == w else v == w + 1)
    requires LastLine(m + r, 11, w) == k
    ensures LastLine(m + "\n" + r, 11, v) == k
  {
    hide LineFrom, EndsLine;
    var x, y := m + r, m + "\n" + r;
    LastLineMax(x, 11, w);
    LineDoubledAt(m, r, k);
    forall j | k < j <= v ensures !LineFrom(y, j) {
      LineDoubledAt(m, r, if j <= |m| then j else j - 1);
    }
    LastLineIs(y, 11, v, k);
  }

  lemma StatusLineUnfolds(x: string, w: nat, k: nat)
    requires Marked(x, STATUS) && |x| >= 11 && w == 11 + SpanLen(x[11..], Space) && w <= |x| && LastLine(x, 11, w) == k
    ensures StatusLineLen(x) == Some(LineLen(x, k))
  {
    hide Marked, SpanLen, LineFrom;
    MarkShapes();
  }

  /** A status line that the break goes behind grows by it. */
  lemma StatusLineGrows(m: string, r: string)
    requires StatusLineLen(m + r) == Some(|m|) && (r != "" ==> r[0] != '\n')
    ensures StatusLineLen(m + "\n" + r) == Some(|m| + 1)
  {
    hide *;
    var x, y := m + r, m + "\n" + r;
    LineEnd(x, |m|);
    assert m[|m| - 1] == x[|m| - 1];
    EndsIs(m);
    LineMarked(x);
    MarkedDoubled(m, r);
    SpacesDoubled(m, r);
    var w, v := 11 + SpanLen(x[11..], Space), 11 + SpanLen(y[11..], Space);
    var k := StatusLineAtIs(x, w, |m|);
    LineInside(m, r, "\n" + r, k);
    assert m + ("\n" + r) == y;
    LastLineGrows(m, r, w, v, k);
    LineLenGrows(m, r, k);
    StatusLineUnfolds(y, v, k);
  }

  lemma EndsIs(m: string)
    requires m != "" && m[|m| - 1] == '\n'
    ensures EndsLine(m)
  {
  }

  lemma StatusLineAtIs(x: string, w: nat, n: nat) returns (k: nat)
    requires StatusLineLen(x) == Some(n) && |x| >= 11 && w == 11 + SpanLen(x[11..], Space) && w <= |x|
    ensures LastLine(x, 11, w) == k && 11 <= k <= w && LineFrom(x, k) && LineLen(x, k) == n
  {
    hide Marked, SpanLen, LineFrom;
    MarkShapes();
    k := LastLine(x, 11, w);
  }

  lemma LineLenGrows(m: string, r: string, k: nat)
    requires LineFrom(m + r, k) && LineLen(m + r, k) == |m| && LineFrom(m + "\n" + r, k) && k < |m| && EndsLine(m)
    requires r != "" ==> r[0] != '\n'
    ensures LineLen(m + "\n" + r, k) == |m| + 1
  {
    hide SpanLen;
    var x, y := m + r, m + "\n" + r;
    assert y == m + ("\n" + r);
    LineFromSame(m, r, "\n" + r, k);
    var e := k + SpanLen(x[k..], NotLineTerm);
    SpanParts(x, e, Newline);
    assert forall i :: e <= i < |m| ==> y[i] == x[i];
    SpanIs(y, e, Newline, |m| + 1);
  }

  lemma TitleEndGrows(x: string, k: nat)
    requires '\n' in x && k == TitleEnd(x) && k <= |x|
    ensures var y := Doubled(x, k); '\n' in y && TitleEnd(y) == k + 1
  {
    hide SpanLen;
    var y := x[..k] + "\n" + x[k..];
    var j := FirstBreak(x);
    SpanParts(x, j, Newline);
    assert x[0..] == x && y[0..] == y;
    assert j < k;
    assert forall i :: 0 <= i < k ==> y[i] == x[i];
    assert y[k] == '\n' && (k < |x| ==> y[k + 1] == x[k]);
    SpanIs(y, 0, NotNewline, j);
    SpanIs(y, j, Newline, k + 1);
  }

  lemma NoLineDoubled(s: string, k: nat, i: nat)
    requires 0 < k <= |s| && s[k - 1] == '\n' && i <= |s| + 1
    requires i < k ==> StatusLineLen(s[i..]).None?
    requires i > k ==> StatusLineLen(s[i - 1..]).None?
    ensures StatusLineLen((s[..k] + "\n" + s[k..])[i..]).None?
  {
    hide StatusLineLen;
    var r := s[..k] + "\n" + s[k..];
    if i < k {
      var m := s[i..k];
      assert s[i..] == m + s[k..] && r[i..] == m + "\n" + s[k..];
      assert m[|m| - 1] == s[k - 1];
      StatusLineDoubled(m, s[k..]);
    } else if i > k {
      assert r[i..] == s[i - 1..];
    } else {
      assert r[k..][0] == '\n';
      BreakNoLine(r[k..]);
    }
  }

  lemma BreakNoLine(x: string)
    requires x != "" && x[0] == '\n'
    ensures StatusLineLen(x).None?
  {
    MarkedChars(x, STATUS);
    StatusChars();
  }

  /** `x` with one more break at `k`. */
  function Doubled(x: string, k: nat): string
  {
    if k <= |x| then x[..k] + "\n" + x[k..] else x
  }

  lemma HeadedDoubled(head: string, x: string, k: nat)
    requires 0 < k <= |x|
    ensures var s, h := head + x, |head|;
            Doubled(s, h + k) == head + Doubled(x, k) && s[h + k - 1] == x[k - 1] && (k < |x| ==> s[h + k] == x[k])
  {
    var s, h := head + x, |head|;
    assert s[..h + k] == head + x[..k] && s[h + k..] == x[k..];
  }

  lemma AnchorEndIs(head: string, x: string, k: nat)
    requires StatusAnchor(head + x).Behind? && BlockPlace(head, x) == Some(k)
    ensures StatusAnchor(head + x).start + |StatusAnchor(head + x).text| == |head| + k
  {
    hide StatusAnchor;
  }

  lemma StatusPlace(head: string, y: string, i: nat, m: string)
    requires StatusAnchor(head + y) == Anchor.Behind(i, m) && i + |m| >= |head|
    ensures BlockPlace(head, y) == Some(i + |m| - |head|)
  {
    hide StatusAnchor;
  }

  /** What `AnchorIs` says of a section in which the block has a place. */
  lemma PlaceIs(head: string, id: string, x: string, k: nat)
    requires TaskHead(head, id) && BlockPlace(head, x) == Some(k)
    ensures 0 < k <= |x| && x[k - 1] == '\n' && (k < |x| ==> x[k] != '\n') && '\n' in x
    ensures NoStatusLine(head + x) ==> k == TitleEnd(x)
    ensures !NoStatusLine(head + x) ==> StatusAnchor(head + x).Behind?
  {
    hide BlockPlace, TaskHead, NoStatusLine, BlockAnchor, Find, StatusAnchor, SpanLen, TitleEnd;
    AnchorIs(head, id, x);
    assert x[k - 1] in x;
  }

  lemma TitlePlaceGrows(head: string, id: string, x: string, k: nat)
    requires TaskHead(head, id) && BlockPlace(head, x) == Some(k) && NoStatusLine(head + x)
    ensures BlockPlace(head, Doubled(x, k)) == Some(k + 1)
  {
    hide *;
    PlaceIs(head, id, x, k);
    HeadedDoubled(head, x, k);
    NoLinesDoubled(head + x, |head| + k);
    TitleEndGrows(x, k);
    TitlePlace(head, id, Doubled(x, k));
  }

  lemma TitlePlace(head: string, id: string, y: string)
    requires TaskHead(head, id) && NoStatusLine(head + y) && '\n' in y
    ensures BlockPlace(head, y) == Some(TitleEnd(y))
  {
    hide BlockPlace, TaskHead, NoStatusLine, BlockAnchor, Find, StatusAnchor, SpanLen, TitleEnd;
    AnchorIs(head, id, y);
  }

  lemma StatusPlaceGrows(head: string, id: string, x: string, k: nat)
    requires TaskHead(head, id) && BlockPlace(head, x) == Some(k) && !NoStatusLine(head + x)
    ensures BlockPlace(head, Doubled(x, k)) == Some(k + 1)
  {
    hide *;
    PlaceIs(head, id, x, k);
    HeadedDoubled(head, x, k);
    StatusAnchorIs(head + x);
    AnchorEndIs(head, x, k);
    var i, m := StatusAnchor(head + x).start, StatusAnchor(head + x).text;
    FirstLineGrows(head + x, i, m);
    StatusPlace(head, Doubled(x, k), i, m + "\n");
  }

  /** One more break at a block's place keeps the place, a break further on. */
  lemma PlaceGrows(head: string, id: string, x: string, k: nat)
    requires TaskHead(head, id) && BlockPlace(head, x) == Some(k)
    ensures BlockPlace(head, Doubled(x, k)) == Some(k + 1)
  {
    hide *;
    if NoStatusLine(head + x) { TitlePlaceGrows(head, id, x, k); } else { StatusPlaceGrows(head, id, x, k); }
  }

  lemma NoLinesDoubled(s: string, k: nat)
    requires NoStatusLine(s) && 0 < k <= |s| && s[k - 1] == '\n'
    ensures NoStatusLine(Doubled(s, k))
  {
    hide StatusLineLen;
    var r := s[..k] + "\n" + s[k..];
    forall i | 0 <= i <= |r| ensures StatusLineLen(r[i..]).None? {
      NoLineDoubled(s, k, i);
    }
  }

  lemma FirstLineGrows(s: string, i: nat, m: string)
    requires i + |m| <= |s| && s[i..i + |m|] == m && StatusLineLen(s[i..]) == Some(|m|)
    requires forall j :: 0 <= j < i ==> StatusLineLen(s[j..]).None?
    requires i + |m| < |s| ==> s[i + |m|] != '\n'
    ensures var k := i + |m|;
            var r := Doubled(s, k);
            StatusAnchor(r) == Anchor.Behind(i, m + "\n") && !NoStatusLine(r)
  {
    hide *;
    var k := i + |m|;
    var r := Doubled(s, k);
    LineEnd(s[i..], |m|);
    LineCuts(s, i, m);
    StatusLineGrows(m, s[k..]);
    forall j: nat | j < i ensures StatusLineLen(r[j..]).None? {
      NoLineDoubled(s, k, j);
    }
    AnchorAt(r, i, m + "\n");
  }

  lemma LineCuts(s: string, i: nat, m: string)
    requires i + |m| <= |s| && s[i..i + |m|] == m && m != "" && s[i..][|m| - 1] == '\n'
    ensures var k := i + |m|;
            var r := Doubled(s, k);
            && s[i..] == m + s[k..] && r[i..] == m + "\n" + s[k..] && r == s[..k] + "\n" + s[k..] && s[k - 1] == '\n'
            && i + |m + "\n"| <= |r| && r[i..i + |m + "\n"|] == m + "\n"
  {
    var k := i + |m|;
    var r := s[..k] + "\n" + s[k..];
    assert s[..k] == s[..i] + m;
    assert r == s[..i] + (m + "\n" + s[k..]);
  }

  lemma AnchorAt(s: string, i: nat, m: string)
    requires i + |m| <= |s| && s[i..i + |m|] == m && StatusLineLen(s[i..]) == Some(|m|)
    requires forall j: nat :: j < i ==> StatusLineLen(s[j..]).None?
    ensures StatusAnchor(s) == Anchor.Behind(i, m) && !NoStatusLine(s)
  {
    hide StatusLineLen, First;
    forall j: nat | j < i ensures !StatusLineAt(s)(j) {
      assert From(s, j) == s[j..];
    }
    assert From(s, i) == s[i..];
    assert StatusLineAt(s)(i);
    FirstIs(|s|, StatusLineAt(s), i);
  }
}
