/**
 Verification blocks in a task's section: inserted text is read back, and removed again, exactly.
 */
module Blocks {
  import opened Text
  import opened Markdown
  import opened Splicing
  import opened Documents
  import opened SectionEdits

  predicate NoBreak(x: string)
  {
    forall i :: 0 <= i < |x| ==> x[i] != '\n'
  }

  predicate AllBreaks(x: string)
  {
    forall i :: 0 <= i < |x| ==> x[i] == '\n'
  }

  lemma Shapes()
    ensures VERIFICATION_BLOCK_HEADER != "" && VERIFICATION_BLOCK_HEADER[0] == '*' && NoBreak(VERIFICATION_BLOCK_HEADER)
    ensures FENCE != "" && FENCE[0] == '`'
    ensures CLOSE != "" && CLOSE[0] == '\n' && CLOSE[1..] == "```"
  {
  }

  /** The parts of a block and what follows it. */
  lemma BlockShape(json: string, g: string)
    ensures BlockText(json) + g == VERIFICATION_BLOCK_HEADER + ("\n\n" + (FENCE + (json + CLOSE + g)))
  {
    hide VERIFICATION_BLOCK_HEADER, FENCE, CLOSE;
    var h, f, c := VERIFICATION_BLOCK_HEADER, FENCE, CLOSE;
    assert h + "\n\n" + f + json + c + g == h + ("\n\n" + (f + (json + c + g)));
  }

  /** One line of JSON ends at its fence. */
  lemma FenceFound(x: string, t: nat, json: string, close: string, g: string)
    requires t <= |x| && x[t..] == json + close + g && NoBreak(json) && close != "" && close[0] == '\n'
    ensures Find(x, close, t) == t + |json| && t + |json| + |close| <= |x| && x[t + |json| + |close|..] == g
  {
    hide Find;
    var e := t + |json|;
    assert x[e..e + |close|] == x[t..][|json|..|json| + |close|] == close;
    forall j: nat | t <= j < e ensures !At(x, j, close) {
      assert x[j] == x[t..][j - t] == json[j - t];
      if j + |close| <= |x| { assert x[j..j + |close|][0] == x[j]; }
    }
    FindIs(x, close, t, e);
    assert x[e + |close|..] == x[t..][|json| + |close|..];
  }

  lemma TwoBreaksSpan(r: string, p: char -> bool)
    requires r != "" && !p(r[0]) && p('\n')
    ensures SpanLen("\n\n" + r, p) == 2 && ("\n\n" + r)[2..] == r
  {
    SpanLenIs("\n\n" + r, p, 2);
  }

  /** Behind a header and breaks, a fence: where the JSON starts. */
  lemma FenceOpens(json: string, g: string)
    ensures var x := BlockText(json) + g;
            var h := |VERIFICATION_BLOCK_HEADER|;
            && VERIFICATION_BLOCK_HEADER <= x && SpanLen(x[h..], Newline) == 2 && SpanLen(x[h..], Space) == 2
            && x[h + 1] == '\n' && FENCE <= x[h + 2..] && x[h + 2 + |FENCE|..] == json + CLOSE + g
  {
    hide VERIFICATION_BLOCK_HEADER, FENCE, CLOSE, SpanLen;
    Shapes();
    BlockShape(json, g);
    assert !Space('`');
    TwoBreaksSpan(FENCE + (json + CLOSE + g), Newline);
    TwoBreaksSpan(FENCE + (json + CLOSE + g), Space);
    OpenParts(BlockText(json) + g, VERIFICATION_BLOCK_HEADER, FENCE, json + CLOSE + g);
  }

  lemma OpenParts(x: string, header: string, fence: string, rest: string)
    requires x == header + ("\n\n" + (fence + rest))
    ensures var h := |header|;
            && h + 2 + |fence| <= |x| && header <= x && x[h..] == "\n\n" + (fence + rest) && x[h + 1] == '\n'
            && fence <= x[h + 2..] && x[h + 2 + |fence|..] == rest
  {
    var h := |header|;
    assert x[h..] == "\n\n" + (fence + rest);
    assert x[h + 2..] == x[h..][2..] == fence + rest;
    assert x[h + 1] == x[h..][1];
    assert x[h + 2 + |fence|..] == (fence + rest)[|fence|..];
  }

  lemma CapturedIs(json: string, g: string)
    requires NoBreak(json)
    ensures CapturedJson(BlockText(json) + g) == Some(json)
  {
    hide VERIFICATION_BLOCK_HEADER, FENCE, CLOSE, BlockText, SpanLen, Find;
    var x := BlockText(json) + g;
    FenceOpens(json, g);
    var t := |VERIFICATION_BLOCK_HEADER| + 2 + |FENCE|;
    Shapes();
    FenceFound(x, t, json, CLOSE, g);
    assert x[t..t + |json|] == x[t..][..|json|] == json;
  }

  /** The removal pattern takes a whole block, with the empty lines on both sides. */
  lemma BlockLenIs(nl: string, json: string, g: string, k: nat)
    requires AllBreaks(nl) && NoBreak(json) && k == |nl| + |BlockText(json)|
    ensures var x := nl + (BlockText(json) + g);
            k <= |x| && BlockLen(x) == Some(k + SpanLen(g, Newline)) && x[k..] == g
  {
    hide VERIFICATION_BLOCK_HEADER, FENCE, CLOSE, SpanLen, MarkedLen, BlockText;
    var b := BlockText(json) + g;
    var x := nl + b;
    Shapes();
    FenceOpens(json, g);
    BlockSize(json);
    assert b[0] == '*';
    SpanLenIs(x, Newline, |nl|);
    MarkedLenIs(x, |nl|, b, VERIFICATION_BLOCK_HEADER, FENCE, json, CLOSE, g, k);
  }

  lemma BlockSize(json: string)
    ensures |BlockText(json)| == |VERIFICATION_BLOCK_HEADER| + 2 + |FENCE| + |json| + |CLOSE|
  {
    hide VERIFICATION_BLOCK_HEADER, FENCE, CLOSE;
  }

  lemma MarkedLenIs(x: string, q: nat, b: string, header: string, fence: string, json: string, close: string, g: string,
                    k: nat)
    requires q <= |x| && x[q..] == b && SpanLen(x, Newline) == q && NoBreak(json) && close != "" && close[0] == '\n'
    requires var h := |header|;
             && header <= b && SpanLen(b[h..], Newline) == 2
             && h + 2 + |fence| <= |b| && fence <= b[h + 2..] && b[h + 2 + |fence|..] == json + close + g
    requires k == q + |header| + 2 + |fence| + |json| + |close|
    ensures k <= |x| && MarkedLen(x, header, fence, close) == Some(k + SpanLen(g, Newline)) && x[k..] == g
  {
    var h, t := q + |header|, q + |header| + 2 + |fence|;
    hide *;
    BlockParts(x, q, b, |header|, h, |fence|, t);
    BehindFence(x, t, json, close, g, k);
    MarkedLenUnfolds(x, q, header, h, fence, t, close, k, g);
  }

  lemma BehindFence(x: string, t: nat, json: string, close: string, g: string, k: nat)
    requires t <= |x| && x[t..] == json + close + g && NoBreak(json) && close != "" && close[0] == '\n'
    requires k == t + |json| + |close|
    ensures t <= k <= |x| && x[k..] == g && k - |close| >= t && Find(x, close, t) == k - |close|
  {
    hide *;
    FenceFound(x, t, json, close, g);
  }

  lemma BlockParts(x: string, q: nat, b: string, m: nat, h: nat, f: nat, t: nat)
    requires q <= |x| && x[q..] == b && m + 2 + f <= |b| && h == q + m && t == h + 2 + f
    ensures t <= |x| && x[h..] == b[m..] && x[h + 2..] == b[m + 2..] && x[t..] == b[m + 2 + f..]
  {
  }

  lemma MarkedLenUnfolds(x: string, q: nat, header: string, h: nat, fence: string, t: nat, close: string, k: nat,
                         g: string)
    requires q <= h <= t <= k <= |x| && q == SpanLen(x, Newline) && header <= x[q..]
    requires h == q + |header| && SpanLen(x[h..], Newline) == 2
    requires t == h + 2 + |fence| && fence <= x[h + 2..]
    requires k - |close| >= t && Find(x, close, t) == k - |close| && x[k..] == g
    ensures MarkedLen(x, header, fence, close) == Some(k + SpanLen(g, Newline))
  {
    hide SpanLen, Find;
  }

  // ---------------------------------------------------------------------
  // No header in plain text
  // ---------------------------------------------------------------------

  lemma HeaderLetter(n: nat, c: char)
    requires 2 <= n < 15 && c == VERIFICATION_BLOCK_HEADER[n]
    ensures Next(true, Header(n), c) == Header(n + 1)
  {
    assert 'A' <= c <= 'z' || c == ':';
  }

  lemma {:induction false} HeaderLetters(n: nat, x: string)
    requires 2 <= n <= 15 && |x| >= 15 - n
    requires forall i :: n <= i < 15 ==> x[i - n] == VERIFICATION_BLOCK_HEADER[i]
    ensures Run(true, Header(n), x) == Run(true, Header(15), x[15 - n..])
    decreases 15 - n
  {
    hide VERIFICATION_BLOCK_HEADER, Next;
    HeaderEnds();
    if n < 15 {
      HeaderLetter(n, x[0]);
      forall i | n + 1 <= i < 15 ensures x[1..][i - (n + 1)] == VERIFICATION_BLOCK_HEADER[i] {
        assert x[1..][i - (n + 1)] == x[i - n];
      }
      HeaderLetters(n + 1, x[1..]);
      assert x[1..][15 - (n + 1)..] == x[15 - n..];
    }
  }

  lemma HeaderEnds()
    ensures |VERIFICATION_BLOCK_HEADER| == 17 && "**" <= VERIFICATION_BLOCK_HEADER
    ensures VERIFICATION_BLOCK_HEADER[15] == '*' && VERIFICATION_BLOCK_HEADER[16] == '*'
  {
  }

  lemma HeaderDies(q: State, x: string)
    requires VERIFICATION_BLOCK_HEADER <= x
    ensures Run(true, q, x).Dead?
  {
    hide VERIFICATION_BLOCK_HEADER, Run, Next;
    HeaderEnds();
    if !Run(true, q, x).Dead? {
      TwoStars(q, x);
      HeaderLetters(2, x[2..]);
      var t := x[2..][13..];
      assert t == x[15..];
      LastStars(t);
    }
  }

  lemma LastStars(t: string)
    requires "**" <= t
    ensures Run(true, Header(15), t).Dead?
  {
    TwoSteps(true, Header(15), t);
    DeadStays(true, t[2..]);
  }

  /** Nothing in plain text starts a block, whatever follows its last line. */
  lemma NoHeaderAhead(q: State, f: string, i: nat, y: string)
    requires !Run(true, q, f).Dead? && i < |f| && (y == "" || EndsLine(f))
    ensures !(VERIFICATION_BLOCK_HEADER <= f[i..] + y)
  {
    hide VERIFICATION_BLOCK_HEADER;
    Shapes();
    assert f == f[..i] + f[i..];
    RunConcat(true, q, f[..i], f[i..]);
    NotAcross(f[i..], y, VERIFICATION_BLOCK_HEADER);
    if VERIFICATION_BLOCK_HEADER <= f[i..] {
      HeaderDies(Run(true, q, f[..i]), f[i..]);
    }
  }

  lemma NoBlockAhead(x: string)
    requires !(VERIFICATION_BLOCK_HEADER <= x[SpanLen(x, Newline)..])
    ensures BlockLen(x) == None
  {
  }

  lemma {:induction false} NothingToRemove(q: State, g: string)
    requires !Run(true, q, g).Dead?
    ensures RemoveBlocks(g) == g
    decreases |g|
  {
    hide Next, BlockLen, VERIFICATION_BLOCK_HEADER, SpanLen;
    if g != "" {
      var n := SpanLen(g, Newline);
      if n < |g| {
        NoHeaderAhead(q, g, n, "");
        assert g[n..] + "" == g[n..];
      } else {
        Shapes();
      }
      NoBlockAhead(g);
      DeadStays(true, g[1..]);
      NothingToRemove(Next(true, q, g[0]), g[1..]);
    }
  }

  /** Text without the line breaks at its end. */
  function Stripped(f: string): (r: string)
    ensures r <= f
  {
    if f != "" && f[|f| - 1] == '\n' then Stripped(f[..|f| - 1]) else f
  }

  lemma {:induction false} StrippedStep(f: string)
    requires f != "" && !AllBreaks(f)
    ensures Stripped(f) == f[..1] + Stripped(f[1..])
    decreases |f|
  {
    var n := |f| - 1;
    if f[n] == '\n' {
      assert f[..n] + [f[n]] == f;
      StrippedStep(f[..n]);
      assert f[..n][1..] == f[1..][..n - 1] && f[..n][..1] == f[..1];
    } else if |f| > 1 {
      assert f[1..][n - 1] == f[n];
    }
  }

  lemma {:induction false} StrippedBreaks(f: string)
    requires AllBreaks(f)
    ensures Stripped(f) == ""
  {
    if f != "" { StrippedBreaks(f[..|f| - 1]); }
  }

  lemma RemoveAtBlock(nl: string, json: string, g: string, rest: string)
    requires AllBreaks(nl) && NoBreak(json) && rest == g[SpanLen(g, Newline)..]
    ensures RemoveBlocks(nl + (BlockText(json) + g)) == "\n\n" + RemoveBlocks(rest)
  {
    hide RemoveBlocks, BlockLen, BlockText, SpanLen, AllBreaks, NoBreak;
    var x, k := nl + (BlockText(json) + g), |nl| + |BlockText(json)|;
    BlockLenIs(nl, json, g, k);
    BlockSize(json);
    RemoveStep(x);
    assert x[k + SpanLen(g, Newline)..] == x[k..][SpanLen(g, Newline)..];
  }

  /** Removing the one block of a section leaves its two sides, an empty line between them. */
  lemma {:induction false} RemoveAround(q: State, f: string, json: string, g: string, rest: string)
    requires !Run(true, q, f).Dead? && (f == "" || EndsLine(f)) && NoBreak(json) && rest == g[SpanLen(g, Newline)..]
    ensures RemoveBlocks(f + (BlockText(json) + g)) == Stripped(f) + ("\n\n" + RemoveBlocks(rest))
    decreases |f|
  {
    hide Next, BlockLen, BlockText, Run, SpanLen, NoBreak, RemoveBlocks, Stripped;
    var y := BlockText(json) + g;
    if AllBreaks(f) {
      StrippedBreaks(f);
      RemoveAtBlock(f, json, g, rest);
    } else {
      KeptStep(q, f, y);
      StrippedStep(f);
      assert (f + y)[1..] == f[1..] + y && (f + y)[..1] == f[..1];
      AliveTail(q, f);
      RemoveAround(Next(true, q, f[0]), f[1..], json, g, rest);
      assert Stripped(f) + ("\n\n" + RemoveBlocks(rest)) == f[..1] + (Stripped(f[1..]) + ("\n\n" + RemoveBlocks(rest)));
    }
  }

  lemma RemoveStep(x: string)
    requires x != ""
    ensures RemoveBlocks(x) == match BlockLen(x)
                               case Some(n) => "\n\n" + RemoveBlocks(x[n..])
                               case None => x[..1] + RemoveBlocks(x[1..])
  {
  }

  lemma AliveTail(q: State, f: string)
    requires f != "" && !Run(true, q, f).Dead?
    ensures !Run(true, Next(true, q, f[0]), f[1..]).Dead?
  {
  }

  lemma KeptStep(q: State, f: string, y: string)
    requires !Run(true, q, f).Dead? && EndsLine(f) && !AllBreaks(f)
    ensures RemoveBlocks(f + y) == (f + y)[..1] + RemoveBlocks((f + y)[1..])
    ensures f[1..] == "" || EndsLine(f[1..])
  {
    hide Run, BlockLen, VERIFICATION_BLOCK_HEADER;
    var n := SpanLen(f, Newline);
    assert n < |f|;
    SpanLenIs(f + y, Newline, n);
    NoHeaderAhead(q, f, n, y);
    assert (f + y)[n..] == f[n..] + y;
    NoBlockAhead(f + y);
  }

  // ---------------------------------------------------------------------
  // A section with its block
  // ---------------------------------------------------------------------

  /** The two sides of a block: whole plain lines before it, a line break and plain text behind it. */
  predicate Sides(f: string, g: string)
  {
    EndsLine(f) && Run(true, Idle, f) == Idle && g != "" && g[0] == '\n' && Plain(g)
  }

  /** `body` holds one verification block, for `json`, and else plain text. */
  ghost predicate Sealed(body: string, json: string)
  {
    exists f, g :: Sides(f, g) && body == f + (BlockText(json) + g)
  }

  /** What is left when the blocks are removed is plain: every header starts a block the pattern takes. */
  predicate Removable(body: string)
  {
    Plain(RemoveBlocks(body))
  }

  lemma FrameQuiet()
    ensures forall c | c in VERIFICATION_BLOCK_HEADER :: c != '#' && c != '$'
    ensures forall c | c in FENCE :: c != '#' && c != '$'
    ensures forall c | c in CLOSE :: c != '#' && c != '$'
  {
  }

  lemma {:induction false} StrippedTail(f: string)
    requires EndsLine(f)
    ensures |Stripped(f)| < |f| && f[|Stripped(f)|] == '\n'
    decreases |f|
  {
    var t := f[..|f| - 1];
    if EndsLine(t) { StrippedTail(t); }
  }

  lemma StrippedFine(f: string)
    requires EndsLine(f) && Run(true, Idle, f) == Idle
    ensures Fine(Run(true, Idle, Stripped(f)))
  {
    var r := Stripped(f);
    assert f == r + f[|r|..];
    RunConcat(true, Idle, r, f[|r|..]);
    StrippedTail(f);
    BreakFirst(true, Run(true, Idle, r), f[|r|..]);
  }

  /** Removing the block leaves its sides, one empty line between them. */
  lemma SealedRemoves(f: string, json: string, g: string)
    requires Sides(f, g) && NoBreak(json)
    ensures RemoveBlocks(f + (BlockText(json) + g)) == Stripped(f) + ("\n\n" + g[SpanLen(g, Newline)..])
    ensures Plain(g[SpanLen(g, Newline)..])
  {
    hide Next, BlockText, RemoveBlocks, NoBreak, Stripped;
    var n := SpanLen(g, Newline);
    assert n > 0;
    NewlinesRun(true, Idle, g, n);
    RemoveAround(Idle, f, json, g, g[n..]);
    NothingToRemove(Idle, g[n..]);
  }

  lemma SealedCanonical(f: string, json: string, g: string)
    requires Sides(f, g) && NoBreak(json)
    ensures Removable(f + (BlockText(json) + g))
  {
    hide Next, Run, BlockText, RemoveBlocks, NoBreak, Stripped, SpanLen;
    var rest := g[SpanLen(g, Newline)..];
    SealedRemoves(f, json, g);
    StrippedFine(f);
    RunConcat(true, Idle, Stripped(f), "\n\n" + rest);
    TwoBreaks(true, Run(true, Idle, Stripped(f)), rest);
  }

  /** What is read from a section with one block is that block's JSON. */
  lemma SealedReads(head: string, f: string, json: string, g: string)
    requires Bare(head) && Sides(f, g) && NoBreak(json)
    ensures FirstJson(head + (f + (BlockText(json) + g))) == Some(json)
  {
    hide BlockText, CapturedJson, Run, Next, NoBreak, Find;
    var y := BlockText(json) + g;
    var s := head + (f + y);
    var k := |head| + |f|;
    forall i: nat | i < k ensures !JsonAt(s)(i) {
      assert From(s, i) == s[i..];
      if i < |head| {
        assert s[i] == head[i];
      } else {
        assert s[i..] == f[i - |head|..] + y;
        NoHeaderAhead(Idle, f, i - |head|, y);
      }
      NotCaptured(s[i..]);
    }
    assert s[k..] == y && From(s, k) == y;
    CapturedIs(json, g);
    FirstIs(|s|, JsonAt(s), k);
  }

  /** So is what is read from the block alone. */
  lemma BlockReads(json: string)
    requires NoBreak(json)
    ensures FirstJson(BlockText(json)) == Some(json)
  {
    hide BlockText, CapturedJson, NoBreak;
    var b := BlockText(json);
    CapturedIs(json, "");
    assert b + "" == b && From(b, 0) == b;
    FirstIs(|b|, JsonAt(b), 0);
  }

  lemma NotCaptured(x: string)
    requires (x != "" && x[0] != '*') || !(VERIFICATION_BLOCK_HEADER <= x)
    ensures CapturedJson(x) == None
  {
    Shapes();
  }

  // ---------------------------------------------------------------------
  // Inserting and removing
  // ---------------------------------------------------------------------

  lemma BlockAnchorEnds(s: string)
    ensures AnchorOf(s, BlockAnchor(s))
  {
    hide AnchorOf, StatusAnchor, TitleAnchor;
    StatusAnchorEnds(s);
    TitleAnchorEnds(s);
  }

  lemma BlockLiteral(json: string)
    requires Literal(json)
    ensures Literal(BlockText(json))
  {
    hide VERIFICATION_BLOCK_HEADER, FENCE, CLOSE;
    FrameQuiet();
    Shapes();
    var front := VERIFICATION_BLOCK_HEADER + "\n\n" + FENCE;
    assert forall c | c in front :: c in VERIFICATION_BLOCK_HEADER || c == '\n' || c in FENCE;
    assert forall i :: 0 <= i < |front| ==> front[i] in front;
    LiteralConcat(front, json);
    assert forall i :: 0 <= i < |CLOSE| ==> CLOSE[i] in CLOSE;
    LiteralConcat(front + json, CLOSE);
  }

  /** A block goes behind a whole line of a plain section, or behind all of it. */
  lemma InsertSeals(head: string, u: string, json: string) returns (f: string, g: string)
    requires Bare(head) && Plain(u) && Literal(BlockText(json))
    ensures Sides(f, g) && InsertBlock(head + u, BlockText(json)) == head + (f + (BlockText(json) + g))
    ensures EndsLine(u) ==> EndsLine(g)
  {
    hide Bare, Literal, Run, BlockText, AnchorOf, BlockAnchor, ReplaceFirst;
    var s, b := head + u, BlockText(json);
    BlockAnchorEnds(s);
    match BlockAnchor(s)
    case Behind(i, m) =>
      PlainLiteral(u);
      LiteralBreaks(b);
      AnchorUse(s, i, m);
      var k := InsertSplits(head, u, i, m, b + "\n\n");
      f, g := u[..k], "\n\n" + u[k..];
      assert m + b + "\n\n" == m + (b + "\n\n");
      assert u[..k] + (b + "\n\n") + u[k..] == f + (b + g);
      SplitSides(u, k);
    case Nowhere =>
      f, g := u + "\n\n", "\n";
      assert s + "\n\n" + b + "\n" == head + (f + (b + g));
      EndSides(u);
  }

  lemma LiteralBreaks(b: string)
    requires Literal(b)
    ensures Literal(b + "\n\n")
  {
    var x := b + "\n\n";
    forall i | 0 <= i < |x| - 1 && x[i] == '$' ensures !PatternEnd(x[i + 1]) {
      if i + 1 >= |b| { assert x[i + 1] == '\n'; }
    }
  }

  lemma AnchorUse(s: string, i: nat, m: string)
    requires AnchorOf(s, Behind(i, m))
    ensures At(s, i, m) && EndsLine(m)
  {
  }

  lemma SplitSides(u: string, k: nat)
    requires Plain(u) && k <= |u| && EndsLine(u[..k])
    ensures Sides(u[..k], "\n\n" + u[k..])
  {
    assert u == u[..k] + u[k..];
    RunConcat(true, Idle, u[..k], u[k..]);
    DeadStays(true, u[k..]);
    BreakLast(true, Idle, u[..k]);
    TwoBreaks(true, Idle, u[k..]);
  }

  lemma EndSides(u: string)
    requires Plain(u)
    ensures Sides(u + "\n\n", "\n")
  {
    RunConcat(true, Idle, u, "\n\n");
    TwoBreaks(true, Run(true, Idle, u), "");
    assert "\n\n" + "" == "\n\n";
    BreakAppends(true, "");
  }

  lemma {:induction false} RemoveHead(h: string, u: string)
    requires forall i :: 0 <= i < |h| ==> h[i] != '\n' && h[i] != '*'
    ensures RemoveBlocks(h + u) == h + RemoveBlocks(u)
  {
    hide BlockLen, RemoveBlocks;
    if h == "" {
      assert h + u == u;
    } else {
      NothingStarts(h + u);
      RemoveStep(h + u);
      assert h == h[..1] + h[1..];
      assert (h + u)[1..] == h[1..] + u && (h + u)[..1] == h[..1];
      RemoveHead(h[1..], u);
    }
  }

  lemma {:induction false} CollapseEnds(x: string)
    ensures EndsLine(x) ==> EndsLine(Collapse(x))
    decreases |x|
  {
    if x != "" {
      var n := SpanLen(x, Newline);
      if n > 0 {
        CollapseEnds(x[n..]);
      } else {
        CollapseEnds(x[1..]);
      }
    }
  }

  lemma {:induction false} RemoveEnds(x: string)
    ensures EndsLine(x) ==> EndsLine(RemoveBlocks(x))
    decreases |x|
  {
    hide BlockLen;
    if x != "" {
      match BlockLen(x)
      case Some(n) => RemoveEnds(x[n..]);
      case None => RemoveEnds(x[1..]);
    }
  }

  /** Removing the blocks of a section keeps its heading and leaves plain text. */
  lemma WithoutKeeps(head: string, body: string)
    requires Bare(head) && Removable(body)
    ensures WithoutBlocks(head + body) == head + Collapse(RemoveBlocks(body)) && Plain(Collapse(RemoveBlocks(body)))
    ensures EndsLine(body) ==> EndsLine(Collapse(RemoveBlocks(body)))
  {
    hide Find, RemoveBlocks, Collapse;
    RemoveHead(head, body);
    CollapseHead(head, RemoveBlocks(body));
    CollapseRun(true, Idle, RemoveBlocks(body));
    RemoveEnds(body);
    CollapseEnds(RemoveBlocks(body));
  }
}
