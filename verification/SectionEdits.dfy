/**
 What each markdown edit does to a task's own text: the heading stays, and text the regexes cannot
 misread stays such text.
 */
module SectionEdits {
  import opened Text
  import opened Markdown
  import opened Splicing
  import opened Documents

  // ---------------------------------------------------------------------
  // Literal templates
  // ---------------------------------------------------------------------

  predicate PatternEnd(c: char)
  {
    c == '$' || c == '&' || c == '`' || c == '\''
  }

  /** No `$$`, `$&`, `` $` `` or `$'`. */
  predicate Literal(x: string)
  {
    forall i :: 0 <= i < |x| - 1 && x[i] == '$' ==> !PatternEnd(x[i + 1])
  }

  lemma {:induction false} ExpandLiteral(x: string, m: string, before: string, after: string)
    requires Literal(x)
    ensures Expand(x, m, before, after) == x
  {
    if x != "" {
      assert |x| >= 2 && x[0] == '$' ==> !PatternEnd(x[1]);
      assert forall i :: 0 <= i < |x[1..]| ==> x[1..][i] == x[i + 1];
      ExpandLiteral(x[1..], m, before, after);
      assert x == x[..1] + x[1..];
    }
  }

  lemma {:induction false} ExpandShrinks(x: string)
    ensures |Expand(x, "", "", "")| <= |x|
    ensures !Literal(x) ==> |Expand(x, "", "", "")| < |x|
    decreases |x|
  {
    if x != "" {
      if |x| >= 2 && x[0] == '$' && PatternEnd(x[1]) {
        ExpandShrinks(x[2..]);
      } else {
        ExpandShrinks(x[1..]);
        if Literal(x[1..]) {
          forall i | 0 <= i < |x| - 1 && x[i] == '$' ensures !PatternEnd(x[i + 1]) {
            if i > 0 { assert x[1..][i - 1] == x[i] && x[1..][i] == x[i + 1]; }
          }
        }
      }
    }
  }

  /** `s.replace(text, template)` puts the template itself in, whatever `s` is, just when it holds no pattern. */
  lemma LiteralIffExpandsToItself(x: string)
    ensures Literal(x) <==> forall m, before, after :: Expand(x, m, before, after) == x
  {
    if Literal(x) {
      forall m, before, after ensures Expand(x, m, before, after) == x {
        ExpandLiteral(x, m, before, after);
      }
    } else {
      ExpandShrinks(x);
      assert Expand(x, "", "", "") != x;
    }
  }

  lemma {:induction false} AliveLiteral(q: State, x: string)
    requires !Run(true, q, x).Dead?
    ensures Literal(x)
    decreases |x|
  {
    if x != "" {
      DeadStays(true, x[1..]);
      AliveLiteral(Next(true, q, x[0]), x[1..]);
      if |x| >= 2 {
        DeadStays(true, x[1..][1..]);
        assert x[0] == '$' ==> !PatternEnd(x[1..][0]);
      }
      forall i | 0 <= i < |x| - 1 && x[i] == '$' ensures !PatternEnd(x[i + 1]) {
        if i > 0 { assert x[1..][i - 1] == x[i] && x[1..][i] == x[i + 1]; }
      }
    }
  }

  // ---------------------------------------------------------------------
  // The reader over edited text
  // ---------------------------------------------------------------------

  /** A line break resets a reader that does not wait behind hashes. */
  lemma BreakResets(strict: bool, q: State, c: char)
    requires LineTerm(c)
    ensures Next(strict, q, c) == if Fine(q) then Idle else Dead
  {
  }

  lemma BreakFirst(strict: bool, q: State, x: string)
    requires x != "" && LineTerm(x[0])
    ensures Run(strict, q, x) == if Fine(q) then Run(strict, Idle, x[1..]) else Dead
  {
    BreakResets(strict, q, x[0]);
    DeadStays(strict, x[1..]);
  }

  lemma {:induction false} BreakLast(strict: bool, q: State, x: string)
    requires EndsLine(x) && !Run(strict, q, x).Dead?
    ensures Run(strict, q, x) == Idle
  {
    var n := |x| - 1;
    assert x == x[..n] + x[n..];
    RunConcat(strict, q, x[..n], x[n..]);
    BreakFirst(strict, Run(strict, q, x[..n]), x[n..]);
    assert x[n..][1..] == "";
  }

  /** Behind the front of some text, another front may stand when both are fine and a break follows. */
  lemma SwapFront(strict: bool, a: string, b: string, t: string)
    requires Fine(Run(strict, Idle, a + t)) && Fine(Run(strict, Idle, b))
    requires t == "" || LineTerm(t[0])
    ensures Fine(Run(strict, Idle, b + t))
  {
    RunConcat(strict, Idle, a, t);
    RunConcat(strict, Idle, b, t);
    if t != "" {
      BreakFirst(strict, Run(strict, Idle, a), t);
      BreakFirst(strict, Run(strict, Idle, b), t);
    }
  }

  /** Text before a break is fine. */
  lemma FrontFine(strict: bool, a: string, t: string)
    requires Fine(Run(strict, Idle, a + t)) && (t == "" || LineTerm(t[0]))
    ensures Fine(Run(strict, Idle, a))
  {
    RunConcat(strict, Idle, a, t);
    if t != "" { BreakFirst(strict, Run(strict, Idle, a), t); }
  }

  /** An asterisk does not come behind hashes. */
  lemma StarFine(q: State, x: string)
    requires x != "" && x[0] == '*' && !Run(true, q, x).Dead?
    ensures Fine(q)
  {
    DeadStays(true, x[1..]);
  }

  lemma TwoStars(q: State, x: string)
    requires "**" <= x && !Run(true, q, x).Dead?
    ensures Run(true, q, x) == Run(true, Header(2), x[2..]) && Run(true, q, "**") == Header(2)
  {
    TwoSteps(true, q, x);
    TwoSteps(true, q, "**");
    DeadStays(true, x[2..]);
  }

  lemma TwoStarsIdle()
    ensures Run(true, Idle, "**") == Header(2)
  {
    TwoSteps(true, Idle, "**");
  }

  lemma DoneSplit()
    ensures DONE_LINE == "**" + "Status:" + "**" + " done"
  {
  }

  lemma DoneIdle(q: State)
    requires Run(true, q, "**") == Header(2)
    ensures Run(true, q, DONE_LINE) == Idle
  {
    hide Run, Next, DONE_LINE;
    DoneSplit();
    RunConcat(true, q, "**", "Status:");
    RunConcat(true, q, "**" + "Status:", "**");
    RunConcat(true, q, "**" + "Status:" + "**", " done");
    WordIdle(Header(2), "Status:");
    TwoStarsIdle();
    WordIdle(Header(2), " done");
  }

  /** Letters that continue nothing. */
  lemma {:induction false} WordIdle(q: State, x: string)
    requires x != "" && (q == Idle || (q == Header(2) && x[0] != 'V'))
    requires forall i :: 0 <= i < |x| ==> x[i] != '*' && x[i] != '#' && x[i] != '$'
    ensures Run(true, q, x) == Idle
    decreases |x|
  {
    assert Next(true, q, x[0]) == Idle;
    if |x| > 1 { WordIdle(Idle, x[1..]); }
  }

  // ---------------------------------------------------------------------
  // The heading stays
  // ---------------------------------------------------------------------

  /** A heading holds nothing that an edit looks for. */
  predicate Bare(head: string)
  {
    && head != "" && head[|head| - 1] == ':' && Find(head, BOX, 0) == -1
    && forall i :: 0 <= i < |head| ==> !LineTerm(head[i]) && head[i] != '*' && head[i] != '$'
  }

  lemma HeadBare(head: string, id: string)
    requires TaskHead(head, id)
    ensures Bare(head)
  {
    hide TaskPrefixLen, SpanLen, Find;
    var n, w := HeadSplit(head, id);
    assert head[|head| - 1] == head[n + w..][|id|];
    forall i | 0 <= i < |head| ensures !LineTerm(head[i]) && head[i] != '*' && head[i] != '$' {
      if i < 4 { assert head[i] == "####"[i] == '#'; } else { assert head[i] == head[4..][i - 4]; }
    }
  }

  /** Both marks the edits look for open with two asterisks. */
  lemma MarkedStars(x: string, mark: string)
    requires Marked(x, mark) && "**" <= mark
    ensures "**" <= x
  {
    var y := Lower(x[..|mark|]);
    assert y[0] == LowerChar(x[0]) && y[1] == LowerChar(x[1]);
    assert mark[0] == '*' && mark[1] == '*';
  }

  lemma MarksOpen()
    ensures "**" <= STATUS && "**" <= BLOCKED && STATUS != "" && BLOCKED != ""
  {
  }

  /** Where neither an asterisk nor a newline stands, no edit starts. */
  lemma NothingStarts(x: string)
    requires x != "" && x[0] != '*' && x[0] != '\n'
    ensures StatusValueLen(x) == None && BlockedLen(x) == None && BlockLen(x) == None
  {
    MarksOpen();
    if Marked(x, STATUS) { MarkedStars(x, STATUS); }
    if Marked(x, BLOCKED) { MarkedStars(x, BLOCKED); }
    assert SpanLen(x, Newline) == 0;
  }

  /** Text from a point behind the heading. */
  lemma BehindHead(head: string, u: string, i: nat)
    requires |head| <= i <= |head| + |u|
    ensures From(head + u, i) == u[i - |head|..] && (head + u)[..i] == head + u[..i - |head|]
  {
  }

  // ---------------------------------------------------------------------
  // Setting the status
  // ---------------------------------------------------------------------

  lemma StatusValueStops(x: string, n: nat)
    requires StatusValueLen(x) == Some(n)
    ensures "**" <= x && n <= |x| && (n == |x| || LineTerm(x[n]))
  {
    MarksOpen();
    MarkedStars(x, STATUS);
  }

  lemma PlainDone(a: string, m: string, b: string)
    requires Plain(a + m + b) && "**" <= m && (b == "" || LineTerm(b[0]))
    ensures Plain(a + DONE_LINE + b)
  {
    hide DONE_LINE;
    var q := Run(true, Idle, a);
    FrontFine(true, a + m, b);
    RunConcat(true, Idle, a, m);
    RunConcat(true, Idle, a, DONE_LINE);
    TwoStars(q, m);
    DoneIdle(q);
    SwapFront(true, a + m, a + DONE_LINE, b);
  }

  lemma PlainInsert(strict: bool, a: string, x: string, b: string)
    requires Fine(Run(strict, Idle, a + b)) && EndsLine(a) && Run(strict, Idle, x) == Idle
    ensures Run(strict, Idle, a) == Idle
    ensures Run(strict, Idle, a + x + b) == Run(strict, Idle, a + b) == Run(strict, Idle, b)
  {
    RunConcat(strict, Idle, a, b);
    DeadStays(strict, b);
    BreakLast(strict, Idle, a);
    RunConcat(strict, Idle, a, x);
    RunConcat(strict, Idle, a + x, b);
  }

  lemma LiteralConcat(a: string, b: string)
    requires Literal(a) && Literal(b) && (a == "" || a[|a| - 1] != '$' || b == "" || !PatternEnd(b[0]))
    ensures Literal(a + b)
  {
    var x := a + b;
    forall i | 0 <= i < |x| - 1 && x[i] == '$' ensures !PatternEnd(x[i + 1]) {
      if i >= |a| {
        assert x[i] == b[i - |a|] && x[i + 1] == b[i + 1 - |a|];
      }
    }
  }

  lemma LiteralPart(s: string, i: nat, j: nat)
    requires i <= j <= |s| && Literal(s)
    ensures Literal(s[i..j])
  {
    forall k | 0 <= k < |s[i..j]| - 1 && s[i..j][k] == '$' ensures !PatternEnd(s[i..j][k + 1]) {
      assert s[i + k] == '$' && s[i..j][k + 1] == s[i + k + 1];
    }
  }

  lemma SpliceBehind(head: string, u: string, p: nat, m: string, x: string)
    requires At(head + u, p, m) && p + |m| >= |head|
    ensures var s, e := head + u, p + |m|;
            s[..p] + (m + x) + s[e..] == head + (u[..e - |head|] + x + u[e - |head|..])
  {
    var s, e := head + u, p + |m|;
    assert s[..p] + m == s[..e] == head + u[..e - |head|];
    assert s[e..] == u[e - |head|..];
    assert s[..p] + (m + x) + s[e..] == (s[..p] + m) + x + s[e..];
    assert head + (u[..e - |head|] + x + u[e - |head|..]) == (head + u[..e - |head|]) + x + u[e - |head|..];
  }

  /** An anchor ends a line, so it ends behind the heading. */
  lemma AnchorEnd(head: string, u: string, p: nat, m: string)
    requires Bare(head) && At(head + u, p, m) && EndsLine(m)
    ensures p + |m| > |head| && EndsLine(u[..p + |m| - |head|])
  {
    var s, e := head + u, p + |m|;
    assert s[p..e][|m| - 1] == s[e - 1];
    assert s[e - 1] == u[e - 1 - |head|];
  }

  lemma LiteralSection(head: string, u: string)
    requires Bare(head) && Literal(u)
    ensures Literal(head + u)
  {
    hide Find;
    assert Literal(head);
    LiteralConcat(head, u);
  }

  lemma ReplaceIs(s: string, m: string, x: string)
    requires Literal(m + x) && Find(s, m, 0) != -1
    ensures var p := Find(s, m, 0); ReplaceFirst(s, m, m + x) == s[..p] + (m + x) + s[p + |m|..]
  {
    hide Find, Literal, Expand;
    var p := Find(s, m, 0);
    ExpandLiteral(m + x, m, s[..p], s[p + |m|..]);
  }

  /** Replacing an anchor by itself and more text puts that text behind a line of the section's own. */
  lemma InsertSplits(head: string, u: string, start: nat, m: string, x: string) returns (k: nat)
    requires Bare(head) && Literal(u) && At(head + u, start, m) && EndsLine(m) && Literal(x)
    ensures k <= |u| && EndsLine(u[..k])
    ensures k == Find(head + u, m, 0) + |m| - |head|
    ensures ReplaceFirst(head + u, m, m + x) == head + (u[..k] + x + u[k..])
  {
    hide Literal, Bare, ReplaceFirst;
    var s := head + u;
    var p := Find(s, m, 0);
    AnchorEnd(head, u, p, m);
    k := p + |m| - |head|;
    LiteralSection(head, u);
    LiteralPart(s, p, p + |m|);
    LiteralConcat(m, x);
    ReplaceIs(s, m, x);
    SpliceBehind(head, u, p, m, x);
  }

  lemma PlainLiteral(u: string)
    requires Plain(u)
    ensures Literal(u)
  {
    AliveLiteral(Idle, u);
  }

  lemma DoneLineBreaks(tail: string)
    requires tail == "\n" || tail == "\n\n"
    ensures Run(true, Idle, DONE_LINE + tail) == Idle
  {
    hide DONE_LINE, Run;
    TwoStarsIdle();
    DoneIdle(Idle);
    RunConcat(true, Idle, DONE_LINE, tail);
    BreaksIdle(tail);
  }

  lemma BreaksIdle(tail: string)
    requires tail == "\n" || tail == "\n\n"
    ensures Run(true, Idle, tail) == Idle && Run(false, Idle, tail) == Idle
  {
  }

  predicate AnchorOf(s: string, a: Anchor)
  {
    a.Behind? ==> At(s, a.start, a.text) && EndsLine(a.text)
  }

  lemma AnchoredEnds(s: string, i: nat, n: Option<nat>)
    requires i <= |s| && (n.Some? ==> 0 < n.value <= |s[i..]| && s[i..][n.value - 1] == '\n')
    ensures AnchorOf(s, Anchored(s, i, n))
  {
    if n.Some? {
      assert s[i..i + n.value][n.value - 1] == s[i..][n.value - 1];
    }
  }

  lemma TitleAnchorEnds(s: string)
    ensures AnchorOf(s, TitleAnchor(s))
  {
    hide TitleLen, AnchorOf, Anchored;
    var i := First(0, |s|, TitleAt(s));
    if i != -1 {
      AnchoredEnds(s, i, TitleLen(From(s, i)));
    } else {
      NowhereOk(s);
    }
  }

  lemma NowhereOk(s: string)
    ensures AnchorOf(s, Nowhere)
  {
  }

  lemma StatusAnchorEnds(s: string)
    ensures AnchorOf(s, StatusAnchor(s))
  {
    hide StatusLineLen, AnchorOf, Anchored;
    var i := First(0, |s|, StatusLineAt(s));
    if i != -1 {
      AnchoredEnds(s, i, StatusLineLen(From(s, i)));
    } else {
      NowhereOk(s);
    }
  }

  /** A status line put in behind the title, or behind everything. */
  lemma TitleInsertKeeps(head: string, u: string) returns (v: string)
    requires Bare(head) && Plain(u)
    ensures InsertAfterTaskTitle(head + u, DONE_LINE) == head + v && Plain(v)
  {
    hide DONE_LINE, Plain, Bare, Literal, ReplaceFirst, TitleAnchor, Run;
    var x := DONE_LINE + "\n\n";
    DoneLineBreaks("\n\n");
    AliveLiteral(Idle, x);
    PlainLiteral(u);
    TitleAnchorEnds(head + u);
    match TitleAnchor(head + u)
    case Behind(i, m) =>
      assert m + DONE_LINE + "\n\n" == m + x;
      var k := InsertSplits(head, u, i, m, x);
      v := u[..k] + x + u[k..];
      PlainInsertDone(u, k, x);
    case Nowhere =>
      v := u + "\n" + DONE_LINE + "\n";
      assert head + u + "\n" + DONE_LINE + "\n" == head + v;
      PlainAppend(u);
  }

  lemma PlainInsertDone(u: string, k: nat, x: string)
    requires Plain(u) && k <= |u| && EndsLine(u[..k]) && Run(true, Idle, x) == Idle
    ensures Plain(u[..k] + x + u[k..])
  {
    assert u == u[..k] + u[k..];
    PlainInsert(true, u[..k], x, u[k..]);
  }

  lemma PlainAppend(u: string)
    requires Plain(u)
    ensures Plain(u + "\n" + DONE_LINE + "\n")
  {
    hide DONE_LINE;
    DoneLineBreaks("\n");
    BreakAppends(true, u);
    assert u + "\n" + DONE_LINE + "\n" == (u + "\n") + (DONE_LINE + "\n");
    RunConcat(true, Idle, u + "\n", DONE_LINE + "\n");
  }

  lemma BreakAppends(strict: bool, u: string)
    requires Fine(Run(strict, Idle, u))
    ensures Run(strict, Idle, u + "\n") == Idle
  {
    RunConcat(strict, Idle, u, "\n");
    BreakFirst(strict, Run(strict, Idle, u), "\n");
  }

  /** What `First` finds in a section stands behind the heading when a heading's characters cannot start it. */
  lemma FoundBehindHead(head: string, u: string, p: nat -> bool)
    requires forall i: nat :: i < |head| ==> !p(i)
    ensures var i := First(0, |head + u|, p); i == -1 || |head| <= i <= |head| + |u|
  {
  }

  lemma StatusBehindHead(head: string, u: string)
    requires Bare(head)
    ensures var i := First(0, |head + u|, StatusValueAt(head + u)); i == -1 || |head| <= i <= |head| + |u|
  {
    hide StatusValueLen, Find;
    var s := head + u;
    forall i: nat | i < |head| ensures !StatusValueAt(s)(i) {
      assert From(s, i)[0] == head[i];
      NothingStarts(From(s, i));
    }
    FoundBehindHead(head, u, StatusValueAt(s));
  }

  /** A status line's text becomes the done line. */
  lemma DoneAt(head: string, u: string, i: nat, n: nat) returns (v: string)
    requires Plain(u) && |head| <= i <= |head| + |u| && StatusValueLen(From(head + u, i)) == Some(n)
    ensures i + n <= |head + u| && (head + u)[..i] + DONE_LINE + (head + u)[i + n..] == head + v && Plain(v)
  {
    hide DONE_LINE, Plain, StatusValueLen;
    var x := From(head + u, i);
    var a := u[..i - |head|];
    BehindHead(head, u, i);
    StatusValueStops(x, n);
    v := a + DONE_LINE + x[n..];
    assert u == a + x[..n] + x[n..];
    PlainDone(a, x[..n], x[n..]);
    assert (head + u)[i + n..] == x[n..];
    assert head + v == (head + a) + DONE_LINE + x[n..];
  }

  lemma SetDoneKeeps(head: string, u: string) returns (v: string)
    requires Bare(head) && Plain(u)
    ensures SetDone(head + u) == head + v && Plain(v)
  {
    hide DONE_LINE, Plain, StatusValueLen, InsertAfterTaskTitle, Bare;
    var s := head + u;
    StatusBehindHead(head, u);
    var i := First(0, |s|, StatusValueAt(s));
    if First(0, |s|, StatusMarkAt(s)) == -1 {
      v := TitleInsertKeeps(head, u);
    } else if i == -1 {
      v := u;
    } else {
      v := DoneAt(head, u, i, StatusValueLen(From(s, i)).value);
    }
  }

  // ---------------------------------------------------------------------
  // Clearing the blocked marker
  // ---------------------------------------------------------------------

  lemma BlockedFacts(x: string, n: nat)
    requires BlockedLen(x) == Some(n)
    ensures 0 < n <= |x| && (x[0] == '*' || x[0] == '\n')
    ensures n == |x| || LineTerm(x[n]) || x[n - 1] == '\n'
  {
    hide BlockedLineLen;
    MarksOpen();
    if Marked(x, BLOCKED) {
      MarkedStars(x, BLOCKED);
      assert n == BlockedLineLen(x);
    } else {
      assert n == 1 + BlockedLineLen(x[1..]);
    }
  }

  lemma PlainDrop(a: string, m: string, b: string)
    requires Plain(a + m + b) && m != "" && (m[0] == '*' || m[0] == '\n')
    requires b == "" || LineTerm(b[0]) || EndsLine(m)
    ensures Plain(a + "\n" + b)
  {
    var q := Run(true, Idle, a);
    RunConcat(true, Idle, a + m, b);
    DeadStays(true, b);
    RunConcat(true, Idle, a, m);
    if m[0] == '*' { StarFine(q, m); } else { BreakFirst(true, q, m); }
    BreakAppends(true, a);
    RunConcat(true, Idle, a + "\n", b);
    if EndsLine(m) {
      BreakLast(true, Idle, a + m);
    } else {
      FrontFine(true, a + m, b);
      SwapFront(true, a + m, a + "\n", b);
    }
  }

  lemma BlockedBehindHead(head: string, u: string)
    requires Bare(head)
    ensures var i := First(0, |head + u|, BlockedAt(head + u)); i == -1 || |head| <= i <= |head| + |u|
  {
    hide BlockedLen, Find;
    var s := head + u;
    forall i: nat | i < |head| ensures !BlockedAt(s)(i) {
      assert From(s, i)[0] == head[i];
      NothingStarts(From(s, i));
    }
    FoundBehindHead(head, u, BlockedAt(s));
  }

  lemma DropAt(head: string, u: string, i: nat, n: nat) returns (v: string)
    requires Plain(u) && |head| <= i <= |head| + |u| && BlockedLen(From(head + u, i)) == Some(n)
    ensures i + n <= |head + u| && (head + u)[..i] + "\n" + (head + u)[i + n..] == head + v && Plain(v)
  {
    hide Plain, BlockedLen;
    var x := From(head + u, i);
    var a := u[..i - |head|];
    BehindHead(head, u, i);
    BlockedFacts(x, n);
    v := a + "\n" + x[n..];
    assert u == a + x[..n] + x[n..];
    PlainDrop(a, x[..n], x[n..]);
    assert (head + u)[i + n..] == x[n..];
    assert head + v == (head + a) + "\n" + x[n..];
  }

  lemma DropKeeps(head: string, u: string) returns (v: string)
    requires Bare(head) && Plain(u)
    ensures DropBlocked(head + u) == head + v && Plain(v)
  {
    hide Plain, BlockedLen, Bare;
    BlockedBehindHead(head, u);
    var i := First(0, |head + u|, BlockedAt(head + u));
    if i == -1 {
      v := u;
    } else {
      v := DropAt(head, u, i, BlockedLen(From(head + u, i)).value);
    }
  }

  lemma {:induction false} CollapseHead(h: string, u: string)
    requires forall i :: 0 <= i < |h| ==> h[i] != '\n'
    ensures Collapse(h + u) == h + Collapse(u)
  {
    if h == "" {
      assert h + u == u;
    } else {
      assert SpanLen(h + u, Newline) == 0;
      assert (h + u)[1..] == h[1..] + u && (h + u)[..1] == h[..1];
      CollapseHead(h[1..], u);
    }
  }

  lemma {:induction false} NewlinesRun(strict: bool, q: State, x: string, n: nat)
    requires 0 < n <= |x| && (forall i :: 0 <= i < n ==> x[i] == '\n') && !Run(strict, q, x).Dead?
    ensures Fine(q) && Run(strict, q, x) == Run(strict, Idle, x[n..])
    decreases n
  {
    BreakFirst(strict, q, x);
    if n > 1 {
      NewlinesRun(strict, Idle, x[1..], n - 1);
      assert x[1..][n - 1..] == x[n..];
    }
  }

  lemma TwoBreaks(strict: bool, q: State, y: string)
    requires Fine(q)
    ensures Run(strict, q, "\n\n" + y) == Run(strict, Idle, y)
  {
    var x := "\n\n" + y;
    TwoSteps(strict, q, x);
    assert x[2..] == y;
  }

  lemma {:induction false} CollapseRun(strict: bool, q: State, x: string)
    requires !Run(strict, q, x).Dead?
    ensures Run(strict, q, Collapse(x)) == Run(strict, q, x)
    decreases |x|
  {
    hide Next;
    if x != "" {
      var n := SpanLen(x, Newline);
      if n > 0 {
        NewlinesRun(strict, q, x, n);
        CollapseRun(strict, Idle, x[n..]);
        if n >= 3 {
          TwoBreaks(strict, q, Collapse(x[n..]));
        } else {
          RunConcat(strict, q, x[..n], Collapse(x[n..]));
          RunConcat(strict, q, x[..n], "");
          assert x[..n] + "" == x[..n];
          NewlinesOnly(strict, q, x, n);
        }
      } else {
        DeadStays(strict, x[1..]);
        CollapseRun(strict, Next(strict, q, x[0]), x[1..]);
        assert (x[..1] + Collapse(x[1..]))[1..] == Collapse(x[1..]);
      }
    }
  }

  lemma NewlinesOnly(strict: bool, q: State, x: string, n: nat)
    requires 0 < n <= |x| && Fine(q) && forall i :: 0 <= i < n ==> x[i] == '\n'
    ensures Run(strict, q, x[..n]) == Idle
    decreases n
  {
    BreakFirst(strict, q, x[..n]);
    if n > 1 {
      NewlinesOnly(strict, Idle, x[1..], n - 1);
      assert x[1..][..n - 1] == x[..n][1..];
    }
  }

  lemma {:induction false} TrimHead(head: string, u: string)
    requires Bare(head)
    ensures TrimEnd(head + u) == head + TrimEnd(u)
    decreases |u|
  {
    if u == "" {
      assert head + u == head;
    } else {
      var n := |u| - 1;
      assert (head + u)[..|head + u| - 1] == head + u[..n];
      if Space(u[n]) { TrimHead(head, u[..n]); }
    }
  }

  /** Only text that was fine can be fine behind a space. */
  lemma {:induction false} TrimPlain(u: string)
    requires Plain(u)
    ensures Plain(TrimEnd(u))
    decreases |u|
  {
    if u != "" && Space(u[|u| - 1]) {
      var n := |u| - 1;
      assert u == u[..n] + u[n..];
      RunConcat(true, Idle, u[..n], u[n..]);
      assert u[n..][1..] == "";
      assert Fine(Next(true, Run(true, Idle, u[..n]), u[n]));
      TrimPlain(u[..n]);
    }
  }

  lemma ClearKeeps(head: string, u: string) returns (v: string)
    requires Bare(head) && Plain(u)
    ensures ClearBlocked(head + u) == head + v && Plain(v)
  {
    hide DropBlocked, Collapse, TrimEnd, Find;
    var w := DropKeeps(head, u);
    CollapseHead(head, w);
    CollapseRun(true, Idle, w);
    TrimHead(head, Collapse(w));
    TrimPlain(Collapse(w));
    v := TrimEnd(Collapse(w));
  }

  // ---------------------------------------------------------------------
  // Ticking the boxes
  // ---------------------------------------------------------------------

  lemma BoxNotAcross(h: string, u: string)
    requires h != "" && h[|h| - 1] == ':'
    ensures BOX <= h + u ==> BOX <= h
  {
    assert forall i :: 0 <= i < |BOX| ==> BOX[i] != ':';
    if |h| < |BOX| {
      assert (h + u)[|h| - 1] == ':' != BOX[|h| - 1];
    }
  }

  ghost predicate NoBox(h: string)
  {
    forall i :: 0 <= i ==> !At(h, i, BOX)
  }

  lemma NoBoxTail(h: string)
    requires h != "" && NoBox(h)
    ensures NoBox(h[1..]) && !(BOX <= h)
  {
    hide BOX;
    assert !At(h, 0, BOX);
    forall i | 0 <= i ensures !At(h[1..], i, BOX) {
      assert !At(h, i + 1, BOX);
      if i + |BOX| <= |h[1..]| { assert h[1..][i..i + |BOX|] == h[i + 1..i + 1 + |BOX|]; }
    }
  }

  lemma CheckAllStep(x: string)
    requires x != "" && !(BOX <= x)
    ensures CheckAll(x) == x[..1] + CheckAll(x[1..])
  {
  }

  lemma {:induction false} CheckAllHead(h: string, u: string)
    requires h == "" || h[|h| - 1] == ':'
    requires NoBox(h)
    ensures CheckAll(h + u) == h + CheckAll(u)
  {
    hide BOX, NoBox, CheckAll;
    if h == "" {
      assert h + u == u;
    } else {
      NoBoxTail(h);
      BoxNotAcross(h, u);
      CheckAllStep(h + u);
      assert (h + u)[1..] == h[1..] + u && (h + u)[..1] == h[..1];
      CheckAllHead(h[1..], u);
      assert h == h[..1] + h[1..];
    }
  }

  lemma {:induction false} CheckAllRun(q: State, x: string)
    requires !Run(true, q, x).Dead?
    ensures Run(true, q, CheckAll(x)) == Run(true, q, x)
    decreases |x|
  {
    hide Next;
    if x != "" {
      if BOX <= x {
        assert x == BOX + x[5..];
        RunConcat(true, q, BOX, x[5..]);
        RunConcat(true, q, TICKED, CheckAll(x[5..]));
        DeadStays(true, x[5..]);
        BoxRun(q);
        CheckAllRun(Idle, x[5..]);
      } else {
        DeadStays(true, x[1..]);
        CheckAllRun(Next(true, q, x[0]), x[1..]);
        assert (x[..1] + CheckAll(x[1..]))[1..] == CheckAll(x[1..]);
      }
    }
  }

  lemma BoxRun(q: State)
    requires !Run(true, q, BOX).Dead?
    ensures Run(true, q, BOX) == Idle && Run(true, q, TICKED) == Idle
  {
    hide Run;
    BoxSplit();
    DashRun(q, " [ ]");
    DashRun(q, " [x]");
    WordIdle(Idle, " [ ]");
    WordIdle(Idle, " [x]");
  }

  lemma BoxSplit()
    ensures BOX == "-" + " [ ]" && TICKED == "-" + " [x]"
  {
  }

  lemma DashRun(q: State, x: string)
    ensures Run(true, q, "-" + x) == if q.Dead? then Dead else Run(true, Idle, x)
  {
    var y := "-" + x;
    assert y[0] == '-' && y[1..] == x;
    DashNext(q);
    DeadStays(true, x);
    hide Next;
  }

  lemma DashNext(q: State)
    ensures Next(true, q, '-') == if q.Dead? then Dead else Idle
  {
  }

  lemma CheckKeeps(head: string, u: string)
    requires Bare(head) && Plain(u)
    ensures CheckAll(head + u) == head + CheckAll(u) && Plain(CheckAll(u))
  {
    hide CheckAll;
    CheckAllHead(head, u);
    CheckAllRun(Idle, u);
  }
}
