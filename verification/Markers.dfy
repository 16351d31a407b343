/**
 Blocked markers: how many matches of the blocked pattern a section holds, and what the completion edits
 make of them.
 */
module Markers {
  import opened Text
  import opened Markdown
  import opened SectionEdits
  import opened Tidy

  /** How often the blocked pattern matches in `x`, each match behind the one before. */
  function MarkerCount(x: string): nat
    decreases |x|
  {
    if x == "" then 0
    else if Marked(x, BLOCKED) then 1 + MarkerCount(x[BlockedLineLen(x)..])
    else MarkerCount(x[1..])
  }

  /** One of those matches ends where `x` ends. */
  predicate RunsOut(x: string)
    decreases |x|
  {
    x != ""
    && if Marked(x, BLOCKED) then BlockedLineLen(x) == |x| || RunsOut(x[BlockedLineLen(x)..])
       else RunsOut(x[1..])
  }

  // ---------------------------------------------------------------------
  // The parts of a match
  // ---------------------------------------------------------------------

  /** The pattern's match at the front of `x`: spaces up to `w`, the rest of a line up to `e`, breaks up to `n`. */
  predicate Parts(x: string, w: nat, e: nat, n: nat)
  {
    && 12 <= w <= e <= n <= |x|
    && (forall k :: 12 <= k < w ==> Space(x[k])) && (w < |x| ==> !Space(x[w]))
    && (forall k :: w <= k < e ==> !LineTerm(x[k])) && (e < |x| ==> LineTerm(x[e]))
    && (forall k :: e <= k < n ==> x[k] == '\n') && (n < |x| ==> x[n] != '\n')
  }

  lemma MatchParts(x: string) returns (w: nat, e: nat)
    requires Marked(x, BLOCKED)
    ensures Parts(x, w, e, BlockedLineLen(x))
  {
    hide Marked, Space, LineTerm, SpanLen, NotLineTerm, Newline, BLOCKED;
    MarkShapes();
    MarkStar(x);
    w := 12 + SpanLen(x[12..], Space);
    e := w + SpanLen(x[w..], NotLineTerm);
    var n := e + SpanLen(x[e..], Newline);
    SpanParts(x, 12, Space);
    SpanParts(x, w, NotLineTerm);
    SpanParts(x, e, Newline);
    NotLineTermIs(x);
  }

  lemma NotLineTermIs(x: string)
    ensures forall k :: 0 <= k < |x| ==> (NotLineTerm(x[k]) <==> !LineTerm(x[k])) && (Newline(x[k]) <==> x[k] == '\n')
  {
  }

  lemma SpanParts(x: string, k: nat, p: char -> bool)
    requires k <= |x|
    ensures var n := k + SpanLen(x[k..], p); n <= |x| && (forall i :: k <= i < n ==> p(x[i])) && (n < |x| ==> !p(x[n]))
  {
    var n := SpanLen(x[k..], p);
    assert forall i :: k <= i < k + n ==> x[i] == x[k..][i - k];
  }

  lemma PartsMatch(x: string, w: nat, e: nat, n: nat)
    requires Marked(x, BLOCKED) && Parts(x, w, e, n)
    ensures BlockedLineLen(x) == n
  {
    hide Marked, Space, LineTerm;
    MarkShapes();
    NotLineTermIs(x);
    SpanIs(x, 12, Space, w);
    SpanIs(x, w, NotLineTerm, e);
    SpanIs(x, e, Newline, n);
  }

  lemma SpanIs(x: string, k: nat, p: char -> bool, n: nat)
    requires k <= n <= |x| && (forall i :: k <= i < n ==> p(x[i])) && (n < |x| ==> !p(x[n]))
    ensures k + SpanLen(x[k..], p) == n
  {
    assert forall i :: 0 <= i < n - k ==> x[k..][i] == x[k + i];
    SpanLenIs(x[k..], p, n - k);
  }

  // ---------------------------------------------------------------------
  // Counting
  // ---------------------------------------------------------------------

  lemma CountAt(x: string)
    requires Marked(x, BLOCKED)
    ensures x != "" && 12 <= BlockedLineLen(x) <= |x|
    ensures MarkerCount(x) == 1 + MarkerCount(x[BlockedLineLen(x)..])
    ensures RunsOut(x) <==> BlockedLineLen(x) == |x| || RunsOut(x[BlockedLineLen(x)..])
  {
    MarkShapes();
  }

  lemma CountOn(x: string)
    requires x != "" && !Marked(x, BLOCKED)
    ensures MarkerCount(x) == MarkerCount(x[1..]) && (RunsOut(x) <==> RunsOut(x[1..]))
  {
  }

  /** Text without a marker at its positions does not matter. */
  lemma {:induction false} CountFrom(x: string, p: nat)
    requires p <= |x| && forall i :: 0 <= i < p ==> !Marked(x[i..], BLOCKED)
    ensures MarkerCount(x) == MarkerCount(x[p..]) && (RunsOut(x) <==> RunsOut(x[p..]))
  {
    hide Marked, MarkerCount, RunsOut;
    if p > 0 {
      assert x[0..] == x;
      CountOn(x);
      assert forall i :: 0 <= i < p - 1 ==> x[1..][i..] == x[i + 1..];
      CountFrom(x[1..], p - 1);
      assert x[1..][p - 1..] == x[p..];
    } else {
      assert x[0..] == x;
    }
  }

  lemma {:induction false} CountZero(x: string)
    ensures MarkerCount(x) == 0 <==> NoMark(x, BLOCKED)
    decreases |x|
  {
    hide Marked, MarkerCount;
    if x == "" {
      MarkShapes();
      NothingMarked();
    } else if Marked(x, BLOCKED) {
      CountAt(x);
      assert x[0..] == x;
    } else {
      CountOn(x);
      CountZero(x[1..]);
      assert x[0..] == x;
      assert forall i :: 1 <= i <= |x| ==> x[i..] == x[1..][i - 1..];
      assert forall i :: 0 <= i <= |x[1..]| ==> x[1..][i..] == x[i + 1..];
    }
  }

  lemma NothingMarked()
    ensures MarkerCount("") == 0 && !Marked("", BLOCKED) && ""[0..] == ""
  {
    MarkShapes();
  }

  lemma MarkStar(x: string)
    requires Marked(x, BLOCKED)
    ensures |x| >= 12 && x[0] == '*' && x[11] == '*' && forall k :: 0 <= k < 12 ==> x[k] != '\n' && x[k] != ' '
  {
    MarkShapes();
    MarkedChars(x, BLOCKED);
    assert forall k :: 0 <= k < 12 ==> LowerChar(x[k]) == BLOCKED[k];
    assert BLOCKED[0] == '*' && BLOCKED[11] == '*';
    assert forall k :: 0 <= k < 12 ==> BLOCKED[k] != '\n' && BLOCKED[k] != ' ';
  }

  lemma MarkFront(x: string, y: string)
    requires |x| >= 12 && |y| >= 12 && x[..12] == y[..12]
    ensures Marked(x, BLOCKED) <==> Marked(y, BLOCKED)
  {
    MarkShapes();
  }

  // ---------------------------------------------------------------------
  // Collapsing
  // ---------------------------------------------------------------------

  lemma {:induction false} CollapseAll(x: string, p: char -> bool)
    requires forall k :: 0 <= k < |x| ==> p(x[k])
    ensures forall k :: 0 <= k < |Collapse(x)| ==> p(Collapse(x)[k])
    decreases |x|
  {
    hide Collapse;
    if x == "" {
      NothingCollapses();
    } else {
      var k, front := CollapseStep(x);
      CollapseAll(x[k..], p);
      BreaksAre(x, SpanLen(x, Newline));
      assert forall i :: 0 <= i < |front| ==> p(front[i]) by {
        assert k >= 3 ==> p(x[0]) && x[0] == '\n';
      }
    }
  }

  /** A match, its text behind the marker laid out as spaces, a line and breaks. */
  lemma PartsSplit(x: string, w: nat, e: nat, n: nat)
    requires Parts(x, w, e, n)
    ensures x == x[..12] + (x[12..w] + (x[w..e] + (x[e..n] + x[n..])))
  {
  }

  /** Collapsing a text that opens with a match collapses the match and what follows it. */
  lemma CollapseParts(x: string, w: nat, e: nat, n: nat)
    requires Marked(x, BLOCKED) && Parts(x, w, e, n)
    ensures Collapse(x) == x[..12] + (Collapse(x[12..w]) + (x[w..e] + (Collapse(x[e..n]) + Collapse(x[n..]))))
  {
    hide Marked, Collapse, Space, LineTerm;
    MarkStar(x);
    PartsSplit(x, w, e, n);
    LineTermBreak();
    var spaces, line, breaks, rest := x[12..w], x[w..e], x[e..n], x[n..];
    CollapseHead(x[..12], spaces + (line + (breaks + rest)));
    assert line + (breaks + rest) == "" || (line + (breaks + rest))[0] != '\n' by {
      SpaceIsBreak();
      if line == "" { assert w == |x|; } else { assert line[0] == x[w]; }
    }
    CollapseSplit(spaces, line + (breaks + rest));
    assert forall k :: 0 <= k < |line| ==> line[k] == x[w + k];
    CollapseHead(line, breaks + rest);
    CollapseSplit(breaks, rest);
  }

  lemma SpaceIsBreak()
    ensures Space('\n')
  {
  }

  lemma LineTermBreak()
    ensures LineTerm('\n') && forall c :: LineTerm(c) ==> Space(c)
  {
  }

  lemma PartsAgain(x: string, w: nat, e: nat, n: nat, y: string, s: string, b: string, r: string)
    requires |x| >= 12 && Parts(x, w, e, n) && y == x[..12] + (s + (x[w..e] + (b + r)))
    requires (forall k :: 0 <= k < |s| ==> Space(s[k])) && (forall k :: 0 <= k < |b| ==> b[k] == '\n')
    requires (b == "" <==> e == n) && (r == "" <==> n == |x|) && (r != "" ==> r[0] == x[n])
    ensures Parts(y, 12 + |s|, 12 + |s| + (e - w), 12 + |s| + (e - w) + |b|)
    ensures y[12 + |s| + (e - w) + |b|..] == r
  {
    hide Space, LineTerm;
    LineTermBreak();
    var w', e' := 12 + |s|, 12 + |s| + (e - w);
    var n' := e' + |b|;
    assert forall k :: 12 <= k < w' ==> y[k] == s[k - 12];
    assert forall k :: w' <= k < e' ==> y[k] == x[k - w' + w];
    assert forall k :: e' <= k < n' ==> y[k] == b[k - e'];
    assert y[n'..] == r;
    if n' < |y| { assert y[n'] == r[0]; }
    if e' < |y| { if b == "" { assert y[e'] == r[0] == x[e]; } }
  }

  lemma {:induction false} BreaksCollapse(b: string)
    requires forall k :: 0 <= k < |b| ==> b[k] == '\n'
    ensures (forall k :: 0 <= k < |Collapse(b)| ==> Collapse(b)[k] == '\n') && (Collapse(b) == "" <==> b == "")
  {
    hide Collapse;
    CollapseAll(b, c => c == '\n');
    CollapseStart(b);
  }

  lemma MatchCollapses(x: string)
    requires Marked(x, BLOCKED)
    ensures var n, y := BlockedLineLen(x), Collapse(x);
            && Marked(y, BLOCKED) && BlockedLineLen(y) <= |y| && y[BlockedLineLen(y)..] == Collapse(x[n..])
            && (BlockedLineLen(y) == |y| <==> n == |x|)
  {
    hide Marked, Collapse, Space, LineTerm, BlockedLineLen;
    var w, e := MatchParts(x);
    var n, y := BlockedLineLen(x), Collapse(x);
    MarkStar(x);
    CollapseParts(x, w, e, n);
    var s, b, r := Collapse(x[12..w]), Collapse(x[e..n]), Collapse(x[n..]);
    CollapseAll(x[12..w], Space);
    BreaksCollapse(x[e..n]);
    CollapseStart(x[n..]);
    PartsAgain(x, w, e, n, y, s, b, r);
    assert y[..12] == x[..12];
    MarkFront(x, y);
    PartsMatch(y, 12 + |s|, 12 + |s| + (e - w), 12 + |s| + (e - w) + |b|);
  }

  /** Collapsing changes neither the count nor where the last match ends. */
  lemma {:induction false} CountCollapse(x: string)
    ensures MarkerCount(Collapse(x)) == MarkerCount(x) && (RunsOut(Collapse(x)) <==> RunsOut(x))
    decreases |x|
  {
    hide Marked, MarkerCount, RunsOut, Collapse, BlockedLineLen;
    if x == "" {
      NothingCollapses();
    } else if Marked(x, BLOCKED) {
      MatchCollapses(x);
      CountAt(x);
      CountAt(Collapse(x));
      CountCollapse(x[BlockedLineLen(x)..]);
    } else {
      var k, front := CollapseStep(x);
      CountCollapse(x[k..]);
      BreaksAre(x, SpanLen(x, Newline));
      StepUnmarked(x, k, front);
      CountFrom(x, k);
      CountFrom(front + Collapse(x[k..]), |front|);
      assert (front + Collapse(x[k..]))[|front|..] == Collapse(x[k..]);
    }
  }

  lemma UnmarkedStart(x: string)
    requires x == "" || x[0] != '*'
    ensures !Marked(x, BLOCKED)
  {
    if Marked(x, BLOCKED) { MarkStar(x); }
  }

  /** Neither a collapsed run of breaks nor a character that opens no marker opens one afterwards. */
  lemma StepUnmarked(x: string, k: nat, front: string)
    requires x != "" && !Marked(x, BLOCKED) && 0 < k <= |x|
    requires (k == 1 && front == x[..1])
             || ((forall i :: 0 <= i < k ==> x[i] == '\n') && forall i :: 0 <= i < |front| ==> front[i] == '\n')
    ensures forall i :: 0 <= i < k ==> !Marked(x[i..], BLOCKED)
    ensures forall i :: 0 <= i < |front| ==> !Marked((front + Collapse(x[k..]))[i..], BLOCKED)
  {
    hide Marked, Collapse;
    var y := front + Collapse(x[k..]);
    assert x[0..] == x && y[0..] == y;
    if x[0] == '\n' {
      forall i | 0 <= i < k ensures !Marked(x[i..], BLOCKED) { UnmarkedStart(x[i..]); }
      forall i | 0 <= i < |front| ensures !Marked(y[i..], BLOCKED) { UnmarkedStart(y[i..]); }
    } else if Marked(y, BLOCKED) {
      MarkStar(y);
      var c := Collapse(x[1..]);
      assert forall j :: 0 <= j < 11 ==> c[j] == y[j + 1];
      CollapseFront(x[1..], 11);
      assert x[..12] == x[..1] + x[1..][..11] && y[..12] == x[..1] + c[..11];
      MarkFront(x, y);
    }
  }

  // ---------------------------------------------------------------------
  // Trimming and ticking
  // ---------------------------------------------------------------------

  lemma PartsShorter(x: string, c: char, w: nat, e: nat, n: nat)
    requires n < |x|
    ensures Parts(x + [c], w, e, n) <==> Parts(x, w, e, n)
  {
    hide Space, LineTerm;
    assert forall k :: 0 <= k < |x| ==> (x + [c])[k] == x[k];
  }

  lemma MarkedMore(x: string, c: char)
    requires Space(c)
    ensures Marked(x + [c], BLOCKED) <==> Marked(x, BLOCKED)
  {
    var y := x + [c];
    if |x| >= 12 {
      assert y[..12] == x[..12];
      MarkFront(x, y);
    } else {
      if Marked(y, BLOCKED) { MarkStar(y); }
      MarkShapes();
    }
  }

  /** A match that ends before the last character is one without it. */
  lemma ShorterMatch(x: string, c: char)
    requires Marked(x, BLOCKED) && Marked(x + [c], BLOCKED) && BlockedLineLen(x + [c]) < |x|
    ensures BlockedLineLen(x) == BlockedLineLen(x + [c])
  {
    hide Marked, BlockedLineLen, Parts;
    var w, e := MatchParts(x + [c]);
    PartsShorter(x, c, w, e, BlockedLineLen(x + [c]));
    PartsMatch(x, w, e, BlockedLineLen(x + [c]));
  }

  lemma {:induction false} CountSpace(x: string, c: char)
    requires Space(c)
    ensures MarkerCount(x + [c]) == MarkerCount(x)
    decreases |x|
  {
    hide Marked, MarkerCount, BlockedLineLen, Space;
    var y := x + [c];
    MarkedMore(x, c);
    if x == "" {
      LoneCharacter(c);
      assert y == [c];
    } else if Marked(x, BLOCKED) {
      var w, e := MatchParts(x);
      var n, n' := BlockedLineLen(x), BlockedLineLen(y);
      CountAt(x);
      CountAt(y);
      if n < |x| {
        PartsShorter(x, c, w, e, n);
        PartsMatch(y, w, e, n);
        assert y[n..] == x[n..] + [c];
        CountSpace(x[n..], c);
      } else {
        if n' < |x| { ShorterMatch(x, c); }
        LoneCharacter(c);
        assert y[n'..] == if n' == |x| then [c] else "";
      }
    } else {
      CountOn(x);
      CountOn(y);
      assert y[1..] == x[1..] + [c];
      CountSpace(x[1..], c);
    }
  }

  lemma LoneCharacter(c: char)
    ensures MarkerCount([c]) == 0 && MarkerCount("") == 0
  {
    MarkShapes();
    assert [c][1..] == "";
  }

  lemma {:induction false} CountTrim(x: string)
    ensures MarkerCount(TrimEnd(x)) == MarkerCount(x)
    decreases |x|
  {
    hide MarkerCount, Space;
    if x != "" && Space(x[|x| - 1]) {
      var n := |x| - 1;
      assert x == x[..n] + [x[n]];
      CountSpace(x[..n], x[n]);
      CountTrim(x[..n]);
    }
  }

  /** `y` is `x` with some boxes ticked. */
  predicate Ticked(x: string, y: string)
  {
    && |y| == |x|
    && forall i {:trigger y[i]} :: 0 <= i < |x| ==>
         y[i] == x[i] || (x[i] == ' ' && y[i] == 'x' && (i == 0 || x[i - 1] == '['))
  }

  lemma TickedJoin(a: string, b: string, x: string, y: string)
    requires Ticked(a, b) && Ticked(x, y) && (x == "" || x[0] == y[0])
    ensures Ticked(a + x, b + y)
  {
  }

  lemma {:induction false} CheckAllTicked(x: string)
    ensures Ticked(x, CheckAll(x)) && (x != "" ==> CheckAll(x)[0] == x[0])
    decreases |x|
  {
    hide CheckAll;
    BoxChars();
    if x == "" {
      NothingTicks();
    } else if BOX <= x {
      TickStep(x);
      CheckAllTicked(x[5..]);
      TickedJoin(BOX, TICKED, x[5..], CheckAll(x[5..]));
      assert x == BOX + x[5..];
    } else {
      CheckAllStep(x);
      CheckAllTicked(x[1..]);
      TickedJoin(x[..1], x[..1], x[1..], CheckAll(x[1..]));
      assert x == x[..1] + x[1..];
    }
  }

  lemma TickedMark(x: string, y: string)
    requires Ticked(x, y)
    ensures Marked(x, BLOCKED) <==> Marked(y, BLOCKED)
  {
    MarkShapes();
    MarkedChars(x, BLOCKED);
    MarkedChars(y, BLOCKED);
    if Marked(x, BLOCKED) {
      MarkStar(x);
      assert forall k :: 0 <= k < 12 ==> y[k] == x[k];
    }
    if Marked(y, BLOCKED) {
      assert forall k :: 0 <= k < 12 ==> LowerChar(y[k]) == BLOCKED[k] != 'x';
      assert forall k :: 0 <= k < 12 ==> y[k] == x[k];
    }
  }

  lemma TickedAt(x: string, y: string, i: nat)
    requires Ticked(x, y) && i < |x|
    ensures y[i] == x[i] || (x[i] == ' ' && y[i] == 'x' && (i == 0 || x[i - 1] == '['))
  {
  }

  lemma TickedTail(x: string, y: string, n: nat)
    requires Ticked(x, y) && n <= |x|
    ensures Ticked(x[n..], y[n..])
  {
    var u, v := x[n..], y[n..];
    forall i | 0 <= i < |u| ensures v[i] == u[i] || (u[i] == ' ' && v[i] == 'x' && (i == 0 || u[i - 1] == '[')) {
      TickedAt(x, y, n + i);
    }
  }

  lemma TickedParts(x: string, y: string, w: nat, e: nat, n: nat)
    requires Ticked(x, y) && Marked(x, BLOCKED) && Parts(x, w, e, n)
    ensures Parts(y, w, e, n) && Ticked(x[n..], y[n..])
  {
    hide Marked, Ticked;
    MarkStar(x);
    TickedTail(x, y, n);
    TickedSize(x, y);
    forall k | 12 <= k < |x| ensures y[k] == x[k] || (x[k] == ' ' && y[k] == 'x' && x[k - 1] == '[') {
      TickedAt(x, y, k);
    }
    forall k | 12 <= k < w ensures y[k] == x[k] {
      if k > 12 { assert Space(x[k - 1]); }
    }
  }

  lemma TickedSize(x: string, y: string)
    requires Ticked(x, y)
    ensures |y| == |x|
  {
  }

  lemma {:induction false} CountTicked(x: string, y: string)
    requires Ticked(x, y)
    ensures MarkerCount(x) == MarkerCount(y) && (RunsOut(x) <==> RunsOut(y))
    decreases |x|
  {
    hide Marked, MarkerCount, RunsOut, BlockedLineLen, Space;
    TickedMark(x, y);
    if x != "" {
      if Marked(x, BLOCKED) {
        var w, e := MatchParts(x);
        var n := BlockedLineLen(x);
        TickedParts(x, y, w, e, n);
        PartsMatch(y, w, e, n);
        CountAt(x);
        CountAt(y);
        CountTicked(x[n..], y[n..]);
      } else {
        CountOn(x);
        CountOn(y);
        TickedTail(x, y, 1);
        CountTicked(x[1..], y[1..]);
      }
    }
  }

  // ---------------------------------------------------------------------
  // Dropping a marker
  // ---------------------------------------------------------------------

  /** The first match: from `start`, its marker at `p`, up to `end`. */
  predicate FirstMarker(s: string, start: nat, p: nat, end: nat)
  {
    && start <= p < end <= |s| && Marked(s[p..], BLOCKED) && end == p + BlockedLineLen(s[p..])
    && (forall i :: 0 <= i < p ==> !Marked(s[i..], BLOCKED))
    && (start == p || (start + 1 == p && s[start] == '\n'))
    && (start == p > 0 ==> s[p - 1] != '\n')
  }

  lemma BlockedStarts(x: string)
    ensures BlockedLen(x).Some? <==> Marked(x, BLOCKED) || (x != "" && x[0] == '\n' && Marked(x[1..], BLOCKED))
    ensures Marked(x, BLOCKED) ==> BlockedLen(x) == Some(BlockedLineLen(x))
    ensures BlockedLen(x).Some? && !Marked(x, BLOCKED) ==> BlockedLen(x) == Some(1 + BlockedLineLen(x[1..]))
  {
    hide Marked, BlockedLineLen;
  }

  lemma FirstBlocked(s: string)
    requires !NoMark(s, BLOCKED)
    ensures var i := First(0, |s|, BlockedAt(s));
            0 <= i <= |s| && BlockedLen(s[i..]).Some? && forall j :: 0 <= j < i ==> BlockedLen(s[j..]).None?
  {
    hide Marked, BlockedLen, BlockedLineLen, First;
    var k :| 0 <= k <= |s| && Marked(s[k..], BLOCKED);
    assert From(s, k) == s[k..];
    BlockedStarts(s[k..]);
    assert BlockedAt(s)(k);
    var i := First(0, |s|, BlockedAt(s));
    assert BlockedAt(s)(i) && From(s, i) == s[i..];
    forall j | 0 <= j < i ensures BlockedLen(s[j..]).None? {
      assert !BlockedAt(s)(j) && From(s, j) == s[j..];
    }
  }

  lemma DropUnfolds(s: string, i: nat, n: nat)
    requires i + n <= |s| && First(0, |s|, BlockedAt(s)) == i && BlockedLen(s[i..]) == Some(n)
    ensures DropBlocked(s) == s[..i] + "\n" + s[i + n..]
  {
    hide BlockedLen, First;
    assert From(s, i) == s[i..];
  }

  /** Dropping takes out the first match. */
  lemma DropParts(s: string) returns (start: nat, p: nat, end: nat)
    requires !NoMark(s, BLOCKED)
    ensures FirstMarker(s, start, p, end) && DropBlocked(s) == s[..start] + "\n" + s[end..]
  {
    hide Marked, BlockedLen, BlockedLineLen, First, DropBlocked, NoMark;
    FirstBlocked(s);
    var i := First(0, |s|, BlockedAt(s));
    BlockedStarts(s[i..]);
    start := i;
    p := if Marked(s[i..], BLOCKED) then i else i + 1;
    assert p == i + 1 ==> s[i..][1..] == s[i + 1..] && s[i] == s[i..][0];
    MatchSize(s[p..]);
    end := p + BlockedLineLen(s[p..]);
    DropUnfolds(s, i, end - i);
    forall j: nat | j < p ensures !Marked(s[j..], BLOCKED) {
      BlockedStarts(s[j..]);
      if j == i { UnmarkedStart(s[j..]); }
    }
    if start == p && p > 0 && s[p - 1] == '\n' {
      assert s[p - 1..][1..] == s[p..] && s[p - 1..][0] == s[p - 1];
      BlockedStarts(s[p - 1..]);
    }
  }

  lemma MatchSize(x: string)
    requires Marked(x, BLOCKED)
    ensures 12 <= BlockedLineLen(x) <= |x|
  {
    MarkShapes();
  }

  lemma NothingToDrop(s: string)
    requires NoMark(s, BLOCKED)
    ensures DropBlocked(s) == s
  {
    hide Marked, BlockedLen;
    forall i: nat | i <= |s| ensures !BlockedAt(s)(i) {
      assert From(s, i) == s[i..];
      BlockedStarts(s[i..]);
      if i < |s| { assert s[i..][1..] == s[i + 1..]; }
    }
    FirstNone(|s|, BlockedAt(s));
  }

  lemma DropShrinks(s: string)
    ensures NoMark(s, BLOCKED) ==> DropBlocked(s) == s
    ensures !NoMark(s, BLOCKED) ==> |DropBlocked(s)| + 11 <= |s|
  {
    hide NoMark, DropBlocked, Marked, BlockedLineLen;
    if NoMark(s, BLOCKED) {
      NothingToDrop(s);
    } else {
      var start, p, end := DropParts(s);
      MatchSize(s[p..]);
    }
  }

  /** No marker runs across the break that a dropped match leaves behind. */
  lemma UnmarkedFront(s: string, start: nat, p: nat, rest: string)
    requires start <= p <= |s| && forall i :: 0 <= i < p ==> !Marked(s[i..], BLOCKED)
    ensures var y := s[..start] + "\n" + rest; forall i :: 0 <= i <= start ==> !Marked(y[i..], BLOCKED)
  {
    hide Marked;
    var y := s[..start] + "\n" + rest;
    forall i | 0 <= i <= start ensures !Marked(y[i..], BLOCKED) {
      if Marked(y[i..], BLOCKED) {
        MarkStar(y[i..]);
        assert y[start] == '\n';
        assert y[i..][..12] == s[i..][..12];
        MarkFront(y[i..], s[i..]);
      }
    }
  }

  /** Each drop takes one match. */
  lemma CountDrop(s: string)
    ensures MarkerCount(DropBlocked(s)) == if MarkerCount(s) == 0 then 0 else MarkerCount(s) - 1
  {
    hide Marked, BlockedLineLen, MarkerCount, DropBlocked, NoMark, RunsOut;
    CountZero(s);
    if NoMark(s, BLOCKED) {
      NothingToDrop(s);
    } else {
      var start, p, end := DropParts(s);
      CountFrom(s, p);
      CountAt(s[p..]);
      assert s[p..][end - p..] == s[end..];
      var y := s[..start] + "\n" + s[end..];
      UnmarkedFront(s, start, p, s[end..]);
      CountFrom(y, start + 1);
      assert y[start + 1..] == s[end..];
    }
  }

  /** Clearing the blocked reason takes one match out of a section. */
  lemma CountClear(s: string)
    ensures MarkerCount(ClearBlocked(s)) == if MarkerCount(s) == 0 then 0 else MarkerCount(s) - 1
  {
    hide MarkerCount, DropBlocked, Collapse, TrimEnd, RunsOut;
    CountDrop(s);
    CountCollapse(DropBlocked(s));
    CountTrim(Collapse(DropBlocked(s)));
  }

  lemma {:induction false} CollapseShrinks(x: string)
    ensures |Collapse(x)| <= |x|
    decreases |x|
  {
    hide Collapse;
    if x == "" {
      NothingCollapses();
    } else {
      var k, front := CollapseStep(x);
      CollapseShrinks(x[k..]);
    }
  }

  /**
   helpers.ts promises that running an edit twice is running it once. Clearing the blocked reason keeps
   that promise exactly when the section holds at most one match: it takes out one at a time.
   */
  lemma ClearingTwice(s: string)
    ensures ClearBlocked(ClearBlocked(s)) == ClearBlocked(s) <==> MarkerCount(s) <= 1
  {
    hide Collapse, DropBlocked, TrimEnd, NoMark, NoTriple, MarkerCount;
    var c := Collapse(DropBlocked(s));
    var y := TrimEnd(c);
    CountClear(s);
    CountZero(y);
    DropShrinks(y);
    if NoMark(y, BLOCKED) {
      CollapseNoTriple(DropBlocked(s));
      NoTriplePrefix(c, |y|);
      assert y == c[..|y|];
      TrimTwice(c);
      CollapseKeeps(y);
    } else {
      CollapseShrinks(DropBlocked(y));
      assert TrimEnd(Collapse(DropBlocked(y))) <= Collapse(DropBlocked(y));
    }
  }

  lemma NoTriplePrefix(x: string, n: nat)
    requires NoTriple(x) && n <= |x|
    ensures NoTriple(x[..n])
  {
    forall i | 0 <= i < n - 2 ensures !(x[..n][i] == '\n' && x[..n][i + 1] == '\n' && x[..n][i + 2] == '\n') {
      assert !(x[i] == '\n' && x[i + 1] == '\n' && x[i + 2] == '\n');
    }
  }
}
