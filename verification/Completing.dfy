/**
 Completing a task: when its section ends with a done line, when a blocked marker is left in it, and
 when completing it again changes nothing.
 */
module Completing {
  import opened Text
  import opened Markdown
  import opened Documents
  import opened Sections
  import opened SectionEdits
  import opened Completion
  import opened Tidy
  import opened Markers
  import opened DoneLines

  // ---------------------------------------------------------------------
  // The edits behind the heading
  // ---------------------------------------------------------------------

  /** What the last edits make of a text: no run of three breaks, no space at its end, every box ticked. */
  function Tidied(x: string): string
  {
    CheckAll(TrimEnd(Collapse(x)))
  }

  /** What completing makes of the part of a section that it sees, behind the heading. */
  function Ended(head: string, u: string): string
  {
    Tidied(DropBlocked(WithDone(DonePlace(head, u), u)))
  }

  lemma FirstMarkerIs(s: string, start: nat, p: nat, end: nat)
    requires FirstMarker(s, start, p, end)
    ensures !NoMark(s, BLOCKED) && DropBlocked(s) == s[..start] + "\n" + s[end..]
  {
    hide Marked, BlockedLineLen, DropBlocked;
    assert Marked(s[p..], BLOCKED);
    var i, q, e := DropParts(s);
    assert q == p;
  }

  lemma HeadUnmarked(head: string, u: string, mark: string, i: nat)
    requires Bare(head) && MarkShape(mark) && i < |head|
    ensures !Marked((head + u)[i..], mark)
  {
    hide Find, Marked;
    MarkedChars((head + u)[i..], mark);
    assert (head + u)[i..][0] == head[i];
  }

  lemma BareEnds(head: string)
    requires Bare(head)
    ensures head != "" && head[|head| - 1] == ':' && forall i :: 0 <= i < |head| ==> head[i] != '\n'
  {
  }

  /** Dropping a marker leaves the heading alone. */
  lemma DropHead(head: string, u: string)
    requires Bare(head)
    ensures DropBlocked(head + u) == head + DropBlocked(u)
  {
    hide Marked, DropBlocked, Bare, BlockedLineLen, NoMark;
    var s, h := head + u, |head|;
    MarkShapes();
    BareEnds(head);
    assert forall i: nat :: i <= |u| ==> s[h + i..] == u[i..];
    if NoMark(u, BLOCKED) {
      HeadedNoMark(head, u, BLOCKED);
      NothingToDrop(u);
      NothingToDrop(s);
    } else {
      var start, p, end := DropParts(u);
      forall i | 0 <= i < h + p ensures !Marked(s[i..], BLOCKED) {
        if i < h { HeadUnmarked(head, u, BLOCKED, i); } else { assert s[i..] == u[i - h..]; }
      }
      FirstMarkerIs(s, h + start, h + p, h + end);
      HeadedCuts(head, u, start, end);
    }
  }

  lemma HeadedCuts(head: string, u: string, start: nat, end: nat)
    requires start <= end <= |u|
    ensures var s, h := head + u, |head|; s[..h + start] + "\n" + s[h + end..] == head + (u[..start] + "\n" + u[end..])
  {
    assert (head + u)[..|head| + start] == head + u[..start];
  }

  lemma HeadedNoMark(head: string, u: string, mark: string)
    requires Bare(head) && MarkShape(mark) && NoMark(u, mark)
    ensures NoMark(head + u, mark)
  {
    hide Marked, Bare;
    var s := head + u;
    forall i | 0 <= i <= |s| ensures !Marked(s[i..], mark) {
      if i < |head| { HeadUnmarked(head, u, mark, i); } else { assert s[i..] == u[i - |head|..]; }
    }
  }

  /** The three edits on a section, as one edit of what stands behind its heading. */
  lemma FrontIs(head: string, u: string)
    requires Bare(head) && Literal(u)
    ensures var v := WithDone(DonePlace(head, u), u);
            && SetDone(head + u) == head + v
            && ClearBlocked(head + v) == head + TrimEnd(Collapse(DropBlocked(v)))
            && CheckAll(head + TrimEnd(Collapse(DropBlocked(v)))) == head + Ended(head, u)
  {
    hide SetDone, DonePlace, WithDone, DropBlocked, Collapse, TrimEnd, CheckAll, Literal, NoH3, NoMark, Standing, BOX;
    var v := WithDone(DonePlace(head, u), u);
    SetDoneIs(head, u);
    DropHead(head, v);
    BareEnds(head);
    CollapseHead(head, DropBlocked(v));
    TrimHead(head, Collapse(DropBlocked(v)));
    BareNoBox(head);
    CheckAllHead(head, TrimEnd(Collapse(DropBlocked(v))));
  }

  lemma BareNoBox(head: string)
    requires Bare(head)
    ensures NoBox(head) && head[|head| - 1] == ':'
  {
  }

  // ---------------------------------------------------------------------
  // Third-level lines
  // ---------------------------------------------------------------------

  lemma {:induction false} CollapseH3(x: string, i: nat) returns (j: nat)
    requires At(Collapse(x), i, H3)
    ensures At(x, j, H3)
    decreases |x|
  {
    hide Collapse, SpanLen;
    var y := Collapse(x);
    H3Chars(y, i);
    if x == "" { NothingCollapses(); }
    var k, front := CollapseStep(x);
    var e := |front|;
    assert y[e..] == Collapse(x[k..]);
    if i >= e {
      H3Chars(Collapse(x[k..]), i - e);
      j := CollapseH3(x[k..], i - e);
      H3Chars(x[k..], j);
      H3Chars(x, k + j);
      j := k + j;
    } else {
      BreaksAre(x, SpanLen(x, Newline));
      H3AtStep(x, k, front, i);
      j := k - 1;
    }
  }

  lemma HashesFront(rest: string)
    requires var c := Collapse(rest); |c| >= 3 && c[0] == '#' && c[1] == '#' && c[2] == '#'
    ensures |rest| >= 3 && rest[0] == '#' && rest[1] == '#' && rest[2] == '#'
  {
    hide Collapse;
    var c := Collapse(rest);
    CollapseFront(rest, 3);
    assert rest[..3][0] == c[..3][0] && rest[..3][1] == c[..3][1] && rest[..3][2] == c[..3][2];
  }

  /** A third-level line that opens in the front of `front + c` opens in its last break. */
  lemma H3InFront(front: string, c: string, i: nat)
    requires i < |front| && At(front + c, i, H3)
    requires ((|front| == 1 && front[0] != '\n') || forall j :: 0 <= j < |front| ==> front[j] == '\n')
    ensures front[i] == '\n' && |c| >= 3 && c[0] == '#' && c[1] == '#' && c[2] == '#'
  {
    var y := front + c;
    H3Chars(y, i);
    assert y[i] == front[i];
    var n := |front|;
    assert forall j :: 0 <= j < n ==> y[j] == front[j];
    assert c[0] == y[n] && c[1] == y[n + 1] && c[2] == y[n + 2];
  }

  lemma H3AtStep(x: string, k: nat, front: string, i: nat)
    requires 0 < k <= |x| && i < |front| && At(front + Collapse(x[k..]), i, H3)
    requires (|front| == 1 && front[0] != '\n')
             || ((forall j :: 0 <= j < |front| ==> front[j] == '\n') && x[k - 1] == '\n')
    ensures At(x, k - 1, H3)
  {
    hide Collapse, SpanLen, At, H3;
    H3InFront(front, Collapse(x[k..]), i);
    HashesFront(x[k..]);
    HashesBehind(x, k);
  }

  lemma HashesBehind(x: string, k: nat)
    requires 0 < k <= |x| && x[k - 1] == '\n' && |x[k..]| >= 3 && x[k..][0] == '#' && x[k..][1] == '#'
    requires x[k..][2] == '#'
    ensures At(x, k - 1, H3)
  {
    H3Chars(x, k - 1);
  }

  lemma CollapseLow(x: string)
    requires NoH3(x)
    ensures NoH3(Collapse(x))
  {
    hide Collapse, At;
    forall i | 0 <= i <= |Collapse(x)| ensures !At(Collapse(x), i, H3) {
      if At(Collapse(x), i, H3) {
        var j := CollapseH3(x, i);
        H3Chars(x, j);
      }
    }
  }

  lemma TicksLow(x: string, y: string)
    requires NoH3(x) && Ticks(x, y)
    ensures NoH3(y)
  {
    forall i | 0 <= i <= |y| ensures !At(y, i, H3) {
      H3Chars(y, i);
      H3Chars(x, i);
      assert !At(x, i, H3);
    }
  }

  lemma DropLow(s: string)
    requires NoH3(s)
    ensures NoH3(DropBlocked(s))
  {
    hide Marked, DropBlocked, NoMark, At, BlockedLineLen;
    if NoMark(s, BLOCKED) {
      NothingToDrop(s);
    } else {
      var start, p, end := DropParts(s);
      MatchEnds(s[p..]);
      var y := s[..start] + "\n" + s[end..];
      forall i | 0 <= i <= |y| ensures !At(y, i, H3) {
        H3Chars(y, i);
        if i + 4 <= start {
          H3Chars(s, i);
          assert !At(s, i, H3);
        } else if i == start {
          H3Chars(s, end - 1);
          assert !At(s, end - 1, H3);
          assert s[p..][end - p - 1] == s[end - 1];
          assert end < |s| ==> s[p..][end - p] == s[end];
        } else if i > start {
          var j := i - start - 1 + end;
          H3Chars(s, j);
          if j <= |s| { assert !At(s, j, H3); }
        } else {
          assert y[start] == '\n';
        }
      }
    }
  }

  lemma MatchEnds(x: string)
    requires Marked(x, BLOCKED)
    ensures var n := BlockedLineLen(x); 12 <= n <= |x| && (n < |x| ==> LineTerm(x[n]) || x[n - 1] == '\n')
  {
    MarkShapes();
  }

  lemma TidiedLow(x: string)
    requires NoH3(x)
    ensures NoH3(Tidied(x))
  {
    hide Collapse, TrimEnd, CheckAll, NoH3, Ticks;
    var c := Collapse(x);
    CollapseLow(x);
    assert TrimEnd(c) == c[..|TrimEnd(c)|];
    PrefixNoH3(c, |TrimEnd(c)|);
    CheckAllTicks(TrimEnd(c));
    TicksLow(TrimEnd(c), CheckAll(TrimEnd(c)));
  }

  // ---------------------------------------------------------------------
  // The text behind what completion sees
  // ---------------------------------------------------------------------

  /** What may stand behind the part of a body that completion sees. */
  predicate Beyond(t: string, last: bool)
  {
    (H3 <= t && (last || EndsLine(t))) || t == if last then "" else "\n"
  }

  lemma CutSplits(x: string, last: bool)
    requires last || EndsLine(x)
    ensures NoH3(x[..Cut(x, last)]) && Beyond(x[Cut(x, last)..], last)
  {
    var cut := Cut(x, last);
    var e := Find(x, H3, 0);
    forall i | 0 <= i <= cut ensures !At(x[..cut], i, H3) {
      H3Chars(x[..cut], i);
      H3Chars(x, i);
      if i + 4 <= cut { assert !At(x, i, H3); }
    }
    if e != -1 {
      assert x[e..] == H3 + x[e + 4..] by { assert x[e..e + 4] == H3; }
    } else if !last {
      assert x[cut..] == [x[cut]];
    }
  }

  lemma CutAgain(u: string, t: string, last: bool)
    requires NoH3(u) && Beyond(t, last)
    ensures Cut(u + t, last) == |u|
  {
    var x := u + t;
    forall i: nat | i < |u| ensures !At(x, i, H3) {
      H3Chars(x, i);
      H3Chars(u, i);
      assert !At(u, i, H3);
      if t != "" { assert x[|u|] == t[0] == '\n' by { OpensBreak(t, last); } }
    }
    if H3 <= t {
      assert x[|u|..|u| + 4] == t[..4] == H3;
      FindIs(x, H3, 0, |u|);
    } else {
      forall j: nat ensures !At(x, j, H3) {
        if j >= |u| { H3Chars(x, j); }
      }
      FindNone(x, H3, 0);
    }
  }

  lemma OpensBreak(t: string, last: bool)
    requires Beyond(t, last) && t != ""
    ensures t[0] == '\n'
  {
    if H3 <= t { assert t[0] == H3[0]; }
  }

  lemma OnFrontIs(head: string, u: string, t: string, last: bool, f: string -> string, v: string)
    requires NoH3(u) && Beyond(t, last) && f(head + u) == head + v
    ensures OnFront(head, u + t, last, f) == v + t
  {
    hide Cut, NoH3, Beyond;
    CutAgain(u, t, last);
    FromHead(head, v);
    assert (u + t)[..|u|] == u && (u + t)[|u|..] == t;
  }

  lemma CompletedUnfolds(head: string, body: string, last: bool, x1: string, x2: string, x3: string)
    requires OnFront(head, body, last, SetDone) == x1 && OnFront(head, x1, last, ClearBlocked) == x2
    requires OnFront(head, x2, last, CheckAll) == x3
    ensures Completed(head, body, last) == x3
  {
    hide OnFront;
  }

  /** Completing a task rewrites what stands before its first third-level line, and nothing from there on. */
  lemma CompletedIs(head: string, u: string, t: string, last: bool)
    requires Bare(head) && Literal(u) && NoH3(u) && Beyond(t, last)
    ensures Completed(head, u + t, last) == Ended(head, u) + t && NoH3(Ended(head, u))
  {
    var v := WithDone(DonePlace(head, u), u);
    var w := TrimEnd(Collapse(DropBlocked(v)));
    hide *;
    SetDoneIs(head, u);
    FrontIs(head, u);
    DropLow(v);
    TrimLow(DropBlocked(v));
    EndedLow(head, u);
    OnFrontIs(head, u, t, last, SetDone, v);
    OnFrontIs(head, v, t, last, ClearBlocked, w);
    OnFrontIs(head, w, t, last, CheckAll, Ended(head, u));
    CompletedUnfolds(head, u + t, last, v + t, w + t, Ended(head, u) + t);
  }

  lemma TrimLow(x: string)
    requires NoH3(x)
    ensures NoH3(TrimEnd(Collapse(x)))
  {
    hide Collapse, TrimEnd, NoH3;
    var c := Collapse(x);
    CollapseLow(x);
    assert TrimEnd(c) == c[..|TrimEnd(c)|];
    PrefixNoH3(c, |TrimEnd(c)|);
  }

  lemma EndedLow(head: string, u: string)
    requires NoH3(DropBlocked(WithDone(DonePlace(head, u), u)))
    ensures NoH3(Ended(head, u))
  {
    TidiedLow(DropBlocked(WithDone(DonePlace(head, u), u)));
  }

  // ---------------------------------------------------------------------
  // Dropping a marker from text with a done line
  // ---------------------------------------------------------------------

  lemma StoodChars(a: string, b: string)
    ensures var x, y := a + "**", Stood(a, b);
            && |y| == |a| + 16 + |b| && y[|a| + 16..] == b && (forall k :: 0 <= k < |a| + 2 ==> y[k] == x[k])
            && (forall k :: |a| <= k < |a| + 16 ==> y[k] == DONE_LINE[k - |a|] && !LineTerm(y[k]))
            && (forall k :: |a| <= k < |a| + 11 ==> !Space(y[k]))
  {
  }

  /** Up to its own asterisks, a done line leaves the markers before it as they were. */
  lemma StoodMarkers(a: string, b: string, i: nat)
    requires i < |a| + 16
    ensures Marked(Stood(a, b)[i..], BLOCKED) <==> i <= |a + "**"| && Marked((a + "**")[i..], BLOCKED)
  {
    hide Marked, DONE_LINE;
    MarkShapes();
    StoodChars(a, b);
    var x, y := a + "**", Stood(a, b);
    MarkedChars(y[i..], BLOCKED);
    DoneMarks(a, b, BLOCKED, i);
    if i <= |x| { MarkedChars(x[i..], BLOCKED); }
    if i + 12 <= |x| {
      assert x[i..i + 12] == y[i..i + 12];
      MarkFactor(x, i, y, i, BLOCKED);
    }
  }

  /** The first match of the blocked pattern before the done line runs on through it. */
  predicate TakesDone(a: string)
  {
    var x := a + "**";
    var i := First(0, |x|, BlockedAt(x));
    i != -1 && i + Default(BlockedLen(From(x, i))) == |x|
  }

  /** What stands before that match. */
  function TakenFrom(a: string): string
  {
    var x := a + "**";
    var i := First(0, |x|, BlockedAt(x));
    if 0 <= i <= |a| then a[..i] else a
  }

  /** What is left before the done line when a match that ends there is dropped. */
  function DropAhead(a: string): string
  {
    var y := DropBlocked(a + "**");
    if |y| >= 2 then y[..|y| - 2] else ""
  }

  lemma TakesIs(a: string, start: nat, p: nat, end: nat)
    requires FirstMarker(a + "**", start, p, end)
    ensures (TakesDone(a) <==> end == |a| + 2) && start <= |a| && TakenFrom(a) == a[..start]
    ensures end == |a| + 2 || end <= |a|
  {
    hide Marked, BlockedLineLen;
    var x := a + "**";
    FirstMarkerFound(x, start, p, end);
    MarkStar(x[p..]);
    MatchEnds(x[p..]);
    StarPlain();
    assert x[|a|] == '*' && x[|a| + 1] == '*';
  }

  lemma NoMatchAhead(s: string, start: nat, p: nat, end: nat, i: nat)
    requires FirstMarker(s, start, p, end) && i < start
    ensures !BlockedAt(s)(i)
  {
    hide Marked, BlockedLineLen, BlockedLen;
    assert From(s, i) == s[i..] && s[i..][0] == s[i] && s[i..][1..] == s[i + 1..];
    BlockedStarts(s[i..]);
  }

  lemma FirstMarkerFound(s: string, start: nat, p: nat, end: nat)
    requires FirstMarker(s, start, p, end)
    ensures First(0, |s|, BlockedAt(s)) == start && BlockedLen(From(s, start)) == Some(end - start)
  {
    hide Marked, BlockedLineLen, BlockedLen, First;
    assert From(s, start) == s[start..];
    BlockedStarts(s[start..]);
    if start < p { assert s[start..][0] == s[start] && s[start..][1..] == s[p..]; UnmarkedStart(s[start..]); }
    forall i: nat | i < start ensures !BlockedAt(s)(i) {
      NoMatchAhead(s, start, p, end, i);
    }
    assert BlockedAt(s)(start);
    FirstIs(|s|, BlockedAt(s), start);
  }

  lemma StoodBehind(a: string, b: string)
    ensures var y, k := Stood(a, b), |a| + 16; |y| == k + |b| && forall i: nat :: i <= |b| ==> y[k + i..] == b[i..]
  {
    hide DONE_LINE;
    DoneShape();
  }

  /** No marker before the done line: one behind it goes. */
  lemma DropBehind(a: string, b: string)
    requires NoMark(a + "**", BLOCKED) && (b == "" || LineTerm(b[0]))
    ensures DropBlocked(Stood(a, b)) == Stood(a, DropBlocked(b))
    ensures (DropBlocked(b) == "" || LineTerm(DropBlocked(b)[0]))
  {
    hide Marked, DropBlocked, BlockedLineLen, DONE_LINE, Stood;
    var y, k := Stood(a, b), |a| + 16;
    StoodChars(a, b);
    StoodBehind(a, b);
    forall i | 0 <= i < k ensures !Marked(y[i..], BLOCKED) {
      StoodMarkers(a, b, i);
    }
    if NoMark(b, BLOCKED) {
      forall i | 0 <= i <= |y| ensures !Marked(y[i..], BLOCKED) {
        if i >= k { assert y[i..] == b[i - k..]; }
      }
      NothingToDrop(b);
      NothingToDrop(y);
    } else {
      var start, p, end := DropParts(b);
      assert b[0..] == b;
      if p == 0 { MarkStar(b[0..]); }
      forall i | 0 <= i < k + p ensures !Marked(y[i..], BLOCKED) {
        if i >= k { assert y[i..] == b[i - k..]; }
      }
      FirstMarkerIs(y, k + start, k + p, k + end);
      BehindCuts(a, b, start, end);
    }
  }

  lemma BehindCuts(a: string, b: string, start: nat, end: nat)
    requires start <= end <= |b|
    ensures var y, k := Stood(a, b), |a| + 16;
            k + end <= |y| && y[..k + start] + "\n" + y[k + end..] == Stood(a, b[..start] + "\n" + b[end..])
  {
    hide DONE_LINE;
    DoneShape();
    var y, k := Stood(a, b), |a| + 16;
    assert y[..k + start] == a + DONE_LINE + b[..start] && y[k + end..] == b[end..];
  }

  lemma BeforeMarker(a: string, b: string, start: nat, p: nat, end: nat)
    requires FirstMarker(a + "**", start, p, end) && end <= |a|
    ensures FirstMarker(Stood(a, b), start, p, end)
  {
    hide Marked, BlockedLineLen, DONE_LINE;
    var x, y := a + "**", Stood(a, b);
    StoodChars(a, b);
    forall i | 0 <= i <= p ensures Marked(y[i..], BLOCKED) <==> Marked(x[i..], BLOCKED) {
      StoodMarkers(a, b, i);
    }
    var w, e := MatchParts(x[p..]);
    assert forall k :: 0 <= k <= end - p ==> y[p..][k] == y[p + k] && x[p..][k] == x[p + k];
    SameParts(x[p..], y[p..], w, e, end - p);
  }

  lemma BeforeCuts(a: string, b: string, start: nat, end: nat)
    requires start <= end <= |a|
    ensures var x, y, a' := a + "**", Stood(a, b), a[..start] + "\n" + a[end..];
            x[..start] + "\n" + x[end..] == a' + "**" && y[..start] + "\n" + y[end..] == Stood(a', b)
  {
    hide DONE_LINE;
    var x, y := a + "**", Stood(a, b);
    assert x[..start] == a[..start] == y[..start];
    assert x[end..] == a[end..] + "**";
    assert y[end..] == a[end..] + DONE_LINE + b;
  }

  /** A match that ends before the done line goes. */
  lemma DropBefore(a: string, b: string)
    requires !NoMark(a + "**", BLOCKED) && !TakesDone(a)
    ensures DropBlocked(Stood(a, b)) == Stood(DropAhead(a), b) && DropBlocked(a + "**") == DropAhead(a) + "**"
  {
    hide Marked, DropBlocked, BlockedLineLen, TakesDone, NoMark, Stood, FirstMarker;
    var start, p, end := DropParts(a + "**");
    TakesIs(a, start, p, end);
    BeforeMarker(a, b, start, p, end);
    MarkerOrder(a + "**", start, p, end);
    FirstMarkerIs(Stood(a, b), start, p, end);
    BeforeCuts(a, b, start, end);
    var a' := a[..start] + "\n" + a[end..];
    assert (a' + "**")[..|a'|] == a';
  }

  lemma MarkerOrder(s: string, start: nat, p: nat, end: nat)
    requires FirstMarker(s, start, p, end)
    ensures start <= p < end <= |s|
  {
  }

  lemma SameParts(x: string, y: string, w: nat, e: nat, n: nat)
    requires Marked(y, BLOCKED) && Parts(x, w, e, n) && n < |x| && n < |y| && forall k :: 0 <= k <= n ==> y[k] == x[k]
    ensures BlockedLineLen(y) == n
  {
    hide Marked, BlockedLineLen, Space, LineTerm;
    PartsMatch(y, w, e, n);
  }

  /** A match that runs on takes the done line with it, and the breaks behind it. */
  lemma DropThrough(a: string, b: string)
    requires TakesDone(a) && (b == "" || LineTerm(b[0]))
    ensures !NoMark(a + "**", BLOCKED)
    ensures DropBlocked(Stood(a, b)) == TakenFrom(a) + "\n" + b[SpanLen(b, Newline)..]
    ensures |TakenFrom(a)| + 10 <= |a|
  {
    hide Marked, DropBlocked, BlockedLineLen, TakesDone, NoMark, DONE_LINE, BlockedLen, First, Stood, TakenFrom, Parts;
    var x, y := a + "**", Stood(a, b);
    TakesMarked(a);
    var start, p, end := DropParts(x);
    TakesIs(a, start, p, end);
    StoodChars(a, b);
    MarkStar(x[p..]);
    forall i | 0 <= i <= p ensures Marked(y[i..], BLOCKED) <==> Marked(x[i..], BLOCKED) {
      StoodMarkers(a, b, i);
    }
    var w, e := MatchParts(x[p..]);
    var n := SpanLen(b, Newline);
    ThroughParts(a, b, p, w, e, n);
    MatchSize(x[p..]);
    StoodBehind(a, b);
    FirstMarkerIs(y, start, p, |a| + 16 + n);
    FrontOfStood(a, b, start);
  }

  lemma FrontOfStood(a: string, b: string, n: nat)
    requires n <= |a|
    ensures n <= |Stood(a, b)| && Stood(a, b)[..n] == a[..n]
  {
    hide DONE_LINE;
  }

  lemma TakesMarked(a: string)
    requires TakesDone(a)
    ensures !NoMark(a + "**", BLOCKED)
  {
    hide Marked, BlockedLen;
    var x := a + "**";
    var i := First(0, |x|, BlockedAt(x));
    assert BlockedAt(x)(i) && From(x, i) == x[i..];
    BlockedStarts(x[i..]);
    if !Marked(x[i..], BLOCKED) { assert x[i..][1..] == x[i + 1..]; }
  }

  lemma ThroughParts(a: string, b: string, p: nat, w: nat, e: nat, n: nat)
    requires p + 12 <= |a| + 2 && Marked(Stood(a, b)[p..], BLOCKED) && Parts((a + "**")[p..], w, e, |a| + 2 - p)
    requires n == SpanLen(b, Newline) && (b == "" || LineTerm(b[0]))
    ensures BlockedLineLen(Stood(a, b)[p..]) == |a| + 16 + n - p
  {
    hide Marked, BlockedLineLen, DONE_LINE, Space, LineTerm;
    var x, y := (a + "**")[p..], Stood(a, b)[p..];
    var m := |a| - p;
    StoodChars(a, b);
    BreaksAre(b, n);
    assert forall k :: 0 <= k < m + 2 ==> y[k] == Stood(a, b)[p + k] && x[k] == (a + "**")[p + k] && y[k] == x[k];
    assert forall k :: m <= k < m + 16 ==> y[k] == Stood(a, b)[p + k];
    assert forall k :: m + 16 <= k < |y| ==> y[k] == b[k - m - 16];
    assert x[m] == '*' && x[m + 1] == '*';
    StarPlain();
    assert e == m + 2;
    assert w < m + 2 ==> y[w] == x[w];
    PartsMatch(y, w, m + 16, m + 16 + n);
  }

  lemma StarPlain()
    ensures !Space('*') && !LineTerm('*') && LineTerm('\n')
  {
  }
}
