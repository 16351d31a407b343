/**
 Text that stands besides blocked markers: taking markers out, and tidying up, never takes all of it away.
 */
module Remains {
  import opened Text
  import opened Markdown
  import opened Tidy
  import opened Markers
  import opened Completing

  /** Some character of `x` is neither a space nor in a match of the blocked pattern. */
  predicate Solid(x: string)
    decreases |x|
  {
    x != "" && if Marked(x, BLOCKED) then Solid(x[BlockedLineLen(x)..]) else !Space(x[0]) || Solid(x[1..])
  }

  lemma SolidAt(x: string)
    requires Marked(x, BLOCKED)
    ensures x != "" && 12 <= BlockedLineLen(x) <= |x| && (Solid(x) <==> Solid(x[BlockedLineLen(x)..]))
  {
    MarkShapes();
  }

  lemma SolidOn(x: string)
    requires x != "" && !Marked(x, BLOCKED)
    ensures Solid(x) <==> !Space(x[0]) || Solid(x[1..])
  {
  }

  lemma NothingSolid()
    ensures !Solid("")
  {
  }

  lemma {:induction false} SolidFrom(x: string, p: nat)
    requires p <= |x| && forall i :: 0 <= i < p ==> !Marked(x[i..], BLOCKED)
    ensures Solid(x) <==> Solid(x[p..]) || exists i :: 0 <= i < p && !Space(x[i])
  {
    hide Marked, Solid, Space;
    assert x[0..] == x;
    if p > 0 {
      SolidOn(x);
      assert forall i :: 0 <= i < p - 1 ==> x[1..][i..] == x[i + 1..];
      SolidFrom(x[1..], p - 1);
      assert x[1..][p - 1..] == x[p..];
      assert forall i :: 0 <= i < p - 1 ==> x[1..][i] == x[i + 1];
      assert forall i :: 1 <= i < p ==> x[i] == x[1..][i - 1];
    }
  }

  lemma DropSolid(s: string)
    requires Solid(s)
    ensures Solid(DropBlocked(s))
  {
    hide Marked, BlockedLineLen, DropBlocked, NoMark, Solid, Space;
    if NoMark(s, BLOCKED) {
      NothingToDrop(s);
    } else {
      var start, p, end := DropParts(s);
      SolidFrom(s, p);
      SolidAt(s[p..]);
      assert s[p..][end - p..] == s[end..];
      var y := s[..start] + "\n" + s[end..];
      UnmarkedFront(s, start, p, s[end..]);
      SolidFrom(y, start + 1);
      SpaceIsBreak();
      assert y[start + 1..] == s[end..];
      assert forall i :: 0 <= i < start ==> y[i] == s[i];
    }
  }

  lemma {:induction false} CollapseSolid(x: string)
    requires Solid(x)
    ensures Solid(Collapse(x))
    decreases |x|
  {
    hide Marked, Solid, Collapse, BlockedLineLen, Space;
    NothingSolid();
    if Marked(x, BLOCKED) {
      MatchCollapses(x);
      SolidAt(x);
      SolidAt(Collapse(x));
      CollapseSolid(x[BlockedLineLen(x)..]);
    } else {
      var k, front := CollapseStep(x);
      BreaksAre(x, SpanLen(x, Newline));
      SpaceIsBreak();
      StepUnmarked(x, k, front);
      SolidFrom(x, k);
      var y := front + Collapse(x[k..]);
      SolidFrom(y, |front|);
      assert y[|front|..] == Collapse(x[k..]);
      if Solid(x[k..]) {
        CollapseSolid(x[k..]);
      } else {
        assert x[0] != '\n' ==> front == x[..1] && y[0] == x[0];
      }
    }
  }

  lemma {:induction false} SolidSpace(x: string, c: char)
    requires Space(c) && Solid(x + [c])
    ensures Solid(x)
    decreases |x|
  {
    hide Marked, Solid, BlockedLineLen, Space;
    var y := x + [c];
    MarkedMore(x, c);
    if x == "" {
      assert y == [c];
      LoneSpace(c);
    } else if Marked(x, BLOCKED) {
      var w, e := MatchParts(x);
      var n, n' := BlockedLineLen(x), BlockedLineLen(y);
      SolidAt(x);
      SolidAt(y);
      if n < |x| {
        PartsShorter(x, c, w, e, n);
        PartsMatch(y, w, e, n);
        assert y[n..] == x[n..] + [c];
        SolidSpace(x[n..], c);
      } else {
        if n' < |x| { ShorterMatch(x, c); }
        assert y[n'..] == if n' == |x| then [c] else "";
        LoneSpace(c);
      }
    } else {
      SolidOn(x);
      SolidOn(y);
      assert y[1..] == x[1..] + [c];
      if Space(x[0]) { SolidSpace(x[1..], c); }
    }
  }

  lemma LoneSpace(c: char)
    requires Space(c)
    ensures !Solid([c]) && !Solid("")
  {
    MarkShapes();
    assert [c][1..] == "";
  }

  lemma {:induction false} TrimSolid(x: string)
    requires Solid(x)
    ensures Solid(TrimEnd(x))
    decreases |x|
  {
    hide Solid, Space;
    if x != "" && Space(x[|x| - 1]) {
      var n := |x| - 1;
      assert x == x[..n] + [x[n]];
      SolidSpace(x[..n], x[n]);
      TrimSolid(x[..n]);
    }
  }

  lemma {:induction false} TickedSolid(x: string, y: string)
    requires Ticked(x, y) && Solid(x)
    ensures Solid(y)
    decreases |x|
  {
    hide Marked, Solid, BlockedLineLen, Space;
    NothingSolid();
    TickedMark(x, y);
    if Marked(x, BLOCKED) {
      var w, e := MatchParts(x);
      var n := BlockedLineLen(x);
      TickedParts(x, y, w, e, n);
      PartsMatch(y, w, e, n);
      SolidAt(x);
      SolidAt(y);
      TickedSolid(x[n..], y[n..]);
    } else {
      SolidOn(x);
      SolidOn(y);
      TickedTail(x, y, 1);
      TickNotSpace();
      if Solid(x[1..]) { TickedSolid(x[1..], y[1..]); }
    }
  }

  lemma TickNotSpace()
    ensures Space(' ') && !Space('x')
  {
  }

  /** What stands besides markers is still there when the edits are done. */
  lemma TidiedSolid(x: string)
    requires Solid(x)
    ensures Solid(Tidied(x))
  {
    hide Solid, Collapse, TrimEnd, CheckAll, Ticked;
    CollapseSolid(x);
    TrimSolid(Collapse(x));
    CheckAllTicked(TrimEnd(Collapse(x)));
    TickedSolid(TrimEnd(Collapse(x)), CheckAll(TrimEnd(Collapse(x))));
  }

  lemma BreakSolid(b: string)
    requires Solid(b)
    ensures Solid("\n" + b)
  {
    hide Solid, Marked, Space;
    var y := "\n" + b;
    UnmarkedStart(y);
    SolidOn(y);
    assert y[1..] == b;
  }
}
