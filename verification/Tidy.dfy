/**
 Texts the completion edits leave alone, and what those edits keep.
 */
module Tidy {
  import opened Text
  import opened Markdown
  import opened Documents
  import opened SectionEdits

  /** No three line breaks in a row. */
  predicate NoTriple(x: string)
  {
    forall i :: 0 <= i < |x| - 2 ==> !(x[i] == '\n' && x[i + 1] == '\n' && x[i + 2] == '\n')
  }

  /** `mark`, a lower-case text, stands nowhere in `x`. */
  predicate NoMark(x: string, mark: string)
  {
    forall i :: 0 <= i <= |x| ==> !Marked(x[i..], mark)
  }

  /** `y` and `x` agree, but that `y` may have an `x` where `x` has a space. */
  predicate Ticks(x: string, y: string)
  {
    |y| == |x| && forall i :: 0 <= i < |x| ==> y[i] == x[i] || (x[i] == ' ' && y[i] == 'x')
  }

  // ---------------------------------------------------------------------
  // Collapsing
  // ---------------------------------------------------------------------

  lemma TripleSpan(x: string)
    requires SpanLen(x, Newline) >= 3
    ensures !NoTriple(x)
  {
    assert Newline(x[0]) && Newline(x[1]) && Newline(x[2]);
  }

  lemma NoTripleTail(x: string, n: nat)
    requires NoTriple(x) && n <= |x|
    ensures NoTriple(x[n..])
  {
    forall i | 0 <= i < |x[n..]| - 2 ensures !(x[n..][i] == '\n' && x[n..][i + 1] == '\n' && x[n..][i + 2] == '\n') {
      assert !(x[n + i] == '\n' && x[n + i + 1] == '\n' && x[n + i + 2] == '\n');
    }
  }

  lemma {:induction false} CollapseKeeps(x: string)
    requires NoTriple(x)
    ensures Collapse(x) == x
    decreases |x|
  {
    hide NoTriple;
    if x != "" {
      var n := SpanLen(x, Newline);
      if n >= 3 { TripleSpan(x); }
      var k := if n > 0 then n else 1;
      NoTripleTail(x, k);
      CollapseKeeps(x[k..]);
      assert x == x[..k] + x[k..];
    }
  }

  /** A text behind at most two breaks and something else holds a triple only where its tail does. */
  lemma NoTripleJoin(front: string, y: string)
    requires NoTriple(y) && (front == "\n\n" || front == "\n" || (|front| == 1 && front[0] != '\n'))
    requires front[0] != '\n' || y == "" || y[0] != '\n'
    ensures NoTriple(front + y)
  {
    var x := front + y;
    forall i | 0 <= i < |x| - 2 ensures !(x[i] == '\n' && x[i + 1] == '\n' && x[i + 2] == '\n') {
      if i >= |front| {
        assert !(y[i - |front|] == '\n' && y[i - |front| + 1] == '\n' && y[i - |front| + 2] == '\n');
      }
    }
  }

  lemma {:induction false} CollapseStart(x: string)
    ensures x == "" <==> Collapse(x) == ""
    ensures x != "" ==> Collapse(x)[0] == x[0]
  {
    if x != "" && SpanLen(x, Newline) >= 1 { assert Newline(x[0]); }
  }

  lemma {:induction false} CollapseNoTriple(x: string)
    ensures NoTriple(Collapse(x))
    decreases |x|
  {
    hide NoTriple;
    if x == "" {
      NoTripleEmpty();
    } else {
      var n := SpanLen(x, Newline);
      var k := if n > 0 then n else 1;
      CollapseNoTriple(x[k..]);
      CollapseStart(x[k..]);
      if n == 1 || n == 2 {
        assert forall i :: 0 <= i < n ==> Newline(x[i]);
        assert x[..n] == if n == 1 then "\n" else "\n\n";
      }
      NoTripleJoin(if n >= 3 then "\n\n" else x[..k], Collapse(x[k..]));
    }
  }

  lemma NoTripleEmpty()
    ensures NoTriple("")
  {
  }

  /** One step of collapsing: what it takes off the front, and what it makes of that. */
  lemma CollapseStep(x: string) returns (k: nat, front: string)
    requires x != ""
    ensures 0 < k <= |x| && Collapse(x) == front + Collapse(x[k..]) && front != "" && |front| <= k
    ensures (SpanLen(x, Newline) == 0 && k == 1 && front == x[..1] && front[0] != '\n')
            || (SpanLen(x, Newline) == k && forall i :: 0 <= i < |front| ==> front[i] == '\n')
    ensures front == if k >= 3 then "\n\n" else x[..k]
  {
    hide Newline;
    var n := SpanLen(x, Newline);
    k := if n > 0 then n else 1;
    front := if n >= 3 then "\n\n" else x[..k];
    BreaksAre(x, n);
  }

  lemma BreaksAre(x: string, n: nat)
    requires n == SpanLen(x, Newline)
    ensures (forall i :: 0 <= i < n ==> x[i] == '\n') && (n < |x| ==> x[n] != '\n')
  {
    assert forall i :: 0 <= i < n ==> Newline(x[i]);
    assert n < |x| ==> !Newline(x[n]);
  }

  lemma StepOf(x: string, k: nat, front: string)
    requires 0 < k <= |x| && front == (if k >= 3 then "\n\n" else x[..k])
    requires SpanLen(x, Newline) == k || (SpanLen(x, Newline) == 0 && k == 1)
    ensures Collapse(x) == front + Collapse(x[k..])
  {
  }

  /** A text that does not open with a break collapses on its own. */
  lemma {:induction false} CollapseSplit(x: string, y: string)
    requires y == "" || y[0] != '\n'
    ensures Collapse(x + y) == Collapse(x) + Collapse(y)
    decreases |x|
  {
    hide Collapse, SpanLen;
    if x == "" {
      assert x + y == y;
      NothingCollapses();
    } else {
      var k, front := CollapseStep(x);
      BreaksAre(x, SpanLen(x, Newline));
      SpanLenIs(x + y, Newline, SpanLen(x, Newline));
      assert (x + y)[k..] == x[k..] + y && (x + y)[..k] == x[..k];
      StepOf(x + y, k, front);
      CollapseSplit(x[k..], y);
      assert front + (Collapse(x[k..]) + Collapse(y)) == (front + Collapse(x[k..])) + Collapse(y);
    }
  }

  lemma NothingCollapses()
    ensures Collapse("") == ""
  {
  }

  lemma Factors(x: string, k: nat, m: nat, y: string, e: nat, i: nat, n: nat)
    requires k <= |x| && e <= i && i + n <= |y| && m + n <= |x[k..]| && x[k..][m..m + n] == y[e..][i - e..i - e + n]
    ensures k + m + n <= |x| && x[k + m..k + m + n] == y[i..i + n]
  {
    assert x[k..][m..m + n] == x[k + m..k + m + n];
    assert y[e..][i - e..i - e + n] == y[i..i + n];
  }

  /** Text without breaks in a collapsed text stands in the text itself. */
  lemma {:induction false} CollapseFactor(x: string, i: nat, n: nat) returns (j: nat)
    requires 0 < n && i + n <= |Collapse(x)| && forall k :: i <= k < i + n ==> Collapse(x)[k] != '\n'
    ensures j + n <= |x| && x[j..j + n] == Collapse(x)[i..i + n]
    decreases |x|
  {
    hide Collapse, SpanLen;
    var y := Collapse(x);
    if x == "" { NothingCollapses(); }
    var w, front := CollapseStep(x);
    var e := |front|;
    if i < e {
      assert y[i] == front[i];
      CollapseFront(x, n);
      j := 0;
    } else {
      assert y[e..] == Collapse(x[w..]);
      var m := CollapseFactor(x[w..], i - e, n);
      j := w + m;
      Factors(x, w, m, y, e, i, n);
    }
  }

  /** The first line of a collapsed text is the text's own. */
  lemma {:induction false} CollapseFront(x: string, n: nat)
    requires n <= |Collapse(x)| && forall k :: 0 <= k < n ==> Collapse(x)[k] != '\n'
    ensures n <= |x| && x[..n] == Collapse(x)[..n]
    decreases |x|
  {
    if n > 0 {
      var w := SpanLen(x, Newline);
      if w > 0 {
        assert Newline(x[0]);
        CollapseStart(x);
      } else {
        assert Collapse(x) == x[..1] + Collapse(x[1..]);
        assert Collapse(x)[1..] == Collapse(x[1..]);
        CollapseFront(x[1..], n - 1);
        assert x[..n] == x[..1] + x[1..][..n - 1];
        assert Collapse(x)[..n] == x[..1] + Collapse(x[1..])[..n - 1];
      }
    }
  }

  // ---------------------------------------------------------------------
  // Ticking boxes
  // ---------------------------------------------------------------------

  lemma BoxChars()
    ensures |BOX| == 5 && |TICKED| == 5 && BOX[0] == '-' && BOX[1] == ' ' && BOX[2] == '[' && BOX[3] == ' '
    ensures BOX[4] == ']'
    ensures TICKED[0] == '-' && TICKED[1] == ' ' && TICKED[2] == '[' && TICKED[3] == 'x' && TICKED[4] == ']'
  {
  }

  lemma TickStep(x: string)
    requires BOX <= x
    ensures CheckAll(x) == TICKED + CheckAll(x[5..]) && |x| >= 5
  {
  }

  lemma {:induction false} CheckAllTicks(x: string)
    ensures Ticks(x, CheckAll(x))
    decreases |x|
  {
    hide CheckAll;
    BoxChars();
    if x == "" {
      NothingTicks();
    } else if BOX <= x {
      TickStep(x);
      CheckAllTicks(x[5..]);
      TicksJoin(BOX, TICKED, x[5..], CheckAll(x[5..]));
      assert x == BOX + x[5..];
    } else {
      CheckAllStep(x);
      CheckAllTicks(x[1..]);
      TicksJoin(x[..1], x[..1], x[1..], CheckAll(x[1..]));
      assert x == x[..1] + x[1..];
    }
  }

  lemma NothingTicks()
    ensures CheckAll("") == ""
  {
  }

  lemma TicksJoin(a: string, b: string, x: string, y: string)
    requires Ticks(a, b) && Ticks(x, y)
    ensures Ticks(a + x, b + y)
  {
  }

  /** A text that does not open inside a box is ticked on its own. */
  lemma {:induction false} CheckSplit(x: string, y: string)
    requires y == "" || (y[0] != ' ' && y[0] != '[' && y[0] != ']')
    ensures CheckAll(x + y) == CheckAll(x) + CheckAll(y)
    decreases |x|
  {
    hide CheckAll, BOX;
    if x == "" {
      assert x + y == y;
      NothingTicks();
    } else {
      BoxAcross(x, y);
      if BOX <= x {
        BoxChars();
        TickStep(x);
        TickStep(x + y);
        assert (x + y)[5..] == x[5..] + y;
        CheckSplit(x[5..], y);
        assert TICKED + (CheckAll(x[5..]) + CheckAll(y)) == (TICKED + CheckAll(x[5..])) + CheckAll(y);
      } else {
        CheckAllStep(x);
        CheckAllStep(x + y);
        assert (x + y)[1..] == x[1..] + y && (x + y)[..1] == x[..1];
        CheckSplit(x[1..], y);
      }
    }
  }

  lemma BoxAcross(x: string, y: string)
    requires x != "" && (y == "" || (y[0] != ' ' && y[0] != '[' && y[0] != ']'))
    ensures BOX <= x + y <==> BOX <= x
  {
    BoxChars();
    if |x| < 5 && y != "" { assert (x + y)[|x|] == y[0] != BOX[|x|]; }
  }

  /** Ticked text has no box left to tick. */
  lemma {:induction false} CheckTwice(x: string)
    ensures CheckAll(CheckAll(x)) == CheckAll(x)
    decreases |x|
  {
    hide CheckAll, BOX, TICKED;
    if x == "" {
      NothingTicks();
    } else if BOX <= x {
      TickStep(x);
      CheckTwice(x[5..]);
      TickedStep(CheckAll(x[5..]));
    } else {
      CheckAllStep(x);
      CheckTwice(x[1..]);
      CheckAllTicks(x[1..]);
      NoNewBox(x, CheckAll(x[1..]));
      var y := x[..1] + CheckAll(x[1..]);
      CheckAllStep(y);
      assert y[..1] == x[..1] && y[1..] == CheckAll(x[1..]);
    }
  }

  lemma NoNewBox(x: string, t: string)
    requires x != "" && !(BOX <= x) && Ticks(x[1..], t)
    ensures !(BOX <= x[..1] + t)
  {
    BoxChars();
    var y := x[..1] + t;
    if |x| >= 5 {
      assert forall i :: 1 <= i < 5 ==> y[i] == t[i - 1] && x[1..][i - 1] == x[i];
      assert forall i :: 0 <= i < 5 && y[i] == BOX[i] ==> x[i] == BOX[i];
    }
  }

  lemma TickedStep(y: string)
    ensures CheckAll(TICKED + y) == TICKED + CheckAll(y)
  {
    BoxChars();
    hide CheckAll;
    var x := TICKED + y;
    TickedSteps(x, 0, y);
  }

  lemma {:induction false} TickedSteps(x: string, i: nat, y: string)
    requires x == TICKED + y && i <= 5
    ensures CheckAll(x[i..]) == TICKED[i..] + CheckAll(y)
    decreases 5 - i
  {
    hide CheckAll;
    BoxChars();
    if i == 5 {
      assert x[5..] == y && TICKED[5..] == "";
    } else {
      var t := x[i..];
      assert t[0] == TICKED[i];
      if i == 0 { assert t[3] == 'x'; }
      CheckAllStep(t);
      assert t[1..] == x[i + 1..] && t[..1] == [TICKED[i]];
      TickedSteps(x, i + 1, y);
      assert TICKED[i..] == [TICKED[i]] + TICKED[i + 1..];
    }
  }

  // ---------------------------------------------------------------------
  // Trimming
  // ---------------------------------------------------------------------

  /** Text behind something that is not a space is trimmed on its own. */
  lemma {:induction false} TrimBehind(x: string, y: string)
    requires x != "" && !Space(x[|x| - 1])
    ensures TrimEnd(x + y) == x + TrimEnd(y)
    decreases |y|
  {
    if y == "" {
      assert x + y == x;
    } else {
      var n := |y| - 1;
      assert (x + y)[..|x + y| - 1] == x + y[..n];
      if Space(y[n]) { TrimBehind(x, y[..n]); }
    }
  }

  lemma {:induction false} TrimTwice(x: string)
    ensures TrimEnd(TrimEnd(x)) == TrimEnd(x)
    ensures TrimEnd(x) != "" ==> !Space(TrimEnd(x)[|TrimEnd(x)| - 1])
  {
    if x != "" && Space(x[|x| - 1]) { TrimTwice(x[..|x| - 1]); }
  }

  // ---------------------------------------------------------------------
  // Marks
  // ---------------------------------------------------------------------

  /** What the two marks have in common. */
  predicate MarkShape(mark: string)
  {
    && |mark| >= 3 && mark[0] == '*' && mark[1] == '*' && mark[2] != ' ' && mark[2] != '*'
    && (forall k :: 0 <= k < |mark| ==> mark[k] != '\n' && mark[k] != 'x')
    && forall k :: 2 < k < |mark| && mark[k] == 's' ==> mark[k - 1] != '*'
  }

  lemma MarkShapes()
    ensures MarkShape(STATUS) && MarkShape(BLOCKED) && STATUS[2] == 's' && BLOCKED[2] == 'b' && |STATUS| == 11
    ensures |BLOCKED| == 12
  {
  }

  lemma MarkedChars(x: string, mark: string)
    ensures Marked(x, mark) <==> |mark| <= |x| && forall k :: 0 <= k < |mark| ==> LowerChar(x[k]) == mark[k]
  {
    if |mark| <= |x| {
      var y := Lower(x[..|mark|]);
      assert forall k :: 0 <= k < |mark| ==> y[k] == LowerChar(x[k]);
    }
  }

  lemma MarkFactor(x: string, i: nat, y: string, j: nat, mark: string)
    requires i + |mark| <= |x| && j + |mark| <= |y| && x[i..i + |mark|] == y[j..j + |mark|]
    ensures Marked(x[i..], mark) <==> Marked(y[j..], mark)
  {
    assert x[i..][..|mark|] == x[i..i + |mark|] && y[j..][..|mark|] == y[j..j + |mark|];
  }

  lemma CollapseNoMark(x: string, mark: string)
    requires NoMark(x, mark) && MarkShape(mark)
    ensures NoMark(Collapse(x), mark)
  {
    hide Collapse, MarkShape, Marked;
    var y := Collapse(x);
    forall i | 0 <= i <= |y| ensures !Marked(y[i..], mark) {
      MarkedChars(y[i..], mark);
      if Marked(y[i..], mark) {
        MarkUnbroken(y, i, mark);
        var j := CollapseFactor(x, i, |mark|);
        MarkFactor(x, j, y, i, mark);
      }
    }
  }

  lemma MarkUnbroken(y: string, i: nat, mark: string)
    requires i <= |y| && Marked(y[i..], mark) && MarkShape(mark)
    ensures 0 < |mark| && i + |mark| <= |y| && forall k :: i <= k < i + |mark| ==> y[k] != '\n'
  {
    MarkedChars(y[i..], mark);
    forall k | i <= k < i + |mark| ensures y[k] != '\n' {
      assert LowerChar(y[i..][k - i]) == mark[k - i];
    }
  }

  lemma TicksNoMark(x: string, y: string, mark: string)
    requires Ticks(x, y) && NoMark(x, mark) && MarkShape(mark)
    ensures NoMark(y, mark)
  {
    hide Marked;
    forall i | 0 <= i <= |y| ensures !Marked(y[i..], mark) {
      MarkedChars(y[i..], mark);
      MarkedChars(x[i..], mark);
      assert !Marked(x[i..], mark);
      if |mark| <= |y[i..]| {
        assert forall k :: 0 <= k < |mark| ==> y[i..][k] == y[i + k] && x[i..][k] == x[i + k];
      }
    }
  }

  lemma PrefixNoMark(x: string, n: nat, mark: string)
    requires NoMark(x, mark) && n <= |x| && mark != ""
    ensures NoMark(x[..n], mark)
  {
    hide Marked;
    forall i | 0 <= i <= n ensures !Marked(x[..n][i..], mark) {
      MarkedChars(x[..n][i..], mark);
      MarkedChars(x[i..], mark);
      assert !Marked(x[i..], mark);
      assert forall k :: 0 <= k < n - i ==> x[..n][i..][k] == x[i..][k];
    }
  }

  lemma DoneShape()
    ensures |DONE_LINE| == 16 && DONE_LINE[0] == '*' && DONE_LINE[1] == '*' && DONE_LINE[2] == 'S'
    ensures DONE_LINE[11] == ' '
    ensures forall k :: 3 <= k < 16 && DONE_LINE[k] == '*' ==> k == 9 || k == 10
    ensures forall k :: 0 <= k < 16 ==> DONE_LINE[k] != '\n' && DONE_LINE[k] != '#'
    ensures LowerChar(DONE_LINE[2]) == 's' && !Space(DONE_LINE[15])
  {
  }

  /** Where a mark can stand in text with a done line in it. */
  lemma DoneMarks(a: string, b: string, mark: string, i: nat)
    requires MarkShape(mark) && i <= |a + DONE_LINE + b|
    ensures Marked((a + DONE_LINE + b)[i..], mark)
            ==> i + |mark| <= |a| + 2 || i >= |a| + |DONE_LINE| || (i == |a| && mark[2] == 's')
  {
    hide Marked, DONE_LINE;
    DoneShape();
    var x, p := a + DONE_LINE + b, |a|;
    MarkedChars(x[i..], mark);
    assert forall k :: 0 <= k < 16 ==> x[p + k] == DONE_LINE[k];
    if i + |mark| <= |x| && p + 2 < i + |mark| && i < p + 16 && !(i == p && mark[2] == 's') {
      var k := if i > p + 2 then (if i == p + 9 then 2 else if i == p + 10 then 1 else 0)
               else if mark[p + 2 - i] == 's' then p + 1 - i else p + 2 - i;
      assert x[i..][k] == x[i + k] && LowerChar(x[i + k]) != mark[k];
    }
  }
}
