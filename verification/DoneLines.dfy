/**
 Text with a done line: what setting the status makes of a section, and what it leaves alone.
 */
module DoneLines {
  import opened Text
  import opened Markdown
  import opened Documents
  import opened Sections
  import opened SectionEdits
  import opened Tidy

  // ---------------------------------------------------------------------
  // Text with a done line
  // ---------------------------------------------------------------------

  function Stood(a: string, b: string): string
  {
    a + DONE_LINE + b
  }

  /** In `a + DONE_LINE + b` the done line is the first status mark, and its value ends its line. */
  predicate Standing(a: string, b: string)
  {
    NoMark(a + "**", STATUS) && (b == "" || LineTerm(b[0]))
  }

  lemma StoodMark(a: string, b: string, i: nat)
    requires NoMark(a + "**", STATUS) && i < |a|
    ensures !Marked(Stood(a, b)[i..], STATUS)
  {
    hide Marked, DONE_LINE;
    MarkShapes();
    var u := Stood(a, b);
    DoneMarks(a, b, STATUS, i);
    if i + 11 <= |a| + 2 {
      DoneShape();
      assert u[i..i + 11] == (a + "**")[i..i + 11];
      MarkFactor(u, i, a + "**", i, STATUS);
    }
  }

  lemma StoodAt(head: string, a: string, b: string, i: nat)
    requires Bare(head) && NoMark(a + "**", STATUS) && i < |head| + |a|
    ensures !Marked(From(head + Stood(a, b), i), STATUS)
  {
    hide Marked, DONE_LINE, Find;
    MarkShapes();
    var u := Stood(a, b);
    var x := From(head + u, i);
    if i < |head| {
      assert x[0] == head[i] != '*';
      MarkedChars(x, STATUS);
    } else {
      assert x == u[i - |head|..];
      StoodMark(a, b, i - |head|);
    }
  }

  lemma DropFront(x: string, p: string, q: string)
    requires x == p + q
    ensures x[|p|..] == q
  {
  }

  /** The done line behind its mark, behind the space, and behind all of it. */
  lemma DoneTails(b: string)
    ensures var x := DONE_LINE + b; |x| >= 16 && x[11..] == " done" + b && x[12..] == "done" + b && x[16..] == b
  {
    var x := DONE_LINE + b;
    assert DONE_LINE == "**Status:**" + " done" && DONE_LINE == "**Status:** " + "done";
    DropFront(x, "**Status:**", " done" + b);
    DropFront(x, "**Status:** ", "done" + b);
    DropFront(x, DONE_LINE, b);
  }

  lemma DoneValue(b: string)
    requires b == "" || LineTerm(b[0])
    ensures Marked(DONE_LINE + b, STATUS) && StatusValueLen(DONE_LINE + b) == Some(16)
  {
    hide SpanLen;
    var x := DONE_LINE + b;
    DoneMarked(b);
    DoneTails(b);
    SpanLenIs(x[11..], Space, 1);
    SpanLenIs(x[12..], NotLineTerm, 4);
    assert LastDot(x, 11, 12) == 12;
  }

  lemma DoneMarked(b: string)
    ensures Marked(DONE_LINE + b, STATUS)
  {
    assert (DONE_LINE + b)[..11] == "**Status:**";
    assert Lower("**Status:**") == STATUS;
  }

  lemma DoneBehind(head: string, a: string, rest: string, s: string, k: nat)
    requires s == head + Stood(a, rest) && k == |head| + |a|
    ensures k + 16 <= |s| && s[k..] == DONE_LINE + rest && From(s, k) == DONE_LINE + rest
    ensures s[..k] + DONE_LINE + s[k + 16..] == s
  {
  }

  lemma DoneFirst(head: string, a: string, b: string, s: string, k: nat)
    requires Bare(head) && Standing(a, b) && s == head + Stood(a, b) && k == |head| + |a|
    ensures First(0, |s|, StatusMarkAt(s)) == k && First(0, |s|, StatusValueAt(s)) == k
    ensures StatusValueLen(From(s, k)) == Some(16)
  {
    hide Marked, StatusValueLen, Find, DONE_LINE, NoMark, First, Stood;
    DoneBehind(head, a, b, s, k);
    DoneValue(b);
    forall i: nat | i < k ensures !StatusMarkAt(s)(i) && !StatusValueAt(s)(i) {
      StoodAt(head, a, b, i);
      ValueMarked(From(s, i));
    }
    assert StatusMarkAt(s)(k) && StatusValueAt(s)(k);
    FirstIs(|s|, StatusMarkAt(s), k);
    FirstIs(|s|, StatusValueAt(s), k);
  }

  /** Setting the status of a task that is done changes nothing. */
  lemma DoneAgain(head: string, a: string, b: string)
    requires Bare(head) && Standing(a, b)
    ensures SetDone(head + Stood(a, b)) == head + Stood(a, b)
  {
    var s, k := head + Stood(a, b), |head| + |a|;
    DoneFirst(head, a, b, s, k);
    DoneBehind(head, a, b, s, k);
    hide First, StatusValueLen, DONE_LINE, Stood;
  }

  lemma ValueMarked(x: string)
    ensures StatusValueLen(x).Some? ==> Marked(x, STATUS)
  {
  }

  // ---------------------------------------------------------------------
  // Where the done line goes
  // ---------------------------------------------------------------------

  /**
   The text on both sides of where the done line goes. `Kept`: the status mark has no value, and nothing is written.
   */
  datatype Place = Between(before: string, behind: string) | Kept

  /** In place of the first status value, or else behind the title, or else behind everything. */
  function DonePlace(head: string, u: string): Place
  {
    var s := head + u;
    if First(0, |s|, StatusMarkAt(s)) != -1 then
      var i := First(0, |s|, StatusValueAt(s));
      if i == -1 then Kept
      else Between(From(s[..i], |head|), From(s, i + Default(StatusValueLen(From(s, i)))))
    else
      match TitleAnchor(s)
      case Nowhere => Between(u + "\n", "\n")
      case Behind(_, m) =>
        var k := Find(s, m, 0) + |m|;
        Between(From(s[..if 0 <= k <= |s| then k else 0], |head|), "\n\n" + From(s, if k < 0 then 0 else k))
  }

  function Default(n: Option<nat>): nat
  {
    match n
    case None => 0
    case Some(k) => k
  }

  /** A section's text behind its heading once its status is set. */
  function WithDone(place: Place, u: string): string
  {
    match place
    case Between(a, b) => Stood(a, b)
    case Kept => u
  }

  /** A mark before some other text has a value. */
  lemma MarkBefore(x: string, q: nat)
    requires Marked(x, STATUS) && 11 <= q < |x| && !Space(x[q])
    ensures StatusValueLen(x).Some?
  {
    hide Marked;
    MarkShapes();
    var w := 11 + SpanLen(x[11..], Space);
    assert x[11..][q - 11] == x[q];
    assert w <= q;
    assert !Space(x[w]) by { assert x[11..][w - 11] == x[w]; }
    assert !LineTerm(x[w]);
  }

  /** Where a status value opens. */
  lemma ValueOpens(s: string, i: nat)
    requires i <= |s| && StatusValueLen(s[i..]).Some?
    ensures i + 2 < |s| && LowerChar(s[i]) == '*' && LowerChar(s[i + 1]) == '*' && LowerChar(s[i + 2]) == 's'
    ensures !Space(s[i + 2])
  {
    hide Marked, StatusValueLen;
    MarkShapes();
    ValueMarked(s[i..]);
    MarkedChars(s[i..], STATUS);
    assert s[i..][0] == s[i] && s[i..][1] == s[i + 1] && s[i..][2] == s[i + 2];
  }

  lemma NoMarkAhead(s: string, k: nat, i: nat)
    requires k + 9 <= i <= |s| && StatusValueLen(s[i..]).Some? && StatusValueLen(s[k..]).None?
    ensures !Marked(s[k..], STATUS)
  {
    hide Marked, StatusValueLen;
    ValueOpens(s, i);
    assert s[k..][i + 2 - k] == s[i + 2];
    if Marked(s[k..], STATUS) { MarkBefore(s[k..], i + 2 - k); }
  }

  lemma StarsShared(head: string, u: string, i: nat)
    requires |head| <= i && i + 2 <= |head + u| && (head + u)[i] == '*' && (head + u)[i + 1] == '*'
    ensures (head + u)[|head|..i + 2] == u[..i - |head|] + "**"
  {
    var s := head + u;
    assert s[|head|..i + 2] == u[..i + 2 - |head|];
    assert u[i - |head|] == s[i] && u[i - |head| + 1] == s[i + 1];
  }

  lemma SliceOfSlice(s: string, h: nat, e: nat, y: string, j: nat, n: nat)
    requires h <= e <= |s| && y == s[h..e] && j + n <= |y|
    ensures y[j..j + n] == s[h + j..h + j + n]
  {
    var u, v := y[j..j + n], s[h + j..h + j + n];
    assert forall k :: 0 <= k < n ==> u[k] == v[k];
  }

  lemma EarlierUnmarked(s: string, h: nat, i: nat, y: string, j: nat)
    requires h <= i && i + 2 <= |s| && y == s[h..i + 2] && j <= |y|
    requires StatusValueLen(s[i..]).Some? && forall k: nat :: k < i ==> StatusValueLen(s[k..]).None?
    ensures !Marked(y[j..], STATUS)
  {
    hide Marked, StatusValueLen;
    MarkShapes();
    MarkedChars(y[j..], STATUS);
    if j + 11 <= |y| {
      var k := h + j;
      SliceOfSlice(s, h, i + 2, y, j, 11);
      MarkFactor(y, j, s, k, STATUS);
      NoMarkAhead(s, k, i);
    }
  }

  /** Before the first status value there is no mark, not even one that shares its asterisks. */
  lemma NoEarlierMark(head: string, u: string, i: nat)
    requires |head| <= i <= |head| + |u| && First(0, |head + u|, StatusValueAt(head + u)) == i
    ensures NoMark(u[..i - |head|] + "**", STATUS)
  {
    hide Marked, StatusValueLen, First;
    var s := head + u;
    FirstIsFirst(s, i);
    ValueOpens(s, i);
    assert s[i] == '*' && s[i + 1] == '*';
    StarsShared(head, u, i);
    var y := u[..i - |head|] + "**";
    forall j | 0 <= j <= |y| ensures !Marked(y[j..], STATUS) {
      EarlierUnmarked(s, |head|, i, y, j);
    }
  }

  lemma FirstIsFirst(s: string, i: nat)
    requires i <= |s| && First(0, |s|, StatusValueAt(s)) == i
    ensures StatusValueLen(s[i..]).Some? && forall k: nat :: k < i ==> StatusValueLen(s[k..]).None?
  {
    hide StatusValueLen;
    assert StatusValueAt(s)(i) && From(s, i) == s[i..];
    forall k: nat | k < i ensures StatusValueLen(s[k..]).None? {
      assert !StatusValueAt(s)(k) && From(s, k) == s[k..];
    }
  }

  predicate NoH3(x: string)
  {
    forall i :: 0 <= i <= |x| ==> !At(x, i, H3)
  }

  lemma H3Chars(x: string, i: nat)
    ensures At(x, i, H3) <==> i + 4 <= |x| && x[i] == '\n' && x[i + 1] == '#' && x[i + 2] == '#' && x[i + 3] == '#'
  {
    if i + 4 <= |x| {
      var y := x[i..i + 4];
      assert y[0] == x[i] && y[1] == x[i + 1] && y[2] == x[i + 2] && y[3] == x[i + 3];
      assert H3[0] == '\n' && H3[1] == '#' && H3[2] == '#' && H3[3] == '#';
      assert y == H3 <==> y[0] == H3[0] && y[1] == H3[1] && y[2] == H3[2] && y[3] == H3[3];
    }
  }

  /** Putting a done line in place of other text makes no third-level line. */
  lemma DoneLow(a: string, m: string, b: string)
    requires NoH3(a + m + b)
    ensures NoH3(Stood(a, b))
  {
    hide DONE_LINE, At;
    DoneShape();
    var x, y := a + m + b, Stood(a, b);
    forall i | 0 <= i <= |y| ensures !At(y, i, H3) {
      H3Chars(y, i);
      if i + 4 <= |a| {
        H3Chars(x, i);
        assert !At(x, i, H3);
      } else if i >= |a| + 16 {
        var j := i - 16 + |m|;
        H3Chars(x, j);
        assert !At(x, j, H3);
      } else if i < |a| && i + 4 <= |y| {
        assert y[|a|] == DONE_LINE[0];
      } else if i + 4 <= |y| {
        assert y[i] == DONE_LINE[i - |a|];
      }
    }
  }

  lemma InsertedLow(u: string, k: nat, i: nat)
    requires NoH3(u) && k <= |u| && EndsLine(u[..k])
    ensures !At(Stood(u[..k], "\n\n" + u[k..]), i, H3)
  {
    hide DONE_LINE, At;
    DoneShape();
    var a, b := u[..k], "\n\n" + u[k..];
    var y := Stood(a, b);
    assert u[k - 1] == a[k - 1] == '\n';
    H3Chars(y, i);
    if i + 4 <= k {
      H3Chars(u, i);
      assert !At(u, i, H3);
    } else if i >= k + 17 {
      H3Chars(u, i - 18);
      if i - 18 <= |u| { assert !At(u, i - 18, H3); }
    } else if i < k && i + 4 <= |y| {
      assert y[k] == DONE_LINE[0];
    } else if i < k + 16 && i + 4 <= |y| {
      assert y[i] == DONE_LINE[i - k];
    }
  }

  lemma PlainInsertNoMark(u: string, k: nat)
    requires NoMark(u, STATUS) && k <= |u| && EndsLine(u[..k])
    ensures NoMark(u[..k] + "**", STATUS)
  {
    hide Marked;
    MarkShapes();
    var y := u[..k] + "**";
    forall i | 0 <= i <= |y| ensures !Marked(y[i..], STATUS) {
      MarkedChars(y[i..], STATUS);
      if i + 11 <= k {
        assert u[i..i + 11] == u[..k][i..i + 11] == y[i..i + 11];
        MarkFactor(u, i, y, i, STATUS);
        assert !Marked(u[i..], STATUS);
      } else if i < k {
        assert y[i..][k - 1 - i] == u[..k][k - 1] == '\n' && LowerChar('\n') == '\n';
      }
    }
  }

  lemma NoFirstMark(head: string, u: string)
    requires First(0, |head + u|, StatusMarkAt(head + u)) == -1
    ensures NoMark(u, STATUS)
  {
    hide Marked;
    var s := head + u;
    forall i | 0 <= i <= |u| ensures !Marked(u[i..], STATUS) {
      assert !StatusMarkAt(s)(|head| + i);
      assert From(s, |head| + i) == u[i..];
    }
  }

  lemma DoneTextLiteral()
    ensures Literal(DONE_LINE + "\n\n")
  {
    DoneLineBreaks("\n\n");
    AliveLiteral(Idle, DONE_LINE + "\n\n");
  }

  lemma PrefixNoH3(x: string, n: nat)
    requires NoH3(x) && n <= |x|
    ensures NoH3(x[..n])
  {
    forall i | 0 <= i <= n ensures !At(x[..n], i, H3) {
      H3Chars(x[..n], i);
      H3Chars(x, i);
      assert !At(x, i, H3);
    }
  }

  lemma BreakMark(u: string, i: nat, mark: string)
    requires MarkShape(mark) && i <= |u + "\n"|
    ensures NoMark(u, mark) ==> !Marked((u + "\n")[i..], mark)
  {
    hide Marked;
    var y := u + "\n";
    MarkedChars(y[i..], mark);
    if i + |mark| <= |u| {
      assert u[i..i + |mark|] == y[i..i + |mark|];
      MarkFactor(u, i, y, i, mark);
    } else if i <= |u| {
      assert y[i..][|u| - i] == '\n' && LowerChar('\n') == '\n';
    }
  }

  lemma BreakUnmarked(u: string, mark: string)
    requires NoMark(u, mark) && MarkShape(mark)
    ensures NoMark(u + "\n", mark)
  {
    hide Marked;
    forall i | 0 <= i <= |u + "\n"| ensures !Marked((u + "\n")[i..], mark) {
      BreakMark(u, i, mark);
    }
  }

  lemma BreakLow(u: string)
    requires NoH3(u)
    ensures NoH3(u + "\n")
  {
    var y := u + "\n";
    forall i | 0 <= i <= |y| ensures !At(y, i, H3) {
      H3Chars(y, i);
      H3Chars(u, i);
      if i <= |u| { assert !At(u, i, H3); }
    }
  }

  lemma InsertedBetween(u: string, k: nat)
    requires NoMark(u, STATUS) && k <= |u| && EndsLine(u[..k])
    ensures Standing(u[..k], "\n\n" + u[k..]) && (NoH3(u) ==> NoH3(Stood(u[..k], "\n\n" + u[k..])))
  {
    hide At, NoMark, Stood;
    PlainInsertNoMark(u, k);
    if NoH3(u) {
      forall i | 0 <= i <= |Stood(u[..k], "\n\n" + u[k..])| ensures !At(Stood(u[..k], "\n\n" + u[k..]), i, H3) {
        InsertedLow(u, k, i);
      }
    }
  }

  lemma AppendedBetween(u: string)
    requires NoMark(u, STATUS)
    ensures Standing(u + "\n", "\n") && (NoH3(u) ==> NoH3(Stood(u + "\n", "\n")))
  {
    hide NoMark, NoH3, DONE_LINE;
    MarkShapes();
    var w := u + "\n";
    BreakUnmarked(u, STATUS);
    assert w[..|w|] == w && w[|w|..] == "" && "\n\n" + "" == "\n\n" && EndsLine(w);
    if NoH3(u) { BreakLow(u); }
    InsertedBetween(w, |w|);
    var y := Stood(w, "\n\n");
    if NoH3(u) {
      PrefixNoH3(y, |y| - 1);
      assert Stood(w, "\n") == y[..|y| - 1];
    }
  }

  /** Where the done line goes when there is no mark: behind a line of the section, or behind all of it. */
  lemma TitleSides(head: string, u: string) returns (k: Option<nat>)
    requires Bare(head) && Literal(u) && First(0, |head + u|, StatusMarkAt(head + u)) == -1
    ensures match k
            case Some(n) => n <= |u| && EndsLine(u[..n]) && DonePlace(head, u) == Between(u[..n], "\n\n" + u[n..])
            case None => DonePlace(head, u) == Between(u + "\n", "\n")
    ensures var p := DonePlace(head, u); InsertAfterTaskTitle(head + u, DONE_LINE) == head + Stood(p.before, p.behind)
  {
    hide Bare, Literal, ReplaceFirst, TitleAnchor, DONE_LINE, Find, First;
    var s := head + u;
    TitleAnchorEnds(s);
    match TitleAnchor(s)
    case Behind(i, m) =>
      DoneTextLiteral();
      var n := InsertSplits(head, u, i, m, DONE_LINE + "\n\n");
      k := Some(n);
      TitleCuts(head, u, n, m, DONE_LINE);
    case Nowhere =>
      k := None;
      assert s + "\n" + DONE_LINE + "\n" == head + Stood(u + "\n", "\n");
  }

  lemma TitleCuts(head: string, u: string, k: nat, m: string, line: string)
    requires k <= |u|
    ensures var s := head + u; From(s[..|head| + k], |head|) == u[..k] && From(s, |head| + k) == u[k..]
    ensures m + line + "\n\n" == m + (line + "\n\n")
    ensures u[..k] + (line + "\n\n") + u[k..] == u[..k] + line + ("\n\n" + u[k..])
  {
    assert (head + u)[..|head| + k] == head + u[..k];
  }

  /** A status line put in where there was no mark. */
  lemma InsertPlace(head: string, u: string)
    requires Bare(head) && Literal(u) && First(0, |head + u|, StatusMarkAt(head + u)) == -1
    ensures var p := DonePlace(head, u);
            && p.Between? && Standing(p.before, p.behind) && (NoH3(u) ==> NoH3(Stood(p.before, p.behind)))
            && InsertAfterTaskTitle(head + u, DONE_LINE) == head + Stood(p.before, p.behind)
  {
    hide *;
    NoFirstMark(head, u);
    var k := TitleSides(head, u);
    match k {
      case Some(n) => InsertedBetween(u, n);
      case None => AppendedBetween(u);
    }
  }

  lemma ReplaceCuts(head: string, u: string, i: nat, n: nat, line: string)
    requires |head| <= i && i + n <= |head + u|
    ensures var s, k := head + u, i - |head|;
            && k + n <= |u| && From(s[..i], |head|) == u[..k] && From(s, i + n) == u[k + n..]
            && From(s, i)[..n] == u[k..k + n]
            && u == u[..k] + u[k..k + n] + u[k + n..]
            && s[..i] + line + s[i + n..] == head + (u[..k] + line + u[k + n..])
  {
    var s, k := head + u, i - |head|;
    CutsFrom(head, u, k, n);
    assert s[..i] == head + u[..k] && s[i + n..] == u[k + n..];
    PutBehind(head, u[..k], line, u[k + n..]);
  }

  lemma PutBehind(head: string, x: string, line: string, y: string)
    ensures head + x + line + y == head + (x + line + y)
  {
  }

  lemma CutsFrom(head: string, u: string, k: nat, n: nat)
    requires k + n <= |u|
    ensures var s, i := head + u, |head| + k;
            && From(s[..i], |head|) == u[..k] && From(s, i + n) == u[k + n..] && From(s, i)[..n] == u[k..k + n]
            && u == u[..k] + u[k..k + n] + u[k + n..]
  {
    var s, i := head + u, |head| + k;
    assert s[..i] == head + u[..k] && s[i..] == u[k..] && s[i + n..] == u[k + n..];
    assert u[k..] == u[k..k + n] + u[k + n..];
  }

  /** A status value replaced. */
  lemma ReplacePlace(head: string, u: string, i: nat, n: nat)
    requires Bare(head) && |head| <= i <= |head| + |u| && First(0, |head + u|, StatusValueAt(head + u)) == i
    requires StatusValueLen(From(head + u, i)) == Some(n)
    ensures var k := i - |head|;
            && k + n <= |u| && "**" <= u[k..k + n]
            && From((head + u)[..i], |head|) == u[..k] && From(head + u, i + n) == u[k + n..]
            && i + n <= |head + u|
            && (head + u)[..i] + DONE_LINE + (head + u)[i + n..] == head + Stood(u[..k], u[k + n..])
            && Standing(u[..k], u[k + n..]) && (NoH3(u) ==> NoH3(Stood(u[..k], u[k + n..])))
  {
    hide DONE_LINE, StatusValueLen, Bare, NoMark, NoH3, First;
    var x, k := From(head + u, i), i - |head|;
    BehindHead(head, u, i);
    StatusValueStops(x, n);
    ReplaceCuts(head, u, i, n, DONE_LINE);
    assert n < |x| ==> u[k + n..][0] == x[n];
    NoEarlierMark(head, u, i);
    if NoH3(u) { DoneLow(u[..k], u[k..k + n], u[k + n..]); }
  }

  /** Setting the status puts the done line between the two sides of its place, the first mark there is. */
  lemma SetDoneIs(head: string, u: string)
    requires Bare(head) && Literal(u)
    ensures var p := DonePlace(head, u);
            && SetDone(head + u) == head + WithDone(p, u)
            && (p.Between? ==> Standing(p.before, p.behind))
            && (NoH3(u) ==> NoH3(WithDone(p, u)))
  {
    hide DONE_LINE, StatusValueLen, InsertAfterTaskTitle, Bare, Literal, NoMark, NoH3, TitleAnchor, First, Find,
      Standing, Stood;
    var s := head + u;
    if First(0, |s|, StatusMarkAt(s)) == -1 {
      InsertPlace(head, u);
    } else {
      var i := First(0, |s|, StatusValueAt(s));
      StatusBehindHead(head, u);
      if i != -1 {
        ValueThere(s, i);
        ReplacePlace(head, u, i, StatusValueLen(From(s, i)).value);
      }
    }
  }

  lemma ValueThere(s: string, i: nat)
    requires First(0, |s|, StatusValueAt(s)) == i
    ensures i <= |s| && StatusValueLen(From(s, i)).Some?
  {
    hide StatusValueLen;
    assert StatusValueAt(s)(i);
  }
}
