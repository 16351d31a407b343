/**
 Small sections spelled out: where their status goes, and how many markers they hold.
 */
module SmallSections {
  import opened Text
  import opened Markdown
  import opened Splicing
  import opened Documents
  import opened Sections
  import opened SectionEdits
  import opened Blocks
  import opened Completion
  import opened Tidy
  import opened Markers
  import opened DoneLines
  import opened Completing
  import opened Remains
  import opened Outcomes
  import opened Resting
  import opened Reapplying
  import opened Repeating
  import opened Samples

  // ---------------------------------------------------------------------
  // Text without stars
  // ---------------------------------------------------------------------

  predicate Starless(x: string)
  {
    forall i :: 0 <= i < |x| ==> x[i] != '*'
  }

  lemma StarlessUnmarked(x: string, mark: string)
    requires Starless(x) && MarkShape(mark)
    ensures NoMark(x, mark) && NoMark(x + "**", mark)
  {
    hide Marked;
    var y := x + "**";
    forall i | 0 <= i <= |x| ensures !Marked(x[i..], mark) {
      if i < |x| { assert x[i..][0] == x[i]; }
      UnstarredFront(x[i..], mark);
    }
    forall i | 0 <= i <= |y| ensures !Marked(y[i..], mark) {
      if i < |x| { assert y[i..][0] == x[i]; }
      UnstarredFront(y[i..], mark);
    }
  }

  lemma UnstarredFront(x: string, mark: string)
    requires MarkShape(mark) && (x == "" || x[0] != '*' || |x| <= 2)
    ensures !Marked(x, mark)
  {
    MarkedChars(x, mark);
    StarLower();
  }

  lemma UnmarkedCount(x: string)
    requires NoMark(x, BLOCKED)
    ensures MarkerCount(x) == 0 && !RunsOut(x)
  {
    hide Marked;
    CountFrom(x, |x|);
    assert x[|x|..] == "";
    StarsCount();
  }

  lemma StarlessCount(x: string)
    requires Starless(x)
    ensures MarkerCount(x) == 0 && MarkerCount(x + "**") == 0 && !RunsOut(x + "**")
    ensures NoMark(x + "**", BLOCKED) && NoMark(x + "**", STATUS)
  {
    hide NoMark, Starless, MarkerCount, RunsOut;
    MarkShapes();
    StarlessUnmarked(x, BLOCKED);
    StarlessUnmarked(x, STATUS);
    UnmarkedCount(x);
    UnmarkedCount(x + "**");
  }

  lemma SimpleLow(x: string)
    requires Simple(x)
    ensures NoH3(x)
  {
    forall i | 0 <= i <= |x| ensures !At(x, i, H3) {
      H3Chars(x, i);
    }
  }

  // ---------------------------------------------------------------------
  // Status lines and marker lines
  // ---------------------------------------------------------------------

  const STATUS_MARK: string := "**Status:** "
  const BLOCKED_MARK: string := "**Blocked:** "

  /** A word that can be a value. */
  predicate Word(x: string)
  {
    x != "" && !Space(x[0]) && forall i :: 0 <= i < |x| ==> !LineTerm(x[i])
  }

  lemma WordTails(mark: string, word: string, b: string)
    requires |mark| == 12 && mark[11] == ' '
    ensures var x := mark + word + b;
            |x| >= 12 && x[..12] == mark && x[11..] == " " + (word + b) && x[12..] == word + b && x[12 + |word|..] == b
  {
    var x := mark + word + b;
    assert mark == mark[..11] + " ";
  }

  lemma StatusMarkShape()
    ensures |STATUS_MARK| == 12 && STATUS_MARK[11] == ' ' && STATUS_MARK[..11] == "**Status:**"
    ensures STATUS_MARK == DONE_LINE[..12]
    ensures Lower(STATUS_MARK[..11]) == STATUS
  {
    assert STATUS_MARK[..11] == "**Status:**";
    assert Lower("**Status:**") == STATUS;
  }

  lemma WordValue(word: string, b: string)
    requires Word(word) && (b == "" || LineTerm(b[0]))
    ensures var x := STATUS_MARK + word + b;
            Marked(x, STATUS) && StatusValueLen(x) == Some(12 + |word|) && x[12 + |word|..] == b
  {
    hide SpanLen, STATUS_MARK, Space;
    var x := STATUS_MARK + word + b;
    StatusMarkShape();
    WordTails(STATUS_MARK, word, b);
    assert x[..11] == x[..12][..11];
    TickNotSpace();
    assert x[11..][1] == word[0];
    SpanLenIs(x[11..], Space, 1);
    assert forall k :: 0 <= k < |word| ==> x[12..][k] == word[k];
    SpanLenIs(x[12..], NotLineTerm, |word|);
    assert LastDot(x, 11, 12) == 12;
  }

  /** The first status line of a section is where the done line goes. */
  lemma ValuePlace(head: string, a: string, word: string, b: string)
    requires Bare(head) && NoMark(a + "**", STATUS) && Word(word) && (b == "" || LineTerm(b[0]))
    ensures DonePlace(head, a + (STATUS_MARK + word + b)) == Between(a, b)
  {
    hide Marked, StatusValueLen, Find, DONE_LINE, NoMark, First, STATUS_MARK, Word, Bare;
    var u := a + (STATUS_MARK + word + b);
    var s, k, n := head + u, |head| + |a|, 12 + |word|;
    StatusMarkShape();
    WordValue(word, b);
    assert From(s, k) == STATUS_MARK + word + b;
    forall i: nat | i < k ensures !StatusMarkAt(s)(i) && !StatusValueAt(s)(i) {
      ValueAhead(head, a, word, b, i);
      ValueMarked(From(s, i));
    }
    assert StatusMarkAt(s)(k) && StatusValueAt(s)(k);
    FirstIs(|s|, StatusMarkAt(s), k);
    FirstIs(|s|, StatusValueAt(s), k);
    assert From(s[..k], |head|) == a && From(s, k + n) == b;
  }

  lemma ValueAhead(head: string, a: string, word: string, b: string, i: nat)
    requires Bare(head) && NoMark(a + "**", STATUS) && i < |head| + |a|
    ensures !Marked(From(head + (a + (STATUS_MARK + word + b)), i), STATUS)
  {
    hide Marked, DONE_LINE, Find, STATUS_MARK, Bare, NoMark;
    MarkShapes();
    StatusMarkShape();
    DoneShape();
    var u, v := a + (STATUS_MARK + word + b), Stood(a, "");
    if i < |head| {
      HeadUnmarked(head, u, STATUS, i);
    } else {
      var j := i - |head|;
      assert From(head + u, i) == u[j..];
      StoodMark(a, "", j);
      assert forall m :: 0 <= m < |a| + 12 ==> u[m] == v[m];
      assert u[j..j + 11] == v[j..j + 11];
      MarkFactor(u, j, v, j, STATUS);
    }
  }

  lemma BlockedMarkShape()
    ensures |BLOCKED_MARK| == 13 && BLOCKED_MARK[12] == ' ' && Lower(BLOCKED_MARK[..12]) == BLOCKED && |BLOCKED| == 12
  {
    assert BLOCKED_MARK[..12] == "**Blocked:**";
    assert Lower("**Blocked:**") == BLOCKED;
  }

  /** A marker's line, and the breaks behind it, are one match. */
  lemma MarkerMatch(word: string, nl: string, rest: string)
    requires Word(word) && AllBreaks(nl) && (rest == "" || (nl != "" && rest[0] != '\n'))
    ensures var x := BLOCKED_MARK + word + (nl + rest);
            Marked(x, BLOCKED) && BlockedLineLen(x) == 13 + |word| + |nl| && x[13 + |word| + |nl|..] == rest
  {
    hide BLOCKED_MARK, Space;
    var x := BLOCKED_MARK + word + (nl + rest);
    BlockedMarkShape();
    TickNotSpace();
    NewlineTerm();
    assert x[..12] == BLOCKED_MARK[..12];
    var e := 13 + |word|;
    assert x[12] == ' ' && x[13] == word[0];
    assert forall k :: 13 <= k < e ==> x[k] == word[k - 13];
    assert forall k :: e <= k < e + |nl| ==> x[k] == nl[k - e];
    assert e + |nl| < |x| ==> x[e + |nl|] == rest[0];
    PartsMatch(x, 13, e, e + |nl|);
  }

  /** A marker with its reason, on a line of its own. */
  function Blocked(reason: string, rest: string): string
  {
    BLOCKED_MARK + reason + ("\n" + rest)
  }

  lemma MarkerLine(front: string, word: string, nl: string, rest: string)
    requires Starless(front) && Word(word) && AllBreaks(nl) && (rest == "" || (nl != "" && rest[0] != '\n'))
    ensures var s := front + (BLOCKED_MARK + word + (nl + rest));
            && MarkerCount(s) == 1 + MarkerCount(rest) && (Solid(rest) ==> Solid(s))
            && FirstMarker(s, if EndsLine(front) then |front| - 1 else |front|, |front|, |front| + 13 + |word| + |nl|)
  {
    hide BLOCKED_MARK, Space, Marked, MarkerCount, RunsOut, BlockedLineLen, Solid;
    var x := BLOCKED_MARK + word + (nl + rest);
    var s := front + x;
    MarkerMatch(word, nl, rest);
    BlockedMarkShape();
    MarkShapes();
    assert s[|front|..] == x;
    forall i | 0 <= i < |front| ensures !Marked(s[i..], BLOCKED) {
      assert s[i..][0] == front[i];
      UnmarkedStart(s[i..]);
    }
    CountFrom(s, |front|);
    CountAt(x);
    SolidFrom(s, |front|);
    SolidAt(x);
  }

  // ---------------------------------------------------------------------
  // Tidy text
  // ---------------------------------------------------------------------

  predicate Dashless(x: string)
  {
    forall i :: 0 <= i < |x| ==> x[i] != '-'
  }

  lemma DashesNone(x: string)
    requires Dashless(x)
    ensures forall c | c in x :: c != '-'
  {
  }

  /** Trimmed text without triple breaks and dashes is tidy, and with spaces behind it tidies to itself. */
  lemma TidyText(x: string, nl: string)
    requires NoTriple(x + nl) && Dashless(x) && x != "" && !Space(x[|x| - 1]) && Spaces(nl)
    ensures Tidied(x + nl) == x && TrimEnd(Collapse(x + nl)) == x
  {
    hide Space, NoTriple, Dashless, Collapse, CheckAll, Spaces;
    CollapseKeeps(x + nl);
    TrimBehind(x, nl);
    TrimNothing(nl);
    DashesNone(x);
    DashlessStays(x);
    assert x + "" == x;
  }

  lemma SimpleJoin(x: string, y: string)
    requires Simple(x) && Simple(y)
    ensures Simple(x + y)
  {
  }

  /** Simple lines without triple breaks, joined behind a character that is no break. */
  lemma TidyJoin(x: string, y: string)
    requires Simple(x) && Simple(y) && NoTriple(x) && NoTriple(y) && x != "" && x[|x| - 1] != '\n'
    ensures Simple(x + y) && NoTriple(x + y)
  {
    hide Simple, NoTriple;
    SimpleJoin(x, y);
    NoTripleAcross(x, y);
  }

  // ---------------------------------------------------------------------
  // Pieces
  // ---------------------------------------------------------------------

  /** A section of simple text, as completion sees it. */
  lemma SimpleSeen(p: Piece, u: string, t: string, last: bool)
    requires p.body == u + t && Simple(u + t) && NoTriple(u + t) && Beyond(t, last)
    ensures Cleared(p) == u + t && Seen(p, last) == u && Removable(p.body) && Plain(u + t) && Simple(u)
  {
    hide Simple, NoTriple, Beyond, Plain, RemoveBlocks, Collapse, NoH3, Cut;
    SimplePlain(u + t);
    PlainRemoves(u + t);
    CollapseKeeps(u + t);
    SimpleFront(u, t);
    SimpleLow(u);
    CutAgain(u, t, last);
    assert (u + t)[..|u|] == u;
  }

  lemma SimpleFront(u: string, t: string)
    requires Simple(u + t)
    ensures Simple(u)
  {
    assert forall i :: 0 <= i < |u| ==> u[i] == (u + t)[i];
  }

  lemma BreakBeyond()
    ensures Beyond("\n", false)
  {
  }

  lemma CompletedSeen(p: Piece, u: string, t: string, last: bool)
    requires Cleared(p) == u + t && Simple(u) && Beyond(t, last) && Bare(p.head)
    ensures CompletedText(p, last) == Ended(p.head, u) + t
  {
    hide Simple, Beyond, Bare, Cleared, NoH3, Ended, Completed, Plain, Literal;
    SimplePlain(u);
    PlainLiteral(u);
    SimpleLow(u);
    CompletedIs(p.head, u, t, last);
  }
}
