/**
 Exactly when a verification can be read back. A document's own text never gets in the way, but the
 evidence can: JSON does not escape the line separators U+2028 and U+2029, and `^` matches behind them.
 */
module ReadBack {
  import opened Text
  import opened Markdown
  import opened Json
  import opened Evidence
  import opened Splicing
  import opened Verification
  import opened Documents
  import opened Sections
  import opened SectionEdits
  import opened Blocks
  import opened Completion
  import opened Ledger
  import opened BlockEnds

  // ---------------------------------------------------------------------
  // Exactly when a verification reads back
  // ---------------------------------------------------------------------

  /** What is read from a task whose text behind the heading is `y`. */
  lemma ReadsAs(d: Document, k: nat, id: string, a: string, head: string, y: string, isDate: string -> bool)
    requires k < |d.pieces| && Led(d, k, id) && a == Before(d, k) && head == d.pieces[k].head
    ensures ReadTaskVerification(a + (head + y), id, isDate) == ParseBlock(head + y[..SectionRest(y)], isDate)
  {
    hide Led, ReadTaskSection, SectionRest, ParseBlock, Before, Free, TaskHead;
    LedParts(d, k, id);
    SectionOf(a, head, id, y);
  }

  lemma ParsedFrom(section: string, isDate: string -> bool, es: seq<Item>, faked: bool)
    requires ReadList(CanonicalList(es), isDate) == Some(es)
    requires FirstJson(section) == if faked then None else Some(CanonicalList(es))
    ensures ParseBlock(section, isDate) == if faked then None else Some(es)
  {
    hide FirstJson, ReadList, CanonicalList;
  }

  /**
   A verification that is accepted reads back, as exactly its evidence, if and only if its block holds
   no line, behind a line terminator of its own, that opens a section. Otherwise nothing reads back.
   */
  lemma ReadsBackExactly(d: Document, k: nat, id: string, es: seq<Item>, isDate: string -> bool)
    requires k < |d.pieces| && Served(d, k, id) && Removable(d.pieces[k].body)
    requires Refusal(es, isDate) == None && Literal(SerializeBlock(es))
    ensures var r := ApplyVerification(Render(d), id, es, isDate);
            && r.Success?
            && ReadTaskVerification(r.markdown, id, isDate)
               == if FakesHeading(SerializeBlock(es)) then None else Some(es)
  {
    var p, b := d.pieces[k], SerializeBlock(es);
    assert b == BlockText(CanonicalList(es));
    var body := Recorded(p, Last(d, k), b);
    hide *;
    var f, g := RecordText(d, k, id, es, isDate);
    ServedIndex(d, k, id);
    LedParts(d, k, id);
    SidesEnd(f, b, g, Last(d, k));
    TaskSurroundings(d, k, id, g);
    Around(d, k, body);
    Regrouped(Before(d, k), p.head, body, After(d, k));
    var y := body + After(d, k);
    ReadsAs(d, k, id, Before(d, k), p.head, y, isDate);
    AcceptedLine(es, isDate);
    BlockAnswers(p.head, f, CanonicalList(es), g, After(d, k));
    ParsedFrom(p.head + y[..SectionRest(y)], isDate, es, FakesHeading(b));
  }

  // ---------------------------------------------------------------------
  // Evidence spelled out
  // ---------------------------------------------------------------------

  /** A character that JSON spells as itself. */
  predicate Unescaped(c: char)
  {
    c >= ' ' && c != '"' && c != '\\'
  }

  predicate AllUnescaped(x: string)
  {
    forall i :: 0 <= i < |x| ==> Unescaped(x[i])
  }

  lemma UnescapedStays(c: char)
    requires Unescaped(c)
    ensures EscapeChar(c) == [c]
  {
  }

  lemma {:induction false} EscapeKeeps(s: string)
    requires AllUnescaped(s)
    ensures Escape(s) == s
  {
    hide EscapeChar, Unescaped;
    if s != "" {
      UnescapedStays(s[0]);
      EscapeKeeps(s[1..]);
      assert s == [s[0]] + s[1..];
    }
  }

  /** The text of an item before its description, and behind it. */
  function JsonOpens(): string
  {
    "[{" + PrintMember(Member("actor", Str("agent"))) + "," + PrintMember(Member("allow_manual", Bool(true))) + ","
    + Quote("description") + ":\""
  }

  function JsonCloses(ts: string): string
  {
    "\"," + PrintMember(Member("kind", Str("manual"))) + "," + PrintMember(Member("log_excerpt", Str("log")))
    + "," + PrintMember(Member("result", Str("pass"))) + "," + PrintMember(Member("ts", Str(ts))) + "}]"
  }

  lemma MembersFrom(ms: seq<Member>, i: nat)
    requires i < |ms|
    ensures PrintMoreMembers(ms[i..]) == "," + PrintMember(ms[i]) + PrintMoreMembers(ms[i + 1..])
  {
    hide PrintMember;
    assert ms[i..][0] == ms[i] && ms[i..][1..] == ms[i + 1..];
  }

  lemma FieldsTail(description: string, ts: string)
    ensures var ms := WitnessedFields(description, ts);
            PrintMoreMembers(ms[4..])
            == "," + PrintMember(ms[4]) + ("," + PrintMember(ms[5]) + ("," + PrintMember(ms[6])))
  {
    hide PrintMember;
    var ms := WitnessedFields(description, ts);
    MembersFrom(ms, 4);
    MembersFrom(ms, 5);
    MembersFrom(ms, 6);
    assert ms[7..] == [];
    assert PrintMember(ms[6]) + "" == PrintMember(ms[6]);
  }

  lemma FieldsText(description: string, ts: string)
    ensures var ms := WitnessedFields(description, ts);
            PrintMembers(ms) == PrintMember(ms[0]) + ("," + PrintMember(ms[1]) + ("," + PrintMember(ms[2])
              + ("," + PrintMember(ms[3]) + ("," + PrintMember(ms[4]) + ("," + PrintMember(ms[5])
              + ("," + PrintMember(ms[6])))))))
  {
    hide PrintMember, PrintMoreMembers;
    var ms := WitnessedFields(description, ts);
    MembersFrom(ms, 1);
    MembersFrom(ms, 2);
    MembersFrom(ms, 3);
    FieldsTail(description, ts);
  }

  lemma OneItem(e: Item)
    ensures CanonicalList([e]) == "[" + Print(Sorted(e)) + "]"
  {
    hide Sorted;
    assert SortedList([e]) == [Sorted(e)];
    assert PrintItems([Sorted(e)]) == Print(Sorted(e)) + "";
  }

  lemma MemberText(key: string, x: string)
    ensures PrintMember(Member(key, Str(x))) == Quote(key) + ":\"" + Escape(x) + "\""
  {
    hide Escape;
    assert Quote(key) + ":" + ("\"" + Escape(x) + "\"") == Quote(key) + ":\"" + Escape(x) + "\"";
  }

  lemma SevenParts(m0: string, m1: string, k: string, x: string, m3: string, m4: string, m5: string, m6: string)
    ensures "[" + ("{" + (m0 + ("," + m1 + ("," + (k + ":\"" + x + "\"") + ("," + m3 + ("," + m4 + ("," + m5
              + ("," + m6))))))) + "}") + "]"
            == ("[{" + m0 + "," + m1 + "," + k + ":\"") + x + ("\"," + m3 + "," + m4 + "," + m5 + "," + m6 + "}]")
  {
  }

  /** The canonical text of witnessed evidence: its description stands in it, escaped. */
  lemma WitnessedText(description: string, ts: string)
    ensures CanonicalList([Witnessed(description, ts)]) == JsonOpens() + Escape(description) + JsonCloses(ts)
  {
    hide Sorted, PrintMember, Quote, Escape, CanonicalList, PrintMembers;
    var ms := WitnessedFields(description, ts);
    WitnessedSorts(description, ts);
    OneItem(Witnessed(description, ts));
    FieldsText(description, ts);
    MemberText("description", description);
    SevenParts(PrintMember(ms[0]), PrintMember(ms[1]), Quote("description"), Escape(description), PrintMember(ms[3]),
               PrintMember(ms[4]), PrintMember(ms[5]), PrintMember(ms[6]));
  }

  /** A character that no pattern here looks for. */
  predicate MildChar(c: char)
  {
    ' ' < c <= '~' && c != '#' && c != '*' && c != '$' && c != '`' && c != '-'
  }

  predicate Mild(x: string)
  {
    forall i :: 0 <= i < |x| ==> MildChar(x[i])
  }

  lemma MildJoin(x: string, y: string)
    requires Mild(x) && Mild(y)
    ensures Mild(x + y)
  {
    hide MildChar;
  }

  /** A word that JSON spells as itself. */
  predicate MildWord(x: string)
  {
    Mild(x) && AllUnescaped(x)
  }

  lemma MildQuote(x: string)
    requires MildWord(x)
    ensures Mild(Quote(x))
  {
    EscapeKeeps(x);
    MildJoin("\"", x);
    MildJoin("\"" + x, "\"");
  }

  lemma MildMember(key: string, x: string)
    requires MildWord(key) && MildWord(x)
    ensures Mild(PrintMember(Member(key, Str(x))))
  {
    hide Mild, MildWord, Escape;
    MildPunctuation();
    MildQuote(key);
    MildQuote(x);
    MildJoin(Quote(key), ":");
    MildJoin(Quote(key) + ":", Quote(x));
  }

  lemma MildPunctuation()
    ensures Mild(":") && Mild(",") && Mild("[{") && Mild("}]") && Mild(":\"") && Mild("\",") && Mild("true")
  {
  }

  lemma MildKeys()
    ensures MildWord("actor") && MildWord("agent") && MildWord("allow_manual") && MildWord("description")
    ensures MildWord("kind")
    ensures MildWord("manual") && MildWord("log_excerpt") && MildWord("log") && MildWord("result") && MildWord("pass")
    ensures MildWord("ts")
  {
    hide MildWord;
    MildKeysFirst();
    MildKeysLater();
    MildKeysLast();
  }

  lemma MildKeysFirst()
    ensures MildWord("actor") && MildWord("agent") && MildWord("allow_manual") && MildWord("kind")
  {
  }

  lemma MildKeysLater()
    ensures MildWord("description") && MildWord("manual") && MildWord("log") && MildWord("ts")
  {
  }

  lemma MildKeysLast()
    ensures MildWord("log_excerpt") && MildWord("result") && MildWord("pass")
  {
  }

  lemma MildFrame(ts: string)
    requires MildWord(ts)
    ensures Mild(JsonOpens()) && Mild(JsonCloses(ts))
  {
    hide Mild, MildWord, PrintMember, Quote;
    MildPunctuation();
    MildKeys();
    MildMember("actor", "agent");
    MildAllow();
    MildQuote("description");
    MildMember("kind", "manual");
    MildMember("log_excerpt", "log");
    MildMember("result", "pass");
    MildMember("ts", ts);
    var a, b := PrintMember(Member("actor", Str("agent"))), PrintMember(Member("allow_manual", Bool(true)));
    MildJoin("[{", a);
    MildJoin("[{" + a, ",");
    MildJoin("[{" + a + ",", b);
    MildJoin("[{" + a + "," + b, ",");
    MildJoin("[{" + a + "," + b + ",", Quote("description"));
    MildJoin("[{" + a + "," + b + "," + Quote("description"), ":\"");
    var c, d := PrintMember(Member("kind", Str("manual"))), PrintMember(Member("log_excerpt", Str("log")));
    var e, f := PrintMember(Member("result", Str("pass"))), PrintMember(Member("ts", Str(ts)));
    MildJoin("\",", c);
    MildJoin("\"," + c, ",");
    MildJoin("\"," + c + ",", d);
    MildJoin("\"," + c + "," + d, ",");
    MildJoin("\"," + c + "," + d + ",", e);
    MildJoin("\"," + c + "," + d + "," + e, ",");
    MildJoin("\"," + c + "," + d + "," + e + ",", f);
    MildJoin("\"," + c + "," + d + "," + e + "," + f, "}]");
  }

  lemma MildAllow()
    ensures Mild(PrintMember(Member("allow_manual", Bool(true))))
  {
    hide Mild, MildWord;
    MildPunctuation();
    MildKeys();
    MildQuote("allow_manual");
    MildJoin(Quote("allow_manual"), ":");
    MildJoin(Quote("allow_manual") + ":", "true");
  }

  lemma {:induction false} Utf8Bound(s: string)
    ensures Utf8Bytes(s) <= 4 * |s|
  {
    if s != "" { Utf8Bound(s[1..]); }
  }

  /** Witnessed evidence is accepted, whatever it describes. */
  lemma WitnessedAccepted(description: string, ts: string, isDate: string -> bool)
    requires description != "" && isDate(ts)
    ensures Refusal([Witnessed(description, ts)], isDate) == None
  {
    Utf8Bound("log");
    var e := Witnessed(description, ts);
    assert e in [e] && e.result.Pass?;
  }

  lemma MildLiteral(x: string)
    requires Mild(x)
    ensures Literal(x)
  {
  }

  /** Its block: the description in the middle, mild text around it. */
  function BlockOpens(): string
  {
    VERIFICATION_BLOCK_HEADER + "\n\n" + FENCE + JsonOpens()
  }

  function BlockCloses(ts: string): string
  {
    JsonCloses(ts) + CLOSE
  }

  lemma WitnessedBlock(description: string, ts: string)
    ensures SerializeBlock([Witnessed(description, ts)]) == BlockOpens() + Escape(description) + BlockCloses(ts)
  {
    hide JsonOpens, JsonCloses, CanonicalList, VERIFICATION_BLOCK_HEADER, FENCE, CLOSE, Escape;
    WitnessedText(description, ts);
    var a, b := VERIFICATION_BLOCK_HEADER + "\n\n" + FENCE, CLOSE;
    assert a + (JsonOpens() + Escape(description) + JsonCloses(ts)) + b
        == (a + JsonOpens()) + Escape(description) + (JsonCloses(ts) + b);
  }

  lemma WitnessedLiteral(description: string, ts: string)
    requires MildWord(ts) && AllUnescaped(description) && Literal(description) && description != ""
    ensures Literal(SerializeBlock([Witnessed(description, ts)]))
  {
    hide JsonOpens, JsonCloses, CanonicalList, VERIFICATION_BLOCK_HEADER, FENCE, CLOSE, Escape, Literal, Mild,
      BlockText;
    WitnessedText(description, ts);
    EscapeKeeps(description);
    MildFrame(ts);
    MildLiteral(JsonOpens());
    MildLiteral(JsonCloses(ts));
    OpensQuoted();
    ClosesQuoted(ts);
    LiteralConcat(JsonOpens(), description);
    LiteralConcat(JsonOpens() + description, JsonCloses(ts));
    BlockLiteral(CanonicalList([Witnessed(description, ts)]));
  }

  lemma OpensQuoted()
    ensures var x := JsonOpens(); x != "" && x[|x| - 1] == '"'
  {
    hide PrintMember, Quote;
  }

  lemma ClosesQuoted(ts: string)
    ensures var x := JsonCloses(ts); x != "" && x[0] == '"' && !PatternEnd(x[0]) && x[|x| - 1] == ']'
  {
    hide PrintMember, Quote;
  }

  // ---------------------------------------------------------------------
  // Evidence that does not read back
  // ---------------------------------------------------------------------

  const SEPARATOR: char := '\U{2028}'

  lemma BoundaryExtends(x: string, y: string)
    requires Boundary(x)
    ensures Boundary(x + y)
  {
    hide TaskPrefixLen, PhaseLen;
    if TaskPrefixLen(x).Some? { TaskPrefixExtends(x, y); } else { PhaseExtends(x, y); }
  }

  /** A heading behind a line separator stands behind it in the block as well. */
  lemma SeparatedInBlock(heading: string, ts: string)
    requires AllUnescaped(heading)
    ensures var b, i := SerializeBlock([Witnessed([SEPARATOR] + heading, ts)]), |BlockOpens()| + 1;
            0 < i < |b| && LineTerm(b[i - 1]) && b[i..] == heading + BlockCloses(ts)
  {
    hide BlockOpens, BlockCloses, SerializeBlock;
    var description := [SEPARATOR] + heading;
    WitnessedBlock(description, ts);
    EscapeKeeps(description);
    ClosesNonempty(ts);
    var b := SerializeBlock([Witnessed(description, ts)]);
    assert b == (BlockOpens() + [SEPARATOR]) + (heading + BlockCloses(ts));
  }

  lemma ClosesNonempty(ts: string)
    ensures BlockCloses(ts) != ""
  {
    ClosesQuoted(ts);
  }

  /**
   Evidence whose description holds a line separator and a heading's text is accepted, and once it is recorded
   nothing is read back: in every document, for every task.
   */
  lemma ConfusingEvidence(d: Document, k: nat, id: string, heading: string, ts: string, isDate: string -> bool)
    requires k < |d.pieces| && Wellformed(d) && IsTask(d, k, id) && Removable(d.pieces[k].body)
    requires isDate(ts) && MildWord(ts) && Boundary(heading) && AllUnescaped(heading) && Literal(heading)
    ensures var r := ApplyVerification(Render(d), id, [Witnessed([SEPARATOR] + heading, ts)], isDate);
            r.Success? && ReadTaskVerification(r.markdown, id, isDate) == None
  {
    var es := [Witnessed([SEPARATOR] + heading, ts)];
    hide *;
    SeparatedLiteral(heading);
    WitnessedAccepted([SEPARATOR] + heading, ts, isDate);
    WitnessedLiteral([SEPARATOR] + heading, ts);
    SeparatedInBlock(heading, ts);
    BoundaryExtends(heading, BlockCloses(ts));
    FakesThere(SerializeBlock(es), |BlockOpens()| + 1);
    WellformedServes(d, k, id);
    ReadsBackExactly(d, k, id, es, isDate);
  }

  lemma FakesThere(b: string, i: nat)
    requires 0 < i < |b| && LineTerm(b[i - 1]) && Boundary(b[i..])
    ensures FakesHeading(b)
  {
    hide Boundary;
  }

  lemma SeparatedLiteral(heading: string)
    requires AllUnescaped(heading) && Literal(heading)
    ensures Literal([SEPARATOR] + heading) && AllUnescaped([SEPARATOR] + heading)
  {
    LiteralConcat([SEPARATOR], heading);
  }

  /** There is such a heading. */
  lemma PhaseHeading()
    ensures Boundary("### Phase") && AllUnescaped("### Phase") && Literal("### Phase")
  {
    var x := "### Phase";
    assert x[3..] == " Phase";
    SpanLenIs(x[3..], Space, 1);
    assert x[4..] == "Phase";
  }
}
