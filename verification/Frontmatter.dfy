/**
 The docs frontmatter reader and its repairer (src/audit/repo-guardrails.ts).
 */
module Frontmatter {
  import opened Text
  import opened Markdown
  import opened Lines

  type Fields = map<string, string>

  predicate KeyChar(c: char)
  {
    'A' <= c <= 'Z' || 'a' <= c <= 'z' || '0' <= c <= '9' || c == '_' || c == '-'
  }

  // \s*(.*?)\s*$ behind the colon, its quotes stripped
  function ValueOf(raw: string): Option<string>
  {
    if exists c | c in Trim(raw) :: LineTerm(c) then None else Some(Unquote(Trim(raw)))
  }

  datatype Entry = Entry(key: string, value: string)

  // /^\s*([A-Za-z0-9_-]+):\s*(.*?)\s*$/
  function EntryOf(line: string): Option<Entry>
  {
    var w := SpanLen(line, Space);
    var n := w + SpanLen(line[w..], KeyChar);
    if n == w || n == |line| || line[n] != ':' then None
    else
      match ValueOf(line[n + 1..])
      case None => None
      case Some(v) => Some(Entry(line[w..n], v))
  }

  function FieldsOf(lines: seq<string>): Fields
  {
    if lines == [] then map[]
    else
      var f := FieldsOf(lines[..|lines| - 1]);
      match EntryOf(lines[|lines| - 1])
      case None => f
      case Some(e) => f[e.key := e.value]
  }

  const OPEN: string := "---"
  const CLOSE: string := "\n---"

  /** Where the frontmatter ends, or -1. */
  function FrontEnd(markdown: string): (r: int)
    ensures r == -1 || (3 <= r && r + 4 <= |markdown| && OPEN <= markdown)
  {
    if OPEN <= markdown then Find(markdown, CLOSE, 3) else -1
  }

  function Parse(markdown: string): Fields
  {
    var end := FrontEnd(markdown);
    if end == -1 then map[] else FieldsOf(SplitLines(markdown[3..end]))
  }

  method ParseFrontmatter(markdown: string) returns (data: Fields)
    ensures data == Parse(markdown)
  {
    data := map[];
    if !(OPEN <= markdown) { return; }
    var end := Find(markdown, CLOSE, 3);
    if end == -1 { return; }
    var lines := SplitLines(markdown[3..end]);
    for i := 0 to |lines|
      invariant data == FieldsOf(lines[..i])
    {
      assert lines[..i + 1][..i] == lines[..i];
      match EntryOf(lines[i]) {
        case None =>
        case Some(e) => data := data[e.key := e.value];
      }
    }
    assert lines[..|lines|] == lines;
  }

  /** A key's value; a missing one is as falsy as an empty one. */
  function Get(f: Fields, key: string): string
  {
    if key in f then f[key] else ""
  }

  const TODO_LINE: string := "# TODO: classify type \U{2014} auto-set by wp"

  function TypeLine(inferredType: string): string
  {
    "type: " + inferredType
  }

  function DateLine(today: string): string
  {
    "last_updated: '" + today + "'"
  }

  /** The lines that the repair adds. */
  function Added(f: Fields, inferredType: string, today: string): seq<string>
  {
    (if Get(f, "type") == "" then [TODO_LINE, TypeLine(inferredType)] else [])
    + if Get(f, "last_updated") == "" then [DateLine(today)] else []
  }

  function Fix(markdown: string, inferredType: string, today: string): string
  {
    var lines := Added(Parse(markdown), inferredType, today);
    if lines == [] then markdown
    else if !(OPEN <= markdown) then OPEN + "\n" + JoinLines(lines) + CLOSE + "\n\n" + markdown
    else
      var end := FrontEnd(markdown);
      if end == -1 then markdown
      else markdown[..end] + "\n" + JoinLines(lines) + markdown[end..]
  }

  method ApplyDocsFrontmatterFix(markdown: string, inferredType: string, today: string) returns (fixed: string)
    ensures fixed == Fix(markdown, inferredType, today)
    ensures UsableType(inferredType) && UsableDate(today) ==>
              && (Complete(Parse(fixed)) <==> !Unclosed(markdown))
              && (forall key :: Get(Parse(markdown), key) != "" ==> Get(Parse(fixed), key) == Get(Parse(markdown), key))
              && (Body(fixed) == Body(markdown) || (!(OPEN <= markdown) && Body(fixed) == CLOSE + "\n\n" + markdown))
  {
    if UsableType(inferredType) && UsableDate(today) {
      FixPromises(markdown, inferredType, today);
    }
    var data := ParseFrontmatter(markdown);
    var needsType := Get(data, "type") == "";
    var needsLastUpdated := Get(data, "last_updated") == "";
    if !needsType && !needsLastUpdated { return markdown; }
    var lines := [];
    if needsType {
      lines := lines + [TODO_LINE];
      lines := lines + [TypeLine(inferredType)];
    }
    if needsLastUpdated {
      lines := lines + [DateLine(today)];
    }
    assert lines == Added(data, inferredType, today);
    if !(OPEN <= markdown) {
      return OPEN + "\n" + JoinLines(lines) + CLOSE + "\n\n" + markdown;
    }
    var end := FrontEnd(markdown);
    if end == -1 { return markdown; }
    fixed := markdown[..end] + "\n" + JoinLines(lines) + markdown[end..];
  }

  // ---------------------------------------------------------------------
  // Lines and their fields
  // ---------------------------------------------------------------------

  lemma {:induction false} FieldsConcat(a: seq<string>, b: seq<string>)
    ensures FieldsOf(a + b) == FieldsOf(a) + FieldsOf(b)
    decreases |b|
  {
    hide EntryOf;
    if b == [] {
      assert a + b == a;
    } else {
      var n := |b| - 1;
      assert (a + b)[..|a + b| - 1] == a + b[..n];
      FieldsConcat(a, b[..n]);
    }
  }

  lemma {:induction false} TrimEndReturn(x: string)
    ensures TrimEnd(x + "\r") == TrimEnd(x)
  {
    assert (x + "\r")[..|x|] == x;
  }

  /** A carriage return at the end of a line changes nothing that is read from it. */
  lemma TrimReturn(x: string)
    ensures Trim(x + "\r") == Trim(x)
  {
    var w := SpanLen(x, Space);
    if w == |x| {
      SpanLenIs(x + "\r", Space, |x| + 1);
    } else {
      SpanLenIs(x + "\r", Space, w);
      assert (x + "\r")[w..] == x[w..] + "\r";
      TrimEndReturn(x[w..]);
    }
  }

  lemma KeyReturn(x: string, w: nat)
    requires w <= |x|
    ensures SpanLen((x + "\r")[w..], KeyChar) == SpanLen(x[w..], KeyChar)
  {
    var k := SpanLen(x[w..], KeyChar);
    assert (x + "\r")[w..] == x[w..] + "\r";
    SpanLenIs(x[w..] + "\r", KeyChar, k);
  }

  lemma BlankEntry(x: string)
    requires SpanLen(x, Space) == |x|
    ensures EntryOf(x) == None
  {
    assert x[|x|..] == "";
  }

  lemma EntryIs(x: string, w: nat, n: nat)
    requires w == SpanLen(x, Space) && n == w + SpanLen(x[w..], KeyChar)
    ensures n <= |x|
    ensures EntryOf(x) == if n == w || n == |x| || x[n] != ':' then None
                          else if ValueOf(x[n + 1..]).None? then None
                          else Some(Entry(x[w..n], ValueOf(x[n + 1..]).value))
  {
    hide SpanLen, ValueOf;
  }

  lemma EntryReturn(x: string)
    ensures EntryOf(x + "\r") == EntryOf(x)
  {
    hide EntryOf, SpanLen;
    var w := SpanLen(x, Space);
    var y := x + "\r";
    if w == |x| {
      SpanLenIs(y, Space, |x| + 1);
      BlankEntry(x);
      BlankEntry(y);
    } else {
      SpanLenIs(y, Space, w);
      KeyReturn(x, w);
      var n := w + SpanLen(x[w..], KeyChar);
      EntryIs(x, w, n);
      EntryIs(y, w, n);
      assert y[w..n] == x[w..n];
      if n < |x| {
        assert y[n + 1..] == x[n + 1..] + "\r";
        TrimReturn(x[n + 1..]);
      }
    }
  }

  lemma EntryDropped(x: string)
    ensures EntryOf(DropSuffix(x, "\r")) == EntryOf(x)
  {
    hide EntryOf;
    var y := DropSuffix(x, "\r");
    if y != x {
      assert x == y + "\r";
      EntryReturn(y);
    }
  }

  lemma OneLineFields(x: string)
    ensures FieldsOf([DropSuffix(x, "\r")]) == FieldsOf([x])
  {
    hide DropSuffix, EntryOf;
    EntryDropped(x);
    assert [x][..0] == [] && [DropSuffix(x, "\r")][..0] == [];
  }

  /** The fields of two texts, one above the other: the lower ones win. */
  lemma {:induction false} FieldsStack(a: string, b: string)
    ensures FieldsOf(SplitLines(a + "\n" + b)) == FieldsOf(SplitLines(a)) + FieldsOf(SplitLines(b))
    decreases |a|
  {
    hide DropSuffix, FieldsOf, SpanLen;
    var x := a + "\n" + b;
    var n := SpanLen(a, NotNewline);
    SpanLenIs(x, NotNewline, n);
    if n == |a| {
      assert x[..n] == a && x[n + 1..] == b;
      OneLineFields(a);
      FieldsConcat([DropSuffix(a, "\r")], SplitLines(b));
    } else {
      var rest := a[n + 1..];
      assert x[..n] == a[..n] && x[n + 1..] == rest + "\n" + b;
      FieldsStack(rest, b);
      FieldsConcat([DropSuffix(a[..n], "\r")], SplitLines(rest + "\n" + b));
      FieldsConcat([DropSuffix(a[..n], "\r")], SplitLines(rest));
    }
  }

  lemma SingleLine(x: string)
    requires '\n' !in x
    ensures SplitLines(x) == [x] && FieldsOf(SplitLines(x)) == match EntryOf(x)
                                                               case None => map[]
                                                               case Some(e) => map[e.key := e.value]
  {
    hide EntryOf;
    SpanLenIs(x, NotNewline, |x|);
    assert [x][..0] == [];
  }

  // ---------------------------------------------------------------------
  // The repaired document
  // ---------------------------------------------------------------------

  /** A type that its line can hold: it reads back as something. */
  predicate UsableType(inferredType: string)
  {
    '\n' !in inferredType && ValueOf(" " + inferredType).Some? && ValueOf(" " + inferredType).value != ""
  }

  predicate UsableDate(today: string)
  {
    '\n' !in today && ValueOf(" '" + today + "'").Some? && ValueOf(" '" + today + "'").value != ""
  }

  lemma KeyLine(line: string, key: string, raw: string)
    requires line == key + ":" + raw && key != "" && ValueOf(raw).Some?
    requires forall i :: 0 <= i < |key| ==> KeyChar(key[i])
    ensures EntryOf(line) == Some(Entry(key, ValueOf(raw).value))
  {
    hide EntryOf, ValueOf, SpanLen;
    assert !Space(line[0]) by { assert line[0] == key[0]; }
    SpanLenIs(line, Space, 0);
    assert line[0..] == line;
    SpanLenIs(line, KeyChar, |key|);
    EntryIs(line, 0, |key|);
    assert line[|key| + 1..] == raw && line[0..|key|] == key;
  }

  lemma TypeLineReads(inferredType: string)
    requires UsableType(inferredType)
    ensures EntryOf(TypeLine(inferredType)) == Some(Entry("type", ValueOf(" " + inferredType).value))
    ensures '\n' !in TypeLine(inferredType) && TypeLine(inferredType) != "" && TypeLine(inferredType)[0] == 't'
  {
    hide EntryOf, ValueOf;
    assert TypeLine(inferredType) == "type" + ":" + (" " + inferredType);
    KeyLine(TypeLine(inferredType), "type", " " + inferredType);
  }

  lemma DateLineReads(today: string)
    requires UsableDate(today)
    ensures EntryOf(DateLine(today)) == Some(Entry("last_updated", ValueOf(" '" + today + "'").value))
    ensures '\n' !in DateLine(today) && DateLine(today) != "" && DateLine(today)[0] == 'l'
  {
    hide EntryOf, ValueOf;
    assert DateLine(today) == "last_updated" + ":" + (" '" + today + "'");
    KeyLine(DateLine(today), "last_updated", " '" + today + "'");
  }

  lemma NoKeyLine(x: string)
    requires x != "" && !Space(x[0]) && !KeyChar(x[0])
    ensures EntryOf(x) == None
  {
    assert x[0..] == x;
  }

  lemma TodoShape()
    ensures '\n' !in TODO_LINE && TODO_LINE != "" && TODO_LINE[0] == '#'
  {
  }

  lemma TodoLineReads()
    ensures EntryOf(TODO_LINE) == None && '\n' !in TODO_LINE && TODO_LINE != "" && TODO_LINE[0] == '#'
  {
    hide TODO_LINE, EntryOf;
    TodoShape();
    NoKeyLine(TODO_LINE);
  }

  /** The fields that the added lines carry. */
  function AddedFields(f: Fields, inferredType: string, today: string): Fields
    requires UsableType(inferredType) && UsableDate(today)
  {
    (if Get(f, "type") == "" then map["type" := ValueOf(" " + inferredType).value] else map[])
    + if Get(f, "last_updated") == "" then map["last_updated" := ValueOf(" '" + today + "'").value] else map[]
  }

  lemma AddedReads(f: Fields, inferredType: string, today: string)
    requires UsableType(inferredType) && UsableDate(today) && Added(f, inferredType, today) != []
    ensures FieldsOf(SplitLines(JoinLines(Added(f, inferredType, today)))) == AddedFields(f, inferredType, today)
  {
    hide EntryOf, FieldsOf, SplitLines, ValueOf, TODO_LINE, TypeLine, DateLine;
    TypeLineReads(inferredType);
    DateLineReads(today);
    TodoLineReads();
    var t, d := TypeLine(inferredType), DateLine(today);
    SingleLine(TODO_LINE);
    SingleLine(t);
    SingleLine(d);
    FieldsStack(TODO_LINE, t);
    FieldsStack(t, d);
    FieldsStack(TODO_LINE, t + "\n" + d);
    if Get(f, "type") == "" && Get(f, "last_updated") == "" {
      assert Added(f, inferredType, today) == [TODO_LINE, t, d];
      assert JoinLines([TODO_LINE, t, d]) == TODO_LINE + "\n" + JoinLines([t, d])
          == TODO_LINE + "\n" + (t + "\n" + JoinLines([d]));
    } else if Get(f, "type") == "" {
      assert Added(f, inferredType, today) == [TODO_LINE, t];
      assert JoinLines([TODO_LINE, t]) == TODO_LINE + "\n" + JoinLines([t]);
    } else {
      assert Added(f, inferredType, today) == [d];
    }
  }

  /** Text in which no line opens with a dash. */
  predicate Undashed(x: string)
  {
    forall i :: 0 <= i < |x| && x[i] == '\n' ==> i + 1 < |x| && x[i + 1] != '-'
  }

  lemma LineUndashed(x: string, more: string)
    requires '\n' !in x && x != "" && x[0] != '-' && (more == "" || (Undashed(more) && more[0] == '\n'))
    ensures Undashed("\n" + x + more)
  {
    var y := "\n" + x + more;
    assert forall k :: 0 <= k < |x| ==> x[k] != '\n';
    assert forall i :: 0 < i <= |x| ==> y[i] == x[i - 1];
    forall i | 0 <= i < |y| && y[i] == '\n' ensures i + 1 < |y| && y[i + 1] != '-' {
      if i > |x| { assert y[i] == more[i - 1 - |x|]; }
    }
  }

  lemma AddedUndashed(f: Fields, inferredType: string, today: string)
    requires UsableType(inferredType) && UsableDate(today) && Added(f, inferredType, today) != []
    ensures Undashed("\n" + JoinLines(Added(f, inferredType, today)))
  {
    hide EntryOf, ValueOf, TODO_LINE, TypeLine, DateLine, Undashed;
    TypeLineReads(inferredType);
    DateLineReads(today);
    TodoLineReads();
    var t, d := TypeLine(inferredType), DateLine(today);
    LineUndashed(d, "");
    LineUndashed(t, "");
    LineUndashed(t, "\n" + d + "");
    assert "\n" + d + "" == "\n" + d && "\n" + t + "" == "\n" + t;
    if Get(f, "type") == "" && Get(f, "last_updated") == "" {
      LineUndashed(TODO_LINE, "\n" + t + ("\n" + d));
      assert Added(f, inferredType, today) == [TODO_LINE, t, d];
      assert JoinLines([TODO_LINE, t, d]) == TODO_LINE + "\n" + JoinLines([t, d])
          == TODO_LINE + "\n" + (t + "\n" + JoinLines([d]));
      assert "\n" + TODO_LINE + ("\n" + t + ("\n" + d)) == "\n" + (TODO_LINE + "\n" + (t + "\n" + d));
    } else if Get(f, "type") == "" {
      LineUndashed(TODO_LINE, "\n" + t);
      assert Added(f, inferredType, today) == [TODO_LINE, t];
      assert JoinLines([TODO_LINE, t]) == TODO_LINE + "\n" + JoinLines([t]);
      assert "\n" + TODO_LINE + ("\n" + t) == "\n" + (TODO_LINE + "\n" + t);
    } else {
      assert Added(f, inferredType, today) == [d];
    }
  }

  lemma NotClose(x: string, j: nat)
    requires j < |x| && (x[j] != '\n' || (j + 1 < |x| && x[j + 1] != '-'))
    ensures !At(x, j, CLOSE)
  {
    if j + 4 <= |x| { assert x[j..j + 4][0] == x[j] && x[j..j + 4][1] == x[j + 1]; }
  }

  /** The frontmatter of a repaired document ends behind the added lines. */
  lemma RepairedEnd(front: string, y: string, rest: string)
    requires OPEN <= front && y != "" && y[0] == '\n' && Undashed(y) && CLOSE <= rest
    requires forall j: nat :: 3 <= j < |front| ==> !At(front + rest, j, CLOSE)
    ensures FrontEnd(front + (y + rest)) == |front| + |y|
  {
    var x := front + (y + rest);
    var r := |front| + |y|;
    assert x[r..r + 4] == rest[..4] == CLOSE;
    forall j: nat | 3 <= j < r ensures !At(x, j, CLOSE) {
      if j < |front| {
        assert !At(front + rest, j, CLOSE);
        BeforeBreak(front, y + rest, rest, j);
      } else {
        assert x[j] == y[j - |front|];
        if x[j] == '\n' { assert x[j + 1] == y[j + 1 - |front|]; }
        NotClose(x, j);
      }
    }
    FindIs(x, CLOSE, 3, r);
  }

  /** Before two texts that open alike for four characters, a marker stands in both or in neither. */
  lemma BeforeBreak(front: string, a: string, b: string, j: nat)
    requires j < |front| && a != "" && b != "" && a[0] == b[0] == '\n'
    requires !At(front + b, j, CLOSE)
    ensures !At(front + a, j, CLOSE)
  {
    var x, y := front + a, front + b;
    if j + 4 <= |front| {
      assert x[j..j + 4] == front[j..j + 4] == y[j..j + 4];
    } else if j + 4 <= |x| {
      assert x[|front|] == '\n';
      assert x[j..j + 4][|front| - j] == x[|front|];
      assert CLOSE[1] == '-' && CLOSE[2] == '-' && CLOSE[3] == '-';
    }
  }

  /**
   A closed document, or one without frontmatter: only one that opens its frontmatter and never closes it is neither.
   */
  predicate Unclosed(markdown: string)
  {
    OPEN <= markdown && FrontEnd(markdown) == -1
  }

  lemma ParseParts(front: string, inner: string, end: nat, markdown: string)
    requires OPEN + inner == front && front <= markdown && FrontEnd(markdown) == end && end == |front|
    ensures Parse(markdown) == FieldsOf(SplitLines(inner))
  {
    hide FrontEnd, FieldsOf, SplitLines;
    assert markdown[3..end] == inner;
  }

  /** The body: what stands behind the frontmatter, closing marker included; without frontmatter, everything. */
  function Body(markdown: string): string
  {
    if FrontEnd(markdown) == -1 then markdown else markdown[FrontEnd(markdown)..]
  }

  lemma FixUnfolds(markdown: string, inferredType: string, today: string, lines: seq<string>)
    requires lines == Added(Parse(markdown), inferredType, today) && lines != [] && !Unclosed(markdown)
    ensures Fix(markdown, inferredType, today)
            == if OPEN <= markdown
               then markdown[..FrontEnd(markdown)] + ("\n" + JoinLines(lines) + markdown[FrontEnd(markdown)..])
               else OPEN + ("\n" + JoinLines(lines) + (CLOSE + "\n\n" + markdown))
  {
    hide Parse, Added, JoinLines, FrontEnd;
    var j := JoinLines(lines);
    if OPEN <= markdown {
      var end := FrontEnd(markdown);
      assert markdown[..end] + "\n" + j + markdown[end..] == markdown[..end] + ("\n" + j + markdown[end..]);
    } else {
      assert OPEN + "\n" + j + CLOSE + "\n\n" + markdown == OPEN + ("\n" + j + (CLOSE + "\n\n" + markdown));
    }
  }

  lemma ClosedParts(markdown: string, front: string, rest: string, inner: string)
    requires FrontEnd(markdown) != -1
    requires front == markdown[..FrontEnd(markdown)] && rest == markdown[FrontEnd(markdown)..]
    requires inner == markdown[3..FrontEnd(markdown)]
    ensures OPEN + inner == front && CLOSE <= rest && Parse(markdown) == FieldsOf(SplitLines(inner))
    ensures Body(markdown) == rest
    ensures forall j: nat :: 3 <= j < |front| ==> !At(front + rest, j, CLOSE)
  {
    hide FieldsOf, SplitLines;
    assert front + rest == markdown;
  }

  /** A repair stacks the added lines under the fields that were there, and keeps the body. */
  lemma Repaired(markdown: string, inferredType: string, today: string)
    requires UsableType(inferredType) && UsableDate(today) && !Unclosed(markdown)
    requires Added(Parse(markdown), inferredType, today) != []
    ensures var fixed := Fix(markdown, inferredType, today);
            && Parse(fixed) == Parse(markdown) + AddedFields(Parse(markdown), inferredType, today)
            && Body(fixed) == if OPEN <= markdown then Body(markdown) else CLOSE + "\n\n" + markdown
  {
    var lines := Added(Parse(markdown), inferredType, today);
    assert !(OPEN <= markdown) ==> Parse(markdown) == map[];
    AddedReads(Parse(markdown), inferredType, today);
    AddedUndashed(Parse(markdown), inferredType, today);
    FixUnfolds(markdown, inferredType, today, lines);
    hide Fix, Parse, Added, AddedFields, JoinLines, FieldsOf, SplitLines, Undashed, UsableType, UsableDate, Body;
    if OPEN <= markdown {
      var end := FrontEnd(markdown);
      hide FrontEnd;
      ClosedParts(markdown, markdown[..end], markdown[end..], markdown[3..end]);
      RepairedAt(markdown[..end], markdown[3..end], JoinLines(lines), markdown[end..]);
    } else {
      EmptyFields();
      RepairedAt(OPEN, "", JoinLines(lines), CLOSE + "\n\n" + markdown);
    }
  }

  lemma EmptyFields()
    ensures FieldsOf(SplitLines("")) == map[]
  {
    SingleLine("");
    BlankEntry("");
  }

  lemma RepairedAt(front: string, inner: string, added: string, rest: string)
    requires OPEN + inner == front && Undashed("\n" + added) && CLOSE <= rest
    requires forall j: nat :: 3 <= j < |front| ==> !At(front + rest, j, CLOSE)
    ensures var fixed := front + ("\n" + added + rest);
            && Parse(fixed) == FieldsOf(SplitLines(inner)) + FieldsOf(SplitLines(added))
            && FrontEnd(fixed) != -1 && Body(fixed) == rest
  {
    hide FieldsOf, SplitLines, Undashed, FrontEnd;
    var y := "\n" + added;
    var fixed := front + (y + rest);
    RepairedEnd(front, y, rest);
    assert fixed == (front + y) + rest;
    ParseParts(front + y, inner + y, |front + y|, fixed);
    assert inner + y == inner + "\n" + added;
    FieldsStack(inner, added);
  }

  // ---------------------------------------------------------------------
  // What a repair promises
  // ---------------------------------------------------------------------

  predicate Complete(f: Fields)
  {
    Get(f, "type") != "" && Get(f, "last_updated") != ""
  }

  lemma CompleteAddsNothing(f: Fields, inferredType: string, today: string)
    ensures Complete(f) <==> Added(f, inferredType, today) == []
  {
    hide TypeLine, DateLine, TODO_LINE;
  }

  lemma StackCompletes(f: Fields, inferredType: string, today: string)
    requires UsableType(inferredType) && UsableDate(today)
    ensures Complete(f + AddedFields(f, inferredType, today))
    ensures forall key :: Get(f, key) != "" ==> Get(f + AddedFields(f, inferredType, today), key) == Get(f, key)
  {
    hide ValueOf;
  }

  /** A repaired document has a type and a date exactly when its frontmatter is not left open. */
  lemma FixCompletes(markdown: string, inferredType: string, today: string)
    requires UsableType(inferredType) && UsableDate(today)
    ensures Complete(Parse(Fix(markdown, inferredType, today))) <==> !Unclosed(markdown)
  {
    CompleteAddsNothing(Parse(markdown), inferredType, today);
    if Unclosed(markdown) {
      assert Fix(markdown, inferredType, today) == markdown;
    } else if Added(Parse(markdown), inferredType, today) != [] {
      Repaired(markdown, inferredType, today);
      hide Fix, Parse, AddedFields, UsableType, UsableDate;
      StackCompletes(Parse(markdown), inferredType, today);
    } else {
      assert Fix(markdown, inferredType, today) == markdown;
    }
  }

  /** Every field that had a value keeps it, and so does the body. */
  lemma FixKeeps(markdown: string, inferredType: string, today: string, key: string)
    requires UsableType(inferredType) && UsableDate(today)
    ensures Get(Parse(markdown), key) != ""
            ==> Get(Parse(Fix(markdown, inferredType, today)), key) == Get(Parse(markdown), key)
    ensures var fixed := Fix(markdown, inferredType, today);
            Body(fixed) == Body(markdown) || (!(OPEN <= markdown) && Body(fixed) == CLOSE + "\n\n" + markdown)
  {
    if Unclosed(markdown) || Added(Parse(markdown), inferredType, today) == [] {
      assert Fix(markdown, inferredType, today) == markdown;
    } else {
      Repaired(markdown, inferredType, today);
      hide Fix, Parse, AddedFields, UsableType, UsableDate, Body;
      StackCompletes(Parse(markdown), inferredType, today);
    }
  }

  lemma FixPromises(markdown: string, inferredType: string, today: string)
    requires UsableType(inferredType) && UsableDate(today)
    ensures var fixed := Fix(markdown, inferredType, today);
            && (Complete(Parse(fixed)) <==> !Unclosed(markdown))
            && (forall key :: Get(Parse(markdown), key) != "" ==> Get(Parse(fixed), key) == Get(Parse(markdown), key))
            && (Body(fixed) == Body(markdown) || (!(OPEN <= markdown) && Body(fixed) == CLOSE + "\n\n" + markdown))
  {
    hide *;
    FixCompletes(markdown, inferredType, today);
    FixKeeps(markdown, inferredType, today, "");
    forall key
      ensures Get(Parse(markdown), key) != ""
              ==> Get(Parse(Fix(markdown, inferredType, today)), key) == Get(Parse(markdown), key)
    {
      FixKeeps(markdown, inferredType, today, key);
    }
  }

  lemma FixedIsClosed(markdown: string, inferredType: string, today: string)
    requires Complete(Parse(markdown))
    ensures Fix(markdown, inferredType, today) == markdown
  {
    CompleteAddsNothing(Parse(markdown), inferredType, today);
    hide Parse, JoinLines, FrontEnd, Added;
  }

  /** A repaired document is not repaired again, whatever type and date the second repair would write. */
  lemma FixIsIdempotent(markdown: string, inferredType: string, today: string, laterType: string, later: string)
    requires UsableType(inferredType) && UsableDate(today)
    ensures var fixed := Fix(markdown, inferredType, today); Fix(fixed, laterType, later) == fixed
  {
    if Unclosed(markdown) {
      assert Fix(markdown, inferredType, today) == markdown;
      assert Fix(markdown, laterType, later) == markdown;
    } else {
      FixCompletes(markdown, inferredType, today);
      FixedIsClosed(Fix(markdown, inferredType, today), laterType, later);
    }
  }
}
