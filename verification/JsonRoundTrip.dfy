/**
 The reader undoes the printer, and what the printer writes stays on one line.
 */
module JsonRoundTrip {
  import opened Text
  import opened Json

  /** Every number in the tree is spelled by the JSON grammar. */
  predicate WellFormed(v: Value)
  {
    match v
    case Num(lexeme) => ValidNumber(lexeme)
    case Arr(items) => forall x | x in items :: WellFormed(x)
    case Obj(members) => forall m | m in members :: WellFormed(m.value)
    case _ => true
  }

  /** A text that cannot continue a number. */
  predicate Delimited(s: string)
  {
    s == "" || !NumberChar(s[0])
  }

  lemma {:induction false} ScanRawEscape(t: string, rest: string)
    ensures ScanRaw(Escape(t) + "\"" + rest) == Ok(Escape(t), rest)
  {
    var s := Escape(t) + "\"" + rest;
    if t == "" {
      assert s[1..] == rest;
    } else {
      var e := EscapeChar(t[0]);
      var tail := Escape(t[1..]) + "\"" + rest;
      ScanRawEscape(t[1..], rest);
      assert s == e + tail;
      ScanRawPrefix(t[0], tail);
    }
  }

  lemma ScanPlain(c: char, tail: string)
    requires c != '"' && c != '\\' && ScanRaw(tail).Ok?
    ensures ScanRaw([c] + tail) == Ok([c] + ScanRaw(tail).value, ScanRaw(tail).rest)
  {
    assert ([c] + tail)[1..] == tail && ([c] + tail)[..1] == [c];
  }

  lemma ScanEscaped(c: char, tail: string)
    requires ScanRaw(tail).Ok?
    ensures ScanRaw(['\\', c] + tail) == Ok(['\\', c] + ScanRaw(tail).value, ScanRaw(tail).rest)
  {
    var s := ['\\', c] + tail;
    assert s[2..] == tail && s[..2] == ['\\', c];
  }

  lemma ScanUnicode(h: char, l: char, tail: string)
    requires h != '"' && h != '\\' && l != '"' && l != '\\' && ScanRaw(tail).Ok?
    ensures ScanRaw(['\\', 'u', '0', '0', h, l] + tail)
         == Ok(['\\', 'u', '0', '0', h, l] + ScanRaw(tail).value, ScanRaw(tail).rest)
  {
    ScanPlain(l, tail);
    ScanPlain(h, [l] + tail);
    ScanPlain('0', [h] + ([l] + tail));
    ScanPlain('0', ['0'] + ([h] + ([l] + tail)));
    ScanEscaped('u', ['0'] + (['0'] + ([h] + ([l] + tail))));
    UnicodeSpelling(h, l, tail);
    UnicodeSpelling(h, l, ScanRaw(tail).value);
  }

  lemma UnicodeSpelling(h: char, l: char, tail: string)
    ensures ['\\', 'u', '0', '0', h, l] + tail == ['\\', 'u'] + (['0'] + (['0'] + ([h] + ([l] + tail))))
  {
  }

  /** One escaped character passes through the scanner whole. */
  lemma ScanRawPrefix(c: char, tail: string)
    requires ScanRaw(tail).Ok?
    ensures ScanRaw(EscapeChar(c) + tail) == Ok(EscapeChar(c) + ScanRaw(tail).value, ScanRaw(tail).rest)
  {
    if ShortEscape(c).Some? {
      ScanEscaped(ShortEscape(c).value, tail);
    } else if Control(c) {
      HexDigitPlain(c as int / 16);
      HexDigitPlain(c as int % 16);
      ScanUnicode(HexDigit(c as int / 16), HexDigit(c as int % 16), tail);
    } else {
      ScanPlain(c, tail);
    }
  }

  lemma HexDigitPlain(n: nat)
    requires n < 16
    ensures HexDigit(n) != '"' && HexDigit(n) != '\\'
    ensures HexValue(HexDigit(n)) == Some(n)
  {
  }

  lemma {:induction false} UnescapeEscape(t: string)
    ensures Unescape(Escape(t)) == Some(t)
  {
    if t != "" {
      UnescapeEscape(t[1..]);
      UnescapePrefix(t[0], Escape(t[1..]), t[1..]);
      assert [t[0]] + t[1..] == t;
    }
  }

  lemma UnescapeControl(n: nat, tail: string)
    requires n < 32
    ensures Unescape(['\\', 'u', '0', '0', HexDigit(n / 16), HexDigit(n % 16)] + tail)
         == Cons(n as char, Unescape(tail))
  {
    var s := ['\\', 'u', '0', '0', HexDigit(n / 16), HexDigit(n % 16)] + tail;
    var h := s[2..];
    assert h[0] == '0' && h[1] == '0' && h[2] == HexDigit(n / 16) && h[3] == HexDigit(n % 16);
    HexDigitPlain(n / 16);
    HexDigitPlain(n % 16);
    assert Hex4(h) == Some(n);
    assert s[6..] == tail;
  }

  lemma UnescapePrefix(c: char, tail: string, t: string)
    requires Unescape(tail) == Some(t)
    ensures Unescape(EscapeChar(c) + tail) == Some([c] + t)
  {
    var s := EscapeChar(c) + tail;
    if ShortEscape(c).Some? {
      assert s[2..] == tail;
    } else if Control(c) {
      UnescapeControl(c as int, tail);
    } else {
      assert s[1..] == tail;
    }
  }

  /** Reading back a printed string literal. */
  lemma ParseQuoted(t: string, rest: string)
    ensures ParseString(Quote(t) + rest) == Ok(t, rest)
  {
    assert (Quote(t) + rest)[1..] == Escape(t) + "\"" + rest;
    ScanRawEscape(t, rest);
    UnescapeEscape(t);
  }

  lemma {:induction false} NumberRunStops(l: string, rest: string)
    requires NumberRun(l) == l && Delimited(rest)
    ensures NumberRun(l + rest) == l
  {
    if l == "" {
      assert l + rest == rest;
    } else {
      assert (l + rest)[1..] == l[1..] + rest;
      assert l == [l[0]] + l[1..];
      NumberRunStops(l[1..], rest);
    }
  }

  /** A printed value opens with a character that is neither whitespace nor a closing bracket. */
  lemma PrintOpens(v: Value)
    requires WellFormed(v)
    ensures Print(v) != ""
    ensures !IsWs(Print(v)[0]) && Print(v)[0] != ']' && Print(v)[0] != '}' && Print(v)[0] != ','
  {
    if v.Num? {
      assert NumberChar(v.lexeme[0]);
    }
  }

  lemma ParsePrintWord(v: Value, rest: string)
    requires v.Null? || v.Bool?
    ensures ParseValue(Print(v) + rest) == ParseScalar(Print(v) + rest) == Ok(v, rest)
  {
    var p := Print(v);
    var s := p + rest;
    assert p <= s && s[|p|..] == rest && s[0] == p[0];
  }

  lemma NumberStep(s: string)
    requires s != "" && NumberChar(s[0])
    ensures ParseValue(s) == ParseScalar(s) == ParseNumber(s)
  {
    assert s[0] != 'n' && s[0] != 't' && s[0] != 'f';
  }

  lemma ParsePrintNumber(l: string, rest: string)
    requires ValidNumber(l) && Delimited(rest)
    ensures ParseValue(l + rest) == Ok(Num(l), rest)
  {
    NumberRunStops(l, rest);
    var s := l + rest;
    assert s[0] == l[0] && NumberChar(l[0]);
    assert s[|l|..] == rest;
    NumberStep(s);
  }

  /** The reader undoes the printer and leaves what follows untouched. */
  lemma {:induction false} ParsePrint(v: Value, rest: string)
    requires WellFormed(v) && Delimited(rest)
    ensures ParseValue(Print(v) + rest) == Ok(v, rest)
    decreases v, 1
  {
    match v
    case Str(t) => ParseQuoted(t, rest);
    case Arr(items) => ParsePrintArray(items, rest);
    case Obj(members) => ParsePrintObject(members, rest);
    case Num(l) => ParsePrintNumber(l, rest);
    case _ => ParsePrintWord(v, rest);
  }

  lemma {:induction false} ParsePrintArray(items: seq<Value>, rest: string)
    requires forall x | x in items :: WellFormed(x)
    ensures ParseArray("[" + PrintItems(items) + "]" + rest) == Ok(Arr(items), rest)
    decreases items, 2
  {
    var s := "[" + PrintItems(items) + "]" + rest;
    var t := PrintItems(items) + ("]" + rest);
    assert s[1..] == t;
    if items == [] {
      assert t == "]" + rest;
      assert t[1..] == rest;
    } else {
      var more := PrintMoreItems(items[1..]) + ("]" + rest);
      assert t == Print(items[0]) + more;
      PrintOpens(items[0]);
      ParsePrint(items[0], more);
      ParsePrintMoreItems(t, items[0], items[1..], rest);
      assert [items[0]] + items[1..] == items;
    }
  }

  /** A list of items read off from its first one on. */
  lemma {:induction false} ParsePrintMoreItems(s: string, x: Value, xs: seq<Value>, rest: string)
    requires forall x | x in xs :: WellFormed(x)
    requires ParseValue(s) == Ok(x, PrintMoreItems(xs) + ("]" + rest))
    ensures ParseItems(s) == Ok([x] + xs, rest)
    decreases xs, 2
  {
    var t := PrintMoreItems(xs) + ("]" + rest);
    assert SkipWs(t) == t;
    if xs == [] {
      assert t[0] == ']' && t[1..] == rest;
      assert [x] + xs == [x];
    } else {
      var more := PrintMoreItems(xs[1..]) + ("]" + rest);
      var u := Print(xs[0]) + more;
      Assoc(",", Print(xs[0]), PrintMoreItems(xs[1..]), "]" + rest);
      assert t[0] == ',' && t[1..] == u;
      PrintOpens(xs[0]);
      assert SkipWs(u) == u;
      ParsePrint(xs[0], more);
      ParsePrintMoreItems(u, xs[0], xs[1..], rest);
      assert [xs[0]] + xs[1..] == xs;
    }
  }

  lemma {:induction false} ParsePrintObject(members: seq<Member>, rest: string)
    requires forall m | m in members :: WellFormed(m.value)
    ensures ParseObject("{" + PrintMembers(members) + "}" + rest) == Ok(Obj(members), rest)
    decreases members, 2
  {
    var t := PrintMembers(members) + ("}" + rest);
    Assoc("{", PrintMembers(members), "}", rest);
    if members == [] {
      assert t == "}" + rest;
      assert t[1..] == rest;
      ObjectStep("{" + t, t);
    } else {
      var more := PrintMoreMembers(members[1..]) + ("}" + rest);
      assert t == PrintMember(members[0]) + more;
      MemberOpens(members[0], more);
      ParsePrintMember(members[0], more);
      ParsePrintMoreMembers(t, members[0], members[1..], rest);
      assert [members[0]] + members[1..] == members;
      ObjectStep("{" + t, t);
    }
  }

  lemma ObjectStep(s: string, t: string)
    requires s == "{" + t && SkipWs(t) == t && t != ""
    ensures t[0] == '}' ==> ParseObject(s) == Ok(Obj([]), t[1..])
    ensures t[0] != '}' && ParseMembers(t).Ok? ==>
            ParseObject(s) == Ok(Obj(ParseMembers(t).value), ParseMembers(t).rest)
  {
    assert s[1..] == t;
  }

  lemma {:induction false} ParsePrintMember(m: Member, rest: string)
    requires WellFormed(m.value) && Delimited(rest)
    ensures ParseMember(PrintMember(m) + rest) == Ok(m, rest)
    decreases m, 2
  {
    var tail := Print(m.value) + rest;
    Assoc(Quote(m.key), ":", Print(m.value), rest);
    ParseQuoted(m.key, ":" + tail);
    PrintOpens(m.value);
    assert tail[0] == Print(m.value)[0];
    ParsePrint(m.value, rest);
    MemberStep(PrintMember(m) + rest, m, ":" + tail, tail, rest);
  }

  lemma MemberStep(s: string, m: Member, t: string, tail: string, rest: string)
    requires ParseString(s) == Ok(m.key, t) && t == ":" + tail
    requires tail != "" && !IsWs(tail[0]) && ParseValue(tail) == Ok(m.value, rest)
    ensures ParseMember(s) == Ok(m, rest)
  {
    assert t[0] == ':' && t[1..] == tail;
    assert SkipWs(t) == t && SkipWs(tail) == tail;
  }

  /** A list of members read off from its first one on. */
  lemma {:induction false} ParsePrintMoreMembers(s: string, m: Member, ms: seq<Member>, rest: string)
    requires forall m | m in ms :: WellFormed(m.value)
    requires ParseMember(s) == Ok(m, PrintMoreMembers(ms) + ("}" + rest))
    ensures ParseMembers(s) == Ok([m] + ms, rest)
    decreases ms, 2
  {
    if ms == [] {
      MembersEnd(s, m, PrintMoreMembers(ms) + ("}" + rest), rest);
      assert [m] + ms == [m];
    } else {
      var more := PrintMoreMembers(ms[1..]) + ("}" + rest);
      var u := PrintMember(ms[0]) + more;
      MemberOpens(ms[0], more);
      ParsePrintMember(ms[0], more);
      ParsePrintMoreMembers(u, ms[0], ms[1..], rest);
      Assoc(",", PrintMember(ms[0]), PrintMoreMembers(ms[1..]), "}" + rest);
      assert [ms[0]] + ms[1..] == ms;
      MembersStep(s, m, PrintMoreMembers(ms) + ("}" + rest), u);
    }
  }

  lemma Assoc(a: string, b: string, c: string, d: string)
    ensures a + b + c + d == a + (b + (c + d))
  {
  }

  lemma MemberOpens(m: Member, more: string)
    ensures (PrintMember(m) + more)[0] == '"'
    ensures SkipWs(PrintMember(m) + more) == PrintMember(m) + more
  {
    assert (PrintMember(m) + more)[0] == '"';
  }

  lemma MembersEnd(s: string, m: Member, t: string, rest: string)
    requires ParseMember(s) == Ok(m, t) && t == "}" + rest
    ensures ParseMembers(s) == Ok([m], rest)
  {
    assert t[0] == '}' && t[1..] == rest;
    assert SkipWs(t) == t;
  }

  lemma MembersStep(s: string, m: Member, t: string, u: string)
    requires ParseMember(s) == Ok(m, t) && t == "," + u
    requires SkipWs(u) == u && ParseMembers(u).Ok?
    ensures ParseMembers(s) == Ok([m] + ParseMembers(u).value, ParseMembers(u).rest)
  {
    assert t[0] == ',' && t[1..] == u;
    assert SkipWs(t) == t;
  }

  /** `JSON.parse(JSON.stringify(v))` is `v`. */
  lemma RoundTrip(v: Value)
    requires WellFormed(v)
    ensures Parse(Print(v)) == Some(v)
  {
    PrintOpens(v);
    ParsePrint(v, "");
    assert Print(v) + "" == Print(v);
  }

  /** Two well-formed trees that print alike are the same tree. */
  lemma PrintInjective(a: Value, b: Value)
    requires WellFormed(a) && WellFormed(b) && Print(a) == Print(b)
    ensures a == b
  {
    RoundTrip(a);
    RoundTrip(b);
  }

  // ---------------------------------------------------------------------
  // One line
  // ---------------------------------------------------------------------

  /** No control character, so in particular no line feed. */
  predicate OneLine(s: string)
  {
    forall c | c in s :: !Control(c)
  }

  lemma {:induction false} EscapeOneLine(t: string)
    ensures OneLine(Escape(t))
  {
    if t != "" {
      EscapeOneLine(t[1..]);
    }
  }

  lemma {:induction false} NumberRunChars(l: string)
    ensures forall c | c in NumberRun(l) :: NumberChar(c)
  {
    if l != "" && NumberChar(l[0]) {
      NumberRunChars(l[1..]);
    }
  }

  /** Section 7 of RFC 8259: printed JSON never holds a raw control character. */
  lemma {:induction false} PrintOneLine(v: Value)
    requires WellFormed(v)
    ensures OneLine(Print(v))
    decreases v, 1
  {
    match v
    case Num(l) => NumberRunChars(l);
    case Str(t) => EscapeOneLine(t);
    case Arr(items) => PrintItemsOneLine(items);
    case Obj(members) => PrintMembersOneLine(members);
    case _ =>
  }

  lemma {:induction false} PrintItemsOneLine(items: seq<Value>)
    requires forall x | x in items :: WellFormed(x)
    ensures OneLine(PrintItems(items)) && OneLine(PrintMoreItems(items))
    decreases items, 2
  {
    if items != [] {
      PrintOneLine(items[0]);
      PrintItemsOneLine(items[1..]);
    }
  }

  lemma {:induction false} PrintMembersOneLine(members: seq<Member>)
    requires forall m | m in members :: WellFormed(m.value)
    ensures OneLine(PrintMembers(members)) && OneLine(PrintMoreMembers(members))
    decreases members, 2
  {
    if members != [] {
      EscapeOneLine(members[0].key);
      PrintOneLine(members[0].value);
      PrintMembersOneLine(members[1..]);
    }
  }
}
