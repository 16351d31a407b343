/**
 Reading JSON with comments (src/audit/bucket-boundary.ts): two textual rewrites and `JSON.parse`,
 proved against a reader that knows comments and trailing commas.
 */
module Jsonc {
  import opened Text
  import opened Json
  import opened JsonRoundTrip

  // ---------------------------------------------------------------------
  // The two rewrites
  // ---------------------------------------------------------------------

  // The rest of the regex "(?:[^"\\]|\\.)*" behind its opening quote: the body, and what follows.
  function QuotedBody(s: string): (r: Parsed<string>)
    ensures r.Ok? ==> |r.rest| < |s|
  {
    if s == "" then Fail
    else if s[0] == '"' then Ok("", s[1..])
    else if s[0] == '\\' then
      if |s| == 1 || LineTerm(s[1]) then Fail
      else
        match QuotedBody(s[2..])
        case Fail => Fail
        case Ok(raw, rest) => Ok(s[..2] + raw, rest)
    else
      match QuotedBody(s[1..])
      case Fail => Fail
      case Ok(raw, rest) => Ok(s[..1] + raw, rest)
  }

  predicate CommentStart(s: string)
  {
    |s| >= 2 && s[0] == '/' && s[1] == '/'
  }

  function SkipLine(s: string): (r: string)
    ensures |r| <= |s|
    ensures r != "" ==> r[0] == '\n'
  {
    if s != "" && s[0] != '\n' then SkipLine(s[1..]) else s
  }

  // text.replace(/("(?:[^"\\]|\\.)*")|\/\/[^\n]*/g, ...): literals are kept, comments dropped.
  function StripComments(s: string): string
    decreases |s|
  {
    if s == "" then ""
    else if s[0] == '"' && QuotedBody(s[1..]).Ok? then
      var body := QuotedBody(s[1..]);
      "\"" + body.value + "\"" + StripComments(body.rest)
    else if CommentStart(s) then StripComments(SkipLine(s[2..]))
    else s[..1] + StripComments(s[1..])
  }

  /** Nothing but whitespace up to a closing bracket. */
  predicate CloserAhead(s: string)
  {
    s != "" && (s[0] == '}' || s[0] == ']' || (Space(s[0]) && CloserAhead(s[1..])))
  }

  // text.replace(/,(\s*[}\]])/g, "$1")
  function StripCommas(s: string): (r: string)
    ensures |r| <= |s|
  {
    if s == "" then ""
    else if s[0] == ',' && CloserAhead(s[1..]) then StripCommas(s[1..])
    else s[..1] + StripCommas(s[1..])
  }

  function Clean(s: string): string
  {
    StripCommas(StripComments(s))
  }

  /** None stands for the error thrown by `JSON.parse`. */
  function ParseJsonc(text: string): Option<Value>
  {
    Parse(Clean(text))
  }

  // ---------------------------------------------------------------------
  // A reader that knows comments and trailing commas
  // ---------------------------------------------------------------------

  /** Whitespace and comments. */
  function SkipTrivia(s: string): (r: string)
    ensures |r| <= |s|
    ensures r != "" ==> !IsWs(r[0]) && !CommentStart(r)
    decreases |s|
  {
    if s != "" && IsWs(s[0]) then SkipTrivia(s[1..])
    else if CommentStart(s) then SkipTrivia(SkipLine(s[2..]))
    else s
  }

  /** A string literal, kept as the source spells it. */
  function ReadLiteral(s: string): (r: Parsed<string>)
    ensures r.Ok? ==> |r.rest| < |s|
  {
    if s == "" || s[0] != '"' then Fail
    else
      match ScanRaw(s[1..])
      case Fail => Fail
      case Ok(raw, rest) => if Unescape(raw).Some? then Ok(raw, rest) else Fail
  }

  /** Reads one value; the tree's strings are raw literals. */
  function ReadValue(s: string): (r: Parsed<Value>)
    ensures r.Ok? ==> |r.rest| < |s|
    decreases |s|, 1
  {
    if s == "" then Fail
    else if s[0] == '"' then
      (match ReadLiteral(s)
       case Fail => Fail
       case Ok(raw, rest) => Ok(Str(raw), rest))
    else if s[0] == '[' then
      (var t := SkipTrivia(s[1..]);
       if t != "" && t[0] == ']' then Ok(Arr([]), t[1..])
       else
         match ReadItems(t)
         case Fail => Fail
         case Ok(items, rest) => Ok(Arr(items), rest))
    else if s[0] == '{' then
      (var t := SkipTrivia(s[1..]);
       if t != "" && t[0] == '}' then Ok(Obj([]), t[1..])
       else
         match ReadMembers(t)
         case Fail => Fail
         case Ok(members, rest) => Ok(Obj(members), rest))
    else ParseScalar(s)
  }

  function ReadItems(s: string): (r: Parsed<seq<Value>>)
    ensures r.Ok? ==> |r.rest| < |s|
    decreases |s|, 2
  {
    match ReadValue(s)
    case Fail => Fail
    case Ok(v, rest) =>
      var t := SkipTrivia(rest);
      if t == "" then Fail
      else if t[0] == ']' then Ok([v], t[1..])
      else if t[0] == ',' then
        var u := SkipTrivia(t[1..]);
        if u != "" && u[0] == ']' then Ok([v], u[1..])
        else
          match ReadItems(u)
          case Fail => Fail
          case Ok(items, rest') => Ok([v] + items, rest')
      else Fail
  }

  function ReadMember(s: string): (r: Parsed<Member>)
    ensures r.Ok? ==> |r.rest| < |s|
    decreases |s|, 2
  {
    match ReadLiteral(s)
    case Fail => Fail
    case Ok(key, rest) =>
      var t := SkipTrivia(rest);
      if t == "" || t[0] != ':' then Fail
      else
        match ReadValue(SkipTrivia(t[1..]))
        case Fail => Fail
        case Ok(v, rest') => Ok(Member(key, v), rest')
  }

  function ReadMembers(s: string): (r: Parsed<seq<Member>>)
    ensures r.Ok? ==> |r.rest| < |s|
    decreases |s|, 3
  {
    match ReadMember(s)
    case Fail => Fail
    case Ok(m, rest) =>
      var t := SkipTrivia(rest);
      if t == "" then Fail
      else if t[0] == '}' then Ok([m], t[1..])
      else if t[0] == ',' then
        var u := SkipTrivia(t[1..]);
        if u != "" && u[0] == '}' then Ok([m], u[1..])
        else
          match ReadMembers(u)
          case Fail => Fail
          case Ok(members, rest') => Ok([m] + members, rest')
      else Fail
  }

  function ReadJsonc(s: string): Option<Value>
  {
    match ReadValue(SkipTrivia(s))
    case Fail => None
    case Ok(v, rest) => if SkipTrivia(rest) == "" then Some(v) else None
  }

  /** The text a literal stands for, after the comma rewrite if `stripped`. */
  function TextOf(raw: string, stripped: bool): string
  {
    match Unescape(if stripped then StripCommas(raw) else raw)
    case None => ""
    case Some(t) => t
  }

  /** The tree a raw tree stands for. */
  function Decode(v: Value, stripped: bool): Value
    decreases v, 1
  {
    match v
    case Str(raw) => Str(TextOf(raw, stripped))
    case Arr(items) => Arr(DecodeItems(items, stripped))
    case Obj(members) => Obj(DecodeMembers(members, stripped))
    case _ => v
  }

  function DecodeItems(items: seq<Value>, stripped: bool): (r: seq<Value>)
    ensures |r| == |items|
    decreases items, 0
  {
    if items == [] then [] else [Decode(items[0], stripped)] + DecodeItems(items[1..], stripped)
  }

  function DecodeMembers(members: seq<Member>, stripped: bool): (r: seq<Member>)
    ensures |r| == |members|
    decreases members, 0
  {
    if members == [] then []
    else [Member(TextOf(members[0].key, stripped), Decode(members[0].value, stripped))]
         + DecodeMembers(members[1..], stripped)
  }

  /** No comma of the literal is followed by optional whitespace and a closing bracket. */
  predicate CommaSafe(raw: string)
  {
    forall i :: 0 <= i < |raw| && raw[i] == ',' ==> !CloserAhead(raw[i + 1..])
  }

  predicate AllSafe(v: Value)
    decreases v, 1
  {
    match v
    case Str(raw) => CommaSafe(raw)
    case Arr(items) => forall x | x in items :: AllSafe(x)
    case Obj(members) => forall m | m in members :: CommaSafe(m.key) && AllSafe(m.value)
    case _ => true
  }

  // ---------------------------------------------------------------------
  // The rewrites, token by token
  // ---------------------------------------------------------------------

  lemma CleanCopies(s: string)
    requires s != "" && s[0] != '"' && s[0] != ',' && !CommentStart(s)
    ensures Clean(s) == s[..1] + Clean(s[1..])
  {
    var c := StripComments(s);
    assert c == s[..1] + StripComments(s[1..]);
    assert c[1..] == StripComments(s[1..]) && c[..1] == s[..1];
  }

  lemma {:induction false} CloserAheadTrivia(s: string)
    ensures CloserAhead(StripComments(s)) == CloserAhead(StripComments(SkipTrivia(s)))
    decreases |s|
  {
    if s != "" && IsWs(s[0]) {
      CloserAheadTrivia(s[1..]);
      assert StripComments(s) == s[..1] + StripComments(s[1..]);
      assert StripComments(s)[1..] == StripComments(s[1..]);
    } else if CommentStart(s) {
      CloserAheadTrivia(SkipLine(s[2..]));
    }
  }

  /** Whitespace and comments leave whitespace only. */
  lemma {:induction false} CleanTrivia(s: string)
    ensures SkipWs(Clean(s)) == SkipWs(Clean(SkipTrivia(s)))
    decreases |s|
  {
    if s != "" && IsWs(s[0]) {
      CleanTrivia(s[1..]);
      CleanCopies(s);
      assert Clean(s)[1..] == Clean(s[1..]);
    } else if CommentStart(s) {
      CleanTrivia(SkipLine(s[2..]));
    }
  }

  /** A character that opens a token other than a literal or a comma survives at the front. */
  lemma CleanToken(s: string)
    requires s != "" && s[0] != '"' && s[0] != ',' && !CommentStart(s) && !IsWs(s[0])
    ensures Clean(s) != "" && Clean(s)[0] == s[0] && Clean(s)[1..] == Clean(s[1..])
    ensures SkipWs(Clean(s)) == Clean(s)
  {
    CleanCopies(s);
  }

  /** A comma survives unless it is a trailing one. */
  lemma CleanComma(s: string)
    requires s != "" && s[0] == ','
    ensures var t := SkipTrivia(s[1..]);
            if t != "" && (t[0] == '}' || t[0] == ']') then Clean(s) == Clean(s[1..])
            else if t != "" && !Space(t[0]) then Clean(s) == "," + Clean(s[1..])
            else true
  {
    var c := StripComments(s);
    assert c == s[..1] + StripComments(s[1..]);
    assert c[1..] == StripComments(s[1..]) && c[..1] == ",";
    CloserAheadTrivia(s[1..]);
    var t := SkipTrivia(s[1..]);
    if t != "" && !Space(t[0]) {
      CommentsKeepFirst(t);
    }
  }

  lemma CommentsKeepFirst(t: string)
    requires t != "" && !CommentStart(t)
    ensures StripComments(t) != "" && StripComments(t)[0] == t[0]
  {
  }

  // ---------------------------------------------------------------------
  // Literals
  // ---------------------------------------------------------------------

  /** On a well-formed literal the regex and the JSON scanner stop at the same quote. */
  lemma {:induction false} RegexReadsLiteral(s: string)
    requires ScanRaw(s).Ok? && Unescape(ScanRaw(s).value).Some?
    ensures QuotedBody(s) == ScanRaw(s)
    decreases |s|
  {
    if s[0] == '"' {
    } else if s[0] == '\\' {
      var raw := ScanRaw(s).value;
      assert raw[0] == '\\' && raw[1] == s[1] && raw[2..] == ScanRaw(s[2..]).value;
      EscapeTail(raw);
      RegexReadsLiteral(s[2..]);
    } else {
      var raw := ScanRaw(s).value;
      assert raw[0] == s[0] && raw[1..] == ScanRaw(s[1..]).value;
      RegexReadsLiteral(s[1..]);
    }
  }

  lemma {:induction false} PlainTail(raw: string)
    requires raw != "" && raw[0] != '\\' && Unescape(raw).Some?
    ensures Unescape(raw[1..]).Some?
  {
  }

  /** Four hexadecimal digits are plain characters of a body. */
  lemma HexTail(h: string, tail: string)
    requires Hex4(h).Some? && h[4..] == tail && Unescape(tail).Some?
    ensures Unescape(h).Some?
  {
    assert h[1..][1..] == h[2..] && h[2..][1..] == h[3..] && h[3..][1..] == h[4..];
    assert Unescape(h[3..]).Some?;
    assert Unescape(h[2..]).Some?;
    assert Unescape(h[1..]).Some?;
  }

  /** Behind the two characters that open an escape, the rest of a well-formed body is well-formed. */
  lemma EscapeTail(raw: string)
    requires |raw| >= 2 && raw[0] == '\\' && Unescape(raw).Some?
    ensures Unescape(raw[2..]).Some? && !LineTerm(raw[1]) && raw[1] != ','
  {
    if raw[1] == 'u' {
      assert raw[2..][4..] == raw[6..];
      HexTail(raw[2..], raw[6..]);
    }
  }

  lemma {:induction false} CloserThroughQuote(raw: string, u: string)
    ensures CloserAhead(raw + "\"" + u) == CloserAhead(raw)
  {
    if raw != "" {
      assert (raw + "\"" + u)[1..] == raw[1..] + "\"" + u;
      CloserThroughQuote(raw[1..], u);
    }
  }

  /** The comma rewrite never looks past a quote. */
  lemma {:induction false} StripThroughQuote(raw: string, u: string)
    ensures StripCommas(raw + "\"" + u) == StripCommas(raw) + "\"" + StripCommas(u)
  {
    var s := raw + "\"" + u;
    if raw == "" {
      assert s[1..] == u && s[..1] == "\"";
    } else {
      assert s[1..] == raw[1..] + "\"" + u && s[..1] == raw[..1];
      CloserThroughQuote(raw[1..], u);
      StripThroughQuote(raw[1..], u);
    }
  }

  lemma CleanLiteral(s: string)
    requires ReadLiteral(s).Ok?
    ensures Clean(s) == "\"" + (StripCommas(ReadLiteral(s).value) + "\"" + Clean(ReadLiteral(s).rest))
  {
    var raw, rest := ReadLiteral(s).value, ReadLiteral(s).rest;
    RegexReadsLiteral(s[1..]);
    var body := raw + "\"" + StripComments(rest);
    assert StripComments(s) == "\"" + body;
    assert ("\"" + body)[1..] == body && ("\"" + body)[..1] == "\"";
    StripThroughQuote(raw, StripComments(rest));
  }

  lemma StripCopies(c: char, t: string)
    requires c != ','
    ensures StripCommas([c] + t) == [c] + StripCommas(t)
  {
    assert ([c] + t)[1..] == t && ([c] + t)[..1] == [c];
  }

  lemma {:induction false} StripCopiesAll(p: string, t: string)
    requires forall i :: 0 <= i < |p| ==> p[i] != ','
    ensures StripCommas(p + t) == p + StripCommas(t)
  {
    if p == "" {
      assert p + t == t;
    } else {
      StripCopiesAll(p[1..], t);
      StripCopies(p[0], p[1..] + t);
      assert p + t == [p[0]] + (p[1..] + t);
      assert p + StripCommas(t) == [p[0]] + (p[1..] + StripCommas(t));
    }
  }

  /** The rewrite leaves a literal's end where it was. */
  lemma {:induction false} ScanStripped(raw: string, u: string)
    requires Unescape(raw).Some?
    ensures ScanRaw(StripCommas(raw) + "\"" + u) == Ok(StripCommas(raw), u)
    decreases |raw|
  {
    if raw == "" {
      assert ("" + "\"" + u)[1..] == u;
    } else if raw[0] == '\\' {
      EscapeTail(raw);
      ScanStripped(raw[2..], u);
      var head, tail := ['\\', raw[1]], StripCommas(raw[2..]);
      assert raw == head + raw[2..];
      StripCopiesAll(head, raw[2..]);
      ScanEscaped(raw[1], tail + "\"" + u);
      Assoc(head, tail, "\"", u);
      Assoc3(tail, "\"", u);
    } else {
      PlainTail(raw);
      ScanStripped(raw[1..], u);
      if !(raw[0] == ',' && CloserAhead(raw[1..])) {
        var tail := StripCommas(raw[1..]);
        ScanPlain(raw[0], tail + "\"" + u);
        assert raw[..1] == [raw[0]];
        Assoc([raw[0]], tail, "\"", u);
        Assoc3(tail, "\"", u);
      }
    }
  }

  lemma CommaSafeStep(raw: string)
    requires raw != ""
    ensures CommaSafe(raw) <==> (raw[0] == ',' ==> !CloserAhead(raw[1..])) && CommaSafe(raw[1..])
  {
    var t := raw[1..];
    if CommaSafe(raw) {
      forall i | 0 <= i < |t| && t[i] == ',' ensures !CloserAhead(t[i + 1..]) {
        assert raw[i + 1] == ',' && raw[i + 1 + 1..] == t[i + 1..];
      }
    }
    if (raw[0] == ',' ==> !CloserAhead(t)) && CommaSafe(t) {
      forall i | 0 <= i < |raw| && raw[i] == ',' ensures !CloserAhead(raw[i + 1..]) {
        if i > 0 { assert t[i - 1] == ',' && t[i - 1 + 1..] == raw[i + 1..]; }
      }
    }
  }

  lemma {:induction false} CommaSafeBehind(p: string, t: string)
    requires forall i :: 0 <= i < |p| ==> p[i] != ','
    ensures CommaSafe(p + t) <==> CommaSafe(t)
  {
    if p == "" {
      assert p + t == t;
    } else {
      assert (p + t)[1..] == p[1..] + t;
      CommaSafeStep(p + t);
      CommaSafeBehind(p[1..], t);
    }
  }

  /** What the rewrite does to a literal's text: nothing exactly when the literal is comma-safe. */
  lemma {:induction false} StrippedText(raw: string)
    requires Unescape(raw).Some?
    ensures Unescape(StripCommas(raw)).Some?
    ensures |TextOf(raw, true)| <= |TextOf(raw, false)|
    ensures |TextOf(raw, true)| == |TextOf(raw, false)| <==> CommaSafe(raw)
    ensures CommaSafe(raw) ==> StripCommas(raw) == raw
    decreases |raw|
  {
    if raw == "" {
    } else if raw[0] == '\\' {
      var n := if raw[1] == 'u' then 6 else 2;
      var head, tail := raw[..n], raw[n..];
      assert raw == head + tail;
      assert forall i :: 0 <= i < n ==> head[i] != ',' by {
        if raw[1] == 'u' {
          assert raw[2..][0] == raw[2] && raw[2..][1] == raw[3] && raw[2..][2] == raw[4] && raw[2..][3] == raw[5];
        }
      }
      StrippedText(tail);
      StripCopiesAll(head, tail);
      CommaSafeBehind(head, tail);
      EscapeCopied(raw, n, StripCommas(tail));
    } else {
      PlainTail(raw);
      CommaSafeStep(raw);
      StrippedText(raw[1..]);
      var kept := raw[..1] + StripCommas(raw[1..]);
      assert kept[1..] == StripCommas(raw[1..]) && kept[0] == raw[0];
      assert raw == raw[..1] + raw[1..];
    }
  }

  /** An escape means the same whatever follows it. */
  lemma EscapeCopied(raw: string, n: nat, t: string)
    requires |raw| >= 2 && raw[0] == '\\' && Unescape(raw).Some? && n == (if raw[1] == 'u' then 6 else 2)
    requires Unescape(t).Some?
    ensures n <= |raw| && Unescape(raw[n..]).Some?
    ensures Unescape(raw[..n] + t).Some? && |Unescape(raw[..n] + t).value| == 1 + |Unescape(t).value|
    ensures |Unescape(raw).value| == 1 + |Unescape(raw[n..]).value|
  {
    var q := raw[..n] + t;
    assert q[n..] == t && q[1] == raw[1];
    if n == 6 {
      assert q[2..][..4] == raw[2..][..4];
      assert Hex4(q[2..]) == Hex4(raw[2..]);
    }
  }

  // ---------------------------------------------------------------------
  // The rewritten text parses to the stripped tree
  // ---------------------------------------------------------------------

  /** A value opens with a character that both rewrites keep. */
  lemma ValueOpens(s: string)
    requires ReadValue(s).Ok?
    ensures s != "" && s[0] != ',' && s[0] != ']' && s[0] != '}' && !Space(s[0]) && !CommentStart(s)
    ensures Clean(s) != "" && Clean(s)[0] == s[0] && SkipWs(Clean(s)) == Clean(s)
  {
    if s[0] == '"' {
      CleanLiteral(s);
    } else {
      if s[0] != '[' && s[0] != '{' {
        ScalarOpens(s);
      }
      CleanToken(s);
    }
  }

  lemma ScalarOpens(s: string)
    requires ParseScalar(s).Ok?
    ensures s != "" && (s[0] == 'n' || s[0] == 't' || s[0] == 'f' || NumberChar(s[0]))
  {
  }

  lemma Assoc3(a: string, b: string, c: string)
    ensures a + b + c == a + (b + c)
  {
  }

  lemma {:induction false} CleanWord(word: string, t: string)
    requires forall c | c in word :: c != '"' && c != ',' && c != '/'
    ensures Clean(word + t) == word + Clean(t)
  {
    if word == "" {
      assert word + t == t;
    } else {
      assert word[0] in word;
      var s := word + t;
      assert s[1..] == word[1..] + t && s[..1] == [word[0]];
      CleanCopies(s);
      assert forall c | c in word[1..] :: c in word;
      CleanWord(word[1..], t);
      assert word == s[..1] + word[1..];
      Assoc3(s[..1], word[1..], Clean(t));
    }
  }

  lemma CloserAheadFirst(u: string)
    requires CloserAhead(u)
    ensures StripCommas(u) != "" && !NumberChar(StripCommas(u)[0])
  {
  }

  lemma CleanDelimited(t: string)
    requires Delimited(t)
    ensures Delimited(Clean(t))
  {
    if t != "" {
      if t[0] == ',' {
        var c := StripComments(t);
        assert c == t[..1] + StripComments(t[1..]);
        assert c[1..] == StripComments(t[1..]) && c[..1] == ",";
        if CloserAhead(c[1..]) { CloserAheadFirst(c[1..]); }
      } else if t[0] == '"' {
        CommentsKeepFirst(t);
      } else if CommentStart(t) {
        var u := SkipLine(t[2..]);
        if u != "" { CleanCopies(u); }
      } else {
        CleanCopies(t);
      }
    }
  }

  lemma NumberIsPrefix(s: string)
    ensures |NumberRun(s)| <= |s| && s == NumberRun(s) + s[|NumberRun(s)|..]
    ensures Delimited(s[|NumberRun(s)|..])
  {
    if s != "" && NumberChar(s[0]) {
      NumberIsPrefix(s[1..]);
    }
  }

  lemma CleanKeyword(s: string, word: string, v: Value, rest: string)
    requires s == word + rest && Print(v) == word && (v.Null? || v.Bool?)
    ensures ParseValue(Clean(s)) == Ok(v, Clean(rest))
  {
    CleanWord(word, rest);
    ParsePrintWord(v, Clean(rest));
  }

  lemma CleanNumber(s: string)
    requires ParseNumber(s).Ok?
    ensures ParseValue(Clean(s)) == Ok(ParseNumber(s).value, Clean(ParseNumber(s).rest))
  {
    var l := NumberRun(s);
    NumberIsPrefix(s);
    NumberRunChars(s);
    CleanWord(l, s[|l|..]);
    CleanDelimited(s[|l|..]);
    ParsePrintNumber(l, Clean(s[|l|..]));
  }

  /** Numbers, `true`, `false` and `null` come through unchanged. */
  lemma CleanScalar(s: string)
    requires ParseScalar(s).Ok?
    ensures ParseValue(Clean(s)) == Ok(ParseScalar(s).value, Clean(ParseScalar(s).rest))
  {
    if "null" <= s {
      CleanKeyword(s, "null", Null, s[4..]);
    } else if "true" <= s {
      CleanKeyword(s, "true", Bool(true), s[4..]);
    } else if "false" <= s {
      CleanKeyword(s, "false", Bool(false), s[5..]);
    } else {
      CleanNumber(s);
    }
  }

  /** The JSON reader on a cleaned literal. */
  lemma CleanString(s: string)
    requires ReadLiteral(s).Ok?
    ensures ParseString(Clean(s)) == Ok(TextOf(ReadLiteral(s).value, true), Clean(ReadLiteral(s).rest))
  {
    var raw, rest := ReadLiteral(s).value, ReadLiteral(s).rest;
    CleanLiteral(s);
    StrippedText(raw);
    ScanStripped(raw, Clean(rest));
    assert Clean(s)[1..] == StripCommas(raw) + "\"" + Clean(rest);
  }

  /** Closing brackets and colons are kept. */
  lemma CleanPunctuation(t: string)
    requires t != "" && (t[0] == ']' || t[0] == '}' || t[0] == ':')
    ensures Clean(t) != "" && Clean(t)[0] == t[0] && Clean(t)[1..] == Clean(t[1..]) && SkipWs(Clean(t)) == Clean(t)
  {
    CleanToken(t);
  }

  lemma {:induction false} CleanValue(s: string)
    requires ReadValue(s).Ok?
    ensures ParseValue(Clean(s)) == Ok(Decode(ReadValue(s).value, true), Clean(ReadValue(s).rest))
    decreases |s|, 1
  {
    ValueOpens(s);
    if s[0] == '"' {
      CleanString(s);
    } else if s[0] == '[' {
      var t := SkipTrivia(s[1..]);
      CleanToken(s);
      CleanTrivia(s[1..]);
      if t != "" && t[0] == ']' {
        CleanPunctuation(t);
      } else {
        ValueOpens(t);
        CleanItems(t);
      }
    } else if s[0] == '{' {
      var t := SkipTrivia(s[1..]);
      CleanToken(s);
      CleanTrivia(s[1..]);
      if t != "" && t[0] == '}' {
        CleanPunctuation(t);
      } else {
        MembersNeedKey(t);
        KeyOpens(t);
        CleanMembers(t);
      }
    } else {
      CleanScalar(s);
    }
  }

  lemma MembersNeedKey(s: string)
    requires ReadMembers(s).Ok?
    ensures ReadMember(s).Ok? && ReadLiteral(s).Ok?
  {
  }

  lemma KeyOpens(s: string)
    requires ReadLiteral(s).Ok?
    ensures Clean(s) != "" && Clean(s)[0] == '"' && SkipWs(Clean(s)) == Clean(s)
  {
    CleanLiteral(s);
  }

  /** What the JSON reader sees behind an item: a bracket, a bracket behind a dropped comma, or a comma. */
  lemma CleanSeparator(rest: string, closer: char)
    requires closer == ']' || closer == '}'
    ensures var t := SkipTrivia(rest);
            && (t != "" && t[0] == closer ==>
                  SkipWs(Clean(rest)) != "" && SkipWs(Clean(rest))[0] == closer
                  && SkipWs(Clean(rest))[1..] == Clean(t[1..]))
            && (t != "" && t[0] == ',' ==>
                  var u := SkipTrivia(t[1..]);
                  if u != "" && u[0] == closer then
                    SkipWs(Clean(rest)) != "" && SkipWs(Clean(rest))[0] == closer
                    && SkipWs(Clean(rest))[1..] == Clean(u[1..])
                  else if u != "" && !Space(u[0]) && u[0] != ']' && u[0] != '}' then
                    SkipWs(Clean(rest)) == "," + Clean(t[1..]) && SkipWs(Clean(t[1..])) == SkipWs(Clean(u))
                  else true)
  {
    var t := SkipTrivia(rest);
    CleanTrivia(rest);
    if t != "" && t[0] == closer {
      CleanPunctuation(t);
    } else if t != "" && t[0] == ',' {
      var u := SkipTrivia(t[1..]);
      CleanComma(t);
      CleanTrivia(t[1..]);
      if u != "" && u[0] == closer {
        CleanPunctuation(u);
      } else if u != "" && !Space(u[0]) && u[0] != ']' && u[0] != '}' {
        assert SkipWs("," + Clean(t[1..])) == "," + Clean(t[1..]);
      }
    }
  }

  lemma DecodeItemsCons(v: Value, more: seq<Value>)
    ensures DecodeItems([v] + more, true) == [Decode(v, true)] + DecodeItems(more, true)
    ensures more == [] ==> DecodeItems([v], true) == [Decode(v, true)]
  {
    assert ([v] + more)[1..] == more;
    assert [v] + [] == [v];
  }

  lemma DecodeMembersCons(m: Member, more: seq<Member>)
    ensures DecodeMembers([m] + more, true)
            == [Member(TextOf(m.key, true), Decode(m.value, true))] + DecodeMembers(more, true)
    ensures more == [] ==> DecodeMembers([m], true) == [Member(TextOf(m.key, true), Decode(m.value, true))]
  {
    assert ([m] + more)[1..] == more;
    assert [m] + [] == [m];
  }

  lemma {:induction false} CleanItems(s: string)
    requires ReadItems(s).Ok?
    ensures ParseItems(Clean(s)) == Ok(DecodeItems(ReadItems(s).value, true), Clean(ReadItems(s).rest))
    decreases |s|, 2
  {
    CleanValue(s);
    var v, rest := ReadValue(s).value, ReadValue(s).rest;
    var t := SkipTrivia(rest);
    CleanSeparator(rest, ']');
    DecodeItemsCons(v, []);
    if t[0] == ']' {
      ItemsClose(Clean(s), Decode(v, true), Clean(rest), Clean(t[1..]));
    } else {
      var u := SkipTrivia(t[1..]);
      if u != "" && u[0] == ']' {
        ItemsClose(Clean(s), Decode(v, true), Clean(rest), Clean(u[1..]));
      } else {
        ValueOpens(u);
        CleanItems(u);
        DecodeItemsCons(v, ReadItems(u).value);
        ItemsComma(Clean(s), Decode(v, true), Clean(rest), Clean(t[1..]), Clean(u));
      }
    }
  }

  lemma ItemsClose(s: string, v: Value, rest: string, after: string)
    requires ParseValue(s) == Ok(v, rest)
    requires SkipWs(rest) != "" && SkipWs(rest)[0] == ']' && SkipWs(rest)[1..] == after
    ensures ParseItems(s) == Ok([v], after)
  {
  }

  lemma ItemsComma(s: string, v: Value, rest: string, after: string, next: string)
    requires ParseValue(s) == Ok(v, rest) && SkipWs(rest) == "," + after
    requires SkipWs(after) == next && ParseItems(next).Ok?
    ensures ParseItems(s) == Ok([v] + ParseItems(next).value, ParseItems(next).rest)
  {
    assert ("," + after)[1..] == after;
  }

  lemma {:induction false} CleanMember(s: string)
    requires ReadMember(s).Ok?
    ensures var m := ReadMember(s).value;
            ParseMember(Clean(s)) == Ok(Member(TextOf(m.key, true), Decode(m.value, true)), Clean(ReadMember(s).rest))
    decreases |s|, 2
  {
    CleanString(s);
    var rest := ReadLiteral(s).rest;
    var t := SkipTrivia(rest);
    CleanTrivia(rest);
    CleanPunctuation(t);
    var u := SkipTrivia(t[1..]);
    CleanTrivia(t[1..]);
    ValueOpens(u);
    CleanValue(u);
  }

  lemma {:induction false} CleanMembers(s: string)
    requires ReadMembers(s).Ok?
    ensures ParseMembers(Clean(s)) == Ok(DecodeMembers(ReadMembers(s).value, true), Clean(ReadMembers(s).rest))
    decreases |s|, 3
  {
    CleanMember(s);
    var m, rest := ReadMember(s).value, ReadMember(s).rest;
    var t := SkipTrivia(rest);
    CleanSeparator(rest, '}');
    var m' := Member(TextOf(m.key, true), Decode(m.value, true));
    DecodeMembersCons(m, []);
    if t[0] == '}' {
      MembersClose(Clean(s), m', Clean(rest), Clean(t[1..]));
    } else {
      var u := SkipTrivia(t[1..]);
      if u != "" && u[0] == '}' {
        MembersClose(Clean(s), m', Clean(rest), Clean(u[1..]));
      } else {
        MembersNeedKey(u);
        KeyOpens(u);
        CleanMembers(u);
        DecodeMembersCons(m, ReadMembers(u).value);
        MembersComma(Clean(s), m', Clean(rest), Clean(t[1..]), Clean(u));
      }
    }
  }

  lemma MembersClose(s: string, m: Member, rest: string, after: string)
    requires ParseMember(s) == Ok(m, rest)
    requires SkipWs(rest) != "" && SkipWs(rest)[0] == '}' && SkipWs(rest)[1..] == after
    ensures ParseMembers(s) == Ok([m], after)
  {
  }

  lemma MembersComma(s: string, m: Member, rest: string, after: string, next: string)
    requires ParseMember(s) == Ok(m, rest) && SkipWs(rest) == "," + after
    requires SkipWs(after) == next && ParseMembers(next).Ok?
    ensures ParseMembers(s) == Ok([m] + ParseMembers(next).value, ParseMembers(next).rest)
  {
    assert ("," + after)[1..] == after;
  }

  /**
   On every text the comment-aware reader accepts, parseJsonc answers its tree, with each string
   literal put through the comma rewrite.
   */
  lemma ParseJsoncReads(text: string)
    requires ReadJsonc(text).Some?
    ensures ParseJsonc(text) == Some(Decode(ReadJsonc(text).value, true))
  {
    var t := SkipTrivia(text);
    CleanTrivia(text);
    ValueOpens(t);
    CleanValue(t);
    CleanTrivia(ReadValue(t).rest);
  }

  lemma {:induction false} DecodeSafe(v: Value)
    requires WellRead(v)
    ensures Decode(v, true) == Decode(v, false) <==> AllSafe(v)
    decreases v, 1
  {
    match v
    case Str(raw) => StrippedText(raw);
    case Arr(items) => DecodeItemsSafe(items);
    case Obj(members) => DecodeMembersSafe(members);
    case _ =>
  }

  lemma {:induction false} DecodeItemsSafe(items: seq<Value>)
    requires forall x | x in items :: WellRead(x)
    ensures DecodeItems(items, true) == DecodeItems(items, false) <==> forall x | x in items :: AllSafe(x)
    decreases items, 0
  {
    if items != [] {
      DecodeSafe(items[0]);
      DecodeItemsSafe(items[1..]);
      var a, b := DecodeItems(items, true), DecodeItems(items, false);
      assert a[0] == Decode(items[0], true) && a[1..] == DecodeItems(items[1..], true);
      assert b[0] == Decode(items[0], false) && b[1..] == DecodeItems(items[1..], false);
      assert items == [items[0]] + items[1..];
      assert a == [a[0]] + a[1..] && b == [b[0]] + b[1..];
    }
  }

  lemma {:induction false} DecodeMembersSafe(members: seq<Member>)
    requires forall m | m in members :: Unescape(m.key).Some? && WellRead(m.value)
    ensures DecodeMembers(members, true) == DecodeMembers(members, false)
       <==> forall m | m in members :: CommaSafe(m.key) && AllSafe(m.value)
    decreases members, 0
  {
    if members != [] {
      StrippedText(members[0].key);
      DecodeSafe(members[0].value);
      DecodeMembersSafe(members[1..]);
      var a, b := DecodeMembers(members, true), DecodeMembers(members, false);
      assert a[0].value == Decode(members[0].value, true) && a[1..] == DecodeMembers(members[1..], true);
      assert b[0].value == Decode(members[0].value, false) && b[1..] == DecodeMembers(members[1..], false);
      assert members == [members[0]] + members[1..];
      assert a == [a[0]] + a[1..] && b == [b[0]] + b[1..];
    }
  }

  /** Every literal of the raw tree is well-formed, as the reader guarantees. */
  predicate WellRead(v: Value)
    decreases v, 1
  {
    match v
    case Str(raw) => Unescape(raw).Some?
    case Arr(items) => forall x | x in items :: WellRead(x)
    case Obj(members) => forall m | m in members :: Unescape(m.key).Some? && WellRead(m.value)
    case _ => true
  }

  lemma {:induction false} ReadIsWellRead(s: string)
    ensures ReadValue(s).Ok? ==> WellRead(ReadValue(s).value)
    decreases |s|, 1
  {
    if s != "" && ReadValue(s).Ok? {
      if s[0] == '[' {
        ReadItemsWellRead(SkipTrivia(s[1..]));
      } else if s[0] == '{' {
        ReadMembersWellRead(SkipTrivia(s[1..]));
      }
    }
  }

  lemma {:induction false} ReadItemsWellRead(s: string)
    ensures ReadItems(s).Ok? ==> forall x | x in ReadItems(s).value :: WellRead(x)
    decreases |s|, 2
  {
    if ReadItems(s).Ok? {
      ReadIsWellRead(s);
      var t := SkipTrivia(ReadValue(s).rest);
      if t[0] == ',' { ReadItemsWellRead(SkipTrivia(t[1..])); }
    }
  }

  lemma {:induction false} ReadMembersWellRead(s: string)
    ensures ReadMembers(s).Ok? ==> forall m | m in ReadMembers(s).value :: Unescape(m.key).Some? && WellRead(m.value)
    decreases |s|, 3
  {
    if ReadMembers(s).Ok? {
      MembersNeedKey(s);
      ReadIsWellRead(SkipTrivia(SkipTrivia(ReadLiteral(s).rest)[1..]));
      var t := SkipTrivia(ReadMember(s).rest);
      if t[0] == ',' { ReadMembersWellRead(SkipTrivia(t[1..])); }
    }
  }

  /**
   parseJsonc recovers exactly the tree that was written if and only if no string literal holds a
   comma followed by optional whitespace and a closing bracket.
   */
  lemma ParseJsoncExact(text: string)
    requires ReadJsonc(text).Some?
    ensures ParseJsonc(text) == Some(Decode(ReadJsonc(text).value, false)) <==> AllSafe(ReadJsonc(text).value)
  {
    ParseJsoncReads(text);
    ReadIsWellRead(SkipTrivia(text));
    DecodeSafe(ReadJsonc(text).value);
  }

  // ---------------------------------------------------------------------
  // A text that is misread
  // ---------------------------------------------------------------------

  /** An object whose one string holds a comma before a bracket. */
  const COMMA_TEXT: string := "{\"a\":\",]\"}"

  lemma {:induction false} EscapeSame(raw: string)
    requires forall i :: 0 <= i < |raw| ==> raw[i] != '"' && raw[i] != '\\' && !Control(raw[i])
    ensures Escape(raw) == raw
  {
    if raw != "" {
      EscapeSame(raw[1..]);
      assert EscapeChar(raw[0]) == [raw[0]];
      assert raw == [raw[0]] + raw[1..];
    }
  }

  lemma LiteralReads(raw: string, rest: string)
    requires forall i :: 0 <= i < |raw| ==> raw[i] != '"' && raw[i] != '\\' && !Control(raw[i])
    ensures Unescape(raw) == Some(raw) && ReadLiteral("\"" + raw + "\"" + rest) == Ok(raw, rest)
  {
    hide Escape, Unescape, ScanRaw, Control;
    EscapeSame(raw);
    ScanRawEscape(raw, rest);
    UnescapeEscape(raw);
    QuotedTail(raw, rest);
  }

  lemma QuotedTail(raw: string, rest: string)
    ensures var s := "\"" + raw + "\"" + rest; s != "" && s[0] == '"' && s[1..] == raw + "\"" + rest
  {
  }

  lemma TriviaStays(s: string)
    requires s != "" && !IsWs(s[0]) && s[0] != '/'
    ensures SkipTrivia(s) == s
  {
  }

  lemma CommaMember()
    ensures ReadMember("\"a\":\",]\"}") == Ok(Member("a", Str(",]")), "}")
  {
    hide ReadLiteral, SkipTrivia, ScanRaw, Unescape;
    var value := "\",]\"}";
    LiteralReads(",]", "}");
    assert value == "\"" + ",]" + "\"" + "}";
    LiteralReads("a", ":" + value);
    assert "\"a\":\",]\"}" == "\"" + "a" + "\"" + (":" + value);
    TriviaStays(":" + value);
    TriviaStays(value);
    assert (":" + value)[1..] == value;
    assert ReadValue(value) == Ok(Str(",]"), "}");
  }

  lemma CommaTextReads()
    ensures ReadJsonc(COMMA_TEXT) == Some(Obj([Member("a", Str(",]"))]))
  {
    hide ReadLiteral, SkipTrivia, ReadMember;
    var member := "\"a\":\",]\"}";
    CommaMember();
    assert COMMA_TEXT == "{" + member && COMMA_TEXT[1..] == member;
    TriviaStays("}");
    TriviaStays(member);
    TriviaStays(COMMA_TEXT);
    CommaMembers(member);
    NoTrivia();
  }

  lemma CommaMembers(s: string)
    requires ReadMember(s) == Ok(Member("a", Str(",]")), "}") && SkipTrivia("}") == "}"
    ensures ReadMembers(s) == Ok([Member("a", Str(",]"))], "")
  {
    hide ReadMember, SkipTrivia;
    assert "}"[1..] == "";
  }

  lemma NoTrivia()
    ensures SkipTrivia("") == ""
  {
  }

  /** parseJsonc drops the comma out of the string. */
  lemma CommaIsLost()
    ensures ParseJsonc(COMMA_TEXT) == Some(Obj([Member("a", Str("]"))]))
    ensures ReadJsonc(COMMA_TEXT).Some? && Decode(ReadJsonc(COMMA_TEXT).value, false) == Obj([Member("a", Str(",]"))])
  {
    hide COMMA_TEXT, ReadJsonc, ParseJsonc, Unescape, StripCommas;
    CommaTextReads();
    ParseJsoncReads(COMMA_TEXT);
    LiteralReads(",]", "");
    LiteralReads("]", "");
    LiteralReads("a", "");
    CommaStripped();
    assert Decode(Str(",]"), true) == Str("]") && Decode(Str(",]"), false) == Str(",]");
    var m := Member("a", Str(",]"));
    assert DecodeMembers([m], true) == [Member("a", Str("]"))] && DecodeMembers([m], false) == [m];
  }

  lemma CommaStripped()
    ensures StripCommas(",]") == "]" && StripCommas("a") == "a"
  {
    assert ",]"[1..] == "]" && "]"[1..] == "" && "a"[1..] == "";
  }
}
