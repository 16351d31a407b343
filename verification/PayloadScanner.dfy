/**
 Finding a JSON payload inside mixed output (scripts/check-dependency-freshness.ts).

 The scanner keeps an explicit stack of expected closing brackets and two flags. It is proved
 against a recursive reader of balanced groups, which has neither.
 */
module PayloadScanner {
  import opened Text
  import opened Json
  import opened Lines

  predicate Opens(c: char)
  {
    c == '{' || c == '['
  }

  predicate Closes(c: char)
  {
    c == '}' || c == ']'
  }

  function Closer(c: char): char
  {
    if c == '{' then '}' else ']'
  }

  // ---------------------------------------------------------------------
  // Balanced groups, by recursion
  // ---------------------------------------------------------------------

  /** What follows the balanced group at the front of `s`; None if there is no such group. */
  function Group(s: string): (r: Option<string>)
    ensures r.Some? ==> |r.value| < |s|
    decreases |s|, 0
  {
    if s != "" && Opens(s[0]) then Body(s[1..], Closer(s[0])) else None
  }

  /** What follows the first unmatched `closer`; string literals hide their brackets. */
  function Body(s: string, closer: char): (r: Option<string>)
    ensures r.Some? ==> |r.value| < |s|
    decreases |s|, 1
  {
    if s == "" then None
    else if s[0] == '"' then
      match ScanRaw(s[1..])
      case Fail => None
      case Ok(_, rest) => Body(rest, closer)
    else if Opens(s[0]) then
      match Group(s)
      case None => None
      case Some(rest) => Body(rest, closer)
    else if Closes(s[0]) then
      if s[0] == closer then Some(s[1..]) else None
    else Body(s[1..], closer)
  }

  /** `p` is one balanced group and nothing more. */
  predicate Balanced(p: string)
  {
    Group(p) == Some("")
  }

  /** The balanced group of `s` at `start`. */
  function PayloadAt(s: string, start: nat): Option<string>
  {
    if start >= |s| then None
    else
      match Group(s[start..])
      case None => None
      case Some(rest) => Some(s[start..|s| - |rest|])
  }

  // ---------------------------------------------------------------------
  // The scanner
  // ---------------------------------------------------------------------

  /** Closes every group on the stack, innermost (the last) first. */
  function CloseAll(s: string, stack: seq<char>): (r: Option<string>)
    ensures r.Some? ==> |r.value| <= |s|
    decreases |stack|
  {
    if stack == [] then Some(s)
    else
      match Body(s, stack[|stack| - 1])
      case None => None
      case Some(rest) => CloseAll(rest, stack[..|stack| - 1])
  }

  /** What the scanner will find when it resumes at `s` in the given state. */
  function Resume(s: string, stack: seq<char>, inString: bool, escaped: bool): (r: Option<string>)
    ensures r.Some? ==> |r.value| <= |s|
  {
    if !inString then CloseAll(s, stack)
    else if escaped && s == "" then None
    else
      match ScanRaw(if escaped then s[1..] else s)
      case Fail => None
      case Ok(_, rest) => CloseAll(rest, stack)
  }

  function Sliced(s: string, start: nat, rest: Option<string>): Option<string>
    requires rest.Some? ==> |rest.value| <= |s| - start
  {
    match rest
    case None => None
    case Some(r) => Some(s[start..|s| - |r|])
  }

  method ExtractJsonPayloadAt(trimmed: string, start: nat) returns (payload: Option<string>)
    ensures payload == PayloadAt(trimmed, start)
  {
    if start >= |trimmed| || !Opens(trimmed[start]) {
      return None;
    }
    var closing := Closer(trimmed[start]);
    var stack := [closing];
    var inString, escaped := false, false;
    var index := start + 1;
    assert trimmed[start..][1..] == trimmed[index..];
    assert CloseAll(trimmed[index..], stack) == Body(trimmed[index..], closing);
    while index < |trimmed|
      invariant start < index <= |trimmed| && stack != []
      invariant escaped ==> inString
      invariant PayloadAt(trimmed, start) == Sliced(trimmed, start, Resume(trimmed[index..], stack, inString, escaped))
    {
      var c := trimmed[index];
      ResumeStep(trimmed[index..], stack, inString, escaped);
      assert trimmed[index..][1..] == trimmed[index + 1..];
      index := index + 1;
      if inString {
        if escaped {
          escaped := false;
        } else if c == '\\' {
          escaped := true;
        } else if c == '"' {
          inString := false;
        }
      } else if c == '"' {
        inString := true;
      } else if Opens(c) {
        stack := stack + [Closer(c)];
      } else if Closes(c) {
        var expected := stack[|stack| - 1];
        stack := stack[..|stack| - 1];
        if c != expected {
          return None;
        }
        if stack == [] {
          return Some(trimmed[start..index]);
        }
      }
    }
    return None;
  }

  /** One character of the scan, state by state. */
  lemma ResumeStep(s: string, stack: seq<char>, inString: bool, escaped: bool)
    requires s != "" && stack != [] && (escaped ==> inString)
    ensures var c, t, top, below := s[0], s[1..], stack[|stack| - 1], stack[..|stack| - 1];
            Resume(s, stack, inString, escaped) ==
            if inString then
              if escaped then Resume(t, stack, true, false)
              else if c == '\\' then Resume(t, stack, true, true)
              else if c == '"' then Resume(t, stack, false, false)
              else Resume(t, stack, true, false)
            else if c == '"' then Resume(t, stack, true, false)
            else if Opens(c) then Resume(t, stack + [Closer(c)], false, false)
            else if Closes(c) then
              if c != top then None else Resume(t, below, false, false)
            else Resume(t, stack, false, false)
  {
    var c, t, top := s[0], s[1..], stack[|stack| - 1];
    if inString {
      if !escaped && c == '\\' && t != "" {
        assert s[2..] == t[1..];
      }
    } else if Opens(c) {
      var pushed := stack + [Closer(c)];
      assert pushed[..|pushed| - 1] == stack && pushed[|pushed| - 1] == Closer(c);
      assert Group(s) == Body(t, Closer(c));
      match Group(s)
      case None =>
        assert Body(s, top) == None;
        assert CloseAll(t, pushed) == None;
      case Some(rest) =>
        assert Body(s, top) == Body(rest, top);
        assert CloseAll(rest, stack) == CloseAll(s, stack);
    }
  }

  // ---------------------------------------------------------------------
  // What the payload does not depend on
  // ---------------------------------------------------------------------

  lemma {:induction false} ScanRawExtends(s: string, t: string)
    requires ScanRaw(s).Ok?
    ensures ScanRaw(s + t) == Ok(ScanRaw(s).value, ScanRaw(s).rest + t)
    decreases |s|
  {
    if s[0] == '"' {
      assert (s + t)[1..] == s[1..] + t;
    } else if s[0] == '\\' {
      assert (s + t)[2..] == s[2..] + t && (s + t)[..2] == s[..2];
      ScanRawExtends(s[2..], t);
    } else {
      assert (s + t)[1..] == s[1..] + t && (s + t)[..1] == s[..1];
      ScanRawExtends(s[1..], t);
    }
  }

  lemma {:induction false} BodyExtends(s: string, closer: char, t: string)
    requires Body(s, closer).Some?
    ensures Body(s + t, closer) == Some(Body(s, closer).value + t)
    decreases |s|, 1
  {
    assert (s + t)[1..] == s[1..] + t && (s + t)[0] == s[0];
    if s[0] == '"' {
      ScanRawExtends(s[1..], t);
      BodyExtends(ScanRaw(s[1..]).rest, closer, t);
    } else if Opens(s[0]) {
      GroupExtends(s, t);
      BodyExtends(Group(s).value, closer, t);
    } else if !Closes(s[0]) {
      BodyExtends(s[1..], closer, t);
    }
  }

  lemma {:induction false} GroupExtends(s: string, t: string)
    requires Group(s).Some?
    ensures Group(s + t) == Some(Group(s).value + t)
    decreases |s|, 0
  {
    assert (s + t)[1..] == s[1..] + t && (s + t)[0] == s[0];
    BodyExtends(s[1..], Closer(s[0]), t);
  }

  /** What a reader consumes is a prefix, and read on its own that prefix is consumed whole. */
  lemma {:induction false} BodySuffix(s: string, closer: char) returns (p: string)
    requires Body(s, closer).Some?
    ensures s == p + Body(s, closer).value && Body(p, closer) == Some("")
    decreases |s|, 1
  {
    if s[0] == '"' {
      var raw, rest := ScanRaw(s[1..]).value, ScanRaw(s[1..]).rest;
      var q := BodySuffix(rest, closer);
      p := "\"" + (raw + "\"" + q);
      LiteralBody(s[1..], raw, q, closer);
      assert s == "\"" + (raw + "\"" + rest);
    } else if Opens(s[0]) {
      var g := GroupSuffix(s);
      var q := BodySuffix(Group(s).value, closer);
      p := g + q;
      GroupBody(g, q, closer);
    } else if Closes(s[0]) {
      p := [s[0]];
      assert p[1..] == "";
    } else {
      var q := BodySuffix(s[1..], closer);
      p := [s[0]] + q;
      assert p[1..] == q;
    }
  }

  lemma LiteralBody(s: string, raw: string, q: string, closer: char)
    requires ScanRaw(s).Ok? && ScanRaw(s).value == raw
    ensures Body("\"" + (raw + "\"" + q), closer) == Body(q, closer)
  {
    ScanRawExact(raw);
    ScanRawExtends(raw + "\"", q);
    assert "" + q == q;
    assert ("\"" + (raw + "\"" + q))[1..] == raw + "\"" + q;
  }

  lemma GroupBody(g: string, q: string, closer: char)
    requires Balanced(g)
    ensures Body(g + q, closer) == Body(q, closer)
  {
    GroupExtends(g, q);
    assert "" + q == q;
    assert (g + q)[0] == g[0];
  }

  /** A scanned literal, read again on its own. */
  lemma {:induction false} ScanRawExact(raw: string)
    requires exists s :: ScanRaw(s).Ok? && ScanRaw(s).value == raw
    ensures ScanRaw(raw + "\"") == Ok(raw, "")
    decreases |raw|
  {
    var s :| ScanRaw(s).Ok? && ScanRaw(s).value == raw;
    var q := raw + "\"";
    if s[0] == '"' {
      assert q[1..] == "";
    } else if s[0] == '\\' {
      ScanRawExact(ScanRaw(s[2..]).value);
      assert q[2..] == ScanRaw(s[2..]).value + "\"" && q[..2] == s[..2];
    } else {
      ScanRawExact(ScanRaw(s[1..]).value);
      assert q[1..] == ScanRaw(s[1..]).value + "\"" && q[..1] == s[..1];
    }
  }

  lemma {:induction false} GroupSuffix(s: string) returns (p: string)
    requires Group(s).Some?
    ensures s == p + Group(s).value && Balanced(p)
    decreases |s|, 0
  {
    var q := BodySuffix(s[1..], Closer(s[0]));
    p := [s[0]] + q;
    assert p[1..] == q;
  }

  /** Payloads are exactly the balanced prefixes of the text from `start` on. */
  lemma PayloadIsBalancedPrefix(s: string, start: nat, p: string)
    requires start <= |s|
    ensures PayloadAt(s, start) == Some(p) <==> Balanced(p) && p <= s[start..]
  {
    if PayloadAt(s, start) == Some(p) {
      var q := GroupSuffix(s[start..]);
      assert q == s[start..][..|q|] == s[start..start + |q|];
    }
    if Balanced(p) && p <= s[start..] {
      var t := s[start..][|p|..];
      assert s[start..] == p + t;
      GroupExtends(p, t);
      assert "" + t == t;
      assert p == s[start..][..|p|] == s[start..start + |p|];
    }
  }

  /**
   A balanced text is found wherever it stands, whatever precedes or follows it, and no shorter
   prefix of it is balanced.
   */
  lemma PayloadContextFree(before: string, p: string, after: string)
    requires Balanced(p)
    ensures PayloadAt(before + p + after, |before|) == Some(p)
    ensures forall n :: 0 <= n < |p| ==> !Balanced(p[..n])
  {
    var s := before + p + after;
    assert s[|before|..] == p + after;
    PayloadIsBalancedPrefix(s, |before|, p);
    forall n | 0 <= n < |p| ensures !Balanced(p[..n]) {
      assert p[0..] == p;
      PayloadIsBalancedPrefix(p, 0, p[..n]);
      PayloadIsBalancedPrefix(p, 0, p);
    }
  }

  // ---------------------------------------------------------------------
  // JSON texts are balanced
  // ---------------------------------------------------------------------

  lemma {:induction false} BodySkipsWs(s: string, closer: char)
    ensures Body(s, closer) == Body(SkipWs(s), closer)
  {
    if s != "" && IsWs(s[0]) {
      BodySkipsWs(s[1..], closer);
    }
  }

  lemma {:induction false} BodySkipsNumber(s: string, closer: char)
    ensures |NumberRun(s)| <= |s| && Body(s, closer) == Body(s[|NumberRun(s)|..], closer)
  {
    if s != "" && NumberChar(s[0]) {
      BodySkipsNumber(s[1..], closer);
      assert s[1..][|NumberRun(s[1..])|..] == s[|NumberRun(s)|..];
    }
  }

  lemma {:induction false} BodySkipsWord(s: string, word: string, closer: char)
    requires word <= s && forall c | c in word :: c != '"' && !Opens(c) && !Closes(c)
    ensures Body(s, closer) == Body(s[|word|..], closer)
    decreases |word|
  {
    if word != "" {
      assert s[0] == word[0] && word[0] in word;
      assert word[1..] <= s[1..];
      assert forall c | c in word[1..] :: c in word;
      BodySkipsWord(s[1..], word[1..], closer);
      assert s[1..][|word| - 1..] == s[|word|..];
    }
  }

  lemma BodySkipsString(s: string, closer: char)
    requires ParseString(s).Ok?
    ensures Body(s, closer) == Body(ParseString(s).rest, closer)
  {
  }

  /** A JSON value inside a group is passed over whole. */
  lemma {:induction false} BodySkipsValue(s: string, closer: char)
    requires ParseValue(s).Ok?
    ensures Body(s, closer) == Body(ParseValue(s).rest, closer)
    decreases |s|, 1
  {
    if s[0] == '"' {
      BodySkipsString(s, closer);
    } else if s[0] == '[' {
      ArrayIsGroup(s);
    } else if s[0] == '{' {
      ObjectIsGroup(s);
    } else if "null" <= s {
      BodySkipsWord(s, "null", closer);
    } else if "true" <= s {
      BodySkipsWord(s, "true", closer);
    } else if "false" <= s {
      BodySkipsWord(s, "false", closer);
    } else {
      BodySkipsNumber(s, closer);
    }
  }

  lemma {:induction false} ArrayIsGroup(s: string)
    requires s != "" && s[0] == '[' && ParseArray(s).Ok?
    ensures Group(s) == Some(ParseArray(s).rest)
    decreases |s|, 0
  {
    var t := SkipWs(s[1..]);
    BodySkipsWs(s[1..], ']');
    if !(t != "" && t[0] == ']') {
      ItemsCloseGroup(t);
    }
  }

  lemma {:induction false} ItemsCloseGroup(s: string)
    requires ParseItems(s).Ok?
    ensures Body(s, ']') == Some(ParseItems(s).rest)
    decreases |s|, 2
  {
    BodySkipsValue(s, ']');
    var rest := ParseValue(s).rest;
    BodySkipsWs(rest, ']');
    var t := SkipWs(rest);
    if t[0] == ',' {
      BodySkipsWs(t[1..], ']');
      ItemsCloseGroup(SkipWs(t[1..]));
    }
  }

  lemma {:induction false} ObjectIsGroup(s: string)
    requires s != "" && s[0] == '{' && ParseObject(s).Ok?
    ensures Group(s) == Some(ParseObject(s).rest)
    decreases |s|, 0
  {
    var t := SkipWs(s[1..]);
    BodySkipsWs(s[1..], '}');
    if !(t != "" && t[0] == '}') {
      MembersCloseGroup(t);
    }
  }

  lemma {:induction false} BodySkipsMember(s: string)
    requires ParseMember(s).Ok?
    ensures Body(s, '}') == Body(ParseMember(s).rest, '}')
    decreases |s|, 2
  {
    BodySkipsString(s, '}');
    var rest := ParseString(s).rest;
    BodySkipsWs(rest, '}');
    var t := SkipWs(rest);
    BodySkipsWs(t[1..], '}');
    BodySkipsValue(SkipWs(t[1..]), '}');
  }

  lemma {:induction false} MembersCloseGroup(s: string)
    requires ParseMembers(s).Ok?
    ensures Body(s, '}') == Some(ParseMembers(s).rest)
    decreases |s|, 3
  {
    BodySkipsMember(s);
    var rest := ParseMember(s).rest;
    BodySkipsWs(rest, '}');
    var t := SkipWs(rest);
    if t[0] == ',' {
      BodySkipsWs(t[1..], '}');
      MembersCloseGroup(SkipWs(t[1..]));
    }
  }

  /** Every JSON object or array text is extracted exactly, whatever stands before and after it. */
  lemma JsonPayloadIsExact(before: string, text: string, after: string)
    requires text != "" && Opens(text[0])
    requires ParseValue(text).Ok? && ParseValue(text).rest == ""
    ensures PayloadAt(before + text + after, |before|) == Some(text)
  {
    if text[0] == '[' { ArrayIsGroup(text); } else { ObjectIsGroup(text); }
    PayloadContextFree(before, text, after);
  }

  // ---------------------------------------------------------------------
  // Reading pnpm's output
  // ---------------------------------------------------------------------

  /** The value of the payload at `start`, if there is one and it is JSON. */
  function ValueAt(s: string, start: nat): Option<Value>
  {
    match PayloadAt(s, start)
    case None => None
    case Some(p) => Parse(p)
  }

  /** The value of the first payload, from `start` on, that is JSON. */
  function FirstValue(s: string, start: nat): Option<Value>
    decreases |s| - start
  {
    if start >= |s| then None
    else if ValueAt(s, start).Some? then ValueAt(s, start)
    else FirstValue(s, start + 1)
  }

  /** None stands for the error thrown when no payload parses. */
  method ParsePnpmOutdatedOutput(output: string) returns (r: Option<Value>)
    ensures r == FirstValue(Trim(output), 0)
  {
    var trimmed := Trim(output);
    var index := 0;
    while index < |trimmed|
      invariant 0 <= index <= |trimmed|
      invariant FirstValue(trimmed, 0) == FirstValue(trimmed, index)
    {
      var payload := ExtractJsonPayloadAt(trimmed, index);
      if payload.Some? {
        var v := Parse(payload.value);
        if v.Some? {
          return v;
        }
      }
      index := index + 1;
    }
    return None;
  }

  lemma {:induction false} FirstValueSkips(s: string, i: nat, k: nat)
    requires i <= k <= |s|
    requires forall j :: i <= j < k ==> ValueAt(s, j) == None
    ensures FirstValue(s, i) == FirstValue(s, k)
    decreases k - i
  {
    if i < k {
      FirstValueSkips(s, i + 1, k);
    }
  }

  /**
   Warnings in front of the report are skipped: when no position of the noise starts a payload
   that is JSON, the report's own value is read, whatever follows it.
   */
  lemma ReportBehindNoise(noise: string, report: string, after: string)
    requires report != "" && Opens(report[0])
    requires ParseValue(report).Ok? && ParseValue(report).rest == ""
    requires forall j :: 0 <= j < |noise| ==> ValueAt(noise + report + after, j) == None
    ensures FirstValue(noise + report + after, 0) == Some(ParseValue(report).value)
  {
    FirstValueSkips(noise + report + after, 0, |noise|);
    JsonPayloadIsExact(noise, report, after);
    assert SkipWs(report) == report && SkipWs("") == "";
  }
}
