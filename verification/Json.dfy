/**
 JSON text: the value tree, the compact printer of `JSON.stringify` and the reader of
 `JSON.parse` (RFC 8259, sections 2 to 7).
 */
module Json {
  import opened Text

  /** A number keeps the lexeme it is spelled with. */
  datatype Value =
    | Null
    | Bool(b: bool)
    | Num(lexeme: string)
    | Str(text: string)
    | Arr(items: seq<Value>)
    | Obj(members: seq<Member>)

  datatype Member = Member(key: string, value: Value)

  /** What a reader leaves behind: a value and the unread rest of the text. */
  datatype Parsed<+T> = Fail | Ok(value: T, rest: string)

  // ---------------------------------------------------------------------
  // Lexical layer
  // ---------------------------------------------------------------------

  predicate IsWs(c: char)
  {
    c == ' ' || c == '\t' || c == '\n' || c == '\r'
  }

  function SkipWs(s: string): (r: string)
    ensures |r| <= |s|
    ensures r != "" ==> !IsWs(r[0])
  {
    if s != "" && IsWs(s[0]) then SkipWs(s[1..]) else s
  }

  predicate Digit(c: char)
  {
    '0' <= c <= '9'
  }

  predicate NumberChar(c: char)
  {
    Digit(c) || c == '-' || c == '+' || c == '.' || c == 'e' || c == 'E'
  }

  /** The maximal run of number characters at the front of `s`. */
  function NumberRun(s: string): (r: string)
    ensures |r| <= |s|
  {
    if s != "" && NumberChar(s[0]) then [s[0]] + NumberRun(s[1..]) else ""
  }

  function DigitsEnd(s: string, i: nat): (j: nat)
    requires i <= |s|
    ensures i <= j <= |s|
    decreases |s| - i
  {
    if i < |s| && Digit(s[i]) then DigitsEnd(s, i + 1) else i
  }

  /** The number grammar of section 6 of RFC 8259, from the integer part on. */
  predicate ValidUnsigned(s: string)
  {
    var i := DigitsEnd(s, 0);
    && i > 0 && (s[0] == '0' ==> i == 1)
    && ValidFraction(s[i..])
  }

  predicate ValidFraction(s: string)
  {
    if s != "" && s[0] == '.' then
      var i := DigitsEnd(s, 1);
      i > 1 && ValidExponent(s[i..])
    else
      ValidExponent(s)
  }

  predicate ValidExponent(s: string)
  {
    s == ""
    || ((s[0] == 'e' || s[0] == 'E')
        && var i := if |s| > 1 && (s[1] == '+' || s[1] == '-') then 2 else 1;
        |s| > i && DigitsEnd(s, i) == |s|)
  }

  /** A whole lexeme is a JSON number. */
  predicate ValidNumber(s: string)
  {
    && s != "" && NumberRun(s) == s
    && (if s[0] == '-' then ValidUnsigned(s[1..]) else ValidUnsigned(s))
  }

  // ---------------------------------------------------------------------
  // Strings
  // ---------------------------------------------------------------------

  function HexDigit(n: nat): char
    requires n < 16
  {
    "0123456789abcdef"[n]
  }

  function HexValue(c: char): (r: Option<nat>)
    ensures r.Some? ==> r.value < 16
  {
    if '0' <= c <= '9' then Some(c as int - '0' as int)
    else if 'a' <= c <= 'f' then Some(c as int - 'a' as int + 10)
    else if 'A' <= c <= 'F' then Some(c as int - 'A' as int + 10)
    else None
  }

  predicate Control(c: char)
  {
    c < ' '
  }

  function ShortEscape(c: char): Option<char>
  {
    match c
    case '"' => Some('"')
    case '\\' => Some('\\')
    case '\U{8}' => Some('b')
    case '\U{C}' => Some('f')
    case '\n' => Some('n')
    case '\r' => Some('r')
    case '\t' => Some('t')
    case _ => None
  }

  /** One character as `JSON.stringify` spells it inside a string literal. */
  function EscapeChar(c: char): string
  {
    if ShortEscape(c).Some? then ['\\', ShortEscape(c).value]
    else if Control(c) then ['\\', 'u', '0', '0', HexDigit(c as int / 16), HexDigit(c as int % 16)]
    else [c]
  }

  function Escape(s: string): string
  {
    if s == "" then "" else EscapeChar(s[0]) + Escape(s[1..])
  }

  function Quote(s: string): string
  {
    "\"" + Escape(s) + "\""
  }

  /** Splits a literal, its opening quote already read, at the first quote that no backslash escapes. */
  function ScanRaw(s: string): (r: Parsed<string>)
    ensures r.Ok? ==> s == r.value + "\"" + r.rest
  {
    if s == "" then Fail
    else if s[0] == '"' then Ok("", s[1..])
    else if s[0] == '\\' then
      if |s| == 1 then Fail
      else
        match ScanRaw(s[2..])
        case Fail => Fail
        case Ok(raw, rest) => Ok(s[..2] + raw, rest)
    else
      match ScanRaw(s[1..])
      case Fail => Fail
      case Ok(raw, rest) => Ok(s[..1] + raw, rest)
  }

  function SimpleEscape(c: char): Option<char>
  {
    match c
    case '"' => Some('"')
    case '\\' => Some('\\')
    case '/' => Some('/')
    case 'b' => Some('\U{8}')
    case 'f' => Some('\U{C}')
    case 'n' => Some('\n')
    case 'r' => Some('\r')
    case 't' => Some('\t')
    case _ => None
  }

  function Hex4(s: string): (r: Option<nat>)
    ensures r.Some? ==> |s| >= 4 && r.value < 0x10000
  {
    if |s| < 4 then None
    else
      match (HexValue(s[0]), HexValue(s[1]), HexValue(s[2]), HexValue(s[3]))
      case (Some(a), Some(b), Some(c), Some(d)) => Some(((a * 16 + b) * 16 + c) * 16 + d)
      case _ => None
  }

  /** The character of a `\u` escape. A surrogate, which a `char` cannot hold, reads as U+FFFD. */
  function CodeChar(code: nat): char
    requires code < 0x10000
  {
    if code < 0xD800 || 0xE000 <= code then code as char else '\U{FFFD}'
  }

  /** The text a literal's raw body spells; None if an escape is malformed or a control character is bare. */
  function Unescape(raw: string): Option<string>
    decreases |raw|
  {
    if raw == "" then Some("")
    else if raw[0] == '\\' then
      if |raw| == 1 then None
      else if raw[1] == 'u' then
        match Hex4(raw[2..])
        case None => None
        case Some(code) => Cons(CodeChar(code), Unescape(raw[6..]))
      else
        match SimpleEscape(raw[1])
        case None => None
        case Some(c) => Cons(c, Unescape(raw[2..]))
    else if raw[0] == '"' || Control(raw[0]) then None
    else Cons(raw[0], Unescape(raw[1..]))
  }

  function Cons(c: char, tail: Option<string>): Option<string>
  {
    match tail
    case None => None
    case Some(t) => Some([c] + t)
  }

  // ---------------------------------------------------------------------
  // Printer
  // ---------------------------------------------------------------------

  function Print(v: Value): string
    decreases v, 1
  {
    match v
    case Null => "null"
    case Bool(b) => if b then "true" else "false"
    case Num(lexeme) => lexeme
    case Str(text) => Quote(text)
    case Arr(items) => "[" + PrintItems(items) + "]"
    case Obj(members) => "{" + PrintMembers(members) + "}"
  }

  function PrintItems(items: seq<Value>): string
    decreases items, 2
  {
    if items == [] then "" else Print(items[0]) + PrintMoreItems(items[1..])
  }

  function PrintMoreItems(items: seq<Value>): string
    decreases items, 2
  {
    if items == [] then "" else "," + Print(items[0]) + PrintMoreItems(items[1..])
  }

  function PrintMember(m: Member): string
    decreases m, 2
  {
    Quote(m.key) + ":" + Print(m.value)
  }

  function PrintMembers(members: seq<Member>): string
    decreases members, 2
  {
    if members == [] then "" else PrintMember(members[0]) + PrintMoreMembers(members[1..])
  }

  function PrintMoreMembers(members: seq<Member>): string
    decreases members, 2
  {
    if members == [] then "" else "," + PrintMember(members[0]) + PrintMoreMembers(members[1..])
  }

  // ---------------------------------------------------------------------
  // Reader
  // ---------------------------------------------------------------------

  /** Reads a string literal whose opening quote is the first character of `s`. */
  function ParseString(s: string): (r: Parsed<string>)
    ensures r.Ok? ==> |r.rest| < |s|
  {
    if s == "" || s[0] != '"' then Fail
    else
      match ScanRaw(s[1..])
      case Fail => Fail
      case Ok(raw, rest) =>
        match Unescape(raw)
        case None => Fail
        case Some(text) => Ok(text, rest)
  }

  /** Reads the value at the very front of `s`. */
  function ParseValue(s: string): (r: Parsed<Value>)
    ensures r.Ok? ==> |r.rest| < |s|
    decreases |s|, 1
  {
    if s == "" then Fail
    else if s[0] == '"' then
      (match ParseString(s)
       case Fail => Fail
       case Ok(text, rest) => Ok(Str(text), rest))
    else if s[0] == '[' then ParseArray(s)
    else if s[0] == '{' then ParseObject(s)
    else ParseScalar(s)
  }

  function ParseScalar(s: string): (r: Parsed<Value>)
    ensures r.Ok? ==> |r.rest| < |s|
  {
    if "null" <= s then Ok(Null, s[4..])
    else if "true" <= s then Ok(Bool(true), s[4..])
    else if "false" <= s then Ok(Bool(false), s[5..])
    else ParseNumber(s)
  }

  function ParseNumber(s: string): (r: Parsed<Value>)
    ensures r.Ok? ==> |r.rest| < |s|
  {
    var lexeme := NumberRun(s);
    if ValidNumber(lexeme) then Ok(Num(lexeme), s[|lexeme|..]) else Fail
  }

  function ParseArray(s: string): (r: Parsed<Value>)
    requires s != "" && s[0] == '['
    ensures r.Ok? ==> |r.rest| < |s|
    decreases |s|, 0
  {
    var t := SkipWs(s[1..]);
    if t != "" && t[0] == ']' then Ok(Arr([]), t[1..])
    else
      match ParseItems(t)
      case Fail => Fail
      case Ok(items, rest) => Ok(Arr(items), rest)
  }

  /** Reads one or more comma-separated values and the closing bracket. */
  function ParseItems(s: string): (r: Parsed<seq<Value>>)
    ensures r.Ok? ==> |r.rest| < |s|
    decreases |s|, 2
  {
    match ParseValue(s)
    case Fail => Fail
    case Ok(v, rest) =>
      var t := SkipWs(rest);
      if t == "" then Fail
      else if t[0] == ']' then Ok([v], t[1..])
      else if t[0] == ',' then
        match ParseItems(SkipWs(t[1..]))
        case Fail => Fail
        case Ok(items, rest') => Ok([v] + items, rest')
      else Fail
  }

  function ParseObject(s: string): (r: Parsed<Value>)
    requires s != "" && s[0] == '{'
    ensures r.Ok? ==> |r.rest| < |s|
    decreases |s|, 0
  {
    var t := SkipWs(s[1..]);
    if t != "" && t[0] == '}' then Ok(Obj([]), t[1..])
    else
      match ParseMembers(t)
      case Fail => Fail
      case Ok(members, rest) => Ok(Obj(members), rest)
  }

  function ParseMember(s: string): (r: Parsed<Member>)
    ensures r.Ok? ==> |r.rest| < |s|
    decreases |s|, 2
  {
    match ParseString(s)
    case Fail => Fail
    case Ok(key, rest) =>
      var t := SkipWs(rest);
      if t == "" || t[0] != ':' then Fail
      else
        match ParseValue(SkipWs(t[1..]))
        case Fail => Fail
        case Ok(v, rest') => Ok(Member(key, v), rest')
  }

  function ParseMembers(s: string): (r: Parsed<seq<Member>>)
    ensures r.Ok? ==> |r.rest| < |s|
    decreases |s|, 3
  {
    match ParseMember(s)
    case Fail => Fail
    case Ok(m, rest) =>
      var t := SkipWs(rest);
      if t == "" then Fail
      else if t[0] == '}' then Ok([m], t[1..])
      else if t[0] == ',' then
        match ParseMembers(SkipWs(t[1..]))
        case Fail => Fail
        case Ok(members, rest') => Ok([m] + members, rest')
      else Fail
  }

  /** `JSON.parse`: one value with nothing but whitespace around it. */
  function Parse(s: string): Option<Value>
  {
    match ParseValue(SkipWs(s))
    case Fail => None
    case Ok(v, rest) => if SkipWs(rest) == "" then Some(v) else None
  }
}
