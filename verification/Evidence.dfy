/**
 The evidence contract (src/blueprint/evidence.ts): the four kinds of evidence, what makes an item
 valid, and its JSON form.
 */
module Evidence {
  import opened Text
  import opened Json
  import opened JsonRoundTrip
  import opened Canonical

  datatype Verdict = Pass | Fail

  datatype Item =
    | Test(result: Verdict, ts: string, agent: Option<string>, command: string, exitCode: int)
    | Integration(result: Verdict, ts: string, agent: Option<string>, command: string, exitCode: int,
                  targetFiles: seq<string>)
    | Audit(result: Verdict, ts: string, agent: Option<string>, auditKind: string, passed: bool,
            auditCommand: Option<string>, auditExitCode: Option<int>)
    | Manual(result: Verdict, ts: string, agent: Option<string>, actor: string, description: string,
             logExcerpt: string)

  const MANUAL_LOG_MAX_BYTES: nat := 4096

  function Utf8Bytes(s: string): nat
  {
    if s == "" then 0
    else (if s[0] < '\U{80}' then 1 else if s[0] < '\U{800}' then 2 else if s[0] < '\U{10000}' then 3 else 4)
         + Utf8Bytes(s[1..])
  }

  predicate NonEmpty(s: Option<string>)
  {
    s.Some? ==> s.value != ""
  }

  /** The schema's rules. `isDate` stands for `Date.parse` answering a number. */
  predicate Valid(e: Item, isDate: string -> bool)
  {
    && isDate(e.ts) && NonEmpty(e.agent)
    && match e
       case Test(result, _, _, command, exitCode) => command != "" && (result.Pass? ==> exitCode == 0)
       case Integration(result, _, _, command, exitCode, files) =>
         && command != "" && (result.Pass? ==> exitCode == 0)
         && files != [] && forall f | f in files :: f != ""
       case Audit(result, _, _, auditKind, passed, command, _) =>
         auditKind != "" && NonEmpty(command) && (result.Pass? ==> passed)
       case Manual(_, _, _, actor, description, log) =>
         actor != "" && description != "" && log != "" && Utf8Bytes(log) <= MANUAL_LOG_MAX_BYTES
  }

  predicate ValidList(es: seq<Item>, isDate: string -> bool)
  {
    es != [] && forall e | e in es :: Valid(e, isDate)
  }

  // ---------------------------------------------------------------------
  // Integers
  // ---------------------------------------------------------------------

  function DigitOf(n: nat): char
    requires n < 10
  {
    n as char + '0'
  }

  function NatText(n: nat): string
  {
    if n < 10 then [DigitOf(n)] else NatText(n / 10) + [DigitOf(n % 10)]
  }

  function IntText(n: int): string
  {
    if n < 0 then "-" + NatText(-n) else NatText(n)
  }

  function NatOf(s: string): Option<nat>
  {
    if s == "" || !Digit(s[|s| - 1]) then None
    else
      var d := s[|s| - 1] as int - '0' as int;
      if |s| == 1 then Some(d)
      else
        match NatOf(s[..|s| - 1])
        case None => None
        case Some(n) => Some(n * 10 + d)
  }

  /** An integer lexeme's value; None for one with a fraction or an exponent. */
  function IntOf(s: string): Option<int>
  {
    if s != "" && s[0] == '-' then
      match NatOf(s[1..])
      case None => None
      case Some(n) => Some(0 - n as int)
    else
      match NatOf(s)
      case None => None
      case Some(n) => Some(n)
  }

  lemma {:induction false} NatTextReads(n: nat)
    ensures NatOf(NatText(n)) == Some(n) && NatText(n) != ""
    ensures forall i :: 0 <= i < |NatText(n)| ==> Digit(NatText(n)[i])
    ensures n > 0 ==> NatText(n)[0] != '0'
    ensures n < 10 ==> |NatText(n)| == 1
  {
    if n >= 10 {
      NatTextReads(n / 10);
      var t := NatText(n);
      assert t[..|t| - 1] == NatText(n / 10);
    }
  }

  lemma {:induction false} AllDigits(s: string, i: nat)
    requires i <= |s| && forall k :: i <= k < |s| ==> Digit(s[k])
    ensures DigitsEnd(s, i) == |s|
    decreases |s| - i
  {
    if i < |s| { AllDigits(s, i + 1); }
  }

  lemma {:induction false} AllNumberChars(s: string)
    requires forall i :: 0 <= i < |s| ==> NumberChar(s[i])
    ensures NumberRun(s) == s
  {
    if s != "" {
      AllNumberChars(s[1..]);
    }
  }

  lemma IntTextReads(n: int)
    ensures IntOf(IntText(n)) == Some(n) && ValidNumber(IntText(n))
  {
    var digits := NatText(if n < 0 then -n else n);
    NatTextReads(if n < 0 then -n else n);
    AllDigits(digits, 0);
    assert digits[|digits|..] == "";
    assert ValidUnsigned(digits);
    AllNumberChars(IntText(n));
    if n < 0 {
      assert IntText(n)[1..] == digits;
    }
  }

  // ---------------------------------------------------------------------
  // JSON form
  // ---------------------------------------------------------------------

  function VerdictText(v: Verdict): string
  {
    if v.Pass? then "pass" else "fail"
  }

  function Field(key: string, s: string): seq<Member>
  {
    [Member(key, Str(s))]
  }

  function OptField(key: string, s: Option<string>): seq<Member>
  {
    match s
    case None => []
    case Some(t) => Field(key, t)
  }

  function IntField(key: string, n: int): seq<Member>
  {
    [Member(key, Num(IntText(n)))]
  }

  function OptIntField(key: string, n: Option<int>): seq<Member>
  {
    match n
    case None => []
    case Some(k) => IntField(key, k)
  }

  function Strings(xs: seq<string>): (r: seq<Value>)
    ensures |r| == |xs| && forall i :: 0 <= i < |r| ==> r[i] == Str(xs[i])
  {
    seq(|xs|, i requires 0 <= i < |xs| => Str(xs[i]))
  }

  function KindText(e: Item): string
  {
    match e
    case Test(_, _, _, _, _) => "test"
    case Integration(_, _, _, _, _, _) => "integration"
    case Audit(_, _, _, _, _, _, _) => "audit"
    case Manual(_, _, _, _, _, _) => "manual"
  }

  function BaseFields(e: Item): seq<Member>
  {
    Field("kind", KindText(e)) + Field("result", VerdictText(e.result)) + Field("ts", e.ts) + OptField("agent", e.agent)
  }

  function KindFields(e: Item): seq<Member>
  {
    match e
    case Test(_, _, _, command, exitCode) => Field("command", command) + IntField("exit_code", exitCode)
    case Integration(_, _, _, command, exitCode, files) =>
      Field("command", command) + IntField("exit_code", exitCode) + [Member("target_files", Arr(Strings(files)))]
    case Audit(_, _, _, auditKind, passed, command, exitCode) =>
      Field("audit_kind", auditKind) + [Member("passed", Bool(passed))]
      + OptField("command", command) + OptIntField("exit_code", exitCode)
    case Manual(_, _, _, actor, description, log) =>
      Field("actor", actor) + Field("description", description) + [Member("allow_manual", Bool(true))]
      + Field("log_excerpt", log)
  }

  function Encode(e: Item): Value
  {
    Obj(BaseFields(e) + KindFields(e))
  }

  /** An item as a value, its keys sorted. */
  function Sorted(e: Item): Value
  {
    SortKeys(Encode(e))
  }

  function SortedList(es: seq<Item>): seq<Value>
  {
    if es == [] then [] else [Sorted(es[0])] + SortedList(es[1..])
  }

  type Fields = map<string, Value>

  /** An object's fields; of several members with one key `JSON.parse` keeps the last. */
  function FieldsOf(members: seq<Member>): Fields
  {
    if members == [] then map[]
    else FieldsOf(members[..|members| - 1])[members[|members| - 1].key := members[|members| - 1].value]
  }

  function GetStr(f: Fields, key: string): Option<string>
  {
    if key in f && f[key].Str? then Some(f[key].text) else None
  }

  function GetInt(f: Fields, key: string): Option<int>
  {
    if key in f && f[key].Num? then IntOf(f[key].lexeme) else None
  }

  function GetBool(f: Fields, key: string): Option<bool>
  {
    if key in f && f[key].Bool? then Some(f[key].b) else None
  }

  function StringsOf(items: seq<Value>): Option<seq<string>>
  {
    if items == [] then Some([])
    else if !items[0].Str? then None
    else
      match StringsOf(items[1..])
      case None => None
      case Some(rest) => Some([items[0].text] + rest)
  }

  function GetStrings(f: Fields, key: string): Option<seq<string>>
  {
    if key in f && f[key].Arr? then StringsOf(f[key].items) else None
  }

  function VerdictOf(s: Option<string>): Option<Verdict>
  {
    match s
    case Some(t) => if t == "pass" then Some(Pass) else if t == "fail" then Some(Verdict.Fail) else None
    case None => None
  }

  /** An optional field: absent is fine, present it must be of the right type. */
  predicate OptStrOk(f: Fields, key: string)
  {
    key in f ==> f[key].Str?
  }

  predicate OptIntOk(f: Fields, key: string)
  {
    key in f ==> GetInt(f, key).Some?
  }

  const BASE_KEYS: set<string> := {"kind", "result", "ts", "agent"}
  const TEST_KEYS: set<string> := BASE_KEYS + {"command", "exit_code"}
  const INTEGRATION_KEYS: set<string> := TEST_KEYS + {"target_files"}
  const AUDIT_KEYS: set<string> := TEST_KEYS + {"audit_kind", "passed"}
  const MANUAL_KEYS: set<string> := BASE_KEYS + {"actor", "description", "allow_manual", "log_excerpt"}

  function DecodeTest(f: Fields, result: Verdict, ts: string): Option<Item>
  {
    match (GetStr(f, "command"), GetInt(f, "exit_code"))
    case (Some(command), Some(exitCode)) =>
      if f.Keys <= TEST_KEYS then Some(Test(result, ts, GetStr(f, "agent"), command, exitCode)) else None
    case _ => None
  }

  function DecodeIntegration(f: Fields, result: Verdict, ts: string): Option<Item>
  {
    match (GetStr(f, "command"), GetInt(f, "exit_code"), GetStrings(f, "target_files"))
    case (Some(command), Some(exitCode), Some(files)) =>
      if f.Keys <= INTEGRATION_KEYS then Some(Integration(result, ts, GetStr(f, "agent"), command, exitCode, files))
      else None
    case _ => None
  }

  function DecodeAudit(f: Fields, result: Verdict, ts: string): Option<Item>
  {
    match (GetStr(f, "audit_kind"), GetBool(f, "passed"))
    case (Some(auditKind), Some(passed)) =>
      if f.Keys <= AUDIT_KEYS && OptStrOk(f, "command") && OptIntOk(f, "exit_code")
      then Some(Audit(result, ts, GetStr(f, "agent"), auditKind, passed, GetStr(f, "command"), GetInt(f, "exit_code")))
      else None
    case _ => None
  }

  function DecodeManual(f: Fields, result: Verdict, ts: string): Option<Item>
  {
    match (GetStr(f, "actor"), GetStr(f, "description"), GetStr(f, "log_excerpt"))
    case (Some(actor), Some(description), Some(log)) =>
      if f.Keys <= MANUAL_KEYS && GetBool(f, "allow_manual") == Some(true)
      then Some(Manual(result, ts, GetStr(f, "agent"), actor, description, log)) else None
    case _ => None
  }

  /** The strict object schemas, told apart by `kind`. */
  function DecodeFields(f: Fields): Option<Item>
  {
    match (VerdictOf(GetStr(f, "result")), GetStr(f, "ts"), GetStr(f, "kind"))
    case (Some(result), Some(ts), Some(kind)) =>
      if !OptStrOk(f, "agent") then None
      else if kind == "test" then DecodeTest(f, result, ts)
      else if kind == "integration" then DecodeIntegration(f, result, ts)
      else if kind == "audit" then DecodeAudit(f, result, ts)
      else if kind == "manual" then DecodeManual(f, result, ts)
      else None
    case _ => None
  }

  /** `evidenceSchema.safeParse` on a JSON value. */
  function Decode(v: Value, isDate: string -> bool): Option<Item>
  {
    if !v.Obj? then None
    else
      match DecodeFields(FieldsOf(v.members))
      case None => None
      case Some(e) => if Valid(e, isDate) then Some(e) else None
  }

  function DecodeItems(items: seq<Value>, isDate: string -> bool): Option<seq<Item>>
  {
    if items == [] then Some([])
    else
      match (Decode(items[0], isDate), DecodeItems(items[1..], isDate))
      case (Some(e), Some(rest)) => Some([e] + rest)
      case _ => None
  }

  /** `evidenceListSchema.safeParse` on JSON text. */
  function ReadList(text: string, isDate: string -> bool): Option<seq<Item>>
  {
    match Parse(text)
    case Some(Arr(items)) => if items == [] then None else DecodeItems(items, isDate)
    case _ => None
  }

  /** `canonicalizeEvidenceList` */
  function CanonicalList(es: seq<Item>): string
  {
    Print(Arr(SortedList(es)))
  }

  // ---------------------------------------------------------------------
  // Reading canonical evidence back
  // ---------------------------------------------------------------------

  lemma {:induction false} FieldsAre(members: seq<Member>, key: string, v: Value)
    requires Distinct(members)
    ensures key in FieldsOf(members) && FieldsOf(members)[key] == v <==> Member(key, v) in members
  {
    if members != [] {
      var n := |members| - 1;
      FieldsAre(members[..n], key, v);
      assert members == members[..n] + [members[n]];
    }
  }

  /** The order of members does not matter. */
  lemma FieldsAgree(a: seq<Member>, b: seq<Member>)
    requires Distinct(a) && Distinct(b) && forall m :: m in a <==> m in b
    ensures FieldsOf(a) == FieldsOf(b)
  {
    var f, g := FieldsOf(a), FieldsOf(b);
    forall key | key in f ensures key in g && g[key] == f[key] {
      FieldsAre(a, key, f[key]);
      FieldsAre(b, key, f[key]);
    }
    forall key | key in g ensures key in f {
      FieldsAre(a, key, g[key]);
      FieldsAre(b, key, g[key]);
    }
  }

  lemma {:induction false} FieldsConcat(a: seq<Member>, b: seq<Member>)
    ensures FieldsOf(a + b) == FieldsOf(a) + FieldsOf(b)
  {
    if b == [] {
      assert a + b == a;
    } else {
      var n := |b| - 1;
      assert (a + b)[..|a + b| - 1] == a + b[..n];
      FieldsConcat(a, b[..n]);
    }
  }

  lemma OneField(key: string, v: Value)
    ensures FieldsOf([Member(key, v)]) == map[key := v]
  {
    assert [Member(key, v)][..0] == [];
  }

  lemma {:induction false} StringsRead(xs: seq<string>)
    ensures StringsOf(Strings(xs)) == Some(xs)
  {
    if xs != [] {
      assert Strings(xs)[1..] == Strings(xs[1..]);
      StringsRead(xs[1..]);
      assert xs == [xs[0]] + xs[1..];
    }
  }

  lemma {:induction false} FieldKeys(members: seq<Member>, key: string)
    ensures key in FieldsOf(members) <==> exists m | m in members :: m.key == key
  {
    if members != [] {
      var n := |members| - 1;
      FieldKeys(members[..n], key);
      assert members == members[..n] + [members[n]];
    }
  }

  /** A list whose fields are `f`, without repetition and already sorted below its own level. */
  ghost predicate Lists(members: seq<Member>, f: Fields)
  {
    && FieldsOf(members) == f && Distinct(members)
    && forall m | m in members :: SortKeys(m.value) == m.value && WellFormed(m.value) && UniqueKeys(m.value)
  }

  lemma ListsConcat(a: seq<Member>, f: Fields, b: seq<Member>, g: Fields)
    requires Lists(a, f) && Lists(b, g) && f.Keys !! g.Keys
    ensures Lists(a + b, f + g)
  {
    FieldsConcat(a, b);
    forall i, j | 0 <= i < |a| && 0 <= j < |b| ensures a[i].key != b[j].key {
      FieldKeys(a, a[i].key);
      FieldKeys(b, b[j].key);
      assert a[i] in a && b[j] in b;
    }
  }

  lemma ListsField(key: string, v: Value)
    requires SortKeys(v) == v && WellFormed(v) && UniqueKeys(v)
    ensures Lists([Member(key, v)], map[key := v])
  {
    OneField(key, v);
  }

  lemma ListsStr(key: string, s: string)
    ensures Lists(Field(key, s), map[key := Str(s)])
  {
    ListsField(key, Str(s));
  }

  lemma ListsInt(key: string, n: int)
    ensures Lists(IntField(key, n), map[key := Num(IntText(n))])
  {
    IntTextReads(n);
    ListsField(key, Num(IntText(n)));
  }

  function OptStrMap(key: string, s: Option<string>): Fields
  {
    match s
    case None => map[]
    case Some(t) => map[key := Str(t)]
  }

  function OptIntMap(key: string, n: Option<int>): Fields
  {
    match n
    case None => map[]
    case Some(k) => map[key := Num(IntText(k))]
  }

  lemma ListsOptStr(key: string, s: Option<string>)
    ensures Lists(OptField(key, s), OptStrMap(key, s))
  {
    if s.Some? { ListsStr(key, s.value); }
  }

  lemma ListsOptInt(key: string, n: Option<int>)
    ensures Lists(OptIntField(key, n), OptIntMap(key, n))
  {
    if n.Some? { ListsInt(key, n.value); }
  }

  lemma {:induction false} ScalarsSorted(items: seq<Value>)
    requires forall x | x in items :: SortKeys(x) == x
    ensures SortItems(items) == items
  {
    if items != [] {
      ScalarsSorted(items[1..]);
      assert items == [items[0]] + items[1..];
    }
  }

  lemma ListsFiles(files: seq<string>)
    ensures Lists([Member("target_files", Arr(Strings(files)))], map["target_files" := Arr(Strings(files))])
  {
    ScalarsSorted(Strings(files));
    ListsField("target_files", Arr(Strings(files)));
  }

  function BaseMap(e: Item): Fields
  {
    map["kind" := Str(KindText(e))] + map["result" := Str(VerdictText(e.result))] + map["ts" := Str(e.ts)]
    + OptStrMap("agent", e.agent)
  }

  function KindMap(e: Item): Fields
  {
    match e
    case Test(_, _, _, command, exitCode) =>
      map["command" := Str(command)] + map["exit_code" := Num(IntText(exitCode))]
    case Integration(_, _, _, command, exitCode, files) =>
      map["command" := Str(command)] + map["exit_code" := Num(IntText(exitCode))]
      + map["target_files" := Arr(Strings(files))]
    case Audit(_, _, _, auditKind, passed, command, exitCode) => AuditMap(auditKind, passed, command, exitCode)
    case Manual(_, _, _, actor, description, log) =>
      map["actor" := Str(actor)] + map["description" := Str(description)] + map["allow_manual" := Bool(true)]
      + map["log_excerpt" := Str(log)]
  }

  function AuditMap(auditKind: string, passed: bool, command: Option<string>, exitCode: Option<int>): Fields
  {
    map["audit_kind" := Str(auditKind)] + map["passed" := Bool(passed)]
    + OptStrMap("command", command) + OptIntMap("exit_code", exitCode)
  }

  lemma BaseLists(e: Item)
    ensures Lists(BaseFields(e), BaseMap(e))
  {
    ListsStr("kind", KindText(e));
    ListsStr("result", VerdictText(e.result));
    ListsStr("ts", e.ts);
    ListsOptStr("agent", e.agent);
    ListsConcat(Field("kind", KindText(e)), map["kind" := Str(KindText(e))],
                Field("result", VerdictText(e.result)), map["result" := Str(VerdictText(e.result))]);
    ListsConcat(Field("kind", KindText(e)) + Field("result", VerdictText(e.result)),
                map["kind" := Str(KindText(e))] + map["result" := Str(VerdictText(e.result))],
                Field("ts", e.ts), map["ts" := Str(e.ts)]);
    ListsConcat(Field("kind", KindText(e)) + Field("result", VerdictText(e.result)) + Field("ts", e.ts),
                map["kind" := Str(KindText(e))] + map["result" := Str(VerdictText(e.result))] + map["ts" := Str(e.ts)],
                OptField("agent", e.agent), OptStrMap("agent", e.agent));
  }

  lemma CommandLists(command: string, exitCode: int)
    ensures Lists(Field("command", command) + IntField("exit_code", exitCode),
                  map["command" := Str(command)] + map["exit_code" := Num(IntText(exitCode))])
  {
    ListsStr("command", command);
    ListsInt("exit_code", exitCode);
    ListsConcat(Field("command", command), map["command" := Str(command)],
                IntField("exit_code", exitCode), map["exit_code" := Num(IntText(exitCode))]);
  }

  lemma AuditLists(auditKind: string, passed: bool, command: Option<string>, exitCode: Option<int>)
    ensures Lists(Field("audit_kind", auditKind) + [Member("passed", Bool(passed))]
                  + OptField("command", command) + OptIntField("exit_code", exitCode),
                  AuditMap(auditKind, passed, command, exitCode))
  {
    ListsStr("audit_kind", auditKind);
    ListsField("passed", Bool(passed));
    ListsOptStr("command", command);
    ListsOptInt("exit_code", exitCode);
    ListsConcat(Field("audit_kind", auditKind), map["audit_kind" := Str(auditKind)],
                [Member("passed", Bool(passed))], map["passed" := Bool(passed)]);
    ListsConcat(Field("audit_kind", auditKind) + [Member("passed", Bool(passed))],
                map["audit_kind" := Str(auditKind)] + map["passed" := Bool(passed)],
                OptField("command", command), OptStrMap("command", command));
    ListsConcat(Field("audit_kind", auditKind) + [Member("passed", Bool(passed))] + OptField("command", command),
                map["audit_kind" := Str(auditKind)] + map["passed" := Bool(passed)] + OptStrMap("command", command),
                OptIntField("exit_code", exitCode), OptIntMap("exit_code", exitCode));
  }

  lemma ManualLists(actor: string, description: string, log: string)
    ensures Lists(Field("actor", actor) + Field("description", description) + [Member("allow_manual", Bool(true))]
                  + Field("log_excerpt", log),
                  map["actor" := Str(actor)] + map["description" := Str(description)]
                  + map["allow_manual" := Bool(true)] + map["log_excerpt" := Str(log)])
  {
    ListsStr("actor", actor);
    ListsStr("description", description);
    ListsField("allow_manual", Bool(true));
    ListsStr("log_excerpt", log);
    ListsConcat(Field("actor", actor), map["actor" := Str(actor)],
                Field("description", description), map["description" := Str(description)]);
    ListsConcat(Field("actor", actor) + Field("description", description),
                map["actor" := Str(actor)] + map["description" := Str(description)],
                [Member("allow_manual", Bool(true))], map["allow_manual" := Bool(true)]);
    ListsConcat(Field("actor", actor) + Field("description", description) + [Member("allow_manual", Bool(true))],
                map["actor" := Str(actor)] + map["description" := Str(description)] + map["allow_manual" := Bool(true)],
                Field("log_excerpt", log), map["log_excerpt" := Str(log)]);
  }

  lemma IntegrationLists(command: string, exitCode: int, files: seq<string>)
    ensures Lists(Field("command", command) + IntField("exit_code", exitCode)
                  + [Member("target_files", Arr(Strings(files)))],
                  map["command" := Str(command)] + map["exit_code" := Num(IntText(exitCode))]
                  + map["target_files" := Arr(Strings(files))])
  {
    CommandLists(command, exitCode);
    ListsFiles(files);
    ListsConcat(Field("command", command) + IntField("exit_code", exitCode),
                map["command" := Str(command)] + map["exit_code" := Num(IntText(exitCode))],
                [Member("target_files", Arr(Strings(files)))], map["target_files" := Arr(Strings(files))]);
  }

  lemma KindLists(e: Item)
    ensures Lists(KindFields(e), KindMap(e))
  {
    match e
    case Test(_, _, _, command, exitCode) => CommandLists(command, exitCode);
    case Integration(_, _, _, command, exitCode, files) => IntegrationLists(command, exitCode, files);
    case Audit(_, _, _, auditKind, passed, command, exitCode) => AuditLists(auditKind, passed, command, exitCode);
    case Manual(_, _, _, actor, description, log) => ManualLists(actor, description, log);
  }

  lemma OwnKey(key: string)
    requires key in {"command", "exit_code", "target_files", "audit_kind", "passed"}
          || key in {"actor", "description", "allow_manual", "log_excerpt"}
    ensures key !in BASE_KEYS
  {
  }

  lemma BaseKeys(e: Item)
    ensures BaseMap(e).Keys <= BASE_KEYS
  {
  }

  lemma KindKeys(e: Item)
    ensures KindMap(e).Keys !! BASE_KEYS && BaseMap(e).Keys <= BASE_KEYS
  {
    BaseKeys(e);
    hide BaseMap, BASE_KEYS, AuditMap;
    forall key | key in KindMap(e) ensures key !in BASE_KEYS {
      if e.Audit? {
        AuditMapReads(e.auditKind, e.passed, e.auditCommand, e.auditExitCode);
      }
      OwnKey(key);
    }
  }

  lemma EncodeLists(e: Item)
    ensures Lists(BaseFields(e) + KindFields(e), BaseMap(e) + KindMap(e))
  {
    BaseLists(e);
    KindLists(e);
    KindKeys(e);
    ListsConcat(BaseFields(e), BaseMap(e), KindFields(e), KindMap(e));
  }

  /** The fields every kind shares read back, whatever the kind's own fields are. */
  lemma BaseReads(e: Item, g: Fields)
    requires g.Keys !! BASE_KEYS
    ensures var f := BaseMap(e) + g;
            && VerdictOf(GetStr(f, "result")) == Some(e.result) && GetStr(f, "ts") == Some(e.ts)
            && GetStr(f, "kind") == Some(KindText(e)) && OptStrOk(f, "agent") && GetStr(f, "agent") == e.agent
            && f.Keys <= BASE_KEYS + g.Keys
            && forall key | key in g :: f[key] == g[key]
  {
  }

  lemma TestReads(f: Fields, e: Item, g: Fields)
    requires e.Test? && g == KindMap(e) && f.Keys <= BASE_KEYS + g.Keys && GetStr(f, "agent") == e.agent
    requires forall key | key in g :: key in f && f[key] == g[key]
    ensures DecodeTest(f, e.result, e.ts) == Some(e)
  {
    IntTextReads(e.exitCode);
    assert "command" in g && "exit_code" in g;
  }

  lemma IntegrationReads(f: Fields, e: Item, g: Fields)
    requires e.Integration? && g == KindMap(e) && f.Keys <= BASE_KEYS + g.Keys && GetStr(f, "agent") == e.agent
    requires forall key | key in g :: key in f && f[key] == g[key]
    ensures DecodeIntegration(f, e.result, e.ts) == Some(e)
  {
    IntTextReads(e.exitCode);
    StringsRead(e.targetFiles);
    assert "command" in g && "exit_code" in g && "target_files" in g;
  }

  lemma AuditMapReads(auditKind: string, passed: bool, command: Option<string>, exitCode: Option<int>)
    ensures var g := AuditMap(auditKind, passed, command, exitCode);
            && GetStr(g, "audit_kind") == Some(auditKind) && GetBool(g, "passed") == Some(passed)
            && GetStr(g, "command") == command && OptStrOk(g, "command")
            && GetInt(g, "exit_code") == exitCode && OptIntOk(g, "exit_code")
            && g.Keys <= {"audit_kind", "passed", "command", "exit_code"}
  {
    if exitCode.Some? { IntTextReads(exitCode.value); }
  }

  lemma AuditReads(f: Fields, e: Item, g: Fields)
    requires e.Audit? && g == KindMap(e) && f.Keys <= BASE_KEYS + g.Keys && GetStr(f, "agent") == e.agent
    requires forall key | key in g :: key in f && f[key] == g[key]
    ensures DecodeAudit(f, e.result, e.ts) == Some(e)
  {
    AuditMapReads(e.auditKind, e.passed, e.auditCommand, e.auditExitCode);
    assert forall key :: key !in BASE_KEYS ==> (key in f <==> key in g);
    assert GetStr(f, "audit_kind") == Some(e.auditKind) && GetBool(f, "passed") == Some(e.passed);
    assert GetStr(f, "command") == e.auditCommand && OptStrOk(f, "command");
    assert GetInt(f, "exit_code") == e.auditExitCode && OptIntOk(f, "exit_code");
  }

  lemma ManualReads(f: Fields, e: Item, g: Fields)
    requires e.Manual? && g == KindMap(e) && f.Keys <= BASE_KEYS + g.Keys && GetStr(f, "agent") == e.agent
    requires forall key | key in g :: key in f && f[key] == g[key]
    ensures DecodeManual(f, e.result, e.ts) == Some(e)
  {
    assert "actor" in g && "description" in g && "allow_manual" in g && "log_excerpt" in g;
  }

  lemma DecodeMap(e: Item)
    ensures DecodeFields(BaseMap(e) + KindMap(e)) == Some(e)
  {
    hide BaseMap, KindMap, DecodeTest, DecodeIntegration, DecodeAudit, DecodeManual, VerdictOf, GetStr, OptStrOk,
      BASE_KEYS;
    var g := KindMap(e);
    var f := BaseMap(e) + g;
    KindKeys(e);
    BaseReads(e, g);
    match e
    case Test(_, _, _, _, _) => TestReads(f, e, g);
    case Integration(_, _, _, _, _, _) => IntegrationReads(f, e, g);
    case Audit(_, _, _, _, _, _, _) => AuditReads(f, e, g);
    case Manual(_, _, _, _, _, _) => ManualReads(f, e, g);
  }

  lemma {:induction false} SortedAlready(members: seq<Member>)
    requires forall m | m in members :: SortKeys(m.value) == m.value
    ensures SortValues(members) == members
  {
    if members != [] {
      SortedAlready(members[1..]);
      assert members == [members[0]] + members[1..];
    }
  }

  /** Sorting an object's keys keeps its fields. */
  lemma SortedLists(ms: seq<Member>, f: Fields)
    requires Lists(ms, f)
    ensures SortKeys(Obj(ms)) == Obj(SortByKey(ms)) && FieldsOf(SortByKey(ms)) == f && WellFormed(Obj(SortByKey(ms)))
  {
    SortedAlready(ms);
    SortSorts(ms);
    AscendingDistinct(SortByKey(ms));
    FieldsAgree(ms, SortByKey(ms));
  }

  /** An item survives key sorting, printing and parsing. */
  lemma DecodeSorted(e: Item, isDate: string -> bool)
    requires Valid(e, isDate)
    ensures WellFormed(Sorted(e)) && Decode(Sorted(e), isDate) == Some(e)
  {
    EncodeLists(e);
    SortedLists(BaseFields(e) + KindFields(e), BaseMap(e) + KindMap(e));
    DecodeMap(e);
  }

  lemma {:induction false} DecodeEach(vs: seq<Value>, es: seq<Item>, isDate: string -> bool)
    requires |vs| == |es| && forall i :: 0 <= i < |vs| ==> Decode(vs[i], isDate) == Some(es[i])
    ensures DecodeItems(vs, isDate) == Some(es)
  {
    hide Decode;
    if vs != [] {
      DecodeEach(vs[1..], es[1..], isDate);
      assert es == [es[0]] + es[1..];
    }
  }

  lemma {:induction false} SortedListAt(es: seq<Item>, i: nat)
    requires i < |es|
    ensures |SortedList(es)| == |es| && SortedList(es)[i] == Sorted(es[i])
  {
    if i > 0 {
      SortedListAt(es[1..], i - 1);
    } else if |es| > 1 {
      SortedListAt(es[1..], 0);
    }
  }

  /** Canonical evidence reads back as the evidence it was written for, and stays on one line. */
  lemma CanonicalListReads(es: seq<Item>, isDate: string -> bool)
    requires ValidList(es, isDate)
    ensures ReadList(CanonicalList(es), isDate) == Some(es)
    ensures OneLine(CanonicalList(es))
  {
    var vs := SortedList(es);
    SortedListAt(es, 0);
    forall i | 0 <= i < |es| ensures WellFormed(vs[i]) && Decode(vs[i], isDate) == Some(es[i]) {
      SortedListAt(es, i);
      DecodeSorted(es[i], isDate);
    }
    DecodeEach(vs, es, isDate);
    RoundTrip(Arr(vs));
    PrintOneLine(Arr(vs));
  }

  // ---------------------------------------------------------------------
  // A manual item, spelled out
  // ---------------------------------------------------------------------

  /** Passing manual evidence without an agent. */
  function Witnessed(description: string, ts: string): Item
  {
    Manual(Pass, ts, None, "agent", description, "log")
  }

  function WitnessedFields(description: string, ts: string): seq<Member>
  {
    [Member("actor", Str("agent")), Member("allow_manual", Bool(true)), Member("description", Str(description)),
     Member("kind", Str("manual")), Member("log_excerpt", Str("log")), Member("result", Str("pass")),
     Member("ts", Str(ts))]
  }

  lemma WitnessedSorts(description: string, ts: string)
    ensures Sorted(Witnessed(description, ts)) == Obj(WitnessedFields(description, ts))
  {
    var e, fields := Witnessed(description, ts), WitnessedFields(description, ts);
    var ms := BaseFields(e) + KindFields(e);
    assert ms == [fields[3], fields[5], fields[6], fields[0], fields[2], fields[1], fields[4]];
    EncodeLists(e);
    WitnessedDistinct(ms);
    SortedAlready(ms);
    SortSorts(ms);
    WitnessedAscends(description, ts);
    hide SortByKey, Less, BaseFields, KindFields;
    AscendingUnique(SortByKey(ms), fields);
  }

  lemma WitnessedDistinct(ms: seq<Member>)
    requires exists f :: Lists(ms, f)
    ensures Distinct(ms)
  {
  }

  lemma LessAt(a: string, b: string)
    ensures (a != "" && b != "" && a[0] < b[0]) ==> Less(a, b)
    ensures a == "" && b != "" ==> Less(a, b)
    ensures (a != "" && b != "" && a[0] == b[0] && Less(a[1..], b[1..])) ==> Less(a, b)
  {
  }

  lemma WitnessedAscends(description: string, ts: string)
    ensures Ascending(WitnessedFields(description, ts))
  {
    var ms := WitnessedFields(description, ts);
    assert Less("actor", "allow_manual") by { LessAt("ctor", "llow_manual"); LessAt("actor", "allow_manual"); }
    forall i, j | 0 <= i < j < 7 ensures Less(ms[i].key, ms[j].key) {
      LessAt(ms[i].key, ms[j].key);
    }
    AscendingFrom(ms);
  }

  lemma {:induction false} AscendingFrom(ms: seq<Member>)
    requires forall i, j :: 0 <= i < j < |ms| ==> Less(ms[i].key, ms[j].key)
    ensures Ascending(ms)
  {
    if ms != [] {
      var t := ms[1..];
      assert forall i :: 0 <= i < |t| ==> t[i] == ms[i + 1];
      AscendingFrom(t);
    }
  }
}
