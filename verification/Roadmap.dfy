/**
 The two-way audit of roadmaps and their children (src/audit/roadmap-links.ts): a roadmap's wave map
 lists blueprints, and blueprints name their parent roadmap.
 */
module Roadmap {
  import opened Text
  import opened Markdown
  import opened Lines

  datatype Status = Draft | Planned | InProgress | Parked | Completed | Archived

  const STATUSES: seq<Status> := [Draft, Planned, InProgress, Parked, Completed, Archived]

  function StatusText(s: Status): string
  {
    match s
    case Draft => "draft"
    case Planned => "planned"
    case InProgress => "in-progress"
    case Parked => "parked"
    case Completed => "completed"
    case Archived => "archived"
  }

  predicate Active(s: Status)
  {
    !s.Completed? && !s.Archived?
  }

  /** A blueprint file. `parent` is its trimmed, non-empty `parent_roadmap`. */
  datatype Record = Record(status: Status, name: string, isRoadmap: bool, parent: Option<string>, raw: string)

  function KeyOf(status: Status, name: string): string
  {
    StatusText(status) + "/" + name
  }

  function Key(r: Record): string
  {
    KeyOf(r.status, r.name)
  }

  // ---------------------------------------------------------------------
  // References
  // ---------------------------------------------------------------------

  function Slashes(s: string): (r: string)
    ensures |r| == |s| && forall i :: 0 <= i < |s| ==> r[i] == if s[i] == '\\' then '/' else s[i]
  {
    seq(|s|, i requires 0 <= i < |s| => if s[i] == '\\' then '/' else s[i])
  }

  function DropPrefix(s: string, prefix: string): string
  {
    if prefix <= s then s[|prefix|..] else s
  }

  // replace(/^\.?\//, "")
  function DropDotSlash(s: string): string
  {
    if "./" <= s then s[2..] else DropPrefix(s, "/")
  }

  function Normalize(reference: string): string
  {
    DropSuffix(DropPrefix(DropDotSlash(Slashes(Unquote(Trim(reference)))), "blueprints/"), "/_overview.md")
  }

  /** The part behind the last slash of a text that does not end in one. */
  function BehindSlash(s: string): string
  {
    if s == "" || s[|s| - 1] == '/' then "" else BehindSlash(s[..|s| - 1]) + [s[|s| - 1]]
  }

  function DropSlashes(s: string): string
  {
    if s != "" && s[|s| - 1] == '/' then DropSlashes(s[..|s| - 1]) else s
  }

  function LastSegment(s: string): string
  {
    if DropSlashes(s) == "" then s else BehindSlash(DropSlashes(s))
  }

  /** The last part, trimmed and not empty, of a text split at `->` and at arrows. */
  function ArrowTail(s: string, part: string): Option<string>
    decreases |s|
  {
    var here := if Trim(part) == "" then None else Some(Trim(part));
    if s == "" then here
    else
      var n := if "->" <= s then 2 else if s[0] == '\U{2192}' then 1 else 0;
      if n == 0 then ArrowTail(s[1..], part + s[..1])
      else
        match ArrowTail(s[n..], "")
        case Some(t) => Some(t)
        case None => here
  }

  function ParentCandidates(parent: string): seq<string>
  {
    var trimmed := Normalize(parent);
    if trimmed == "" then []
    else
      [trimmed, LastSegment(trimmed)]
      + match ArrowTail(trimmed, "")
        case Some(tail) => [Normalize(tail), LastSegment(Normalize(tail))]
        case None => []
  }

  // ---------------------------------------------------------------------
  // References to other repositories
  // ---------------------------------------------------------------------

  predicate Somewhere(s: string, p: string -> bool)
  {
    exists i :: 0 <= i <= |s| && p(s[i..])
  }

  // https?:\/\/github\.com\/  under the i flag
  predicate GithubUrl(x: string)
  {
    Marked(x, "http://github.com/") || Marked(x, "https://github.com/")
  }

  predicate Letter(c: char)
  {
    'a' <= c <= 'z' || 'A' <= c <= 'Z'
  }

  // (?:\/|[A-Za-z]:[\\/]|file:\/\/)  under the i flag
  predicate AbsoluteStart(x: string)
  {
    || "/" <= x
    || (|x| >= 3 && Letter(x[0]) && x[1] == ':' && (x[2] == '/' || x[2] == '\\'))
    || Marked(x, "file://")
  }

  // (?:^|[\s(]) and an absolute start
  predicate AbsoluteFile(s: string)
  {
    AbsoluteStart(s) || Somewhere(s, (x: string) => x != "" && (Space(x[0]) || x[0] == '(') && AbsoluteStart(x[1..]))
  }

  predicate CrossRepo(s: string)
  {
    Somewhere(s, GithubUrl) || AbsoluteFile(s) || Somewhere(s, (x: string) => Marked(x, "cross-repo:"))
  }

  // [A-Za-z0-9._-]
  predicate SlugChar(c: char)
  {
    Letter(c) || '0' <= c <= '9' || c == '.' || c == '_' || c == '-'
  }

  predicate SlugText(s: string)
  {
    s != "" && forall c | c in s :: SlugChar(c)
  }

  // LOCAL_BLUEPRINT_REFERENCE_PATTERN
  predicate LocalPath(s: string)
  {
    var t := DropPrefix(s, "blueprints/");
    exists status | status in STATUSES ::
      (StatusText(status) + "/") <= t && SlugText(DropSuffix(t[|StatusText(status)| + 1..], "/_overview.md"))
  }

  predicate LocalParent(reference: string)
  {
    var normalized := Normalize(reference);
    normalized != "" && !CrossRepo(normalized) && (LocalPath(normalized) || SlugText(LastSegment(normalized)))
  }

  // ---------------------------------------------------------------------
  // The wave map
  // ---------------------------------------------------------------------

  /** The status that `x` opens with, in the order the pattern tries them, behind it a slash. */
  function StatusAt(x: string, statuses: seq<Status>): Option<Status>
  {
    if statuses == [] then None
    else if StatusText(statuses[0]) + "/" <= x then Some(statuses[0])
    else StatusAt(x, statuses[1..])
  }

  /** A reference at the front of `x`: the blueprint it names, and its length. */
  datatype WaveRef = WaveRef(status: Status, slug: string, length: nat)

  // (?:blueprints/)?(STATUS)/([A-Za-z0-9._-]+)(?:\.md|/_overview\.md)?
  function WaveRefAt(x: string): (r: Option<WaveRef>)
    ensures r.Some? ==> 0 < r.value.length <= |x|
  {
    if "blueprints/" <= x && BareRefAt(x[11..]).Some? then
      var r := BareRefAt(x[11..]).value;
      Some(r.(length := 11 + r.length))
    else BareRefAt(x)
  }

  function BareRefAt(x: string): (r: Option<WaveRef>)
    ensures r.Some? ==> 0 < r.value.length <= |x|
  {
    match StatusAt(x, STATUSES)
    case None => None
    case Some(status) =>
      var k := |StatusText(status)| + 1;
      if k > |x| then None
      else
        var n := SpanLen(x[k..], SlugChar);
        if n == 0 then None
        else
          var more := if "/_overview.md" <= x[k + n..] then 13 else 0;
          Some(WaveRef(status, x[k..k + n], k + n + more))
  }

  /** extractWaveMapChildren: the references in order of appearance, each once. */
  function WaveRefs(text: string, found: seq<string>): seq<string>
    decreases |text|
  {
    if text == "" then found
    else
      match WaveRefAt(text)
      case None => WaveRefs(text[1..], found)
      case Some(r) =>
        var slug := DropSuffix(r.slug, ".md");
        var ref := KeyOf(r.status, slug);
        WaveRefs(text[r.length..], if slug == "" || ref in found then found else found + [ref])
  }

  const WAVE_HEADING: string := "## Quick Reference (Execution Waves)"

  predicate WaveHeading(line: string)
  {
    WAVE_HEADING <= line && SpanLen(line[|WAVE_HEADING|..], Space) == |line| - |WAVE_HEADING|
  }

  // ^##\s+
  predicate NextSection(line: string)
  {
    "##" <= line && |line| > 2 && Space(line[2])
  }

  function WaveBody(rest: Option<string>): seq<string>
    decreases if rest.Some? then |rest.value| + 1 else 0
  {
    match rest
    case None => []
    case Some(s) =>
      var l := NextLine(s);
      if NextSection(l.text) then [] else [l.text] + WaveBody(l.rest)
  }

  function WaveLines(s: string): seq<string>
    decreases |s|
  {
    var l := NextLine(s);
    if WaveHeading(l.text) then WaveBody(l.rest)
    else
      match l.rest
      case None => []
      case Some(t) => WaveLines(t)
  }

  function WaveSection(r: Record): string
  {
    JoinLines(WaveLines(r.raw))
  }

  function WaveMap(r: Record): seq<string>
  {
    WaveRefs(WaveSection(r), [])
  }

  // ---------------------------------------------------------------------
  // Resolution
  // ---------------------------------------------------------------------

  /** The texts under which a record is indexed. */
  function Aliases(r: Record): (keys: seq<string>)
    ensures |keys| == 7
  {
    var own := Key(r);
    [own, r.name, "blueprints/" + own, "blueprints/" + own + "/_overview.md", "blueprints/" + own + ".md",
     own + "/_overview.md", own + ".md"]
  }

  predicate Names(r: Record, key: string)
  {
    key in Aliases(r)
  }

  /** The last record that a key names. */
  function Lookup(records: seq<Record>, key: string): Option<Record>
  {
    if records == [] then None
    else if Names(records[|records| - 1], key) then Some(records[|records| - 1])
    else Lookup(records[..|records| - 1], key)
  }

  method IndexBlueprints(records: seq<Record>) returns (byKey: map<string, Record>)
    ensures forall key :: Lookup(records, key) == if key in byKey then Some(byKey[key]) else None
  {
    hide Aliases;
    byKey := map[];
    for i := 0 to |records|
      invariant forall key :: Lookup(records[..i], key) == if key in byKey then Some(byKey[key]) else None
    {
      var r := records[i];
      var keys := Aliases(r);
      for j := 0 to |keys|
        invariant forall key :: (if key in byKey then Some(byKey[key]) else None)
                                == if key in keys[..j] then Some(r) else Lookup(records[..i], key)
      {
        byKey := byKey[keys[j] := r];
        assert keys[..j + 1] == keys[..j] + [keys[j]];
      }
      assert keys[..|keys|] == keys;
      assert records[..i + 1][..i] == records[..i];
    }
    assert records[..|records|] == records;
  }

  function Resolve(reference: string, records: seq<Record>): Option<Record>
  {
    var normalized := Normalize(reference);
    match Lookup(records, normalized)
    case Some(r) => Some(r)
    case None => Lookup(records, LastSegment(normalized))
  }

  function FirstRoadmap(candidates: seq<string>, records: seq<Record>): Option<Record>
  {
    if candidates == [] then None
    else
      match Lookup(records, candidates[0])
      case Some(r) => if r.isRoadmap then Some(r) else FirstRoadmap(candidates[1..], records)
      case None => FirstRoadmap(candidates[1..], records)
  }

  function ResolveParent(parent: string, records: seq<Record>): Option<Record>
  {
    FirstRoadmap(ParentCandidates(parent), records)
  }

  /** The roadmap a record says it belongs to. */
  function ParentOf(r: Record, records: seq<Record>): Option<Record>
  {
    match r.parent
    case Some(p) => ResolveParent(p, records)
    case None => None
  }

  // ---------------------------------------------------------------------
  // The audit
  // ---------------------------------------------------------------------

  datatype Violation =
    | CrossRepoParent(child: Record)
    | NoSuchParent(child: Record)
    | CrossRepoWaveMap(roadmap: Record)
    | NoChildren(roadmap: Record)
    | MissingChild(roadmap: Record, ref: string)
    | NotResolvedBack(child: Record, roadmap: Record)
    | NotListed(child: Record, roadmap: Record)

  predicate Claims(r: Record)
  {
    !r.isRoadmap && r.parent.Some?
  }

  predicate Refused(r: Record)
  {
    Claims(r) && Active(r.status) && !LocalParent(r.parent.value)
  }

  function ChildViolation(r: Record, records: seq<Record>, failOrphans: bool): seq<Violation>
  {
    if Refused(r) then [CrossRepoParent(r)]
    else if Claims(r) && failOrphans && LocalParent(r.parent.value) && ParentOf(r, records) == None
      then [NoSuchParent(r)]
    else []
  }

  function ChildViolations(rs: seq<Record>, records: seq<Record>, failOrphans: bool): seq<Violation>
  {
    if rs == [] then []
    else ChildViolations(rs[..|rs| - 1], records, failOrphans) + ChildViolation(rs[|rs| - 1], records, failOrphans)
  }

  /** The key of the roadmap a record is filed under. */
  function FiledUnder(r: Record, records: seq<Record>): Option<string>
  {
    if Claims(r) && !Refused(r) && ParentOf(r, records).Some? then Some(Key(ParentOf(r, records).value)) else None
  }

  /** The records of `rs` filed under the roadmap with key `key`. */
  function LocalChildren(rs: seq<Record>, records: seq<Record>, key: string): seq<Record>
  {
    if rs == [] then []
    else
      LocalChildren(rs[..|rs| - 1], records, key)
      + if FiledUnder(rs[|rs| - 1], records) == Some(key) then [rs[|rs| - 1]] else []
  }

  function RefViolations(refs: seq<string>, roadmap: Record, records: seq<Record>): seq<Violation>
  {
    if refs == [] then []
    else
      RefViolations(refs[..|refs| - 1], roadmap, records) + RefViolation(refs[|refs| - 1], roadmap, records)
  }

  function RefViolation(ref: string, roadmap: Record, records: seq<Record>): seq<Violation>
  {
    match Resolve(ref, records)
    case None => [MissingChild(roadmap, ref)]
    case Some(child) =>
      if Key(child) == Key(roadmap) then []
      else
        match ParentOf(child, records)
        case Some(p) => if Key(p) == Key(roadmap) then [] else [NotResolvedBack(child, roadmap)]
        case None => [NotResolvedBack(child, roadmap)]
  }

  function ListViolations(children: seq<Record>, refs: seq<string>, roadmap: Record): seq<Violation>
  {
    if children == [] then []
    else
      ListViolations(children[..|children| - 1], refs, roadmap) + ListViolation(children[|children| - 1], refs, roadmap)
  }

  function ListViolation(c: Record, refs: seq<string>, roadmap: Record): seq<Violation>
  {
    if Key(c) !in refs && c.name !in refs then [NotListed(c, roadmap)] else []
  }

  function RoadmapViolations(roadmap: Record, records: seq<Record>): seq<Violation>
  {
    var refs := WaveMap(roadmap);
    var children := LocalChildren(records, records, Key(roadmap));
    (if Active(roadmap.status) && CrossRepo(WaveSection(roadmap)) then [CrossRepoWaveMap(roadmap)] else [])
    + if refs == [] && children == [] then [NoChildren(roadmap)]
      else RefViolations(refs, roadmap, records) + ListViolations(children, refs, roadmap)
  }

  function AllRoadmapViolations(rs: seq<Record>, records: seq<Record>): seq<Violation>
  {
    if rs == [] then []
    else
      AllRoadmapViolations(rs[..|rs| - 1], records) + Findings(rs[|rs| - 1], records)
  }

  function Findings(r: Record, records: seq<Record>): seq<Violation>
  {
    if r.isRoadmap then RoadmapViolations(r, records) else []
  }

  function Violations(records: seq<Record>, failOrphans: bool): seq<Violation>
  {
    ChildViolations(records, records, failOrphans) + AllRoadmapViolations(records, records)
  }

  function Found(byKey: map<string, Record>, key: string): Option<Record>
  {
    if key in byKey then Some(byKey[key]) else None
  }

  ghost predicate Indexes(byKey: map<string, Record>, records: seq<Record>)
  {
    forall key :: Lookup(records, key) == Found(byKey, key)
  }

  method ResolveReference(reference: string, byKey: map<string, Record>, ghost records: seq<Record>)
    returns (r: Option<Record>)
    requires Indexes(byKey, records)
    ensures r == Resolve(reference, records)
  {
    var normalized := Normalize(reference);
    r := Found(byKey, normalized);
    assert Lookup(records, normalized) == r;
    if r == None {
      r := Found(byKey, LastSegment(normalized));
      assert Lookup(records, LastSegment(normalized)) == r;
    }
  }

  method FindParent(child: Record, byKey: map<string, Record>, ghost records: seq<Record>) returns (r: Option<Record>)
    requires Indexes(byKey, records)
    ensures r == ParentOf(child, records)
  {
    if child.parent == None { return None; }
    var candidates := ParentCandidates(child.parent.value);
    for i := 0 to |candidates|
      invariant FirstRoadmap(candidates, records) == FirstRoadmap(candidates[i..], records)
    {
      r := Found(byKey, candidates[i]);
      assert Lookup(records, candidates[i]) == r;
      assert candidates[i..][0] == candidates[i] && candidates[i..][1..] == candidates[i + 1..];
      if r.Some? && r.value.isRoadmap { return; }
    }
    r := None;
  }

  /** The children filed so far, by roadmap key. */
  ghost predicate Files(filed: map<string, seq<Record>>, rs: seq<Record>, records: seq<Record>)
  {
    forall key :: LocalChildren(rs, records, key) == ChildrenAt(filed, key)
  }

  function ChildrenAt(filed: map<string, seq<Record>>, key: string): seq<Record>
  {
    if key in filed then filed[key] else []
  }

  lemma FilesMore(filed: map<string, seq<Record>>, more: map<string, seq<Record>>, rs: seq<Record>, r: Record,
                  records: seq<Record>)
    requires Files(filed, rs, records)
    requires match FiledUnder(r, records)
             case None => more == filed
             case Some(key) => more == filed[key := ChildrenAt(filed, key) + [r]]
    ensures Files(more, rs + [r], records)
  {
    hide FiledUnder;
    forall key ensures LocalChildren(rs + [r], records, key) == ChildrenAt(more, key) {
      assert (rs + [r])[..|rs + [r]| - 1] == rs;
      assert LocalChildren(rs, records, key) == ChildrenAt(filed, key);
    }
  }

  lemma FilesNone(records: seq<Record>)
    ensures Files(map[], [], records)
  {
  }

  /** One pass of the first loop: what is reported of a record, and where it is filed. */
  method FileChild(child: Record, byKey: map<string, Record>, failOrphans: bool, ghost records: seq<Record>)
    returns (found: seq<Violation>, under: Option<string>)
    requires Indexes(byKey, records)
    ensures found == ChildViolation(child, records, failOrphans) && under == FiledUnder(child, records)
  {
    hide LocalParent, ParentOf, Indexes, Key;
    found, under := [], None;
    if Claims(child) {
      if Active(child.status) && !LocalParent(child.parent.value) {
        found := [CrossRepoParent(child)];
        return;
      }
      var parent := FindParent(child, byKey, records);
      if parent == None {
        if failOrphans && LocalParent(child.parent.value) {
          found := [NoSuchParent(child)];
        }
      } else {
        under := Some(Key(parent.value));
      }
    }
  }

  method FileChildren(records: seq<Record>, byKey: map<string, Record>, failOrphans: bool)
    returns (violations: seq<Violation>, filed: map<string, seq<Record>>)
    requires Indexes(byKey, records)
    ensures violations == ChildViolations(records, records, failOrphans) && Files(filed, records, records)
  {
    hide ChildViolation, FiledUnder, Files, Indexes;
    violations, filed := [], map[];
    FilesNone(records);
    for i := 0 to |records|
      invariant violations == ChildViolations(records[..i], records, failOrphans) && Files(filed, records[..i], records)
    {
      var found, under := FileChild(records[i], byKey, failOrphans, records);
      violations := violations + found;
      ghost var before := filed;
      if under.Some? {
        filed := filed[under.value := ChildrenAt(filed, under.value) + [records[i]]];
      }
      FilesMore(before, filed, records[..i], records[i], records);
      assert records[..i + 1] == records[..i] + [records[i]] && records[..i + 1][..i] == records[..i];
    }
    assert records[..|records|] == records;
  }

  method AuditRef(ref: string, roadmap: Record, byKey: map<string, Record>, ghost records: seq<Record>)
    returns (found: seq<Violation>)
    requires Indexes(byKey, records)
    ensures found == RefViolation(ref, roadmap, records)
  {
    hide Resolve, ParentOf, Indexes, Key;
    found := [];
    var child := ResolveReference(ref, byKey, records);
    if child == None {
      found := [MissingChild(roadmap, ref)];
    } else if Key(child.value) != Key(roadmap) {
      var claimed := FindParent(child.value, byKey, records);
      if claimed == None || Key(claimed.value) != Key(roadmap) {
        found := [NotResolvedBack(child.value, roadmap)];
      }
    }
  }

  method AuditRoadmap(roadmap: Record, children: seq<Record>, byKey: map<string, Record>, ghost records: seq<Record>)
    returns (violations: seq<Violation>)
    requires Indexes(byKey, records) && children == LocalChildren(records, records, Key(roadmap))
    ensures violations == RoadmapViolations(roadmap, records)
  {
    hide WaveMap, WaveSection, CrossRepo, LocalChildren, Key, Indexes, RefViolation, ListViolation;
    var refs := WaveMap(roadmap);
    var crossing := Active(roadmap.status) && CrossRepo(WaveSection(roadmap));
    violations := if crossing then [CrossRepoWaveMap(roadmap)] else [];
    if refs == [] && children == [] {
      violations := violations + [NoChildren(roadmap)];
      return;
    }
    var listed := [];
    for i := 0 to |refs|
      invariant listed == RefViolations(refs[..i], roadmap, records)
    {
      assert refs[..i + 1][..i] == refs[..i];
      var found := AuditRef(refs[i], roadmap, byKey, records);
      listed := listed + found;
    }
    assert refs[..|refs|] == refs;
    var unlisted := [];
    for i := 0 to |children|
      invariant unlisted == ListViolations(children[..i], refs, roadmap)
    {
      assert children[..i + 1][..i] == children[..i];
      unlisted := unlisted + ListViolation(children[i], refs, roadmap);
    }
    assert children[..|children|] == children;
    violations := violations + (listed + unlisted);
  }

  method AuditRoadmapLinks(records: seq<Record>, failOrphans: bool) returns (ok: bool, violations: seq<Violation>)
    ensures violations == Violations(records, failOrphans) && ok == (violations == [])
  {
    hide RoadmapViolations, ChildViolations, LocalChildren, Lookup, Key;
    var byKey := IndexBlueprints(records);
    var filed;
    violations, filed := FileChildren(records, byKey, failOrphans);
    ghost var first := violations;
    for i := 0 to |records|
      invariant violations == first + AllRoadmapViolations(records[..i], records)
    {
      assert records[..i + 1][..i] == records[..i];
      if records[i].isRoadmap {
        var more := AuditRoadmap(records[i], ChildrenAt(filed, Key(records[i])), byKey, records);
        violations := violations + more;
      }
    }
    assert records[..|records|] == records;
    ok := violations == [];
  }

  // ---------------------------------------------------------------------
  // What a passing audit means
  // ---------------------------------------------------------------------

  predicate Alnum(c: char)
  {
    'a' <= c <= 'z' || '0' <= c <= '9'
  }

  // ^[a-z0-9]+(?:-[a-z0-9]+)*$ of src/blueprint/utils/document-paths.ts
  predicate SlugName(s: string)
  {
    && s != "" && Alnum(s[0]) && Alnum(s[|s| - 1])
    && (forall i :: 0 <= i < |s| ==> Alnum(s[i]) || s[i] == '-')
    && forall i :: 0 < i < |s| && s[i] == '-' ==> s[i - 1] != '-'
  }

  /** Records as they are read from disk, no two under one key. */
  predicate Distinguished(records: seq<Record>)
  {
    && (forall r | r in records :: SlugName(r.name))
    && forall i, j :: 0 <= i < j < |records| ==> Key(records[i]) != Key(records[j])
  }

  /** A reference resolves to the roadmap itself or to a record that claims it. */
  ghost predicate RefOk(ref: string, roadmap: Record, records: seq<Record>)
  {
    || Resolve(ref, records) == Some(roadmap)
    || (Resolve(ref, records).Some? && ParentOf(Resolve(ref, records).value, records) == Some(roadmap))
  }

  /** A roadmap's wave map and its children's claims agree. */
  ghost predicate RoadmapLinked(roadmap: Record, records: seq<Record>)
  {
    && !(Active(roadmap.status) && CrossRepo(WaveSection(roadmap)))
    && WaveMap(roadmap) != []
    && (forall ref | ref in WaveMap(roadmap) :: RefOk(ref, roadmap, records))
    && forall c | c in records && Claims(c) && ParentOf(c, records) == Some(roadmap) :: Key(c) in WaveMap(roadmap)
  }

  ghost predicate Linked(records: seq<Record>, failOrphans: bool)
  {
    && (forall r | r in records :: !Refused(r))
    && (failOrphans ==>
            forall r | r in records && Claims(r) && LocalParent(r.parent.value) :: ParentOf(r, records).Some?)
    && forall r | r in records && r.isRoadmap :: RoadmapLinked(r, records)
  }

  predicate KeyChar(c: char)
  {
    Alnum(c) || c == '-' || c == '/'
  }

  lemma KeyShape(r: Record)
    requires SlugName(r.name)
    ensures forall i :: 0 <= i < |Key(r)| ==> KeyChar(Key(r)[i])
    ensures '/' in Key(r) && Key(r)[0] != 'b' && Alnum(Key(r)[0]) && Alnum(Key(r)[|Key(r)| - 1])
    ensures '/' !in r.name
  {
    var s, k := StatusText(r.status), Key(r);
    StatusShape(r.status);
    assert k[|s|] == '/' && k[|k| - 1] == r.name[|r.name| - 1];
    forall i | 0 <= i < |k| ensures KeyChar(k[i]) {
      if i < |s| { assert k[i] == s[i]; } else if i > |s| { assert k[i] == r.name[i - |s| - 1]; }
    }
  }

  lemma StatusShape(status: Status)
    ensures var s := StatusText(status);
            s != "" && s[0] != 'b' && Alnum(s[0]) && forall i :: 0 <= i < |s| ==> KeyChar(s[i])
  {
  }

  /** A text with a mark in it is no key. */
  lemma Tagged(own: string, tag: string, i: nat)
    requires i < |tag| && !KeyChar(tag[i])
    ensures !KeyText(own + tag)
  {
    assert (own + tag)[|own| + i] == tag[i];
  }

  predicate KeyText(x: string)
  {
    forall i :: 0 <= i < |x| ==> KeyChar(x[i])
  }

  lemma Prefixed(x: string)
    ensures ("blueprints/" + x) != "" && ("blueprints/" + x)[0] == 'b'
  {
  }

  /** Of a record's aliases only the first two could be keys. */
  lemma AliasKinds(r: Record, key: string)
    requires Names(r, key)
    ensures key == Key(r) || key == r.name || !KeyText(key) || (key != "" && key[0] == 'b')
  {
    var own := Key(r);
    var keys := Aliases(r);
    var j :| 0 <= j < 7 && keys[j] == key;
    Tagged(own, "/_overview.md", 1);
    Tagged(own, ".md", 0);
    Prefixed(own);
    Prefixed(own + "/_overview.md");
    Prefixed(own + ".md");
    assert "blueprints/" + own + "/_overview.md" == "blueprints/" + (own + "/_overview.md");
    assert "blueprints/" + own + ".md" == "blueprints/" + (own + ".md");
    hide Key, KeyText;
  }

  /** A key that names another record is that record's own key. */
  lemma NamesOwn(r: Record, other: Record)
    requires SlugName(r.name) && SlugName(other.name) && Names(other, Key(r))
    ensures Key(other) == Key(r)
  {
    hide Key, SlugName, Names;
    KeyShape(r);
    KeyShape(other);
    AliasKinds(other, Key(r));
  }

  lemma {:induction false} LookupFinds(records: seq<Record>, r: Record)
    requires Distinguished(records) && r in records
    ensures Lookup(records, Key(r)) == Some(r)
  {
    hide Key, SlugName;
    var n := |records| - 1;
    var last := records[n];
    if Names(last, Key(r)) {
      NamesOwn(r, last);
      var i :| 0 <= i < |records| && records[i] == r;
      assert i == n;
    } else {
      assert r in records[..n];
      LookupFinds(records[..n], r);
    }
  }

  lemma {:induction false} LookupIn(records: seq<Record>, key: string)
    requires Lookup(records, key).Some?
    ensures Lookup(records, key).value in records
  {
    hide Names;
    var n := |records| - 1;
    if !Names(records[n], key) { LookupIn(records[..n], key); }
  }

  lemma SameKey(records: seq<Record>, a: Record, b: Record)
    requires Distinguished(records) && a in records && b in records && Key(a) == Key(b)
    ensures a == b
  {
    hide Key, SlugName;
    LookupFinds(records, a);
    LookupFinds(records, b);
  }

  lemma TrimKeeps(s: string)
    requires s != "" && !Space(s[0]) && !Space(s[|s| - 1])
    ensures Trim(s) == s
  {
    assert SpanLen(s, Space) == 0;
  }

  lemma SlashesKeep(s: string)
    requires forall i :: 0 <= i < |s| ==> KeyChar(s[i])
    ensures Slashes(s) == s
  {
  }

  lemma NoSuffix(s: string, suffix: string, i: nat)
    requires (forall k :: 0 <= k < |s| ==> KeyChar(s[k])) && i < |suffix| && !KeyChar(suffix[i])
    ensures DropSuffix(s, suffix) == s
  {
    if |suffix| <= |s| {
      assert s[|s| - |suffix|..][i] == s[|s| - |suffix| + i];
    }
  }

  lemma EndsKeep(k: string)
    requires k != "" && k[0] != 'b' && Alnum(k[0]) && Alnum(k[|k| - 1])
    ensures Unquote(k) == k && DropDotSlash(k) == k && DropPrefix(k, "blueprints/") == k
  {
  }

  /** A key is already in normal form. */
  lemma KeyIsNormal(k: string)
    requires (forall i :: 0 <= i < |k| ==> KeyChar(k[i])) && k != "" && k[0] != 'b' && Alnum(k[0]) && Alnum(k[|k| - 1])
    ensures Normalize(k) == k
  {
    TrimKeeps(k);
    EndsKeep(k);
    SlashesKeep(k);
    NoSuffix(k, "/_overview.md", 1);
    hide Trim, Unquote, Slashes, DropDotSlash, DropPrefix, DropSuffix, KeyChar, Alnum;
  }

  /** A record's key resolves to it. */
  lemma ResolvesOwn(records: seq<Record>, r: Record)
    requires Distinguished(records) && r in records
    ensures Resolve(Key(r), records) == Some(r)
  {
    assert SlugName(r.name);
    hide SlugName, Lookup, LastSegment, Key, Normalize;
    KeyShape(r);
    KeyIsNormal(Key(r));
    LookupFinds(records, r);
  }

  lemma {:induction false} WaveRefsShape(text: string, found: seq<string>)
    requires forall ref | ref in found :: '/' in ref
    ensures forall ref | ref in WaveRefs(text, found) :: '/' in ref
    decreases |text|
  {
    hide WaveRefAt, DropSuffix;
    if text != "" {
      match WaveRefAt(text)
      case None => WaveRefsShape(text[1..], found);
      case Some(r) =>
        var ref := KeyOf(r.status, DropSuffix(r.slug, ".md"));
        assert ref[|StatusText(r.status)|] == '/';
        WaveRefsShape(text[r.length..],
                      if DropSuffix(r.slug, ".md") == "" || ref in found then found else found + [ref]);
    }
  }

  lemma ResolveIn(reference: string, records: seq<Record>)
    requires Resolve(reference, records).Some?
    ensures Resolve(reference, records).value in records
  {
    hide Lookup, Normalize, LastSegment;
    var normalized := Normalize(reference);
    if Lookup(records, normalized).Some? {
      LookupIn(records, normalized);
    } else {
      LookupIn(records, LastSegment(normalized));
    }
  }

  lemma {:induction false} FirstRoadmapIn(candidates: seq<string>, records: seq<Record>)
    requires FirstRoadmap(candidates, records).Some?
    ensures FirstRoadmap(candidates, records).value in records && FirstRoadmap(candidates, records).value.isRoadmap
  {
    hide Lookup;
    match Lookup(records, candidates[0])
    case Some(r) => LookupIn(records, candidates[0]); if !r.isRoadmap { FirstRoadmapIn(candidates[1..], records); }
    case None => FirstRoadmapIn(candidates[1..], records);
  }

  lemma ParentIn(r: Record, records: seq<Record>)
    requires ParentOf(r, records).Some?
    ensures ParentOf(r, records).value in records && ParentOf(r, records).value.isRoadmap
  {
    FirstRoadmapIn(ParentCandidates(r.parent.value), records);
  }

  lemma {:induction false} NoRefViolations(refs: seq<string>, roadmap: Record, records: seq<Record>)
    ensures RefViolations(refs, roadmap, records) == []
            <==> forall ref | ref in refs :: RefViolation(ref, roadmap, records) == []
  {
    hide RefViolation;
    if refs != [] {
      var n := |refs| - 1;
      NoRefViolations(refs[..n], roadmap, records);
      assert refs == refs[..n] + [refs[n]];
    }
  }

  lemma {:induction false} NoListViolations(children: seq<Record>, refs: seq<string>, roadmap: Record)
    ensures ListViolations(children, refs, roadmap) == []
            <==> forall c | c in children :: Key(c) in refs || c.name in refs
  {
    hide Key;
    if children != [] {
      var n := |children| - 1;
      NoListViolations(children[..n], refs, roadmap);
      assert children == children[..n] + [children[n]];
    }
  }

  lemma {:induction false} NoChildViolations(rs: seq<Record>, records: seq<Record>, failOrphans: bool)
    ensures ChildViolations(rs, records, failOrphans) == []
            <==> forall r | r in rs :: ChildViolation(r, records, failOrphans) == []
  {
    hide ChildViolation;
    if rs != [] {
      var n := |rs| - 1;
      NoChildViolations(rs[..n], records, failOrphans);
      assert rs == rs[..n] + [rs[n]];
    }
  }

  lemma {:induction false} NoRoadmapViolations(rs: seq<Record>, records: seq<Record>)
    ensures AllRoadmapViolations(rs, records) == [] <==> forall r | r in rs :: Findings(r, records) == []
  {
    hide Findings;
    if rs != [] {
      var n := |rs| - 1;
      NoRoadmapViolations(rs[..n], records);
      assert rs == rs[..n] + [rs[n]];
    }
  }

  lemma {:induction false} FiledIn(rs: seq<Record>, records: seq<Record>, key: string, c: Record)
    ensures c in LocalChildren(rs, records, key) <==> c in rs && FiledUnder(c, records) == Some(key)
  {
    hide FiledUnder;
    if rs != [] {
      var n := |rs| - 1;
      FiledIn(rs[..n], records, key, c);
      assert rs == rs[..n] + [rs[n]];
    }
  }

  /** When no claim is refused, a roadmap's files are the records that claim it. */
  lemma FiledClaims(records: seq<Record>, roadmap: Record, c: Record)
    requires Distinguished(records) && roadmap in records && c in records && !Refused(c)
    ensures FiledUnder(c, records) == Some(Key(roadmap)) <==> Claims(c) && ParentOf(c, records) == Some(roadmap)
  {
    hide Key, LocalParent, Distinguished;
    var p := ParentOf(c, records);
    hide ParentOf;
    if p.Some? {
      ParentIn(c, records);
      if Key(p.value) == Key(roadmap) { SameKey(records, p.value, roadmap); }
    }
  }

  lemma RefLinked(ref: string, roadmap: Record, records: seq<Record>)
    requires Distinguished(records) && roadmap in records
    ensures RefViolation(ref, roadmap, records) == [] <==> RefOk(ref, roadmap, records)
  {
    hide Key, Resolve, ParentOf, Distinguished;
    if Resolve(ref, records).Some? {
      var child := Resolve(ref, records).value;
      ResolveIn(ref, records);
      if Key(child) == Key(roadmap) { SameKey(records, child, roadmap); }
      if ParentOf(child, records).Some? {
        ParentIn(child, records);
        if Key(ParentOf(child, records).value) == Key(roadmap) {
          SameKey(records, ParentOf(child, records).value, roadmap);
        }
      }
    }
  }

  /** Its local children are the records that claim it. */
  lemma ChildrenAre(roadmap: Record, records: seq<Record>)
    requires Distinguished(records) && roadmap in records && forall r | r in records :: !Refused(r)
    ensures forall c :: c in LocalChildren(records, records, Key(roadmap))
                        <==> c in records && Claims(c) && ParentOf(c, records) == Some(roadmap)
  {
    hide Key, ParentOf, Refused, Claims, Distinguished, LocalChildren, FiledUnder;
    forall c ensures c in LocalChildren(records, records, Key(roadmap))
                     <==> c in records && Claims(c) && ParentOf(c, records) == Some(roadmap)
    {
      FiledIn(records, records, Key(roadmap), c);
      if c in records { FiledClaims(records, roadmap, c); }
    }
  }

  /** A wave map's references are keys, and no record's bare name is one. */
  lemma NamesAreNotRefs(roadmap: Record, records: seq<Record>)
    requires Distinguished(records)
    ensures forall c | c in records :: c.name !in WaveMap(roadmap)
  {
    var none: seq<string> := [];
    WaveRefsShape(WaveSection(roadmap), none);
    forall c | c in records ensures c.name !in WaveMap(roadmap) {
      KeyShape(c);
    }
  }

  /** One roadmap is reported on exactly when its wave map and its children's claims disagree. */
  lemma RoadmapDecides(roadmap: Record, records: seq<Record>)
    requires Distinguished(records) && roadmap in records && forall r | r in records :: !Refused(r)
    ensures RoadmapViolations(roadmap, records) == [] <==> RoadmapLinked(roadmap, records)
  {
    hide Key, ParentOf, Refused, Claims, WaveMap, WaveSection, CrossRepo, Distinguished, LocalChildren, RefViolations,
      ListViolations,
      RefViolation, RefOk;
    var refs := WaveMap(roadmap);
    var children := LocalChildren(records, records, Key(roadmap));
    NoRefViolations(refs, roadmap, records);
    NoListViolations(children, refs, roadmap);
    forall ref ensures RefViolation(ref, roadmap, records) == [] <==> RefOk(ref, roadmap, records) {
      RefLinked(ref, roadmap, records);
    }
    ChildrenAre(roadmap, records);
    NamesAreNotRefs(roadmap, records);
    assert children != [] ==> children[0] in children;
  }

  lemma ChildrenDecide(records: seq<Record>, failOrphans: bool)
    ensures ChildViolations(records, records, failOrphans) == [] <==>
              && (forall r | r in records :: !Refused(r))
              && (failOrphans ==>
                    forall r | r in records && Claims(r) && LocalParent(r.parent.value) :: ParentOf(r, records).Some?)
  {
    NoChildViolations(records, records, failOrphans);
    hide LocalParent, ParentOf, ChildViolations;
  }

  /** The audit passes exactly when the links agree in both directions. */
  lemma OkIffLinked(records: seq<Record>, failOrphans: bool)
    requires Distinguished(records)
    ensures Violations(records, failOrphans) == [] <==> Linked(records, failOrphans)
  {
    hide RoadmapViolations, RoadmapLinked, LocalParent, Distinguished, ParentOf, Refused, Claims, ChildViolations,
      AllRoadmapViolations;
    ChildrenDecide(records, failOrphans);
    NoRoadmapViolations(records, records);
    if forall r | r in records :: !Refused(r) {
      forall r | r in records ensures Findings(r, records) == [] <==> (r.isRoadmap ==> RoadmapLinked(r, records)) {
        if r.isRoadmap { RoadmapDecides(r, records); }
      }
    }
  }

  /**
   After a passing audit, a roadmap's wave map resolves throughout, and the blueprints it resolves to
   are exactly those whose parent roadmap resolves to it.
   */
  lemma PassingAuditIsExact(records: seq<Record>, failOrphans: bool, roadmap: Record, c: Record)
    requires Distinguished(records) && Violations(records, failOrphans) == []
    requires roadmap in records && roadmap.isRoadmap && c in records && !c.isRoadmap
    ensures forall ref | ref in WaveMap(roadmap) :: Resolve(ref, records).Some?
    ensures (exists ref | ref in WaveMap(roadmap) :: Resolve(ref, records) == Some(c))
            <==> ParentOf(c, records) == Some(roadmap)
  {
    OkIffLinked(records, failOrphans);
    assert RoadmapLinked(roadmap, records);
    ResolvesOwn(records, c);
    hide Resolve, WaveMap, Violations, Key, Distinguished;
    if ParentOf(c, records) == Some(roadmap) {
      assert Claims(c);
    }
  }
}