/**
 Glob patterns compiled to regular expressions (src/audit/architecture-drift.ts).

 The compiler writes regex source text. `ReadRegex` reads that text back by the ECMAScript pattern
 syntax, `Accepts` is what the regex means, and `SegmentMatch` is what a glob means: a match of
 path segments that knows nothing of regexes.
 */
module Glob {
  import opened Text

  /** The four things a compiled pattern is made of. */
  datatype Item =
    | Lit(c: char)      // an escaped or plain character
    | Star              // [^/]*
    | DotStar           // .*
    | OptDirs           // (?:.*/)?

  // ---------------------------------------------------------------------
  // Regex source text
  // ---------------------------------------------------------------------

  predicate SyntaxChar(c: char)
  {
    || c == '^' || c == '$' || c == '\\' || c == '.' || c == '*' || c == '+' || c == '?'
    || c == '(' || c == ')' || c == '[' || c == ']' || c == '{' || c == '}' || c == '|'
  }

  function EscapeRegExp(c: char): string
  {
    if || c == '.' || c == '*' || c == '+' || c == '?' || c == '^' || c == '$' || c == '{'
       || c == '}' || c == '(' || c == ')' || c == '|' || c == '[' || c == ']' || c == '\\'
    then ['\\', c] else [c]
  }

  function ItemSource(item: Item): string
  {
    match item
    case Lit(c) => EscapeRegExp(c)
    case Star => "[^/]*"
    case DotStar => ".*"
    case OptDirs => "(?:.*/)?"
  }

  function Source(items: seq<Item>): string
  {
    if items == [] then "" else ItemSource(items[0]) + Source(items[1..])
  }

  /** Reads a pattern of the fragment from behind its `^` up to its final `$`. */
  function ReadItems(s: string): Option<seq<Item>>
  {
    if s == "$" then Some([])
    else if "[^/]*" <= s then Prepend(Star, ReadItems(s[5..]))
    else if ".*" <= s then Prepend(DotStar, ReadItems(s[2..]))
    else if "(?:.*/)?" <= s then Prepend(OptDirs, ReadItems(s[8..]))
    else if |s| >= 2 && s[0] == '\\' && SyntaxChar(s[1]) then Prepend(Lit(s[1]), ReadItems(s[2..]))
    else if s != "" && !SyntaxChar(s[0]) then Prepend(Lit(s[0]), ReadItems(s[1..]))
    else None
  }

  function Prepend(item: Item, tail: Option<seq<Item>>): Option<seq<Item>>
  {
    match tail
    case None => None
    case Some(items) => Some([item] + items)
  }

  function ReadRegex(source: string): Option<seq<Item>>
  {
    if "^" <= source then ReadItems(source[1..]) else None
  }

  // ---------------------------------------------------------------------
  // What a compiled pattern matches
  // ---------------------------------------------------------------------

  /** The items match all of `s`. The `.` of `.*` matches no line terminator, `[^/]` matches all but a slash. */
  predicate Accepts(items: seq<Item>, s: string)
    decreases |items|, |s|, 1
  {
    if items == [] then s == ""
    else
      match items[0]
      case Lit(c) => s != "" && s[0] == c && Accepts(items[1..], s[1..])
      case Star => Accepts(items[1..], s) || (s != "" && s[0] != '/' && Accepts(items, s[1..]))
      case DotStar => Accepts(items[1..], s) || (s != "" && !LineTerm(s[0]) && Accepts(items, s[1..]))
      case OptDirs => Accepts(items[1..], s) || AcceptsAfterSlash(items[1..], s)
  }

  /** `.*` followed by a slash, then the items. */
  predicate AcceptsAfterSlash(items: seq<Item>, s: string)
    decreases |items|, |s|, 2
  {
    && s != ""
    && (|| (s[0] == '/' && Accepts(items, s[1..]))
        || (!LineTerm(s[0]) && AcceptsAfterSlash(items, s[1..])))
  }

  // ---------------------------------------------------------------------
  // The compiler
  // ---------------------------------------------------------------------

  /** `pattern.replace(/\\/g, "/")` */
  function Normalize(pattern: string): (r: string)
    ensures |r| == |pattern|
    ensures forall i :: 0 <= i < |r| ==> r[i] == if pattern[i] == '\\' then '/' else pattern[i]
  {
    seq(|pattern|, i requires 0 <= i < |pattern| => if pattern[i] == '\\' then '/' else pattern[i])
  }

  /** The items of a normalized pattern. */
  function Items(p: string): seq<Item>
  {
    if p == "" then []
    else if |p| >= 2 && p[0] == '*' && p[1] == '*' then
      if |p| >= 3 && p[2] == '/' then [OptDirs] + Items(p[3..]) else [DotStar] + Items(p[2..])
    else if p[0] == '*' then [Star] + Items(p[1..])
    else [Lit(p[0])] + Items(p[1..])
  }

  method GlobToRegExp(pattern: string) returns (out: string)
    ensures ReadRegex(out) == Some(Items(Normalize(pattern)))
  {
    var normalized := Normalize(pattern);
    ghost var items := Items(normalized);
    out := "^";
    var i := 0;
    assert normalized[0..] == normalized;
    while i < |normalized|
      invariant 0 <= i <= |normalized|
      invariant out + Source(Items(normalized[i..])) == "^" + Source(items)
    {
      var c := normalized[i];
      ghost var start, before, item := i, out, Lit(c);
      if c == '*' && i + 1 < |normalized| && normalized[i + 1] == '*' {
        if i + 2 < |normalized| && normalized[i + 2] == '/' {
          item := OptDirs;
          out := out + "(?:.*/)?";
          i := i + 3;
        } else {
          item := DotStar;
          out := out + ".*";
          i := i + 2;
        }
      } else if c == '*' {
        item := Star;
        out := out + "[^/]*";
        i := i + 1;
      } else {
        out := out + EscapeRegExp(c);
        i := i + 1;
      }
      assert out == before + ItemSource(item);
      ItemsStep(normalized, start, item, i);
      SourceStep(before, item, Items(normalized[i..]));
    }
    assert Items(normalized[i..]) == [];
    assert out == "^" + Source(items);
    out := out + "$";
    assert out[1..] == Source(items) + "$";
    ReadSource(items);
  }

  lemma SourceStep(before: string, item: Item, items: seq<Item>)
    ensures before + Source([item] + items) == (before + ItemSource(item)) + Source(items)
  {
    assert ([item] + items)[1..] == items;
  }

  /** One turn of the compiler's loop reads one item. */
  lemma ItemsStep(s: string, i: nat, item: Item, j: nat)
    requires i < j <= |s|
    requires if s[i] == '*' && i + 1 < |s| && s[i + 1] == '*' then
               if i + 2 < |s| && s[i + 2] == '/' then item == OptDirs && j == i + 3
               else item == DotStar && j == i + 2
             else item == (if s[i] == '*' then Star else Lit(s[i])) && j == i + 1
    ensures Items(s[i..]) == [item] + Items(s[j..])
  {
    var rest := s[i..];
    assert rest[j - i..] == s[j..];
    assert i + 2 < |s| ==> rest[2] == s[i + 2];
  }

  /** The emitted text means exactly the items it was emitted for: the escaping is complete. */
  lemma {:induction false} ReadSource(items: seq<Item>)
    ensures ReadItems(Source(items) + "$") == Some(items)
  {
    if items != [] {
      ReadSource(items[1..]);
      ReadItem(items[0], Source(items[1..]) + "$");
      assert Source(items) + "$" == ItemSource(items[0]) + (Source(items[1..]) + "$");
      assert [items[0]] + items[1..] == items;
    }
  }

  lemma ReadItem(item: Item, tail: string)
    requires tail != ""
    ensures ReadItems(ItemSource(item) + tail) == Prepend(item, ReadItems(tail))
  {
    match item
    case Lit(c) => ReadLit(c, tail);
    case Star => ReadWord("[^/]*", tail);
    case DotStar => ReadWord(".*", tail);
    case OptDirs => ReadWord("(?:.*/)?", tail);
  }

  lemma ReadWord(word: string, tail: string)
    requires word == "[^/]*" || word == ".*" || word == "(?:.*/)?"
    ensures ReadItems(word + tail)
            == Prepend(if word == ".*" then DotStar else if word == "[^/]*" then Star else OptDirs, ReadItems(tail))
  {
    var s := word + tail;
    assert word <= s && s[0] == word[0] && s[|word|..] == tail;
  }

  lemma ReadLit(c: char, tail: string)
    requires tail != ""
    ensures ReadItems(EscapeRegExp(c) + tail) == Prepend(Lit(c), ReadItems(tail))
  {
    var s := EscapeRegExp(c) + tail;
    if SyntaxChar(c) {
      assert s[0] == '\\' && s[1] == c && s[2..] == tail;
    } else {
      assert s[0] == c && s[1..] == tail && s != "$";
    }
  }

  // ---------------------------------------------------------------------
  // What a glob means
  // ---------------------------------------------------------------------

  predicate SlashFree(s: string)
  {
    forall i :: 0 <= i < |s| ==> s[i] != '/'
  }

  function Join(segments: seq<string>): string
    requires segments != []
  {
    if |segments| == 1 then segments[0] else segments[0] + "/" + Join(segments[1..])
  }

  function Split(s: string): (r: seq<string>)
    ensures r != [] && (forall x | x in r :: SlashFree(x))
    ensures Join(r) == s
  {
    var i := Find(s, "/", 0);
    if i == -1 then
      NoSlash(s);
      [s]
    else
      FirstSlash(s, i);
      [s[..i]] + Split(s[i + 1..])
  }

  lemma NoSlash(s: string)
    requires forall j :: 0 <= j ==> !At(s, j, "/")
    ensures SlashFree(s)
  {
    forall i | 0 <= i < |s| ensures s[i] != '/' {
      assert !At(s, i, "/");
      assert s[i..i + 1] == [s[i]];
    }
  }

  lemma FirstSlash(s: string, i: nat)
    requires At(s, i, "/") && forall j :: 0 <= j < i ==> !At(s, j, "/")
    ensures SlashFree(s[..i]) && s == s[..i] + "/" + s[i + 1..]
  {
    forall k | 0 <= k < i ensures s[..i][k] != '/' {
      assert !At(s, k, "/");
      assert s[k..k + 1] == [s[k]];
    }
    assert s == s[..i] + s[i..i + 1] + s[i + 1..];
  }

  /** One segment of a pattern: `*` stands for any characters. */
  predicate StarMatch(p: string, s: string)
    decreases |p|, |s|
  {
    if p == "" then s == ""
    else if p[0] == '*' then StarMatch(p[1..], s) || (s != "" && StarMatch(p, s[1..]))
    else s != "" && s[0] == p[0] && StarMatch(p[1..], s[1..])
  }

  /** `**` stands for any number of segments, and for at least one where the pattern ends in it. */
  predicate SegmentMatch(ps: seq<string>, ss: seq<string>)
    decreases |ps|, |ss|
  {
    if ps == [] then ss == []
    else if ps[0] == "**" then
      if |ps| == 1 then ss != []
      else SegmentMatch(ps[1..], ss) || (ss != [] && SegmentMatch(ps, ss[1..]))
    else ss != [] && StarMatch(ps[0], ss[0]) && SegmentMatch(ps[1..], ss[1..])
  }

  predicate DoubleStarAt(p: string, i: int)
  {
    0 <= i && i + 1 < |p| && p[i] == '*' && p[i + 1] == '*'
  }

  predicate NoDoubleStar(p: string)
  {
    forall i :: 0 <= i < |p| ==> !DoubleStarAt(p, i)
  }

  /** Every `**` of the pattern is a whole segment. */
  predicate WholeStars(ps: seq<string>)
  {
    forall p | p in ps :: p == "**" || NoDoubleStar(p)
  }

  /** A path as a file tree yields it: no empty segment, no line terminator. */
  predicate PlainPath(ss: seq<string>)
  {
    forall x | x in ss :: x != "" && forall i :: 0 <= i < |x| ==> !LineTerm(x[i])
  }

  // ---------------------------------------------------------------------
  // The compiled regex decides the segment match
  // ---------------------------------------------------------------------

  lemma NoDoubleStarTail(p: string)
    requires p != "" && NoDoubleStar(p)
    ensures NoDoubleStar(p[1..])
    ensures !(|p| >= 2 && p[0] == '*' && p[1] == '*')
  {
    assert !DoubleStarAt(p, 0);
    forall i | 0 <= i < |p| - 1 ensures !DoubleStarAt(p[1..], i) {
      assert !DoubleStarAt(p, i + 1);
    }
  }

  /** A plain segment followed by a slash compiles segment first, slash next, rest last. */
  lemma {:induction false} ItemsOfSegment(p: string, q: string)
    requires NoDoubleStar(p)
    ensures Items(p + "/" + q) == Items(p) + [Lit('/')] + Items(q)
  {
    var s := p + "/" + q;
    if p == "" {
      assert s[1..] == q;
    } else {
      NoDoubleStarTail(p);
      ItemsOfSegment(p[1..], q);
      assert s[1..] == p[1..] + "/" + q;
      assert s[0] == p[0] && s[1] == if |p| > 1 then p[1] else '/';
      var item := if p[0] == '*' then Star else Lit(p[0]);
      assert Items(s) == [item] + Items(s[1..]);
      assert Items(p) == [item] + Items(p[1..]);
    }
  }

  /** Inside one segment the compiled items and the star match agree. */
  lemma {:induction false} SegmentAgrees(p: string, x: string)
    requires NoDoubleStar(p) && SlashFree(p) && SlashFree(x)
    ensures Accepts(Items(p), x) <==> StarMatch(p, x)
    decreases |p|, |x|
  {
    if p != "" {
      NoDoubleStarTail(p);
      var items := Items(p);
      assert items[1..] == Items(p[1..]);
      if p[0] == '*' {
        SegmentAgrees(p[1..], x);
        if x != "" { SegmentAgrees(p, x[1..]); }
      } else if x != "" && x[0] == p[0] {
        SegmentAgrees(p[1..], x[1..]);
      }
    }
  }

  /** Items that cannot pass a slash stop at the first one. */
  lemma {:induction false} SegmentThenSlash(p: string, more: seq<Item>, x: string, t: string)
    requires NoDoubleStar(p) && SlashFree(p) && SlashFree(x)
    ensures Accepts(Items(p) + [Lit('/')] + more, x + "/" + t) <==> Accepts(Items(p), x) && Accepts(more, t)
    decreases |p|, |x|
  {
    var items := Items(p) + [Lit('/')] + more;
    var s := x + "/" + t;
    if x == "" { assert s[1..] == t; } else { assert s[1..] == x[1..] + "/" + t; }
    if p == "" {
      assert items == [Lit('/')] + more;
      assert items[1..] == more;
      assert Items(p) == [];
    } else {
      NoDoubleStarTail(p);
      assert Items(p)[1..] == Items(p[1..]);
      assert items[1..] == Items(p[1..]) + [Lit('/')] + more;
      if p[0] == '*' {
        SegmentThenSlash(p[1..], more, x, t);
        if x != "" { SegmentThenSlash(p, more, x[1..], t); }
      } else if x != "" {
        SegmentThenSlash(p[1..], more, x[1..], t);
      }
    }
  }

  lemma {:induction false} NoSlashNoMatch(p: string, more: seq<Item>, x: string)
    requires NoDoubleStar(p) && SlashFree(p) && SlashFree(x)
    ensures !Accepts(Items(p) + [Lit('/')] + more, x)
    decreases |p|, |x|
  {
    var items := Items(p) + [Lit('/')] + more;
    if p == "" {
      assert items == [Lit('/')] + more;
    } else {
      NoDoubleStarTail(p);
      assert items[1..] == Items(p[1..]) + [Lit('/')] + more;
      if p[0] == '*' {
        NoSlashNoMatch(p[1..], more, x);
        if x != "" { NoSlashNoMatch(p, more, x[1..]); }
      } else if x != "" {
        NoSlashNoMatch(p[1..], more, x[1..]);
      }
    }
  }

  /** A plain last segment passes no slash. */
  lemma {:induction false} SegmentRejectsSlash(p: string, x: string, t: string)
    requires NoDoubleStar(p) && SlashFree(p) && SlashFree(x)
    ensures !Accepts(Items(p), x + "/" + t)
    decreases |p|, |x|
  {
    var s := x + "/" + t;
    if x != "" { assert s[1..] == x[1..] + "/" + t; }
    if p != "" {
      NoDoubleStarTail(p);
      assert Items(p)[1..] == Items(p[1..]);
      if p[0] == '*' {
        SegmentRejectsSlash(p[1..], x, t);
        if x != "" { SegmentRejectsSlash(p, x[1..], t); }
      } else if x != "" {
        SegmentRejectsSlash(p[1..], x[1..], t);
      }
    }
  }

  lemma {:induction false} DotStarAcceptsLine(s: string)
    requires forall i :: 0 <= i < |s| ==> !LineTerm(s[i])
    ensures Accepts([DotStar], s)
  {
    if s != "" {
      DotStarAcceptsLine(s[1..]);
    }
  }

  lemma {:induction false} JoinHasNoLineTerm(ss: seq<string>)
    requires ss != [] && PlainPath(ss)
    ensures forall i :: 0 <= i < |Join(ss)| ==> !LineTerm(Join(ss)[i])
  {
    if |ss| > 1 {
      JoinHasNoLineTerm(ss[1..]);
    }
  }

  /** Past a slash-free stretch, the optional directories resume behind the slash. */
  lemma {:induction false} AfterSlashSkips(items: seq<Item>, x: string, t: string)
    requires SlashFree(x) && forall i :: 0 <= i < |x| ==> !LineTerm(x[i])
    ensures AcceptsAfterSlash(items, x + "/" + t) <==> Accepts(items, t) || AcceptsAfterSlash(items, t)
  {
    var s := x + "/" + t;
    if x == "" {
      assert s[1..] == t;
    } else {
      assert s[1..] == x[1..] + "/" + t;
      AfterSlashSkips(items, x[1..], t);
    }
  }

  lemma {:induction false} AfterSlashNeedsSlash(items: seq<Item>, x: string)
    requires SlashFree(x)
    ensures !AcceptsAfterSlash(items, x)
  {
    if x != "" {
      AfterSlashNeedsSlash(items, x[1..]);
    }
  }

  lemma {:induction false} EmptyPathRejected(ps: seq<string>)
    requires ps != []
    ensures !SegmentMatch(ps, [])
  {
    if ps[0] == "**" && |ps| > 1 {
      EmptyPathRejected(ps[1..]);
    }
  }

  lemma JoinCons(p: string, rest: seq<string>)
    requires rest != []
    ensures Join([p] + rest) == p + "/" + Join(rest)
  {
    assert ([p] + rest)[1..] == rest;
  }

  /** Regex and segments agree, for a pattern and a path given as segments. */
  lemma {:induction false} SegmentsAgree(ps: seq<string>, ss: seq<string>)
    requires ps != [] && ss != [] && WholeStars(ps) && PlainPath(ss)
    requires (forall p | p in ps :: SlashFree(p)) && (forall x | x in ss :: SlashFree(x))
    ensures Accepts(Items(Join(ps)), Join(ss)) <==> SegmentMatch(ps, ss)
    decreases |ps|, |ss|
  {
    var p, rest := ps[0], ps[1..];
    var s := Join(ss);
    if p == "**" {
      if rest == [] {
        assert Items(p) == [DotStar];
        JoinHasNoLineTerm(ss);
        DotStarAcceptsLine(s);
      } else {
        assert ps == ["**"] + rest;
        LeadingStars(rest, ss);
      }
    } else if rest == [] {
      assert |ps| == 1 && Join(ps) == p;
      if |ss| == 1 {
        assert ss[1..] == [];
        SegmentAgrees(p, ss[0]);
      } else {
        assert |ss[1..]| > 0;
        SegmentRejectsSlash(p, ss[0], Join(ss[1..]));
      }
    } else {
      ItemsOfSegment(p, Join(rest));
      if |ss| == 1 {
        NoSlashNoMatch(p, Items(Join(rest)), ss[0]);
        EmptyPathRejected(rest);
      } else {
        SegmentThenSlash(p, Items(Join(rest)), ss[0], Join(ss[1..]));
        SegmentAgrees(p, ss[0]);
        SegmentsAgree(rest, ss[1..]);
      }
    }
  }

  lemma {:induction false} LeadingStars(rest: seq<string>, ss: seq<string>)
    requires rest != [] && ss != [] && WholeStars(["**"] + rest) && PlainPath(ss)
    requires (forall p | p in rest :: SlashFree(p)) && (forall x | x in ss :: SlashFree(x))
    ensures Accepts(Items(Join(["**"] + rest)), Join(ss)) <==> SegmentMatch(["**"] + rest, ss)
    decreases |rest|, |ss| + 1
  {
    var ps := ["**"] + rest;
    var items, s := Items(Join(rest)), Join(ss);
    assert ps[1..] == rest;
    assert forall p | p in rest :: p in ps;
    JoinCons("**", rest);
    assert (Join(ps))[3..] == Join(rest);
    assert Items(Join(ps))[1..] == items;
    SegmentsAgree(rest, ss);
    if |ss| == 1 {
      AfterSlashNeedsSlash(items, s);
      EmptyPathRejected(rest);
      EmptyPathRejected(ps);
    } else {
      AfterSlashSkips(items, ss[0], Join(ss[1..]));
      LeadingStars(rest, ss[1..]);
    }
  }

  /**
   The regex built for a glob accepts exactly the paths whose segments the glob matches, whenever
   every `**` is a whole segment of the pattern and the path is a plain one.
   */
  lemma GlobDecidesSegments(pattern: string, path: string)
    requires WholeStars(Split(Normalize(pattern))) && PlainPath(Split(path))
    ensures Accepts(Items(Normalize(pattern)), path) <==> SegmentMatch(Split(Normalize(pattern)), Split(path))
  {
    SegmentsAgree(Split(Normalize(pattern)), Split(path));
  }

  // ---------------------------------------------------------------------
  // Expanding patterns over a tree
  // ---------------------------------------------------------------------

  datatype File = File(absolute: string, rel: string)

  predicate RegexTest(source: string, s: string)
  {
    match ReadRegex(source)
    case None => false
    case Some(items) => Accepts(items, s)
  }

  predicate HasStar(pattern: string)
  {
    '*' in pattern
  }

  /** The files a list of patterns names: globs over the tree, and plain paths that exist. */
  ghost predicate Named(files: seq<File>, resolve: string -> string, existing: set<string>,
                        patterns: seq<string>, path: string)
  {
    exists p | p in patterns ::
      if HasStar(p) then exists f | f in files :: f.absolute == path && Accepts(Items(Normalize(p)), f.rel)
      else path == resolve(Normalize(p)) && path in existing
  }

  method ExpandPatterns(allFiles: seq<File>, resolve: string -> string, existing: set<string>, patterns: seq<string>)
    returns (matched: set<string>)
    ensures forall path :: path in matched <==> Named(allFiles, resolve, existing, patterns, path)
  {
    matched := {};
    for i := 0 to |patterns|
      invariant forall path :: path in matched <==> Named(allFiles, resolve, existing, patterns[..i], path)
    {
      var normalized := Normalize(patterns[i]);
      ghost var before := matched;
      assert patterns[..i + 1] == patterns[..i] + [patterns[i]];
      NormalizeStar(patterns[i]);
      if !HasStar(normalized) {
        var absolute := resolve(normalized);
        if absolute in existing {
          matched := matched + {absolute};
        }
      } else {
        var regex := GlobToRegExp(normalized);
        NormalizeTwice(patterns[i]);
        for j := 0 to |allFiles|
          invariant forall path :: path in matched <==>
            path in before || exists f | f in allFiles[..j] :: f.absolute == path && Accepts(Items(normalized), f.rel)
        {
          assert allFiles[..j + 1] == allFiles[..j] + [allFiles[j]];
          if RegexTest(regex, allFiles[j].rel) {
            matched := matched + {allFiles[j].absolute};
          }
        }
        assert allFiles[..|allFiles|] == allFiles;
      }
    }
    assert patterns[..|patterns|] == patterns;
  }

  lemma NormalizeStar(p: string)
    ensures HasStar(Normalize(p)) <==> HasStar(p)
  {
    var r := Normalize(p);
    if '*' in p {
      var i :| 0 <= i < |p| && p[i] == '*';
      assert r[i] == '*';
    }
    if '*' in r {
      var i :| 0 <= i < |r| && r[i] == '*';
      assert p[i] == '*';
    }
  }

  lemma NormalizeTwice(p: string)
    ensures Normalize(Normalize(p)) == Normalize(p)
  {
    assert forall i :: 0 <= i < |p| ==> Normalize(Normalize(p))[i] == Normalize(p)[i];
  }
}
