/**
 The project resolver and its short-lived cache (src/blueprint/project-resolver.ts).
 */
module Resolver {
  import opened Text

  datatype Source = Current | McpRoots | WorkspaceConfig | GitWorktree | RecursiveScan

  datatype Project = Project(projectId: string, worktreePath: string, repoPath: string, source: Source)

  datatype Answer =
    | Found(cwd: string, projectId: Option<string>)
    | NotFound(candidates: seq<Project>)
    | Ambiguous(candidates: seq<Project>)

  predicate Named(p: Project, key: string)
  {
    key == p.projectId || key == p.worktreePath || key == p.repoPath
  }

  function FirstNamed(projects: seq<Project>, key: string): Option<Project>
  {
    if projects == [] then None
    else if Named(projects[0], key) then Some(projects[0])
    else FirstNamed(projects[1..], key)
  }

  function LastNamed(projects: seq<Project>, key: string): Option<Project>
  {
    if projects == [] then None
    else if Named(projects[|projects| - 1], key) then Some(projects[|projects| - 1])
    else LastNamed(projects[..|projects| - 1], key)
  }

  // ---------------------------------------------------------------------
  // What has been warmed
  // ---------------------------------------------------------------------

  /** One call of `warm`. */
  datatype Batch = Batch(at: int, projects: seq<Project>)

  datatype Stamped = Stamped(at: int, project: Project)

  /** The last project warmed under a key. */
  function LastEntry(log: seq<Batch>, key: string): Option<Stamped>
  {
    if log == [] then None
    else
      var b := log[|log| - 1];
      match LastNamed(b.projects, key)
      case Some(p) => Some(Stamped(b.at, p))
      case None => LastEntry(log[..|log| - 1], key)
  }

  predicate Fresh(e: Stamped, now: int, ttlMs: int)
  {
    now - e.at <= ttlMs
  }

  /** What a cache that forgets nothing answers for a key. */
  function Recall(log: seq<Batch>, key: string, now: int, ttlMs: int): Option<Project>
  {
    match LastEntry(log, key)
    case Some(e) => if Fresh(e, now, ttlMs) then Some(e.project) else None
    case None => None
  }

  /** The same for an id and the path it resolves to, each looked up at its own clock reading. */
  function RecallMatch(log: seq<Batch>, id: string, path: Option<string>, t1: int, t2: int, ttlMs: int): Option<Project>
  {
    match Recall(log, id, t1, ttlMs)
    case Some(p) => Some(p)
    case None => if path.Some? then Recall(log, path.value, t2, ttlMs) else None
  }

  // ---------------------------------------------------------------------
  // Answers
  // ---------------------------------------------------------------------

  function Pick(p: Project): Answer
  {
    Found(p.worktreePath, Some(p.projectId))
  }

  /** What discovery alone answers for an id that is no path. */
  function Discovered(projects: seq<Project>, id: string): Answer
  {
    match FirstNamed(projects, id)
    case Some(p) => Pick(p)
    case None => NotFound(projects)
  }

  /**
   What resolving an id answers when `log` has been warmed: the cached project, or else the path it resolves to, or
   else what discovery finds. The answer of an empty cache is that of an empty log.
   */
  function Resolved(log: seq<Batch>, id: string, path: Option<string>, projects: seq<Project>, t1: int, t2: int,
                    ttlMs: int)
    : Answer
  {
    match RecallMatch(log, id, path, t1, t2, ttlMs)
    case Some(p) => Pick(p)
    case None => if path.Some? then Found(path.value, None) else Discovered(projects, id)
  }

  function OfSource(projects: seq<Project>, source: Source): seq<Project>
  {
    if projects == [] then []
    else (if projects[0].source == source then [projects[0]] else []) + OfSource(projects[1..], source)
  }

  lemma OfSourceStep(projects: seq<Project>, i: nat, source: Source)
    requires i < |projects|
    ensures OfSource(projects[i..], source)
         == (if projects[i].source == source then [projects[i]] else []) + OfSource(projects[i + 1..], source)
  {
    assert projects[i..][0] == projects[i] && projects[i..][1..] == projects[i + 1..];
  }

  lemma {:induction false} OfSourceIs(projects: seq<Project>, source: Source)
    ensures forall p :: p in OfSource(projects, source) <==> p in projects && p.source == source
  {
    if projects != [] {
      OfSourceIs(projects[1..], source);
      assert projects == [projects[0]] + projects[1..];
    }
  }

  /** The answer without an id. */
  function Visible(projects: seq<Project>, cwd: string): Answer
  {
    var current := OfSource(projects, Current);
    var scanned := OfSource(projects, RecursiveScan);
    if current != [] then Pick(current[0])
    else if |scanned| == 1 then Pick(scanned[0])
    else if |scanned| > 1 then Ambiguous(scanned)
    else if |projects| == 1 then Pick(projects[0])
    else if |projects| > 1 then Ambiguous(projects)
    else Found(cwd, None)
  }

  /**
   Without an id a project is answered only when there is no other choice: it is current, or none is and it is the
   only scanned one or the only one at all. The working directory is answered when there is no project.
   */
  lemma VisibleIsOnlyChoice(projects: seq<Project>, cwd: string)
    ensures match Visible(projects, cwd)
            case Found(c, None) => c == cwd && projects == []
            case Found(_, Some(_)) =>
              exists p | p in projects ::
                && Visible(projects, cwd) == Pick(p)
                && (p.source == Current
                    || ((forall other | other in projects :: other.source != Current)
                        && (projects == [p] || OfSource(projects, RecursiveScan) == [p])))
            case NotFound(_) => false
            case Ambiguous(choices) =>
              && |choices| > 1 && (forall other | other in projects :: other.source != Current)
              && ((choices == projects && forall other | other in projects :: other.source != RecursiveScan)
                  || forall p :: p in choices <==> p in projects && p.source == RecursiveScan)
  {
    OfSourceIs(projects, Current);
    OfSourceIs(projects, RecursiveScan);
    var current, scanned := OfSource(projects, Current), OfSource(projects, RecursiveScan);
    if current != [] {
      assert current[0] in projects && current[0].source == Current;
    } else {
      forall other | other in projects ensures other.source != Current {
        assert other !in current;
      }
      if |scanned| == 1 {
        assert scanned[0] in projects && scanned == [scanned[0]];
      } else if |scanned| == 0 {
        forall other | other in projects ensures other.source != RecursiveScan {
          assert other !in scanned;
        }
        if |projects| == 1 { assert projects == [projects[0]]; }
      }
    }
  }

  // ---------------------------------------------------------------------
  // The resolver
  // ---------------------------------------------------------------------

  /** The state of createProjectResolver. Clock readings and discovered projects come in as arguments. */
  class ProjectResolver {
    const ttlMs: int
    var recentProjectIndex: map<string, Stamped>
    /** Everything warmed since the last invalidation, and the latest clock reading. */
    ghost var log: seq<Batch>
    ghost var clock: int

    /** The index is the log's, but for entries that have expired. */
    ghost predicate Valid()
      reads this
    {
      && (forall b | b in log :: b.at <= clock)
      && forall key :: Remembers(recentProjectIndex, LastEntry(log, key), key, clock, ttlMs)
    }

    constructor (ttlMs: int)
      ensures Valid() && this.ttlMs == ttlMs && log == [] && clock == 0
    {
      this.ttlMs := ttlMs;
      recentProjectIndex, log, clock := map[], [], 0;
    }

    method Warm(projects: seq<Project>, now: int)
      requires Valid() && clock <= now
      modifies this
      ensures Valid() && log == old(log) + [Batch(now, projects)] && clock == now
    {
      ghost var before := recentProjectIndex;
      for i := 0 to |projects|
        invariant log == old(log)
        invariant forall key :: Lookup(recentProjectIndex, key) == WarmedUpTo(before, projects[..i], key, now)
      {
        ghost var index := recentProjectIndex;
        var e := Stamped(now, projects[i]);
        recentProjectIndex := recentProjectIndex[projects[i].projectId := e];
        recentProjectIndex := recentProjectIndex[projects[i].worktreePath := e];
        recentProjectIndex := recentProjectIndex[projects[i].repoPath := e];
        assert projects[..i + 1][..i] == projects[..i];
        forall key ensures Lookup(recentProjectIndex, key) == WarmedUpTo(before, projects[..i + 1], key, now) {
          assert Lookup(index, key) == WarmedUpTo(before, projects[..i], key, now);
        }
      }
      assert projects[..|projects|] == projects;
      clock, log := now, log + [Batch(now, projects)];
      assert log[..|log| - 1] == old(log);
      forall key ensures Remembers(recentProjectIndex, LastEntry(log, key), key, clock, ttlMs) {
        assert Lookup(recentProjectIndex, key) == WarmedUpTo(before, projects, key, now);
        assert Remembers(before, LastEntry(old(log), key), key, old(clock), ttlMs);
      }
    }

    /** readRecentProjectMatch: the cache answers as one that forgets nothing, and may drop what has expired. */
    method ReadRecentProjectMatch(id: string, path: Option<string>, t1: int, t2: int) returns (p: Option<Project>)
      requires Valid() && clock <= t1 <= t2
      modifies this
      ensures Valid() && log == old(log) && clock == t2
      ensures p == RecallMatch(log, id, path, t1, t2, ttlMs)
    {
      p := ReadKey(id, t1);
      if p == None && path.Some? {
        p := ReadKey(path.value, t2);
      }
      clock := t2;
      forall key ensures Remembers(recentProjectIndex, LastEntry(log, key), key, clock, ttlMs) {
      }
    }

    method ReadKey(key: string, now: int) returns (p: Option<Project>)
      requires Valid() && clock <= now
      modifies this
      ensures Valid() && log == old(log) && clock == now
      ensures p == Recall(log, key, now, ttlMs)
    {
      ghost var before := recentProjectIndex;
      clock, p := now, None;
      assert Remembers(before, LastEntry(log, key), key, old(clock), ttlMs);
      if key in recentProjectIndex {
        var cached := recentProjectIndex[key];
        if now - cached.at > ttlMs {
          recentProjectIndex := recentProjectIndex - {key};
        } else {
          p := Some(cached.project);
        }
      }
      forall other ensures Remembers(recentProjectIndex, LastEntry(log, other), other, clock, ttlMs) {
        assert Remembers(before, LastEntry(log, other), other, old(clock), ttlMs);
      }
    }

    method Invalidate(now: int)
      requires Valid() && clock <= now
      modifies this
      ensures Valid() && log == [] && clock == now && recentProjectIndex == map[]
    {
      var keys := recentProjectIndex.Keys;
      while keys != {}
      {
        var key :| key in keys;
        keys := keys - {key};
        if key in recentProjectIndex && now - recentProjectIndex[key].at > ttlMs {
          recentProjectIndex := recentProjectIndex - {key};
        }
      }
      if |recentProjectIndex| > 0 { recentProjectIndex := map[]; }
      assert recentProjectIndex == map[];
      log, clock := [], now;
    }

    /** Resolving an id. `projects` is what discovery returns if it is asked. */
    method ResolveId(id: string, path: Option<string>, projects: seq<Project>, t1: int, t2: int, t3: int)
      returns (r: Answer)
      requires Valid() && clock <= t1 <= t2 <= t3
      modifies this
      ensures Valid()
      ensures r == Resolved(old(log), id, path, projects, t1, t2, ttlMs)
      ensures log == if RecallMatch(old(log), id, path, t1, t2, ttlMs) == None && path == None
                     then old(log) + [Batch(t3, projects)] else old(log)
    {
      var cachedMatch := ReadRecentProjectMatch(id, path, t1, t2);
      if cachedMatch.Some? { return Pick(cachedMatch.value); }
      if path.Some? { return Found(path.value, None); }
      Warm(projects, t3);
      for i := 0 to |projects|
        invariant FirstNamed(projects, id) == FirstNamed(projects[i..], id)
      {
        assert projects[i..][0] == projects[i] && projects[i..][1..] == projects[i + 1..];
        if Named(projects[i], id) { return Pick(projects[i]); }
      }
      r := NotFound(projects);
    }

    /** Resolving without an id: the current project, the only scanned one, or the only one there is. */
    method ResolveVisible(projects: seq<Project>, cwd: string, now: int) returns (r: Answer)
      requires Valid() && clock <= now
      modifies this
      ensures Valid() && log == old(log) + [Batch(now, projects)]
      ensures r == Visible(projects, cwd)
    {
      Warm(projects, now);
      for i := 0 to |projects|
        invariant Valid() && log == old(log) + [Batch(now, projects)]
        invariant OfSource(projects, Current) == OfSource(projects[i..], Current)
      {
        OfSourceStep(projects, i, Current);
        if projects[i].source == Current { return Pick(projects[i]); }
      }
      var scanned := [];
      for i := 0 to |projects|
        invariant Valid() && log == old(log) + [Batch(now, projects)]
        invariant scanned + OfSource(projects[i..], RecursiveScan) == OfSource(projects, RecursiveScan)
      {
        OfSourceStep(projects, i, RecursiveScan);
        if projects[i].source == RecursiveScan { scanned := scanned + [projects[i]]; }
      }
      if |scanned| == 1 { return Pick(scanned[0]); }
      if |scanned| > 1 { return Ambiguous(scanned); }
      if |projects| == 1 { return Pick(projects[0]); }
      if |projects| > 1 { return Ambiguous(projects); }
      r := Found(cwd, None);
    }
  }

  function Lookup(index: map<string, Stamped>, key: string): Option<Stamped>
  {
    if key in index then Some(index[key]) else None
  }

  /** A key's slot holds what was last warmed under it, or nothing once that has expired. */
  ghost predicate Remembers(index: map<string, Stamped>, last: Option<Stamped>, key: string, clock: int, ttlMs: int)
  {
    || Lookup(index, key) == last
    || (key !in index && last.Some? && !Fresh(last.value, clock, ttlMs))
  }

  function WarmedUpTo(before: map<string, Stamped>, projects: seq<Project>, key: string, now: int): Option<Stamped>
  {
    match LastNamed(projects, key)
    case Some(p) => Some(Stamped(now, p))
    case None => Lookup(before, key)
  }

  // ---------------------------------------------------------------------
  // What the cache may answer
  // ---------------------------------------------------------------------

  lemma {:induction false} LastNamedIs(projects: seq<Project>, key: string)
    ensures LastNamed(projects, key).Some? ==>
            LastNamed(projects, key).value in projects && Named(LastNamed(projects, key).value, key)
    ensures LastNamed(projects, key).None? ==> forall p | p in projects :: !Named(p, key)
  {
    if projects != [] {
      var n := |projects| - 1;
      LastNamedIs(projects[..n], key);
      assert projects == projects[..n] + [projects[n]];
    }
  }

  lemma {:induction false} FirstNamedIs(projects: seq<Project>, key: string)
    ensures FirstNamed(projects, key).Some? ==>
            FirstNamed(projects, key).value in projects && Named(FirstNamed(projects, key).value, key)
    ensures FirstNamed(projects, key).None? ==> forall p | p in projects :: !Named(p, key)
  {
    if projects != [] {
      FirstNamedIs(projects[1..], key);
      assert projects == [projects[0]] + projects[1..];
    }
  }

  /** A cached answer is a project of that name, warmed since the last invalidation and at most `ttlMs` ago. */
  lemma {:induction false} RecallIsRecent(log: seq<Batch>, key: string, now: int, ttlMs: int)
    requires Recall(log, key, now, ttlMs).Some?
    ensures var p := Recall(log, key, now, ttlMs).value;
            Named(p, key) && exists b | b in log :: p in b.projects && now - b.at <= ttlMs
  {
    var b := log[|log| - 1];
    LastNamedIs(b.projects, key);
    if LastNamed(b.projects, key).None? {
      RecallIsRecent(log[..|log| - 1], key, now, ttlMs);
    }
  }

  /** A run that only ever warms one listing. */
  predicate Unchanged(log: seq<Batch>, projects: seq<Project>)
  {
    forall b | b in log :: b.projects == projects
  }

  lemma {:induction false} RecallsLast(log: seq<Batch>, projects: seq<Project>, key: string, now: int, ttlMs: int)
    requires Unchanged(log, projects) && Recall(log, key, now, ttlMs).Some?
    ensures LastNamed(projects, key) == Recall(log, key, now, ttlMs)
  {
    if LastNamed(log[|log| - 1].projects, key).None? {
      RecallsLast(log[..|log| - 1], projects, key, now, ttlMs);
    }
  }

  /**
   An id that is no path, under an unchanging listing: the cache answers as discovery would exactly when nothing
   recent is cached under it or its first and its last project of that name have one worktree and id.
   */
  lemma CacheIsTransparent(log: seq<Batch>, projects: seq<Project>, id: string, t1: int, t2: int, ttlMs: int)
    requires Unchanged(log, projects)
    ensures Resolved(log, id, None, projects, t1, t2, ttlMs) == Resolved([], id, None, projects, t1, t2, ttlMs)
            <==> || Recall(log, id, t1, ttlMs) == None
                 || (&& FirstNamed(projects, id).Some? && LastNamed(projects, id).Some?
                     && Pick(LastNamed(projects, id).value) == Pick(FirstNamed(projects, id).value))
  {
    if Recall(log, id, t1, ttlMs).Some? {
      RecallsLast(log, projects, id, t1, ttlMs);
      LastNamedIs(projects, id);
      FirstNamedIs(projects, id);
    }
  }

  /** In particular when the id names one project only. */
  lemma OwnNameIsTransparent(log: seq<Batch>, projects: seq<Project>, id: string, t1: int, t2: int, ttlMs: int)
    requires Unchanged(log, projects)
    requires forall p, q | p in projects && q in projects && Named(p, id) && Named(q, id) :: p == q
    ensures Resolved(log, id, None, projects, t1, t2, ttlMs) == Resolved([], id, None, projects, t1, t2, ttlMs)
  {
    CacheIsTransparent(log, projects, id, t1, t2, ttlMs);
    if Recall(log, id, t1, ttlMs).Some? {
      RecallsLast(log, projects, id, t1, ttlMs);
      LastNamedIs(projects, id);
      FirstNamedIs(projects, id);
    }
  }

  /** The project that an unchanging listing has cached for an existing path: the last one of that name. */
  lemma PathRecallsLast(log: seq<Batch>, projects: seq<Project>, id: string, path: string, t1: int, t2: int, ttlMs: int)
    requires Unchanged(log, projects) && RecallMatch(log, id, Some(path), t1, t2, ttlMs).Some?
    ensures RecallMatch(log, id, Some(path), t1, t2, ttlMs)
            == if Recall(log, id, t1, ttlMs).Some? then LastNamed(projects, id) else LastNamed(projects, path)
  {
    if Recall(log, id, t1, ttlMs).Some? {
      RecallsLast(log, projects, id, t1, ttlMs);
    } else {
      RecallsLast(log, projects, path, t2, ttlMs);
    }
  }

  /**
   An existing path is answered with itself and no id before anything is cached. So the cache never answers it alike,
   unless nothing recent is cached under it; and it answers with the same directory only if the last project of that
   name has its worktree there.
   */
  lemma PathsAreNotTransparent(log: seq<Batch>, projects: seq<Project>, id: string, path: string, t1: int, t2: int,
                               ttlMs: int)
    requires Unchanged(log, projects)
    ensures Resolved([], id, Some(path), projects, t1, t2, ttlMs) == Found(path, None)
    ensures var cached := RecallMatch(log, id, Some(path), t1, t2, ttlMs);
            var r := Resolved(log, id, Some(path), projects, t1, t2, ttlMs);
            && (r == Found(path, None) <==> cached == None)
            && r.Found? && (r.cwd == path <==> cached == None || cached.value.worktreePath == path)
            && (|| cached == None
                || cached == if Recall(log, id, t1, ttlMs).Some?
                   then LastNamed(projects, id) else LastNamed(projects, path))
  {
    if RecallMatch(log, id, Some(path), t1, t2, ttlMs).Some? {
      PathRecallsLast(log, projects, id, path, t1, t2, ttlMs);
    }
  }

  /** Two worktrees of one repository: its path is answered with itself at first, then with the last worktree. */
  lemma SharedPathIsNotTransparent()
    ensures var a, b := Project("1", "/r/a", "/r", GitWorktree), Project("2", "/r/b", "/r", GitWorktree);
            && Resolved([], "/r", Some("/r"), [a, b], 0, 0, 15000) == Found("/r", None)
            && Resolved([Batch(0, [a, b])], "/r", Some("/r"), [a, b], 0, 0, 15000) == Found("/r/b", Some("2"))
  {
    var a, b := Project("1", "/r/a", "/r", GitWorktree), Project("2", "/r/b", "/r", GitWorktree);
    assert [Batch(0, [a, b])][0].projects == [a, b];
    assert LastNamed([a, b], "/r") == Some(b);
  }
}
