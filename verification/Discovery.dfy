/**
 The bounded recursive scan for projects (src/blueprint/projects.ts): capped by count, by depth and
 by a deadline, over a directory tree that does not change while it is scanned.
 */
module Discovery {
  import opened Text

  /** A directory: whether it looks like a project, and its entries in `readdir` order. */
  datatype Dir = Dir(isProject: bool, entries: seq<Entry>)

  datatype Entry = Plain(name: string) | Sub(name: string, dir: Dir)

  datatype Root = Root(path: string, dir: Dir)

  datatype Caps = Caps(depth: int, count: int, timeoutMs: int)

  const RECURSIVE_SCAN_IGNORED_DIRS: set<string> :=
    {"node_modules", ".git", "dist", "build", ".next", "target", ".cache", ".turbo", ".pnpm-store"}

  predicate ShouldSkipChild(name: string)
  {
    name in RECURSIVE_SCAN_IGNORED_DIRS || (name != "" && name[0] == '.' && name != ".agent")
  }

  function Join(dir: string, name: string): string
  {
    dir + "/" + name
  }

  // ---------------------------------------------------------------------
  // The uncapped listing
  // ---------------------------------------------------------------------

  /** The projects under `dir` in preorder, down to `depth` more levels, through names not skipped. */
  function Preorder(dir: Dir, path: string, depth: int): seq<string>
    decreases dir, 1
  {
    if depth < 0 then []
    else (if dir.isProject then [path] else []) + PreorderEntries(dir.entries, path, depth)
  }

  function PreorderEntries(entries: seq<Entry>, path: string, depth: int): seq<string>
    decreases entries, 0
  {
    if entries == [] then []
    else PreorderEntry(entries[0], path, depth) + PreorderEntries(entries[1..], path, depth)
  }

  function PreorderEntry(e: Entry, path: string, depth: int): seq<string>
    decreases e, 2
  {
    if ShouldSkipChild(e.name) || e.Plain? then [] else Preorder(e.dir, Join(path, e.name), depth - 1)
  }

  function PreorderRoots(roots: seq<Root>, depth: int): seq<string>
  {
    if roots == [] then [] else Preorder(roots[0].dir, roots[0].path, depth) + PreorderRoots(roots[1..], depth)
  }

  /**
   `target` is the path of a project directory that a walk of at most `depth` levels reaches from
   `dir` through names it does not skip.
   */
  predicate ProjectBelow(dir: Dir, path: string, depth: int, target: string)
    decreases dir, 1
  {
    && depth >= 0
    && (|| (dir.isProject && target == path)
        || exists e | e in dir.entries :: ProjectAt(e, path, depth, target))
  }

  predicate ProjectAt(e: Entry, path: string, depth: int, target: string)
    decreases e, 2
  {
    e.Sub? && !ShouldSkipChild(e.name) && ProjectBelow(e.dir, Join(path, e.name), depth - 1, target)
  }

  /** The listing holds exactly the projects a bounded walk reaches. */
  lemma {:induction false} PreorderIsReach(dir: Dir, path: string, depth: int, target: string)
    ensures target in Preorder(dir, path, depth) <==> ProjectBelow(dir, path, depth, target)
    decreases dir, 1
  {
    EntriesReach(dir.entries, path, depth, target);
  }

  lemma {:induction false} EntriesReach(entries: seq<Entry>, path: string, depth: int, target: string)
    ensures target in PreorderEntries(entries, path, depth)
       <==> exists e | e in entries :: ProjectAt(e, path, depth, target)
    decreases entries, 0
  {
    if entries != [] {
      if entries[0].Sub? {
        PreorderIsReach(entries[0].dir, Join(path, entries[0].name), depth - 1, target);
      }
      EntriesReach(entries[1..], path, depth, target);
      assert ProjectAt(entries[0], path, depth, target) <==> target in PreorderEntry(entries[0], path, depth);
      assert forall e :: e in entries <==> e == entries[0] || e in entries[1..];
    }
  }

  lemma {:induction false} EntriesSplit(entries: seq<Entry>, i: nat, path: string, depth: int)
    requires i < |entries|
    ensures PreorderEntries(entries[i..], path, depth)
         == PreorderEntry(entries[i], path, depth) + PreorderEntries(entries[i + 1..], path, depth)
  {
    assert entries[i..][1..] == entries[i + 1..];
  }

  // ---------------------------------------------------------------------
  // The scan
  // ---------------------------------------------------------------------

  function Min(a: int, b: int): int
  {
    if a <= b then a else b
  }

  ghost predicate Nondecreasing(clock: nat -> int)
  {
    forall i: nat, j: nat :: i <= j ==> clock(i) <= clock(j)
  }

  /** `clock(n)` is the answer to the `n`th reading of the injected `now`. */
  class Scanner {
    const caps: Caps
    const clock: nat -> int
    var deadline: int
    var readings: nat
    var found: seq<string>

    constructor (caps: Caps, clock: nat -> int)
      ensures this.caps == caps && this.clock == clock && readings == 0 && found == []
    {
      this.caps := caps;
      this.clock := clock;
      deadline, readings, found := 0, 0, [];
    }

    /** The last reading was past the deadline. */
    predicate Late()
      reads this
    {
      caps.timeoutMs > 0 && readings > 0 && clock(readings - 1) >= deadline
    }

    predicate Stopped()
      reads this
    {
      |found| >= caps.count || Late()
    }

    method TimedOut() returns (b: bool)
      modifies this`readings
      ensures caps.timeoutMs <= 0 ==> !b && readings == old(readings)
      ensures caps.timeoutMs > 0 ==> readings == old(readings) + 1 && b == Late()
      ensures Nondecreasing(clock) && old(Late()) ==> b
    {
      if caps.timeoutMs <= 0 { return false; }
      b := clock(readings) >= deadline;
      readings := readings + 1;
    }

    /** `rest` is what is left of the uncapped listing: nothing, unless a cap has stopped the scan. */
    method Walk(dir: Dir, path: string, depth: nat) returns (ghost rest: seq<string>)
      requires Nondecreasing(clock)
      modifies this`found, this`readings
      ensures found + rest == old(found) + Preorder(dir, path, caps.depth - depth)
      ensures rest == [] || Stopped()
      ensures |old(found)| <= caps.count ==> |found| <= caps.count
      ensures old(Late()) ==> Late()
      decreases dir, 1
    {
      rest := Preorder(dir, path, caps.depth - depth);
      if depth > caps.depth { return; }
      if |found| >= caps.count { return; }
      var late := TimedOut();
      if late { return; }

      rest := PreorderEntries(dir.entries, path, caps.depth - depth);
      if dir.isProject {
        found := found + [path];
      }
      if |found| >= caps.count { return; }

      var i := 0;
      while i < |dir.entries|
        invariant 0 <= i <= |dir.entries|
        invariant rest == PreorderEntries(dir.entries[i..], path, caps.depth - depth)
        invariant found + rest == old(found) + Preorder(dir, path, caps.depth - depth)
        invariant !Stopped() && !old(Late())
      {
        var entry := dir.entries[i];
        EntriesSplit(dir.entries, i, path, caps.depth - depth);
        i := i + 1;
        ghost var more := PreorderEntries(dir.entries[i..], path, caps.depth - depth);
        if ShouldSkipChild(entry.name) || entry.Plain? {
          rest := more;
          continue;
        }
        ghost var before, sub := found, Preorder(entry.dir, Join(path, entry.name), caps.depth - depth - 1);
        ghost var unread := Walk(entry.dir, Join(path, entry.name), depth + 1);
        Regroup(found, unread, before, sub, more);
        rest := unread + more;
        if |found| >= caps.count { return; }
        late := TimedOut();
        if late { return; }
        assert unread == [] && rest == more;
      }
    }

    method RecursiveScan(roots: seq<Root>)
      requires Nondecreasing(clock)
      requires found == []
      modifies this
      ensures found <= PreorderRoots(roots, caps.depth)
      ensures caps.count >= 0 ==> |found| <= caps.count
      ensures deadline == clock(old(readings)) + caps.timeoutMs
      ensures caps.count >= 0 && !Late() ==>
                found == PreorderRoots(roots, caps.depth)[..Min(caps.count, |PreorderRoots(roots, caps.depth)|)]
    {
      deadline := clock(readings) + caps.timeoutMs;
      readings := readings + 1;
      ghost var all := PreorderRoots(roots, caps.depth);
      ghost var rest := all;
      var i := 0;
      while i < |roots|
        invariant 0 <= i <= |roots|
        invariant found + rest == all
        invariant rest == PreorderRoots(roots[i..], caps.depth) || Late()
        invariant caps.count >= 0 ==> |found| <= caps.count
        invariant deadline == clock(old(readings)) + caps.timeoutMs
      {
        var late := TimedOut();
        if late { break; }
        assert roots[i..][1..] == roots[i + 1..];
        ghost var more := PreorderRoots(roots[i + 1..], caps.depth);
        ghost var before, sub := found, Preorder(roots[i].dir, roots[i].path, caps.depth);
        ghost var unread := Walk(roots[i].dir, roots[i].path, 0);
        Regroup(found, unread, before, sub, more);
        rest := unread + more;
        if |found| >= caps.count { break; }
        i := i + 1;
      }
    }
  }

  lemma Regroup(found: seq<string>, unread: seq<string>, before: seq<string>, sub: seq<string>, more: seq<string>)
    requires found + unread == before + sub
    ensures found + (unread + more) == before + (sub + more)
  {
    assert found + (unread + more) == (found + unread) + more;
    assert before + (sub + more) == (before + sub) + more;
  }

  // ---------------------------------------------------------------------
  // Aggregating the sources
  // ---------------------------------------------------------------------

  datatype Ref = Ref(worktreePath: string, source: string)

  /** The references in the order of their sources, each worktree as its first source gave it. */
  function FirstRefs(refs: seq<Option<Ref>>): seq<Ref>
  {
    if refs == [] then []
    else
      var before := FirstRefs(refs[..|refs| - 1]);
      match refs[|refs| - 1]
      case None => before
      case Some(r) => if KnownPath(before, r.worktreePath) then before else before + [r]
  }

  predicate KnownPath(refs: seq<Ref>, path: string)
  {
    exists r | r in refs :: r.worktreePath == path
  }

  /** The `seen` and `order` of resolveBlueprintProjects and its inner `record`. */
  class ProjectIndex {
    var seen: map<string, Ref>
    var order: seq<string>
    ghost var history: seq<Option<Ref>>

    ghost predicate Valid()
      reads this
    {
      && |order| == |FirstRefs(history)|
      && (forall i :: 0 <= i < |order| ==> order[i] in seen && seen[order[i]] == FirstRefs(history)[i])
      && (forall p :: p in seen <==> KnownPath(FirstRefs(history), p))
    }

    constructor ()
      ensures Valid() && history == []
    {
      seen, order, history := map[], [], [];
    }

    method Record(ref: Option<Ref>)
      requires Valid()
      modifies this
      ensures Valid() && history == old(history) + [ref]
    {
      history := history + [ref];
      assert history[..|history| - 1] == old(history);
      if ref.None? || ref.value.worktreePath in seen { return; }
      assert forall i :: 0 <= i < |order| ==> order[i] != ref.value.worktreePath;
      seen := seen[ref.value.worktreePath := ref.value];
      order := order + [ref.value.worktreePath];
    }

    method Resolved() returns (refs: seq<Ref>)
      requires Valid()
      ensures refs == FirstRefs(history)
    {
      refs := [];
      for i := 0 to |order|
        invariant refs == FirstRefs(history)[..i]
      {
        refs := refs + [seen[order[i]]];
      }
    }
  }

  /** First source wins: every recorded worktree is listed once, with the reference recorded first. */
  lemma {:induction false} FirstSourceWins(refs: seq<Option<Ref>>, i: nat)
    requires i < |refs| && refs[i].Some?
    requires forall j :: 0 <= j < i && refs[j].Some? ==> refs[j].value.worktreePath != refs[i].value.worktreePath
    ensures refs[i].value in FirstRefs(refs)
    ensures forall r :: r in FirstRefs(refs) && r.worktreePath == refs[i].value.worktreePath ==> r == refs[i].value
    decreases |refs|
  {
    var n := |refs| - 1;
    if i < n {
      FirstSourceWins(refs[..n], i);
    } else {
      NothingInvented(refs[..n]);
    }
  }

  lemma {:induction false} NothingInvented(refs: seq<Option<Ref>>)
    ensures forall r :: r in FirstRefs(refs) ==> Some(r) in refs
    ensures forall i, j :: 0 <= i < j < |FirstRefs(refs)| ==>
              FirstRefs(refs)[i].worktreePath != FirstRefs(refs)[j].worktreePath
  {
    if refs != [] {
      NothingInvented(refs[..|refs| - 1]);
    }
  }
}
