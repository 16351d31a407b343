/**
 The task graph of a blueprint projection (src/blueprint/context.ts): the rows of the `tasks` and
 `task_dependencies` tables, and reachability along dependencies.
 */
module TaskGraph {

  datatype Status = Todo | InProgress | Blocked | Done | Dropped

  datatype Row = Row(id: int, slug: string, taskId: string, status: Status)

  /** `tasks` is listed in ascending `task_id` order, the order every query asks for. */
  datatype Db = Db(tasks: seq<Row>, deps: set<(int, int)>)

  /** The primary key of the `tasks` table. */
  predicate UniqueIds(tasks: seq<Row>)
  {
    forall i, j :: 0 <= i < j < |tasks| ==> tasks[i].id != tasks[j].id
  }

  predicate HasRow(db: Db, id: int)
  {
    exists t | t in db.tasks :: t.id == id
  }

  /** A row of `task_dependencies` whose target joins a row of `tasks`. */
  predicate Edge(db: Db, x: int, y: int)
  {
    (x, y) in db.deps && HasRow(db, y)
  }

  /** The rows a task depends on directly, in `task_id` order. */
  function DirectDeps(tasks: seq<Row>, deps: set<(int, int)>, x: int): (r: seq<Row>)
    ensures forall t :: t in r <==> t in tasks && (x, t.id) in deps
  {
    if tasks == [] then []
    else
      var rest := DirectDeps(tasks[1..], deps, x);
      if (x, tasks[0].id) in deps then [tasks[0]] + rest else rest
  }

  /** `y` can be reached from `x` in at most `n` dependency steps. */
  ghost predicate Within(db: Db, x: int, n: nat, y: int)
  {
    if n == 0 then x == y
    else Within(db, x, n - 1, y) || exists z :: Within(db, x, n - 1, z) && Edge(db, z, y)
  }

  ghost predicate Reachable(db: Db, x: int, y: int)
  {
    exists n: nat :: Within(db, x, n, y)
  }

  lemma {:induction false} WithinGrows(db: Db, x: int, m: nat, n: nat, y: int)
    requires m <= n && Within(db, x, m, y)
    ensures Within(db, x, n, y)
    decreases n - m
  {
    if m < n {
      WithinGrows(db, x, m + 1, n, y);
    }
  }
}

/**
 The capped breadth-first dependency cone of a task.
 */
module DepCone {
  import opened TaskGraph

  const TASK_DEP_CONE_LIMIT: nat := 32

  /** A task the search has found, and its distance from the root. */
  datatype Found = Found(id: int, level: nat)

  /**
   The books of a breadth-first search: the tasks in the order they were found, the root first.
   The first `h` of them have been expanded.
   */
  ghost predicate Search(db: Db, found: seq<Found>, h: nat)
  {
    && |found| >= 1 && h <= |found| && found[0].level == 0
    && (forall i, j :: 0 <= i < j < |found| ==> found[i].id != found[j].id && found[i].level <= found[j].level)
    && (forall f | f in found :: Within(db, found[0].id, f.level, f.id))
    && (h < |found| ==> found[|found| - 1].level <= found[h].level + 1)
    && (forall i, y :: 0 <= i < h && Edge(db, found[i].id, y) ==> Listed(found, y, found[i].level + 1))
  }

  /** `y` has been found at distance `n` or nearer. */
  ghost predicate Listed(found: seq<Found>, y: int, n: nat)
  {
    exists f | f in found :: f.id == y && f.level <= n
  }

  ghost predicate Unlisted(found: seq<Found>, y: int)
  {
    forall f | f in found :: f.id != y
  }

  /** Up to the frontier, what the books list within `n` is what lies within `n`. */
  lemma {:induction false} SearchIsExact(db: Db, found: seq<Found>, h: nat, n: nat, y: int)
    requires Search(db, found, h) && Within(db, found[0].id, n, y)
    ensures Listed(found, y, n) || (h < |found| && Unlisted(found, y) && n >= found[h].level + 1)
  {
    if n == 0 {
      assert found[0] in found;
    } else if Within(db, found[0].id, n - 1, y) {
      SearchIsExact(db, found, h, n - 1, y);
    } else {
      var z :| Within(db, found[0].id, n - 1, z) && Edge(db, z, y);
      SearchIsExact(db, found, h, n - 1, z);
      if Listed(found, z, n - 1) {
        var i :| 0 <= i < |found| && found[i].id == z && found[i].level <= n - 1;
        if i < h {
          assert Listed(found, y, found[i].level + 1);
        } else {
          assert found[h].level <= found[i].level;
        }
      }
    }
  }

  /**
   What a returned cone promises: distinct dependencies, none of them the root, all of them
   reachable, and at most 32. Below the cap nothing reachable is missing; at the cap nothing
   missing is strictly closer to the root than something returned.
   */
  ghost predicate IsCone(db: Db, root: int, cone: seq<Row>)
  {
    && (forall t | t in cone :: t in db.tasks && t.id != root && Reachable(db, root, t.id))
    && DistinctIds(cone)
    && |cone| <= TASK_DEP_CONE_LIMIT
    && (|cone| < TASK_DEP_CONE_LIMIT ==>
          forall y :: Reachable(db, root, y) && y != root ==> HasId(cone, y))
    && (forall n: nat, y, t :: Within(db, root, n, y) && y != root && !HasId(cone, y) && t in cone
          ==> Within(db, root, n, t.id))
  }

  ghost predicate HasId(rows: seq<Row>, y: int)
  {
    exists t | t in rows :: t.id == y
  }

  /** The loop's variables are the executable side of the books. */
  ghost predicate Tracks(db: Db, root: int, found: seq<Found>, h: nat, seen: set<int>, result: seq<Row>)
  {
    && Search(db, found, h)
    && |found| == |result| + 1 && found[0].id == root
    && (forall i :: 0 <= i < |result| ==> result[i] in db.tasks && result[i].id == found[i + 1].id)
    && (forall x :: x in seen <==> !Unlisted(found, x))
  }

  /** The queue holds the found tasks from the `h`th on. */
  ghost predicate Queued(found: seq<Found>, h: nat, queue: seq<int>)
  {
    && |queue| + h == |found|
    && forall i :: h <= i < |found| ==> queue[i - h] == found[i].id
  }

  /** Finding a new dependency of the task being expanded keeps the books. */
  lemma Discover(db: Db, found: seq<Found>, h: nat, y: int)
    requires Search(db, found, h) && h < |found|
    requires Edge(db, found[h].id, y) && Unlisted(found, y)
    ensures Search(db, found + [Found(y, found[h].level + 1)], h)
  {
    var found' := found + [Found(y, found[h].level + 1)];
    assert found[h] in found;
    assert Within(db, found[0].id, found[h].level + 1, y);
    forall i, z | 0 <= i < h && Edge(db, found'[i].id, z) ensures Listed(found', z, found'[i].level + 1) {
      assert Listed(found, z, found[i].level + 1);
    }
  }

  lemma DiscoverStep(db: Db, root: int, found: seq<Found>, h: nat, seen: set<int>, result: seq<Row>, dep: Row)
    requires h < |found| && Tracks(db, root, found, h, seen, result)
    requires dep in db.tasks && Edge(db, found[h].id, dep.id) && dep.id !in seen
    ensures Tracks(db, root, found + [Found(dep.id, found[h].level + 1)], h, seen + {dep.id}, result + [dep])
  {
    Discover(db, found, h, dep.id);
    var f := Found(dep.id, found[h].level + 1);
    forall x ensures !Unlisted(found + [f], x) <==> x == dep.id || !Unlisted(found, x) {
      assert f in found + [f];
    }
  }

  /** Once all its dependencies are listed, a task counts as expanded. */
  lemma Expand(db: Db, found: seq<Found>, h: nat, direct: seq<Row>)
    requires Search(db, found, h) && h < |found| && direct == DirectDeps(db.tasks, db.deps, found[h].id)
    requires forall t | t in direct :: !Unlisted(found, t.id)
    ensures Search(db, found, h + 1)
  {
    forall y | Edge(db, found[h].id, y) ensures Listed(found, y, found[h].level + 1) {
      var t :| t in db.tasks && t.id == y;
      assert t in direct;
      var i :| 0 <= i < |found| && found[i].id == y;
      assert found[i].level <= found[|found| - 1].level;
    }
  }

  /** The search ends with a cone: all tasks expanded, or the cap reached. */
  lemma Finish(db: Db, root: int, found: seq<Found>, h: nat, seen: set<int>, cone: seq<Row>)
    requires Tracks(db, root, found, h, seen, cone)
    requires |cone| <= TASK_DEP_CONE_LIMIT && (h == |found| || |cone| == TASK_DEP_CONE_LIMIT)
    ensures IsCone(db, root, cone)
  {
    forall i | 0 <= i < |cone|
      ensures cone[i].id != root && Within(db, root, found[i + 1].level, cone[i].id)
    {
      assert found[i + 1] in found;
    }
    DistinctByIndex(cone);
    forall y | y != root && !Unlisted(found, y) ensures HasId(cone, y) {
      var i :| 0 <= i < |found| && found[i].id == y;
      assert cone[i - 1] in cone;
    }
    forall n: nat, y, t | Within(db, root, n, y) && y != root && !HasId(cone, y) && t in cone
      ensures h < |found| && Within(db, root, n, t.id)
    {
      SearchIsExact(db, found, h, n, y);
      var i :| 0 <= i < |cone| && cone[i] == t;
      assert found[i + 1].level <= found[|found| - 1].level;
      WithinGrows(db, root, found[i + 1].level, n, t.id);
    }
    forall y | Reachable(db, root, y) && y != root && h == |found| ensures HasId(cone, y) {
      var n: nat :| Within(db, root, n, y);
      SearchIsExact(db, found, h, n, y);
    }
  }

  /** `before` is the comparison by `task_id` that the final sort uses. */
  method LoadDepCone(db: Db, root: int, before: (Row, Row) -> bool) returns (cone: seq<Row>)
    ensures IsCone(db, root, cone)
    ensures TotalPreorder(before) ==> SortedBy(before, cone)
  {
    var seen := {root};
    var result: seq<Row> := [];
    var queue := [root];
    ghost var found := [Found(root, 0)];
    ghost var h := 0;
    while |queue| > 0 && |result| < TASK_DEP_CONE_LIMIT
      invariant Tracks(db, root, found, h, seen, result)
      invariant |result| <= TASK_DEP_CONE_LIMIT
      invariant |result| < TASK_DEP_CONE_LIMIT ==> Queued(found, h, queue)
      decreases |result| < TASK_DEP_CONE_LIMIT, TASK_DEP_CONE_LIMIT + 1 - h
    {
      var cur := queue[0];
      queue := queue[1..];
      var direct := DirectDeps(db.tasks, db.deps, cur);
      for k := 0 to |direct|
        invariant h < |found| && found[h].id == cur
        invariant Tracks(db, root, found, h, seen, result)
        invariant Queued(found, h + 1, queue) && |result| < TASK_DEP_CONE_LIMIT
        invariant forall j :: 0 <= j < k ==> direct[j].id in seen
      {
        var dep := direct[k];
        if dep.id in seen {
          continue;
        }
        DiscoverStep(db, root, found, h, seen, result, dep);
        seen := seen + {dep.id};
        result := result + [dep];
        queue := queue + [dep.id];
        found := found + [Found(dep.id, found[h].level + 1)];
        if |result| >= TASK_DEP_CONE_LIMIT {
          break;
        }
      }
      if |result| < TASK_DEP_CONE_LIMIT {
        Expand(db, found, h, direct);
        h := h + 1;
      }
    }
    Finish(db, root, found, h, seen, result);
    SortKeepsCone(db, root, before, result);
    cone := Sort(before, result);
  }

  // ---------------------------------------------------------------------
  // The final sort
  // ---------------------------------------------------------------------

  ghost predicate TotalPreorder(before: (Row, Row) -> bool)
  {
    && (forall a, b :: before(a, b) || before(b, a))
    && (forall a, b, c :: before(a, b) && before(b, c) ==> before(a, c))
  }

  ghost predicate SortedBy(before: (Row, Row) -> bool, rows: seq<Row>)
  {
    rows == [] || ((forall t | t in rows[1..] :: before(rows[0], t)) && SortedBy(before, rows[1..]))
  }

  function Insert(before: (Row, Row) -> bool, x: Row, rows: seq<Row>): seq<Row>
  {
    if rows == [] || before(x, rows[0]) then [x] + rows
    else [rows[0]] + Insert(before, x, rows[1..])
  }

  function Sort(before: (Row, Row) -> bool, rows: seq<Row>): seq<Row>
  {
    if rows == [] then [] else Insert(before, rows[0], Sort(before, rows[1..]))
  }

  ghost predicate DistinctIds(rows: seq<Row>)
  {
    rows == [] || ((forall t | t in rows[1..] :: t.id != rows[0].id) && DistinctIds(rows[1..]))
  }

  lemma {:induction false} DistinctByIndex(rows: seq<Row>)
    requires forall i, j :: 0 <= i < j < |rows| ==> rows[i].id != rows[j].id
    ensures DistinctIds(rows)
  {
    if rows != [] {
      DistinctByIndex(rows[1..]);
    }
  }

  lemma {:induction false} InsertKeeps(before: (Row, Row) -> bool, x: Row, rows: seq<Row>)
    requires DistinctIds(rows) && forall t | t in rows :: t.id != x.id
    ensures DistinctIds(Insert(before, x, rows)) && |Insert(before, x, rows)| == |rows| + 1
    ensures forall t :: t in Insert(before, x, rows) <==> t == x || t in rows
    ensures TotalPreorder(before) && SortedBy(before, rows) ==> SortedBy(before, Insert(before, x, rows))
  {
    if rows == [] || before(x, rows[0]) {
      assert ([x] + rows)[1..] == rows;
      if TotalPreorder(before) && SortedBy(before, rows) {
        forall t | t in rows ensures before(x, t) {
          if t != rows[0] { assert t in rows[1..] && before(rows[0], t); }
        }
      }
    } else {
      InsertKeeps(before, x, rows[1..]);
      assert rows == [rows[0]] + rows[1..];
      assert Insert(before, x, rows)[1..] == Insert(before, x, rows[1..]);
    }
  }

  lemma {:induction false} SortKeeps(before: (Row, Row) -> bool, rows: seq<Row>)
    requires DistinctIds(rows)
    ensures DistinctIds(Sort(before, rows)) && |Sort(before, rows)| == |rows|
    ensures forall t :: t in Sort(before, rows) <==> t in rows
    ensures TotalPreorder(before) ==> SortedBy(before, Sort(before, rows))
  {
    if rows != [] {
      SortKeeps(before, rows[1..]);
      InsertKeeps(before, rows[0], Sort(before, rows[1..]));
      assert rows == [rows[0]] + rows[1..];
    }
  }

  lemma SortKeepsCone(db: Db, root: int, before: (Row, Row) -> bool, cone: seq<Row>)
    requires IsCone(db, root, cone)
    ensures IsCone(db, root, Sort(before, cone))
    ensures TotalPreorder(before) ==> SortedBy(before, Sort(before, cone))
  {
    SortKeeps(before, cone);
    forall y ensures HasId(cone, y) <==> HasId(Sort(before, cone), y) {
    }
  }
}
