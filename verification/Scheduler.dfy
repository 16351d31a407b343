/**
 The next-task scheduler of a blueprint (src/blueprint/context.ts): ask for the next ready task,
 mark it done, ask again.
 */
module Scheduler {
  import opened Text
  import opened TaskGraph

  /** No dependency of `t` joins a row that is not done. */
  predicate Ready(db: Db, t: Row)
  {
    forall d | d in db.tasks :: (t.id, d.id) in db.deps ==> d.status == Done
  }

  predicate Pending(t: Row, slug: string)
  {
    t.slug == slug && t.status == Todo
  }

  predicate Eligible(db: Db, slug: string, t: Row)
  {
    Pending(t, slug) && Ready(db, t)
  }

  function FirstEligible(db: Db, slug: string, tasks: seq<Row>): (r: Option<Row>)
    ensures r.Some? ==> r.value in tasks && Eligible(db, slug, r.value)
    ensures r.None? ==> forall t | t in tasks :: !Eligible(db, slug, t)
  {
    if tasks == [] then None
    else if Eligible(db, slug, tasks[0]) then Some(tasks[0])
    else FirstEligible(db, slug, tasks[1..])
  }

  /** The query's answer: the first eligible task in `task_id` order, or no task. */
  function NextTask(db: Db, slug: string): Option<Row>
  {
    FirstEligible(db, slug, db.tasks)
  }

  function MarkRow(t: Row, id: int): Row
  {
    if t.id == id then t.(status := Done) else t
  }

  /** What carrying out a task does to the projection. */
  function MarkDone(db: Db, id: int): (r: Db)
    ensures |r.tasks| == |db.tasks| && r.deps == db.deps
    ensures forall i :: 0 <= i < |db.tasks| ==> r.tasks[i] == MarkRow(db.tasks[i], id)
  {
    db.(tasks := seq(|db.tasks|, i requires 0 <= i < |db.tasks| => MarkRow(db.tasks[i], id)))
  }

  function PendingCount(tasks: seq<Row>, slug: string): nat
  {
    if tasks == [] then 0
    else (if Pending(tasks[0], slug) then 1 else 0) + PendingCount(tasks[1..], slug)
  }

  /** What one step leaves: the picked row done, every other row as it was. */
  lemma MarkedRows(db: Db, id: int, t: Row)
    ensures t in MarkDone(db, id).tasks <==> exists u | u in db.tasks :: t == MarkRow(u, id)
  {
    var r := MarkDone(db, id);
    if t in r.tasks {
      var i :| 0 <= i < |r.tasks| && r.tasks[i] == t;
      assert db.tasks[i] in db.tasks;
    }
    if u: Row :| u in db.tasks && t == MarkRow(u, id) {
      var i :| 0 <= i < |db.tasks| && db.tasks[i] == u;
      assert r.tasks[i] == t;
    }
  }

  lemma {:induction false} MarkingCounts(tasks: seq<Row>, marked: seq<Row>, slug: string, id: int)
    requires UniqueIds(tasks) && |marked| == |tasks|
    requires forall i :: 0 <= i < |tasks| ==> marked[i] == MarkRow(tasks[i], id)
    ensures PendingCount(tasks, slug) == PendingCount(marked, slug)
            + if exists t | t in tasks :: t.id == id && Pending(t, slug) then 1 else 0
  {
    if tasks != [] {
      assert forall i :: 0 <= i < |tasks| - 1 ==> tasks[1..][i] == tasks[i + 1];
      MarkingCounts(tasks[1..], marked[1..], slug, id);
      if tasks[0].id == id {
        assert forall t | t in tasks[1..] :: t.id != id;
      }
    }
  }

  lemma StepCounts(db: Db, slug: string)
    requires UniqueIds(db.tasks) && NextTask(db, slug).Some?
    ensures UniqueIds(MarkDone(db, NextTask(db, slug).value.id).tasks)
    ensures PendingCount(db.tasks, slug) == PendingCount(MarkDone(db, NextTask(db, slug).value.id).tasks, slug) + 1
  {
    var t := NextTask(db, slug).value;
    MarkingCounts(db.tasks, MarkDone(db, t.id).tasks, slug, t.id);
  }

  datatype Outcome = Outcome(picks: seq<int>, db: Db)

  /** Take the next task and carry it out until there is none. */
  function Run(db: Db, slug: string): Outcome
    requires UniqueIds(db.tasks)
    decreases PendingCount(db.tasks, slug)
  {
    match NextTask(db, slug)
    case None => Outcome([], db)
    case Some(t) =>
      StepCounts(db, slug);
      var rest := Run(MarkDone(db, t.id), slug);
      Outcome([t.id] + rest.picks, rest.db)
  }

  ghost predicate AllCarriedOut(db: Db, slug: string)
  {
    forall t | t in db.tasks :: !Pending(t, slug)
  }

  // ---------------------------------------------------------------------
  // Every run
  // ---------------------------------------------------------------------

  /** A run takes exactly one step for each task it carries out. */
  lemma {:induction false} RunCounts(db: Db, slug: string)
    requires UniqueIds(db.tasks)
    ensures |Run(db, slug).picks| + PendingCount(Run(db, slug).db.tasks, slug) == PendingCount(db.tasks, slug)
    decreases PendingCount(db.tasks, slug)
  {
    match NextTask(db, slug)
    case None =>
    case Some(t) =>
      StepCounts(db, slug);
      RunCounts(MarkDone(db, t.id), slug);
  }

  /** The run picks pending tasks only, and changes those it picks, to done, and no other row. */
  lemma {:induction false} RunChangesPicks(db: Db, slug: string, u: Row)
    requires UniqueIds(db.tasks) && u in db.tasks
    ensures u.id in Run(db, slug).picks ==> Pending(u, slug)
    ensures (if u.id in Run(db, slug).picks then u.(status := Done) else u) in Run(db, slug).db.tasks
    decreases PendingCount(db.tasks, slug)
  {
    match NextTask(db, slug)
    case None =>
    case Some(t) =>
      StepCounts(db, slug);
      var db' := MarkDone(db, t.id);
      MarkedRows(db, t.id, MarkRow(u, t.id));
      RunChangesPicks(db', slug, MarkRow(u, t.id));
      if u.id == t.id {
        SameRow(db.tasks, t, u);
      }
  }

  lemma SameRow(tasks: seq<Row>, t: Row, u: Row)
    requires UniqueIds(tasks) && t in tasks && u in tasks && t.id == u.id
    ensures t == u
  {
    var i :| 0 <= i < |tasks| && tasks[i] == t;
    var j :| 0 <= j < |tasks| && tasks[j] == u;
    assert i == j;
  }

  /** Each dependency of a pick was done at the start or picked before. */
  lemma {:induction false} RunRespectsDependencies(db: Db, slug: string, k: nat, d: Row)
    requires UniqueIds(db.tasks) && k < |Run(db, slug).picks|
    requires d in db.tasks && (Run(db, slug).picks[k], d.id) in db.deps
    ensures d.status == Done || d.id in Run(db, slug).picks[..k]
    decreases PendingCount(db.tasks, slug)
  {
    var t := NextTask(db, slug).value;
    StepCounts(db, slug);
    if k > 0 {
      var db' := MarkDone(db, t.id);
      var picks := Run(db', slug).picks;
      assert Run(db, slug).picks == [t.id] + picks;
      MarkedRows(db, t.id, MarkRow(d, t.id));
      RunRespectsDependencies(db', slug, k - 1, MarkRow(d, t.id));
      assert Run(db, slug).picks[..k] == [t.id] + picks[..k - 1];
    }
  }

  lemma NextIsPending(db: Db, slug: string)
    requires NextTask(db, slug).Some?
    ensures NextTask(db, slug).value in db.tasks && Pending(NextTask(db, slug).value, slug)
  {
  }

  /** No task is picked twice. */
  lemma {:induction false} RunPicksOnce(db: Db, slug: string, i: nat, j: nat)
    requires UniqueIds(db.tasks) && i < j < |Run(db, slug).picks|
    ensures Run(db, slug).picks[i] != Run(db, slug).picks[j]
    decreases PendingCount(db.tasks, slug)
  {
    hide NextTask, MarkDone, PendingCount, Eligible;
    var t := NextTask(db, slug).value;
    StepCounts(db, slug);
    var db' := MarkDone(db, t.id);
    if i > 0 {
      RunPicksOnce(db', slug, i - 1, j - 1);
    } else {
      NextIsPending(db, slug);
      MarkedRows(db, t.id, MarkRow(t, t.id));
      RunChangesPicks(db', slug, MarkRow(t, t.id));
      assert Run(db', slug).picks[j - 1] in Run(db', slug).picks;
    }
  }

  // ---------------------------------------------------------------------
  // When a run carries out everything
  // ---------------------------------------------------------------------

  ghost predicate PendingId(db: Db, slug: string, x: int)
  {
    exists t | t in db.tasks :: t.id == x && Pending(t, slug)
  }

  /** Pending `x` waits for pending `y`. */
  ghost predicate Waits(db: Db, slug: string, x: int, y: int)
  {
    PendingId(db, slug, x) && PendingId(db, slug, y) && (x, y) in db.deps
  }

  /** Pending `x` waits for `y` along `n` dependencies. */
  ghost predicate WaitPath(db: Db, slug: string, x: int, n: nat, y: int)
    decreases n
  {
    if n == 0 then x == y else exists z :: Waits(db, slug, x, z) && WaitPath(db, slug, z, n - 1, y)
  }

  /** A dependency that no pick of this blueprint can ever satisfy. */
  ghost predicate Hopeless(db: Db, slug: string, x: int)
  {
    && PendingId(db, slug, x)
    && exists d | d in db.tasks :: (x, d.id) in db.deps && d.status != Done && !Pending(d, slug)
  }

  ghost predicate Cyclic(db: Db, slug: string)
  {
    exists x, n: nat :: n > 0 && WaitPath(db, slug, x, n, x)
  }

  ghost predicate Schedulable(db: Db, slug: string)
  {
    !Cyclic(db, slug) && forall x :: !Hopeless(db, slug, x)
  }

  /** A pending task is left, none is eligible: then every pending task waits for another. */
  lemma NoAnswerMeansWaiting(db: Db, slug: string, x: int) returns (y: int)
    requires NextTask(db, slug).None? && PendingId(db, slug, x) && !Hopeless(db, slug, x)
    ensures Waits(db, slug, x, y)
  {
    var t :| t in db.tasks && t.id == x && Pending(t, slug);
    assert !Eligible(db, slug, t);
    var d :| d in db.tasks && (t.id, d.id) in db.deps && d.status != Done;
    y := d.id;
  }

  /** A walk of any length along waiting tasks. */
  lemma {:induction false} LongWalk(db: Db, slug: string, x: int, n: nat) returns (walk: seq<int>)
    requires NextTask(db, slug).None? && PendingId(db, slug, x) && forall z :: !Hopeless(db, slug, z)
    ensures |walk| == n + 1 && walk[0] == x
    ensures forall i :: 0 <= i < n ==> Waits(db, slug, walk[i], walk[i + 1])
    ensures forall i :: 0 <= i <= n ==> PendingId(db, slug, walk[i])
    decreases n
  {
    if n == 0 {
      walk := [x];
    } else {
      var y := NoAnswerMeansWaiting(db, slug, x);
      var rest := LongWalk(db, slug, y, n - 1);
      walk := [x] + rest;
    }
  }

  lemma {:induction false} WalkIsPath(db: Db, slug: string, walk: seq<int>, i: nat, j: nat)
    requires i <= j < |walk|
    requires forall k :: 0 <= k < |walk| - 1 ==> Waits(db, slug, walk[k], walk[k + 1])
    ensures WaitPath(db, slug, walk[i], j - i, walk[j])
    decreases j - i
  {
    if i < j {
      WalkIsPath(db, slug, walk, i + 1, j);
    }
  }

  /** A sequence longer than the set it draws from repeats an element. */
  lemma {:induction false} Pigeonhole(walk: seq<int>, ids: set<int>) returns (i: nat, j: nat)
    requires |walk| > |ids| && forall k :: 0 <= k < |walk| ==> walk[k] in ids
    ensures i < j < |walk| && walk[i] == walk[j]
    decreases |walk|
  {
    var last := |walk| - 1;
    if k :| 0 <= k < last && walk[k] == walk[last] {
      return k, last;
    }
    assert |ids - {walk[last]}| == |ids| - 1;
    i, j := Pigeonhole(walk[..last], ids - {walk[last]});
  }

  /** The scheduler answers as long as something pending is left and the graph is schedulable. */
  lemma Progress(db: Db, slug: string)
    requires Schedulable(db, slug) && !AllCarriedOut(db, slug)
    ensures NextTask(db, slug).Some?
  {
    if NextTask(db, slug).None? {
      var t :| t in db.tasks && Pending(t, slug);
      var ids := set u | u in db.tasks :: u.id;
      var walk := LongWalk(db, slug, t.id, |ids|);
      forall k | 0 <= k < |walk| ensures walk[k] in ids {
        assert PendingId(db, slug, walk[k]);
      }
      var i, j := Pigeonhole(walk, ids);
      WalkIsPath(db, slug, walk, i, j);
    }
  }

  lemma StepPending(db: Db, slug: string, id: int, x: int)
    requires UniqueIds(db.tasks)
    ensures PendingId(MarkDone(db, id), slug, x) <==> PendingId(db, slug, x) && x != id
  {
    var db' := MarkDone(db, id);
    if PendingId(db', slug, x) {
      var t :| t in db'.tasks && t.id == x && Pending(t, slug);
      MarkedRows(db, id, t);
    }
    if PendingId(db, slug, x) && x != id {
      var t :| t in db.tasks && t.id == x && Pending(t, slug);
      MarkedRows(db, id, MarkRow(t, id));
    }
  }

  lemma StepWaits(db: Db, slug: string, id: int, x: int, y: int)
    requires UniqueIds(db.tasks)
    ensures Waits(MarkDone(db, id), slug, x, y) <==> Waits(db, slug, x, y) && x != id && y != id
  {
    StepPending(db, slug, id, x);
    StepPending(db, slug, id, y);
  }

  lemma PathCons(db: Db, slug: string, x: int, z: int, n: nat, y: int)
    requires Waits(db, slug, x, z) && WaitPath(db, slug, z, n, y)
    ensures WaitPath(db, slug, x, n + 1, y)
  {
  }

  lemma {:induction false} PathBeforeStep(db: Db, slug: string, id: int, x: int, n: nat, y: int)
    requires UniqueIds(db.tasks) && WaitPath(MarkDone(db, id), slug, x, n, y)
    ensures WaitPath(db, slug, x, n, y)
    decreases n
  {
    if n > 0 {
      var z :| Waits(MarkDone(db, id), slug, x, z) && WaitPath(MarkDone(db, id), slug, z, n - 1, y);
      StepWaits(db, slug, id, x, z);
      PathBeforeStep(db, slug, id, z, n - 1, y);
      PathCons(db, slug, x, z, n - 1, y);
    }
  }

  lemma HopelessBeforeStep(db: Db, slug: string, id: int, x: int)
    requires UniqueIds(db.tasks) && PendingId(db, slug, id) && Hopeless(MarkDone(db, id), slug, x)
    ensures Hopeless(db, slug, x)
  {
    StepPending(db, slug, id, x);
    var db' := MarkDone(db, id);
    var d :| d in db'.tasks && (x, d.id) in db'.deps && d.status != Done && !Pending(d, slug);
    MarkedRows(db, id, d);
  }

  lemma CyclicBeforeStep(db: Db, slug: string, id: int)
    requires UniqueIds(db.tasks) && Cyclic(MarkDone(db, id), slug)
    ensures Cyclic(db, slug)
  {
    var x, n: nat :| n > 0 && WaitPath(MarkDone(db, id), slug, x, n, x);
    PathBeforeStep(db, slug, id, x, n, x);
  }

  /** Carrying out a task keeps the graph schedulable. */
  lemma StepKeepsSchedulable(db: Db, slug: string, id: int)
    requires UniqueIds(db.tasks) && Schedulable(db, slug) && PendingId(db, slug, id)
    ensures Schedulable(MarkDone(db, id), slug)
  {
    if Cyclic(MarkDone(db, id), slug) {
      CyclicBeforeStep(db, slug, id);
    }
    forall x ensures !Hopeless(MarkDone(db, id), slug, x) {
      if Hopeless(MarkDone(db, id), slug, x) {
        HopelessBeforeStep(db, slug, id, x);
      }
    }
  }

  lemma CycleIsPending(db: Db, slug: string)
    requires Cyclic(db, slug)
    ensures !AllCarriedOut(db, slug)
  {
    var x, n: nat :| n > 0 && WaitPath(db, slug, x, n, x);
    assert PendingId(db, slug, x);
  }

  /** A task that waits for a pending task is not eligible. */
  lemma WaitingIsNotPicked(db: Db, slug: string, x: int, y: int)
    requires UniqueIds(db.tasks) && Waits(db, slug, x, y) && NextTask(db, slug).Some?
    ensures NextTask(db, slug).value.id != x
  {
    var d :| d in db.tasks && d.id == y && Pending(d, slug);
    assert d.status != Done;
  }

  /** A pick leaves every path to another task standing: what waits is not picked. */
  lemma {:induction false} PathAfterStep(db: Db, slug: string, x: int, n: nat, y: int)
    requires UniqueIds(db.tasks) && NextTask(db, slug).Some?
    requires WaitPath(db, slug, x, n, y) && y != NextTask(db, slug).value.id
    ensures x != NextTask(db, slug).value.id
    ensures WaitPath(MarkDone(db, NextTask(db, slug).value.id), slug, x, n, y)
    decreases n
  {
    var id := NextTask(db, slug).value.id;
    if n > 0 {
      var z :| Waits(db, slug, x, z) && WaitPath(db, slug, z, n - 1, y);
      WaitingIsNotPicked(db, slug, x, z);
      PathAfterStep(db, slug, z, n - 1, y);
      StepWaits(db, slug, id, x, z);
      PathCons(MarkDone(db, id), slug, x, z, n - 1, y);
    }
  }

  /** An unschedulable graph stays unschedulable, step by step. */
  lemma StepKeepsUnschedulable(db: Db, slug: string)
    requires UniqueIds(db.tasks) && !Schedulable(db, slug) && NextTask(db, slug).Some?
    ensures !Schedulable(MarkDone(db, NextTask(db, slug).value.id), slug)
  {
    var t := NextTask(db, slug).value;
    var db' := MarkDone(db, t.id);
    if Cyclic(db, slug) {
      var x, n: nat :| n > 0 && WaitPath(db, slug, x, n, x);
      var z :| Waits(db, slug, x, z) && WaitPath(db, slug, z, n - 1, x);
      WaitingIsNotPicked(db, slug, x, z);
      PathAfterStep(db, slug, x, n, x);
      assert Cyclic(db', slug);
    } else {
      var x :| Hopeless(db, slug, x);
      var d :| d in db.tasks && (x, d.id) in db.deps && d.status != Done && !Pending(d, slug);
      assert t.id != x;
      StepPending(db, slug, t.id, x);
      if d.id == t.id { SameRow(db.tasks, d, t); }
      MarkedRows(db, t.id, MarkRow(d, t.id));
      assert Hopeless(db', slug, x);
    }
  }

  /**
   Taking the next task over and over carries out every pending task exactly when no pending task
   has a hopeless dependency and the pending tasks wait for each other in no cycle.
   */
  lemma {:induction false} RunCompletes(db: Db, slug: string)
    requires UniqueIds(db.tasks)
    ensures AllCarriedOut(Run(db, slug).db, slug) <==> Schedulable(db, slug)
    decreases PendingCount(db.tasks, slug)
  {
    match NextTask(db, slug)
    case None =>
      if Schedulable(db, slug) && !AllCarriedOut(db, slug) {
        Progress(db, slug);
      }
      if Cyclic(db, slug) {
        CycleIsPending(db, slug);
      }
    case Some(t) =>
      StepCounts(db, slug);
      RunCompletes(MarkDone(db, t.id), slug);
      if Schedulable(db, slug) {
        StepKeepsSchedulable(db, slug, t.id);
      } else {
        StepKeepsUnschedulable(db, slug);
      }
  }
}
