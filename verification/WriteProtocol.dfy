/**
 The locked write protocol of the write_file tool (src/ai-tools/write-file.ts).

 Calls run concurrently against one storage adapter and one change tracker. Between two awaits a
 call takes one atomic step; a schedule is any interleaving of the steps of any number of calls.
 Every storage call may fail.
 */
module WriteProtocol {
  import opened Text

  /** A write_file call; each has its own locker id. A staged call has a pending-changes manager. */
  datatype Call = Call(path: string, content: string, staged: bool)

  datatype Change = Change(path: string, before: Option<string>, after: string, caller: string)

  /** How far a call has come. */
  datatype Phase =
    | Waiting                                 // lockFile not yet answered
    | Locked                                  // lock held, exists not yet answered
    | Checked(found: bool)                    // exists answered, the content not yet read
    | Loaded(before: Option<string>)          // about to write or stage
    | Written(before: Option<string>)         // written, not yet recorded
    | Closing(ok: bool)                       // in the finally block, about to unlock
    | Finished(ok: bool, lockLeft: bool)      // returned; lockLeft if a lock may have stayed behind

  datatype State = State(
    files: map<string, string>,
    locks: map<string, string>,               // path to the id that holds its lock
    log: seq<Change>,                         // the change tracker
    pending: seq<Change>,                     // the pending-changes manager
    phase: map<string, Phase>)

  /** One await of a call, with the adapter's answer. */
  datatype Step =
    | LockTaken | LockRefused | LockLost      // lockFile: true; false or thrown; thrown although taken
    | ExistsAnswered | ExistsFailed
    | ReadAnswered | ReadFailed
    | ChangeStaged
    | WriteDone | WriteFailed | WriteLost   // writeFile: written; thrown; thrown although written
    | ChangeRecorded
    | UnlockDone | UnlockFailed

  datatype Event = Event(id: string, step: Step)

  function Get(files: map<string, string>, path: string): Option<string>
  {
    if path in files then Some(files[path]) else None
  }

  function Move(s: State, id: string, p: Phase): State
  {
    s.(phase := s.phase[id := p])
  }

  /** The state after an event; None if the call is not at that point or the lock is not free. */
  function Apply(calls: map<string, Call>, s: State, e: Event): Option<State>
  {
    if e.id !in calls || e.id !in s.phase then None
    else
      var id, call := e.id, calls[e.id];
      match (s.phase[id], e.step)
      case (Waiting, LockTaken) =>
        if call.path in s.locks then None
        else Some(Move(s.(locks := s.locks[call.path := id]), id, Locked))
      case (Waiting, LockRefused) => Some(Move(s, id, Finished(false, false)))
      case (Waiting, LockLost) =>
        if call.path in s.locks then None
        else Some(Move(s.(locks := s.locks[call.path := id]), id, Finished(false, true)))
      case (Locked, ExistsAnswered) => Some(Move(s, id, Checked(call.path in s.files)))
      case (Locked, ExistsFailed) => Some(Move(s, id, Closing(false)))
      case (Checked(found), ReadAnswered) =>
        if found && call.path !in s.files then None
        else Some(Move(s, id, Loaded(if found then Get(s.files, call.path) else None)))
      case (Checked(found), ReadFailed) => if found then Some(Move(s, id, Closing(false))) else None
      case (Loaded(before), ChangeStaged) =>
        if !call.staged then None
        else Some(Move(s.(pending := s.pending + [Change(call.path, before, call.content, id)]), id, Closing(true)))
      case (Loaded(before), WriteDone) =>
        if call.staged then None
        else Some(Move(s.(files := s.files[call.path := call.content]), id, Written(before)))
      case (Loaded(before), WriteFailed) =>
        if call.staged then None else Some(Move(s, id, Closing(false)))
      case (Loaded(before), WriteLost) =>
        if call.staged then None
        else Some(Move(s.(files := s.files[call.path := call.content]), id, Closing(false)))
      case (Written(before), ChangeRecorded) =>
        Some(Move(s.(log := s.log + [Change(call.path, before, call.content, id)]), id, Closing(true)))
      case (Closing(ok), UnlockDone) =>
        if call.path in s.locks && s.locks[call.path] == id
        then Some(Move(s.(locks := s.locks - {call.path}), id, Finished(ok, false))) else None
      case (Closing(ok), UnlockFailed) => Some(Move(s, id, Finished(ok, true)))
      case _ => None
  }

  /** The state after a whole schedule; None if some event of it cannot happen. */
  function Run(calls: map<string, Call>, s: State, schedule: seq<Event>): Option<State>
    decreases |schedule|
  {
    if schedule == [] then Some(s)
    else
      match Apply(calls, s, schedule[0])
      case None => None
      case Some(s') => Run(calls, s', schedule[1..])
  }

  /** The path whose content an event changes without any call ever recording it. */
  function Overwritten(calls: map<string, Call>, s: State, e: Event): set<string>
  {
    if e.step == WriteLost && e.id in calls && Get(s.files, calls[e.id].path) != Some(calls[e.id].content)
    then {calls[e.id].path} else {}
  }

  /** The paths to which a schedule does so. */
  function AllOverwritten(calls: map<string, Call>, s: State, schedule: seq<Event>): set<string>
    decreases |schedule|
  {
    if schedule == [] then {}
    else
      match Apply(calls, s, schedule[0])
      case None => {}
      case Some(s') => Overwritten(calls, s, schedule[0]) + AllOverwritten(calls, s', schedule[1..])
  }

  function Start(calls: map<string, Call>, files: map<string, string>): State
  {
    State(files, map[], [], [], map id | id in calls :: Waiting)
  }

  // ---------------------------------------------------------------------
  // What the log says
  // ---------------------------------------------------------------------

  /** The content of `path` after the logged changes. */
  function LoggedContent(initial: Option<string>, log: seq<Change>, path: string): Option<string>
  {
    if log == [] then initial
    else
      var last := log[|log| - 1];
      if last.path == path then Some(last.after) else LoggedContent(initial, log[..|log| - 1], path)
  }

  /** Each change of `path` starts from what the one before it left, the first from `initial`. */
  ghost predicate Chained(initial: Option<string>, log: seq<Change>, path: string)
  {
    forall i :: 0 <= i < |log| && log[i].path == path ==> log[i].before == LoggedContent(initial, log[..i], path)
  }

  /** Replaying a log over a store. */
  function Replay(files: map<string, string>, log: seq<Change>): map<string, string>
  {
    if log == [] then files
    else Replay(files, log[..|log| - 1])[log[|log| - 1].path := log[|log| - 1].after]
  }

  function Entries(log: seq<Change>, id: string): nat
  {
    if log == [] then 0 else Entries(log[..|log| - 1], id) + if log[|log| - 1].caller == id then 1 else 0
  }

  lemma LoggedContentSnoc(initial: Option<string>, log: seq<Change>, c: Change, path: string)
    ensures LoggedContent(initial, log + [c], path)
            == if c.path == path then Some(c.after) else LoggedContent(initial, log, path)
    ensures Entries(log + [c], path) == Entries(log, path) + if c.caller == path then 1 else 0
  {
    assert (log + [c])[..|log|] == log;
  }

  lemma ChainedSnoc(initial: Option<string>, log: seq<Change>, c: Change, path: string)
    requires Chained(initial, log, path)
    requires c.path == path ==> c.before == LoggedContent(initial, log, path)
    ensures Chained(initial, log + [c], path)
  {
    assert forall i :: 0 <= i <= |log| ==> (log + [c])[..i] == log[..i];
  }

  lemma {:induction false} ReplayContent(files: map<string, string>, log: seq<Change>, path: string)
    ensures Get(Replay(files, log), path) == LoggedContent(Get(files, path), log, path)
  {
    if log != [] {
      ReplayContent(files, log[..|log| - 1], path);
    }
  }

  // ---------------------------------------------------------------------
  // The invariant
  // ---------------------------------------------------------------------

  /** Between a granted lockFile and the return of unlockFile. */
  predicate Critical(p: Phase)
  {
    p.Locked? || p.Checked? || p.Loaded? || p.Written? || p.Closing?
  }

  ghost predicate InCritical(calls: map<string, Call>, s: State, id: string, path: string)
  {
    id in calls && id in s.phase && calls[id].path == path && Critical(s.phase[id])
  }

  /** Some call has written `path` and not yet recorded it. */
  ghost predicate Unrecorded(calls: map<string, Call>, s: State, path: string)
  {
    exists id :: id in calls && id in s.phase && calls[id].path == path && s.phase[id].Written?
  }

  /** What a call knows of its file is still so, and what it has logged or staged is what it has done. */
  ghost predicate CallOk(calls: map<string, Call>, initial: map<string, string>, s: State, lost: set<string>,
                         id: string)
    requires id in calls && id in s.phase
  {
    var path, p := calls[id].path, s.phase[id];
    && (Critical(p) ==> path in s.locks && s.locks[path] == id)
    && (p.Checked? ==> p.found == (path in s.files))
    && (p.Loaded? ==> p.before == Get(s.files, path))
    && (p.Written? ==> !calls[id].staged && Get(s.files, path) == Some(calls[id].content)
                       && (path !in lost ==> p.before == LoggedContent(Get(initial, path), s.log, path)))
    && Entries(s.log, id) == (if !calls[id].staged && (p == Closing(true) || (p.Finished? && p.ok)) then 1 else 0)
    && Entries(s.pending, id) == (if calls[id].staged && (p == Closing(true) || (p.Finished? && p.ok)) then 1 else 0)
  }

  ghost predicate PathOk(calls: map<string, Call>, initial: map<string, string>, s: State, path: string)
  {
    && Chained(Get(initial, path), s.log, path)
    && (!Unrecorded(calls, s, path) ==> Get(s.files, path) == LoggedContent(Get(initial, path), s.log, path))
  }

  /** A lock is held by a call in its critical section, or was left behind by one that has returned. */
  ghost predicate LockOk(calls: map<string, Call>, s: State, path: string)
    requires path in s.locks
  {
    var id := s.locks[path];
    && id in calls && id in s.phase && calls[id].path == path
    && (Critical(s.phase[id]) || (s.phase[id].Finished? && s.phase[id].lockLeft))
  }

  /** What holds at every point of a schedule that has overwritten the paths in `lost`. */
  ghost predicate Inv(calls: map<string, Call>, initial: map<string, string>, s: State, lost: set<string>)
  {
    && s.phase.Keys == calls.Keys
    && (forall id | id in calls :: CallOk(calls, initial, s, lost, id))
    && (forall path {:trigger PathOk(calls, initial, s, path)} :: path !in lost ==> PathOk(calls, initial, s, path))
    && (forall path | path in s.locks :: LockOk(calls, s, path))
  }

  /** Two calls on one path are never both critical. */
  lemma Exclusive(calls: map<string, Call>, initial: map<string, string>, s: State, lost: set<string>, a: string,
                  b: string, path: string)
    requires Inv(calls, initial, s, lost) && InCritical(calls, s, a, path) && InCritical(calls, s, b, path)
    ensures a == b
  {
    assert CallOk(calls, initial, s, lost, a) && CallOk(calls, initial, s, lost, b);
  }

  /** The moves of a call that touch neither files, locks, log nor pending changes. */
  ghost predicate QuietMove(call: Call, files: map<string, string>, p: Phase, q: Phase)
  {
    || (p.Waiting? && q == Finished(false, false))
    || (p.Locked? && (q == Checked(call.path in files) || q == Closing(false)))
    || (p.Checked? && (q == Loaded(if p.found then Get(files, call.path) else None) || q == Closing(false)))
    || (p.Loaded? && !call.staged && q == Closing(false))
    || (p.Closing? && q == Finished(p.ok, true))
  }

  /** Everything an event can do, by what it touches. */
  ghost predicate Effect(calls: map<string, Call>, s: State, id: string, s': State, lost: set<string>)
  {
    && id in calls && id in s.phase && id in s'.phase
    && var call, p, q := calls[id], s.phase[id], s'.phase[id];
    && s'.phase == s.phase[id := q]
    && (|| (&& s'.files == s.files && s'.locks == s.locks && s'.log == s.log && s'.pending == s.pending
            && QuietMove(call, s.files, p, q))
        || (&& s'.files == s.files && s'.log == s.log && s'.pending == s.pending
            && call.path !in s.locks && s'.locks == s.locks[call.path := id]
            && p.Waiting? && (q.Locked? || q == Finished(false, true)))
        || (&& s'.locks == s.locks && s'.log == s.log && s'.pending == s.pending
            && s'.files == s.files[call.path := call.content]
            && p.Loaded? && q == Written(p.before) && !call.staged)
        || (&& s'.locks == s.locks && s'.log == s.log && s'.pending == s.pending
            && s'.files == s.files[call.path := call.content]
            && p.Loaded? && q == Closing(false) && !call.staged && call.path in lost)
        || (&& s'.files == s.files && s'.locks == s.locks && s'.log == s.log
            && p.Loaded? && q == Closing(true) && call.staged
            && s'.pending == s.pending + [Change(call.path, p.before, call.content, id)])
        || (&& s'.files == s.files && s'.locks == s.locks && s'.pending == s.pending
            && p.Written? && q == Closing(true)
            && s'.log == s.log + [Change(call.path, p.before, call.content, id)])
        || (&& s'.files == s.files && s'.log == s.log && s'.pending == s.pending
            && call.path in s.locks && s.locks[call.path] == id && s'.locks == s.locks - {call.path}
            && p.Closing? && q == Finished(p.ok, false)))
  }

  lemma EventEffect(calls: map<string, Call>, s: State, e: Event)
    requires Apply(calls, s, e).Some?
    ensures Effect(calls, s, e.id, Apply(calls, s, e).value, Overwritten(calls, s, e))
  {
    if e.step.WriteLost? {
      LostEffect(calls, s, e);
    } else if s.phase[e.id].Waiting? || s.phase[e.id].Closing? {
      LockEffect(calls, s, e);
    } else {
      FileEffect(calls, s, e);
    }
  }

  lemma LostEffect(calls: map<string, Call>, s: State, e: Event)
    requires e.step.WriteLost? && Apply(calls, s, e).Some?
    ensures Effect(calls, s, e.id, Apply(calls, s, e).value, Overwritten(calls, s, e))
  {
    var call := calls[e.id];
    if Get(s.files, call.path) == Some(call.content) { assert s.files[call.path := call.content] == s.files; }
  }

  lemma LockEffect(calls: map<string, Call>, s: State, e: Event)
    requires Apply(calls, s, e).Some? && (s.phase[e.id].Waiting? || s.phase[e.id].Closing?)
    ensures Effect(calls, s, e.id, Apply(calls, s, e).value, {})
  {
    var s' := Apply(calls, s, e).value;
    assert s'.phase == s.phase[e.id := s'.phase[e.id]];
  }

  lemma FileEffect(calls: map<string, Call>, s: State, e: Event)
    requires !e.step.WriteLost? && Apply(calls, s, e).Some? && !s.phase[e.id].Waiting? && !s.phase[e.id].Closing?
    ensures Effect(calls, s, e.id, Apply(calls, s, e).value, {})
  {
    hide Get;
    var s' := Apply(calls, s, e).value;
    assert s'.phase == s.phase[e.id := s'.phase[e.id]];
  }

  /** An event of one call leaves the others' knowledge intact. */
  lemma OthersKept(calls: map<string, Call>, initial: map<string, string>, s: State, id: string, s': State,
                   lost: set<string>, other: string)
    requires Inv(calls, initial, s, lost) && Effect(calls, s, id, s', lost)
    requires other in calls && other != id
    ensures CallOk(calls, initial, s', lost, other)
  {
    var mine := calls[other].path;
    assert CallOk(calls, initial, s, lost, other) && CallOk(calls, initial, s, lost, id);
    if s'.log != s.log {
      var c := s'.log[|s.log|];
      LoggedContentSnoc(Get(initial, mine), s.log, c, mine);
      LoggedContentSnoc(None, s.log, c, other);
    }
    if s'.pending != s.pending {
      LoggedContentSnoc(None, s.pending, s'.pending[|s.pending|], other);
    }
  }

  /** An event keeps its own call's knowledge true. */
  lemma ActorKept(calls: map<string, Call>, initial: map<string, string>, s: State, id: string, s': State,
                  lost: set<string>)
    requires Inv(calls, initial, s, lost) && Effect(calls, s, id, s', lost)
    ensures CallOk(calls, initial, s', lost, id)
  {
    var path := calls[id].path;
    assert CallOk(calls, initial, s, lost, id) && (path !in lost ==> PathOk(calls, initial, s, path));
    if s'.log != s.log {
      LoggedContentSnoc(None, s.log, s'.log[|s.log|], id);
    }
    if s'.pending != s.pending {
      LoggedContentSnoc(None, s.pending, s'.pending[|s.pending|], id);
    }
    if Unrecorded(calls, s, path) {
      var w :| w in calls && w in s.phase && calls[w].path == path && s.phase[w].Written?;
      assert CallOk(calls, initial, s, lost, w);
    }
  }

  lemma PathKept(calls: map<string, Call>, initial: map<string, string>, s: State, id: string, s': State,
                 lost: set<string>, path: string)
    requires Inv(calls, initial, s, lost) && Effect(calls, s, id, s', lost) && path !in lost
    ensures PathOk(calls, initial, s', path)
  {
    assert CallOk(calls, initial, s, lost, id) && PathOk(calls, initial, s, path);
    if s'.log != s.log {
      var c := s'.log[|s.log|];
      ChainedSnoc(Get(initial, path), s.log, c, path);
      LoggedContentSnoc(Get(initial, path), s.log, c, path);
    }
    if Unrecorded(calls, s, path) {
      var w :| w in calls && w in s.phase && calls[w].path == path && s.phase[w].Written?;
      assert CallOk(calls, initial, s, lost, w);
      assert w != id ==> w in s'.phase && s'.phase[w].Written?;
    }
    assert calls[id].path == path && s'.phase[id].Written? ==> Unrecorded(calls, s', path);
  }

  lemma LocksKept(calls: map<string, Call>, initial: map<string, string>, s: State, id: string, s': State,
                  lost: set<string>, path: string)
    requires Inv(calls, initial, s, lost) && Effect(calls, s, id, s', lost) && path in s'.locks
    ensures LockOk(calls, s', path)
  {
    assert CallOk(calls, initial, s, lost, id);
    assert path in s.locks ==> LockOk(calls, s, path);
  }

  lemma StepKeepsInv(calls: map<string, Call>, initial: map<string, string>, s: State, id: string, s': State,
                     lost: set<string>)
    requires Inv(calls, initial, s, lost) && Effect(calls, s, id, s', lost)
    ensures Inv(calls, initial, s', lost)
  {
    assert s'.phase.Keys == calls.Keys;
    forall other | other in calls ensures CallOk(calls, initial, s', lost, other) {
      if other == id {
        ActorKept(calls, initial, s, id, s', lost);
      } else {
        OthersKept(calls, initial, s, id, s', lost, other);
      }
    }
    forall path | path !in lost ensures PathOk(calls, initial, s', path) {
      PathKept(calls, initial, s, id, s', lost, path);
    }
    forall path | path in s'.locks ensures LockOk(calls, s', path) {
      LocksKept(calls, initial, s, id, s', lost, path);
    }
  }

  /** To know less of more paths is to know it still. */
  lemma MoreLost(calls: map<string, Call>, initial: map<string, string>, s: State, lost: set<string>, more: set<string>)
    requires Inv(calls, initial, s, lost)
    ensures Inv(calls, initial, s, lost + more)
  {
    forall id | id in calls ensures CallOk(calls, initial, s, lost + more, id) {
      assert CallOk(calls, initial, s, lost, id);
    }
  }

  lemma EventKeepsInv(calls: map<string, Call>, initial: map<string, string>, s: State, lost: set<string>, e: Event)
    requires Inv(calls, initial, s, lost) && Apply(calls, s, e).Some?
    ensures Inv(calls, initial, Apply(calls, s, e).value, lost + Overwritten(calls, s, e))
  {
    hide Inv, Effect, Apply, Overwritten;
    var more := Overwritten(calls, s, e);
    EventEffect(calls, s, e);
    MoreLost(calls, initial, s, lost, more);
    EffectMore(calls, s, e.id, Apply(calls, s, e).value, more, lost + more);
    StepKeepsInv(calls, initial, s, e.id, Apply(calls, s, e).value, lost + more);
  }

  lemma EffectMore(calls: map<string, Call>, s: State, id: string, s': State, lost: set<string>, more: set<string>)
    requires Effect(calls, s, id, s', lost) && lost <= more
    ensures Effect(calls, s, id, s', more)
  {
  }

  lemma {:induction false} RunKeepsInv(calls: map<string, Call>, initial: map<string, string>, s: State,
                                       lost: set<string>, schedule: seq<Event>)
    requires Inv(calls, initial, s, lost) && Run(calls, s, schedule).Some?
    ensures Inv(calls, initial, Run(calls, s, schedule).value, lost + AllOverwritten(calls, s, schedule))
    decreases |schedule|
  {
    hide Inv, Apply, Overwritten;
    if schedule == [] {
      assert lost + {} == lost;
    } else {
      var e, s' := schedule[0], Apply(calls, s, schedule[0]).value;
      var more := Overwritten(calls, s, e);
      EventKeepsInv(calls, initial, s, lost, e);
      RunKeepsInv(calls, initial, s', lost + more, schedule[1..]);
      assert lost + more + AllOverwritten(calls, s', schedule[1..])
          == lost + (more + AllOverwritten(calls, s', schedule[1..]));
    }
  }

  lemma StartInv(calls: map<string, Call>, files: map<string, string>)
    ensures Inv(calls, files, Start(calls, files), {})
  {
  }

  /** What holds at the end of every schedule. */
  lemma Reached(calls: map<string, Call>, files: map<string, string>, schedule: seq<Event>)
    requires Run(calls, Start(calls, files), schedule).Some?
    ensures var s := Start(calls, files);
            Inv(calls, files, Run(calls, s, schedule).value, AllOverwritten(calls, s, schedule))
  {
    hide Inv, Run, Start, AllOverwritten;
    var s := Start(calls, files);
    StartInv(calls, files);
    RunKeepsInv(calls, files, s, {}, schedule);
    assert {} + AllOverwritten(calls, s, schedule) == AllOverwritten(calls, s, schedule);
  }

  // ---------------------------------------------------------------------
  // Every interleaving
  // ---------------------------------------------------------------------

  /** At most one call per path is between its lock and its unlock. */
  lemma MutualExclusion(calls: map<string, Call>, files: map<string, string>, schedule: seq<Event>, a: string,
                        b: string, path: string)
    requires Run(calls, Start(calls, files), schedule).Some?
    requires InCritical(calls, Run(calls, Start(calls, files), schedule).value, a, path)
    requires InCritical(calls, Run(calls, Start(calls, files), schedule).value, b, path)
    ensures a == b
  {
    Reached(calls, files, schedule);
    var s := Start(calls, files);
    Exclusive(calls, files, Run(calls, s, schedule).value, AllOverwritten(calls, s, schedule), a, b, path);
  }

  /** The recorded changes of a path form a chain from its initial content, unless a write that was lost changed it. */
  lemma LogIsChained(calls: map<string, Call>, files: map<string, string>, schedule: seq<Event>, path: string)
    requires Run(calls, Start(calls, files), schedule).Some?
    requires path !in AllOverwritten(calls, Start(calls, files), schedule)
    ensures Chained(Get(files, path), Run(calls, Start(calls, files), schedule).value.log, path)
  {
    Reached(calls, files, schedule);
    assert PathOk(calls, files, Run(calls, Start(calls, files), schedule).value, path);
  }

  /**
   While no call sits between its write and its record and no write that was lost has changed a file, the log replayed
   over the initial store is the store.
   */
  lemma LogReplaysToStore(calls: map<string, Call>, files: map<string, string>, schedule: seq<Event>)
    requires Run(calls, Start(calls, files), schedule).Some?
    requires AllOverwritten(calls, Start(calls, files), schedule) == {}
    requires forall path :: !Unrecorded(calls, Run(calls, Start(calls, files), schedule).value, path)
    ensures Replay(files, Run(calls, Start(calls, files), schedule).value.log)
         == Run(calls, Start(calls, files), schedule).value.files
  {
    var s := Run(calls, Start(calls, files), schedule).value;
    Reached(calls, files, schedule);
    var replayed := Replay(files, s.log);
    forall path ensures Get(replayed, path) == Get(s.files, path) {
      ReplayContent(files, s.log, path);
      assert PathOk(calls, files, s, path);
    }
    forall path ensures path in replayed <==> path in s.files {
      assert Get(replayed, path) == Get(s.files, path);
    }
    forall path | path in replayed ensures replayed[path] == s.files[path] {
      assert Get(replayed, path) == Get(s.files, path);
    }
  }

  /** The log accounts for a file: replaying it gives the content, or a call is about to record what it wrote. */
  ghost predicate Accounted(calls: map<string, Call>, initial: map<string, string>, s: State, path: string)
  {
    Unrecorded(calls, s, path) || Get(Replay(initial, s.log), path) == Get(s.files, path)
  }

  lemma PathAccounted(calls: map<string, Call>, initial: map<string, string>, s: State, lost: set<string>, path: string)
    requires Inv(calls, initial, s, lost) && path !in lost
    ensures Accounted(calls, initial, s, path)
  {
    assert PathOk(calls, initial, s, path);
    ReplayContent(initial, s.log, path);
  }

  lemma NoNewWritten(calls: map<string, Call>, s: State, id: string, s': State, path: string)
    requires s'.phase == s.phase[id := Closing(false)]
    ensures Unrecorded(calls, s', path) ==> Unrecorded(calls, s, path)
  {
    if Unrecorded(calls, s', path) {
      var w :| w in calls && w in s'.phase && calls[w].path == path && s'.phase[w].Written?;
      assert w in s.phase && s.phase[w].Written?;
    }
  }

  /** A lost write that changes a file leaves it unaccounted for. */
  lemma OverwrittenUnaccounted(calls: map<string, Call>, initial: map<string, string>, s: State, lost: set<string>,
                               e: Event, path: string)
    requires Inv(calls, initial, s, lost) && path !in lost && Apply(calls, s, e).Some?
    requires path in Overwritten(calls, s, e)
    ensures !Accounted(calls, initial, Apply(calls, s, e).value, path)
  {
    var s' := Apply(calls, s, e).value;
    assert PathOk(calls, initial, s, path) && InCritical(calls, s, e.id, path);
    ReplayContent(initial, s.log, path);
    NoNewWritten(calls, s, e.id, s', path);
    if Unrecorded(calls, s, path) {
      var w :| w in calls && w in s.phase && calls[w].path == path && s.phase[w].Written?;
      Exclusive(calls, initial, s, lost, w, e.id, path);
    }
  }

  lemma RunFirst(calls: map<string, Call>, s: State, schedule: seq<Event>, n: nat)
    requires 0 < n <= |schedule| && Apply(calls, s, schedule[0]).Some?
    ensures Run(calls, s, schedule[..n]) == Run(calls, Apply(calls, s, schedule[0]).value, schedule[1..][..n - 1])
  {
    hide Apply;
    assert schedule[..n][0] == schedule[0] && schedule[..n][1..] == schedule[1..][..n - 1];
  }

  ghost predicate AlwaysAccounted(calls: map<string, Call>, initial: map<string, string>, s: State,
                                  schedule: seq<Event>, path: string)
  {
    forall n {:trigger schedule[..n]} ::
      0 <= n <= |schedule| && Run(calls, s, schedule[..n]).Some?
      ==> Accounted(calls, initial, Run(calls, s, schedule[..n]).value, path)
  }

  lemma AccountedStep(calls: map<string, Call>, initial: map<string, string>, s: State, schedule: seq<Event>,
                      path: string)
    requires schedule != [] && Apply(calls, s, schedule[0]).Some?
    ensures AlwaysAccounted(calls, initial, s, schedule, path)
            <==> Accounted(calls, initial, s, path)
                 && AlwaysAccounted(calls, initial, Apply(calls, s, schedule[0]).value, schedule[1..], path)
  {
    hide Apply, Accounted;
    var s', rest := Apply(calls, s, schedule[0]).value, schedule[1..];
    assert schedule[..0] == [] && Run(calls, s, schedule[..0]) == Some(s);
    forall n: nat | 0 < n <= |schedule| ensures Run(calls, s, schedule[..n]) == Run(calls, s', rest[..n - 1]) {
      RunFirst(calls, s, schedule, n);
    }
    if AlwaysAccounted(calls, initial, s, schedule, path) {
      forall n: nat | n <= |rest| && Run(calls, s', rest[..n]).Some?
        ensures Accounted(calls, initial, Run(calls, s', rest[..n]).value, path)
      {
        assert Run(calls, s, schedule[..n + 1]) == Run(calls, s', rest[..n + 1 - 1]);
      }
    }
    if Accounted(calls, initial, s, path) && AlwaysAccounted(calls, initial, s', rest, path) {
      forall n: nat | n <= |schedule| && Run(calls, s, schedule[..n]).Some?
        ensures Accounted(calls, initial, Run(calls, s, schedule[..n]).value, path)
      {
        if n > 0 { assert Run(calls, s, schedule[..n]) == Run(calls, s', rest[..n - 1]); }
      }
    }
  }

  lemma {:induction false} AccountedFrom(calls: map<string, Call>, initial: map<string, string>, s: State,
                                         lost: set<string>, schedule: seq<Event>, path: string)
    requires Inv(calls, initial, s, lost) && path !in lost && Run(calls, s, schedule).Some?
    ensures AlwaysAccounted(calls, initial, s, schedule, path) <==> path !in AllOverwritten(calls, s, schedule)
    decreases |schedule|
  {
    hide Inv, Apply, Accounted, Overwritten, AlwaysAccounted;
    PathAccounted(calls, initial, s, lost, path);
    if schedule == [] {
      NothingRun(calls, initial, s, path);
    } else {
      var e, s', rest := schedule[0], Apply(calls, s, schedule[0]).value, schedule[1..];
      AccountedStep(calls, initial, s, schedule, path);
      if path in Overwritten(calls, s, e) {
        OverwrittenUnaccounted(calls, initial, s, lost, e, path);
        if AlwaysAccounted(calls, initial, s', rest, path) { FirstAccounted(calls, initial, s', rest, path); }
      } else {
        EventKeepsInv(calls, initial, s, lost, e);
        AccountedFrom(calls, initial, s', lost + Overwritten(calls, s, e), rest, path);
      }
    }
  }

  lemma NothingRun(calls: map<string, Call>, initial: map<string, string>, s: State, path: string)
    ensures AlwaysAccounted(calls, initial, s, [], path) <==> Accounted(calls, initial, s, path)
  {
    var none: seq<Event> := [];
    assert none[..0] == [] && Run(calls, s, none[..0]) == Some(s);
  }

  lemma FirstAccounted(calls: map<string, Call>, initial: map<string, string>, s: State, schedule: seq<Event>,
                       path: string)
    requires AlwaysAccounted(calls, initial, s, schedule, path)
    ensures Accounted(calls, initial, s, path)
  {
    assert schedule[..0] == [] && Run(calls, s, schedule[..0]) == Some(s);
  }

  /** Throughout a schedule the log accounts for a file exactly when no write that was lost changes it. */
  lemma LogAccountsExactly(calls: map<string, Call>, files: map<string, string>, schedule: seq<Event>, path: string)
    requires Run(calls, Start(calls, files), schedule).Some?
    ensures AlwaysAccounted(calls, files, Start(calls, files), schedule, path)
            <==> path !in AllOverwritten(calls, Start(calls, files), schedule)
  {
    hide Inv, Apply, AlwaysAccounted, AllOverwritten, Start;
    StartInv(calls, files);
    AccountedFrom(calls, files, Start(calls, files), {}, schedule, path);
  }

  /** A call on an unlocked path, up to its write. */
  lemma Loads(calls: map<string, Call>, s: State, id: string) returns (loaded: State)
    requires id in calls && id in s.phase && s.phase[id].Waiting? && calls[id].path !in s.locks
    ensures Run(calls, s, [Event(id, LockTaken), Event(id, ExistsAnswered), Event(id, ReadAnswered)]) == Some(loaded)
    ensures var path := calls[id].path;
            && loaded.files == s.files && loaded.log == s.log && loaded.locks == s.locks[path := id]
            && loaded.phase == s.phase[id := Loaded(Get(s.files, path))]
  {
    var es := [Event(id, LockTaken), Event(id, ExistsAnswered), Event(id, ReadAnswered)];
    var locked := Apply(calls, s, es[0]).value;
    var checked := Apply(calls, locked, es[1]).value;
    loaded := Apply(calls, checked, es[2]).value;
    RunTwo(calls, locked, es[1..], checked, loaded);
  }

  lemma RunTwo(calls: map<string, Call>, s: State, es: seq<Event>, s1: State, s2: State)
    requires |es| == 2 && Apply(calls, s, es[0]) == Some(s1) && Apply(calls, s1, es[1]) == Some(s2)
    ensures Run(calls, s, es) == Some(s2)
  {
    hide Apply;
    assert es[1..][0] == es[1] && es[1..][1..] == [];
    assert Run(calls, s1, es[1..]) == Some(s2);
  }

  lemma LosesWrite(calls: map<string, Call>, s: State, id: string, before: Option<string>) returns (done: State)
    requires id in calls && id in s.phase && s.phase[id] == Loaded(before) && !calls[id].staged
    requires calls[id].path in s.locks && s.locks[calls[id].path] == id
    ensures Run(calls, s, [Event(id, WriteLost), Event(id, UnlockDone)]) == Some(done)
    ensures done.files == s.files[calls[id].path := calls[id].content] && done.log == s.log
    ensures calls[id].path !in done.locks
    ensures done.phase == s.phase[id := Finished(false, false)]
  {
    var es := [Event(id, WriteLost), Event(id, UnlockDone)];
    var closing := Apply(calls, s, es[0]).value;
    done := Apply(calls, closing, es[1]).value;
    RunTwo(calls, s, es, closing, done);
  }

  lemma RecordsWrite(calls: map<string, Call>, s: State, id: string, before: Option<string>) returns (done: State)
    requires id in calls && id in s.phase && s.phase[id] == Loaded(before) && !calls[id].staged
    ensures Run(calls, s, [Event(id, WriteDone), Event(id, ChangeRecorded)]) == Some(done)
    ensures done.log == s.log + [Change(calls[id].path, before, calls[id].content, id)]
  {
    var es := [Event(id, WriteDone), Event(id, ChangeRecorded)];
    var written := Apply(calls, s, es[0]).value;
    done := Apply(calls, written, es[1]).value;
    RunTwo(calls, s, es, written, done);
  }

  /** One call's write is lost, and another's recorded change then starts from content that no record left. */
  lemma LostWriteBreaksChain() returns (schedule: seq<Event>)
    ensures var calls := map["a" := Call("f", "x", false), "b" := Call("f", "y", false)];
            var r := Run(calls, Start(calls, map[]), schedule);
            && r.Some? && r.value.log == [Change("f", Some("x"), "y", "b")] && !Chained(None, r.value.log, "f")
  {
    var calls := map["a" := Call("f", "x", false), "b" := Call("f", "y", false)];
    var s := Start(calls, map[]);
    var loads := (id: string) => [Event(id, LockTaken), Event(id, ExistsAnswered), Event(id, ReadAnswered)];
    var loses, records := [Event("a", WriteLost), Event("a", UnlockDone)],
        [Event("b", WriteDone), Event("b", ChangeRecorded)];
    schedule := loads("a") + (loses + (loads("b") + records));
    var s1 := Loads(calls, s, "a");
    var s2 := LosesWrite(calls, s1, "a", None);
    var s3 := Loads(calls, s2, "b");
    var s4 := RecordsWrite(calls, s3, "b", Some("x"));
    hide Apply, Run;
    RunJoin(calls, s2, loads("b"), records);
    RunJoin(calls, s1, loses, loads("b") + records);
    RunJoin(calls, s, loads("a"), loses + (loads("b") + records));
    assert s4.log[..0] == [] && s4.log[0].path == "f";
  }

  lemma {:induction false} RunJoin(calls: map<string, Call>, s: State, a: seq<Event>, b: seq<Event>)
    requires Run(calls, s, a).Some?
    ensures Run(calls, s, a + b) == Run(calls, Run(calls, s, a).value, b)
    decreases |a|
  {
    hide Apply;
    if a == [] {
      assert a + b == b;
    } else {
      assert (a + b)[0] == a[0] && (a + b)[1..] == a[1..] + b;
      RunJoin(calls, Apply(calls, s, a[0]).value, a[1..], b);
    }
  }

  /**
   A returned call reports success exactly when it has recorded its one change, or staged it if it was to stage it.
   */
  lemma ResultMatchesLog(calls: map<string, Call>, files: map<string, string>, schedule: seq<Event>, id: string)
    requires Run(calls, Start(calls, files), schedule).Some? && id in calls
    requires id in Run(calls, Start(calls, files), schedule).value.phase
    requires Run(calls, Start(calls, files), schedule).value.phase[id].Finished?
    ensures var s := Run(calls, Start(calls, files), schedule).value;
            && Entries(s.log, id) == (if !calls[id].staged && s.phase[id].ok then 1 else 0)
            && Entries(s.pending, id) == (if calls[id].staged && s.phase[id].ok then 1 else 0)
  {
    Reached(calls, files, schedule);
    var s := Start(calls, files);
    assert CallOk(calls, files, Run(calls, s, schedule).value, AllOverwritten(calls, s, schedule), id);
  }

  predicate Lossless(schedule: seq<Event>)
  {
    forall e | e in schedule :: e.step != LockLost && e.step != UnlockFailed
  }

  ghost predicate NoneLeft(s: State)
  {
    forall id | id in s.phase :: s.phase[id].Finished? ==> !s.phase[id].lockLeft
  }

  lemma {:induction false} LosslessLeavesNone(calls: map<string, Call>, s: State, schedule: seq<Event>)
    requires Run(calls, s, schedule).Some? && Lossless(schedule) && NoneLeft(s)
    ensures NoneLeft(Run(calls, s, schedule).value)
    decreases |schedule|
  {
    if schedule != [] {
      assert schedule[0] in schedule;
      LosslessLeavesNone(calls, Apply(calls, s, schedule[0]).value, schedule[1..]);
    }
  }

  /** If no lock answer is lost and no unlock fails, a path is locked only while a call works on it. */
  lemma NoLockLeaks(calls: map<string, Call>, files: map<string, string>, schedule: seq<Event>, path: string)
    requires Run(calls, Start(calls, files), schedule).Some? && Lossless(schedule)
    requires path in Run(calls, Start(calls, files), schedule).value.locks
    ensures var s := Run(calls, Start(calls, files), schedule).value;
            InCritical(calls, s, s.locks[path], path)
  {
    var s := Run(calls, Start(calls, files), schedule).value;
    Reached(calls, files, schedule);
    LosslessLeavesNone(calls, Start(calls, files), schedule);
    assert LockOk(calls, s, path);
  }
}
