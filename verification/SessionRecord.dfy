/**
 The session record and its two kinds of writer. A hot switch rewrites the profile, a restarted
 child its process id and start time; each works on a private copy read under the session lock.
 The writers run as threads whose single reads and writes interleave freely.
 */
module SessionRecord {
  import opened Wrappers

  /** What identifies a session, and what stays with it for life. */
  datatype Identity = Identity(
    sessionId: string, runtimeDir: string, controllerUrl: string, secret: string, mixedPort: nat,
    user: string, password: string, supervisorPid: Option<nat>, supervisorTicks: Option<nat>)

  datatype Record = Record(identity: Identity, profile: string, pid: nat, ticks: nat)

  predicate SameSession(a: Record, b: Record) {
    a.identity.sessionId == b.identity.sessionId && a.identity.runtimeDir == b.identity.runtimeDir
  }

  datatype Ending = Success | Busy | Refused | Stale | WriteFailed | UndoFailed | Died

  datatype Thread =
    | SwitchWaiting(profile: string)
    | SwitchLocked(profile: string)
    | SwitchRead(profile: string, previous: Record)
    | SwitchWritten(profile: string, previous: Record)
    | SwitchUndoing(profile: string, previous: Record)
    | ChildWaiting(mine: Record, pid: nat, ticks: nat)
    | ChildLocked(mine: Record, pid: nat, ticks: nat)
    | ChildRead(mine: Record, pid: nat, ticks: nat, current: Record)
    | Finished(ending: Ending)

  /** What has reached the file for good. `LeftBehind`: a failed undo or a dead switch left this profile. */
  datatype Commit =
    | NewProfile(profile: string)
    | NewChild(pid: nat, ticks: nat)
    | LeftBehind(profile: string)
    | NewSession(record: Record)

  datatype State = State(file: Record, lock: Option<nat>, threads: map<nat, Thread>, log: seq<Commit>)

  /** One step of thread `t`; the values decide which outcome its next action has. */
  datatype Action =
    | Spawn(t: nat, thread: Thread)
    | Acquire(t: nat)
    | Read(t: nat)
    | GiveUp(t: nat, undo: bool)
    | Die(t: nat)
    | Write(t: nat, written: Written)
    | SaveDesired(t: nat, ok: bool)
    | StartSession(record: Record)

  predicate Inside(thread: Thread) {
    || thread.SwitchLocked? || thread.SwitchRead? || thread.SwitchWritten? || thread.SwitchUndoing?
    || thread.ChildLocked? || thread.ChildRead?
  }

  function Run1(s: State, t: nat, thread: Thread): State { s.(threads := s.threads[t := thread]) }

  /** The thread returns and its lock guard is dropped. */
  function Return(s: State, t: nat, ending: Ending): State {
    Run1(s, t, Finished(ending)).(lock := None)
  }

  function AfterWrite(file: Record, next: Record, written: Written): Record {
    if written == Failed(false) then file else next
  }

  function AcquireStep(s: State, t: nat, thread: Thread): State {
    match thread
    case SwitchWaiting(profile) =>
      if s.lock.Some? then Run1(s, t, Finished(Busy)) else Run1(s, t, SwitchLocked(profile)).(lock := Some(t))
    case ChildWaiting(mine, pid, ticks) =>
      if s.lock.Some? then s else Run1(s, t, ChildLocked(mine, pid, ticks)).(lock := Some(t))
    case _ => s
  }

  function ReadStep(s: State, t: nat, thread: Thread): State {
    match thread
    case SwitchLocked(profile) => Run1(s, t, SwitchRead(profile, s.file))
    case ChildLocked(mine, pid, ticks) =>
      if SameSession(s.file, mine) then Run1(s, t, ChildRead(mine, pid, ticks, s.file)) else Return(s, t, Stale)
    case _ => s
  }

  /**
   Whoever fails before writing, be it in reading the record, returns without touching it; a
   switch whose runtime file cannot be written undoes everything, the unwritten record included.
   */
  function GiveUpStep(s: State, t: nat, thread: Thread, undo: bool): State {
    if thread.SwitchRead? && undo then Run1(s, t, SwitchUndoing(thread.profile, thread.previous))
    else if thread.SwitchLocked? || thread.SwitchRead? || thread.ChildLocked? || thread.ChildRead? then Return(s, t, Refused)
    else s
  }

  /** The holder's process ends and the system drops its lock; a switch leaves its profile as it is. */
  function DieStep(s: State, t: nat, thread: Thread): State {
    if !Inside(thread) then s
    else if thread.SwitchWritten? || thread.SwitchUndoing? then
      Return(s.(log := s.log + [LeftBehind(s.file.profile)]), t, Died)
    else Return(s, t, Died)
  }

  function WriteStep(s: State, t: nat, thread: Thread, written: Written): State {
    match thread
    case SwitchRead(profile, previous) =>
      var after := s.(file := AfterWrite(s.file, previous.(profile := profile), written));
      Run1(after, t, if written.Complete? then SwitchWritten(profile, previous) else SwitchUndoing(profile, previous))
    case SwitchUndoing(profile, previous) =>
      var after := s.(file := AfterWrite(s.file, previous, written));
      if written.Complete? then Return(after, t, WriteFailed)
      else Return(after.(log := s.log + [LeftBehind(after.file.profile)]), t, UndoFailed)
    case ChildRead(mine, pid, ticks, current) =>
      var next := current.(pid := pid, ticks := ticks);
      var after := s.(file := AfterWrite(s.file, next, written));
      Return(if written == Failed(false) then after else after.(log := s.log + [NewChild(pid, ticks)]), t,
             if written.Complete? then Success else WriteFailed)
    case _ => s
  }

  function SaveDesiredStep(s: State, t: nat, thread: Thread, ok: bool): State {
    if !thread.SwitchWritten? then s
    else if ok then Return(s.(log := s.log + [NewProfile(thread.profile)]), t, Success)
    else Run1(s, t, SwitchUndoing(thread.profile, thread.previous))
  }

  function Step(s: State, a: Action): State {
    match a
    case Spawn(t, thread) =>
      if t in s.threads || !(thread.SwitchWaiting? || thread.ChildWaiting?) then s else Run1(s, t, thread)
    case StartSession(record) =>
      if s.lock.Some? then s else s.(file := record, log := s.log + [NewSession(record)])
    case Acquire(t) => if t in s.threads then AcquireStep(s, t, s.threads[t]) else s
    case Read(t) => if t in s.threads then ReadStep(s, t, s.threads[t]) else s
    case Die(t) => if t in s.threads then DieStep(s, t, s.threads[t]) else s
    case GiveUp(t, undo) => if t in s.threads then GiveUpStep(s, t, s.threads[t], undo) else s
    case Write(t, written) => if t in s.threads then WriteStep(s, t, s.threads[t], written) else s
    case SaveDesired(t, ok) => if t in s.threads then SaveDesiredStep(s, t, s.threads[t], ok) else s
  }

  function RunAll(initial: Record, actions: seq<Action>): State {
    if actions == [] then State(initial, None, map[], [])
    else Step(RunAll(initial, actions[..|actions| - 1]), actions[|actions| - 1])
  }

  // ---- nothing that was committed is lost ----

  function Apply(r: Record, c: Commit): Record {
    match c
    case NewProfile(profile) => r.(profile := profile)
    case LeftBehind(profile) => r.(profile := profile)
    case NewChild(pid, ticks) => r.(pid := pid, ticks := ticks)
    case NewSession(record) => record
  }

  /** The record that the commits add up to, each changing only its own fields. */
  function Latest(initial: Record, log: seq<Commit>): Record {
    if log == [] then initial else Apply(Latest(initial, log[..|log| - 1]), log[|log| - 1])
  }

  /** What the holder's own progress says about the file. */
  ghost predicate HolderAgrees(thread: Thread, file: Record, latest: Record) {
    match thread
    case SwitchLocked(_) => file == latest
    case SwitchRead(_, previous) => file == latest == previous
    case SwitchWritten(profile, previous) => previous == latest && file == previous.(profile := profile)
    case SwitchUndoing(profile, previous) => previous == latest && (file == previous || file == previous.(profile := profile))
    case ChildLocked(_, _, _) => file == latest
    case ChildRead(mine, _, _, current) => file == latest == current && SameSession(current, mine)
    case _ => false
  }

  ghost predicate Inv(initial: Record, s: State) {
    && (forall t :: t in s.threads && Inside(s.threads[t]) ==> s.lock == Some(t))
    && (s.lock.None? ==> s.file == Latest(initial, s.log))
    && (s.lock.Some? ==>
          s.lock.value in s.threads && HolderAgrees(s.threads[s.lock.value], s.file, Latest(initial, s.log)))
  }

  lemma LatestSnoc(initial: Record, log: seq<Commit>, c: Commit)
    ensures Latest(initial, log + [c]) == Apply(Latest(initial, log), c)
  {
    assert (log + [c])[..|log|] == log;
  }

  lemma WriteKeeps(initial: Record, s: State, t: nat, written: Written)
    requires Inv(initial, s) && t in s.threads
    ensures Inv(initial, WriteStep(s, t, s.threads[t], written))
  {
    match s.threads[t] {
      case SwitchRead(_, _) => hide Latest;
      case SwitchUndoing(_, _) => UndoKeeps(initial, s, t, written);
      case ChildRead(_, _, _, _) => ChildKeeps(initial, s, t, written);
      case _ =>
    }
  }

  /** Once the holder returns, nobody is inside. */
  lemma ReturnKeeps(initial: Record, s: State, t: nat, ending: Ending)
    requires forall u :: u in s.threads && Inside(s.threads[u]) ==> u == t
    requires s.file == Latest(initial, s.log)
    ensures Inv(initial, Return(s, t, ending))
  {
    hide Latest, HolderAgrees;
  }

  lemma UndoKeeps(initial: Record, s: State, t: nat, written: Written)
    requires Inv(initial, s) && t in s.threads && s.threads[t].SwitchUndoing?
    ensures Inv(initial, WriteStep(s, t, s.threads[t], written))
  {
    var previous := s.threads[t].previous;
    var after := s.(file := AfterWrite(s.file, previous, written));
    assert s.lock == Some(t) && HolderAgrees(s.threads[t], s.file, Latest(initial, s.log));
    var logged := after.(log := s.log + [LeftBehind(after.file.profile)]);
    LatestSnoc(initial, s.log, LeftBehind(after.file.profile));
    hide Latest;
    if written.Complete? {
      ReturnKeeps(initial, after, t, WriteFailed);
    } else {
      ReturnKeeps(initial, logged, t, UndoFailed);
    }
    hide Inv;
  }

  lemma ChildKeeps(initial: Record, s: State, t: nat, written: Written)
    requires Inv(initial, s) && t in s.threads && s.threads[t].ChildRead?
    ensures Inv(initial, WriteStep(s, t, s.threads[t], written))
  {
    var thread := s.threads[t];
    var after := s.(file := AfterWrite(s.file, thread.current.(pid := thread.pid, ticks := thread.ticks), written));
    assert s.lock == Some(t) && HolderAgrees(thread, s.file, Latest(initial, s.log));
    LatestSnoc(initial, s.log, NewChild(thread.pid, thread.ticks));
    hide Latest;
    if written == Failed(false) {
      ReturnKeeps(initial, after, t, WriteFailed);
    } else {
      ReturnKeeps(initial, after.(log := s.log + [NewChild(thread.pid, thread.ticks)]), t,
                  if written.Complete? then Success else WriteFailed);
    }
    hide Inv;
  }

  lemma SaveKeeps(initial: Record, s: State, t: nat, ok: bool)
    requires Inv(initial, s) && t in s.threads && s.threads[t].SwitchWritten?
    ensures Inv(initial, SaveDesiredStep(s, t, s.threads[t], ok))
  {
    var profile := s.threads[t].profile;
    assert s.lock == Some(t) && HolderAgrees(s.threads[t], s.file, Latest(initial, s.log));
    LatestSnoc(initial, s.log, NewProfile(profile));
    hide Latest;
    if ok {
      ReturnKeeps(initial, s.(log := s.log + [NewProfile(profile)]), t, Success);
      hide Inv;
    }
  }

  lemma DieKeeps(initial: Record, s: State, t: nat)
    requires Inv(initial, s) && t in s.threads && Inside(s.threads[t])
    ensures Inv(initial, DieStep(s, t, s.threads[t]))
  {
    assert s.lock == Some(t) && HolderAgrees(s.threads[t], s.file, Latest(initial, s.log));
    LatestSnoc(initial, s.log, LeftBehind(s.file.profile));
    hide Latest;
    if s.threads[t].SwitchWritten? || s.threads[t].SwitchUndoing? {
      ReturnKeeps(initial, s.(log := s.log + [LeftBehind(s.file.profile)]), t, Died);
    } else {
      ReturnKeeps(initial, s, t, Died);
    }
    hide Inv;
  }

  lemma GiveUpKeeps(initial: Record, s: State, t: nat, undo: bool)
    requires Inv(initial, s) && t in s.threads && Inside(s.threads[t])
    ensures Inv(initial, GiveUpStep(s, t, s.threads[t], undo))
  {
    assert s.lock == Some(t) && HolderAgrees(s.threads[t], s.file, Latest(initial, s.log));
    hide Latest;
    if s.file == Latest(initial, s.log) {
      ReturnKeeps(initial, s, t, Refused);
    }
  }

  lemma StepKeeps(initial: Record, s: State, a: Action)
    requires Inv(initial, s)
    ensures Inv(initial, Step(s, a))
  {
    hide Latest;
    match a {
      case Write(t, written) =>
        if t in s.threads {
          WriteKeeps(initial, s, t, written);
        }
      case Die(t) =>
        if t in s.threads && Inside(s.threads[t]) {
          DieKeeps(initial, s, t);
        }
      case GiveUp(t, undo) =>
        if t in s.threads && Inside(s.threads[t]) {
          GiveUpKeeps(initial, s, t, undo);
        }
      case SaveDesired(t, ok) =>
        if t in s.threads && s.threads[t].SwitchWritten? {
          SaveKeeps(initial, s, t, ok);
        }
      case StartSession(record) => LatestSnoc(initial, s.log, NewSession(record));
      case _ =>
    }
  }

  lemma {:induction false} RunKeeps(initial: Record, actions: seq<Action>)
    ensures Inv(initial, RunAll(initial, actions))
  {
    if actions != [] {
      RunKeeps(initial, actions[..|actions| - 1]);
      StepKeeps(initial, RunAll(initial, actions[..|actions| - 1]), actions[|actions| - 1]);
    }
  }

  // ---- read field by field ----

  function LastProfile(initial: string, log: seq<Commit>): string {
    if log == [] then initial
    else
      match log[|log| - 1]
      case NewProfile(profile) => profile
      case LeftBehind(profile) => profile
      case NewSession(record) => record.profile
      case NewChild(_, _) => LastProfile(initial, log[..|log| - 1])
  }

  function LastChild(initial: (nat, nat), log: seq<Commit>): (nat, nat) {
    if log == [] then initial
    else
      match log[|log| - 1]
      case NewChild(pid, ticks) => (pid, ticks)
      case NewSession(record) => (record.pid, record.ticks)
      case _ => LastChild(initial, log[..|log| - 1])
  }

  function LastIdentity(initial: Identity, log: seq<Commit>): Identity {
    if log == [] then initial
    else
      match log[|log| - 1]
      case NewSession(record) => record.identity
      case _ => LastIdentity(initial, log[..|log| - 1])
  }

  lemma {:induction false} LatestByField(initial: Record, log: seq<Commit>)
    ensures Latest(initial, log)
         == Record(LastIdentity(initial.identity, log), LastProfile(initial.profile, log),
                   LastChild((initial.pid, initial.ticks), log).0, LastChild((initial.pid, initial.ticks), log).1)
  {
    if log != [] {
      LatestByField(initial, log[..|log| - 1]);
    }
  }

  /**
   However the threads interleave and whichever writes fail, whenever nobody holds the lock the
   file has the profile of the latest committed switch, the process of the latest committed
   restart, and the identity of the running session.
   */
  lemma NothingLost(initial: Record, actions: seq<Action>)
    requires RunAll(initial, actions).lock.None?
    ensures var s := RunAll(initial, actions);
      s.file == Record(LastIdentity(initial.identity, s.log), LastProfile(initial.profile, s.log),
                       LastChild((initial.pid, initial.ticks), s.log).0, LastChild((initial.pid, initial.ticks), s.log).1)
  {
    RunKeeps(initial, actions);
    LatestByField(initial, RunAll(initial, actions).log);
  }

  /** A step lets a thread succeed only while it logs that thread's commit. */
  lemma SuccessCommits(s: State, a: Action, t: nat)
    requires t in s.threads && s.threads[t] != Finished(Success)
    requires t in Step(s, a).threads && Step(s, a).threads[t] == Finished(Success)
    ensures var thread := s.threads[t];
      && (thread.SwitchWritten? || thread.ChildRead?)
      && Step(s, a).log == s.log + [if thread.ChildRead? then NewChild(thread.pid, thread.ticks) else NewProfile(thread.profile)]
  {
  }

  /** At most one thread is between its lock and its return. */
  lemma OneInside(initial: Record, actions: seq<Action>, t: nat, u: nat)
    requires var s := RunAll(initial, actions);
      t in s.threads && u in s.threads && Inside(s.threads[t]) && Inside(s.threads[u])
    ensures t == u
  {
    RunKeeps(initial, actions);
  }

  /** A restart that belongs to an earlier session is refused as stale and changes nothing. */
  lemma StaleChildRefused(initial: Record, actions: seq<Action>, t: nat, pid: nat, ticks: nat, mine: Record)
    requires t in RunAll(initial, actions).threads && RunAll(initial, actions).threads[t] == ChildLocked(mine, pid, ticks)
    ensures var s := RunAll(initial, actions);
      var after := RunAll(initial, actions + [Read(t)]);
      && (SameSession(Latest(initial, s.log), mine) <==> after.threads[t] != Finished(Stale))
      && after.file == s.file && after.log == s.log
  {
    RunKeeps(initial, actions);
    assert (actions + [Read(t)])[..|actions|] == actions;
  }
}
