/**
 A hot switch of the running profile: reload the core, replace the runtime file, rewrite the
 session record, save the desired state, and undo in that order when a step fails. What every
 step does is decided by an `Env`; a rejected reload may leave the core with any configuration.
 */
module HotSwitch {
  import opened Wrappers
  import opened SessionRecord
  import D = DesiredState

  datatype Error =
    | SessionBusy | SessionLock | SessionRead | InvalidSession | SessionNotRunning | SessionReload | ProfileRefused
    | PersistentState | ConfigurationWrite | SessionWrite | SessionSwitchRollback | RuntimeCleanup | ProcessStatus

  /** A core configuration: its mode, which can be changed live, and everything else. */
  datatype Config = Config(body: string, mode: Option<D.Mode>)

  datatype Reload = Accepted | Rejected(left: Config)

  /** Why the new configuration could not be prepared. */
  datatype Unprepared = NoController | BadControllerUrl | BadProfile

  /** What became of the files of a session whose owner is gone. */
  datatype Removal = Removal(directory: Written, record: Written)

  datatype Env = Env(
    lock: Locking, recordRead: Reading, ownerAlive: bool, removal: Removal,
    prepared: Result<string, Unprepared>, runtimeReadable: bool, desiredLoad: D.Env,
    reload: Reload, fileWrite: Written, recordWrite: Written, desiredWrite: D.Env,
    undoReload: Reload, undoFile: Written, undoRecord: Written)

  datatype Request = Request(profile: string, digest: string, env: Env)

  /** `core`: the configuration the core runs; the other three are files. */
  datatype Session = Session(
    core: Config, runtimeFile: Option<Config>, record: Option<Record>, desired: Option<D.State>)

  /** The mode the core reports; an unknown one counts as global. */
  function LiveMode(core: Config): D.Mode {
    if core.mode.Some? then core.mode.value else D.Global
  }

  /** The new configuration: the profile's, in the mode that the core runs now. */
  function Next(core: Config, body: string): Config { Config(body, Some(LiveMode(core))) }

  function AfterReload(core: Config, next: Config, r: Reload): Config {
    if r.Accepted? then next else r.left
  }

  /** The files of a session whose owner is gone: first its directory goes, then its record. */
  function Cleared(s: Session, removal: Removal): (Session, Error) {
    var file := if removal.directory == Failed(false) then s.runtimeFile else None;
    if !removal.directory.Complete? then (s.(runtimeFile := file), RuntimeCleanup)
    else
      (s.(runtimeFile := file, record := if removal.record == Failed(false) then s.record else None),
       if removal.record.Complete? then SessionNotRunning else SessionWrite)
  }

  function AfterFile<T>(file: T, next: T, w: Written): T {
    if w == Failed(false) then file else next
  }

  function UnpreparedError(u: Unprepared): Error {
    match u
    case NoController => SessionReload
    case BadControllerUrl => InvalidSession
    case BadProfile => ProfileRefused
  }

  /** Everything before the first reload: the previous file, the live record, the new configuration. */
  function Prepared(s: Session, env: Env): (Session, Result<(Config, Record, Config), Error>) {
    if env.lock.Held? then (s, Err(SessionBusy))
    else if env.lock.Broken? then (s, Err(SessionLock))
    else if env.recordRead.Unreadable? then (s, Err(SessionRead))
    else if env.recordRead.Malformed? then (s, Err(InvalidSession))
    else if s.record.None? then (s, Err(SessionNotRunning))
    else if !env.ownerAlive then (Cleared(s, env.removal).0, Err(Cleared(s, env.removal).1))
    else if env.prepared.Err? then (s, Err(UnpreparedError(env.prepared.error)))
    else if s.runtimeFile.None? || !env.runtimeReadable then (s, Err(ProfileRefused))
    else if D.Opened(s.desired, env.desiredLoad).Err? then (s, Err(PersistentState))
    else (s, Ok((s.runtimeFile.value, s.record.value, Next(s.core, env.prepared.value))))
  }

  /** `rollback_switch`: all three undo steps are tried, whatever the others do. */
  function RolledBack(s: Session, previous: Config, previousRecord: Record, env: Env, original: Error)
    : (Session, Result<Record, Error>)
  {
    (s.(core := AfterReload(s.core, previous, env.undoReload),
        runtimeFile := AfterFile(s.runtimeFile, Some(previous), env.undoFile),
        record := AfterFile(s.record, Some(previousRecord), env.undoRecord)),
     Err(if env.undoReload.Accepted? && env.undoFile.Complete? && env.undoRecord.Complete? then original
         else SessionSwitchRollback))
  }

  function Switched(s: Session, r: Request): (Session, Result<Record, Error>) {
    var env := r.env;
    var prepared := Prepared(s, env);
    if prepared.1.Err? then (prepared.0, Err(prepared.1.error))
    else
      var (previous, record, next) := prepared.1.value;
      var reloaded := s.(core := AfterReload(s.core, next, env.reload));
      if env.reload.Rejected? then
        (reloaded.(core := AfterReload(reloaded.core, previous, env.undoReload)),
         Err(if env.undoReload.Accepted? then SessionReload else SessionSwitchRollback))
      else
        var filed := reloaded.(runtimeFile := AfterFile(s.runtimeFile, Some(next), env.fileWrite));
        if !env.fileWrite.Complete? then RolledBack(filed, previous, record, env, ConfigurationWrite)
        else
          var updated := record.(profile := r.profile);
          var recorded := filed.(record := AfterFile(s.record, Some(updated), env.recordWrite));
          if !env.recordWrite.Complete? then RolledBack(recorded, previous, record, env, SessionWrite)
          else
            var saved := D.Served(s.desired, D.RecordRuntime(r.profile, r.digest, LiveMode(s.core)), env.desiredWrite);
            var desired := recorded.(desired := saved.0);
            if saved.1.Some? then RolledBack(desired, previous, record, env, PersistentState)
            else (desired, Ok(updated))
  }

  /** `update_child_record`: the record is read again under the lock, and only the process changes. */
  function ChildUpdated(s: Session, mine: Record, pid: Option<nat>, ticks: Option<nat>, env: Env)
    : (Session, Result<Record, Error>)
  {
    if pid.None? || ticks.None? then (s, Err(ProcessStatus))
    else if env.lock.Broken? then (s, Err(SessionLock))
    else if env.recordRead.Unreadable? then (s, Err(SessionRead))
    else if env.recordRead.Malformed? then (s, Err(InvalidSession))
    else if s.record.None? then (s, Err(SessionNotRunning))
    else if !SameSession(s.record.value, mine) then (s, Err(InvalidSession))
    else
      var next := s.record.value.(pid := pid.value, ticks := ticks.value);
      (s.(record := AfterFile(s.record, Some(next), env.recordWrite)),
       if env.recordWrite.Complete? then Ok(next) else Err(SessionWrite))
  }

  // ---- the same, step by step on the files ----

  class SessionManager {
    var core: Config
    var runtimeFile: Option<Config>
    var record: Option<Record>
    const store: D.DesiredStateStore

    function Value(): Session
      reads this, store
    {
      Session(core, runtimeFile, record, store.file)
    }

    constructor (core: Config, runtimeFile: Option<Config>, record: Option<Record>, store: D.DesiredStateStore)
      ensures Value() == Session(core, runtimeFile, record, store.file) && this.store == store
    {
      this.core, this.runtimeFile, this.record, this.store := core, runtimeFile, record, store;
    }

    method Reload(next: Config, outcome: Reload) returns (ok: bool)
      modifies this`core
      ensures ok == outcome.Accepted? && core == AfterReload(old(core), next, outcome)
    {
      ok := outcome.Accepted?;
      core := if ok then next else outcome.left;
    }

    method ReplaceRuntimeFile(next: Config, outcome: Written) returns (ok: bool)
      modifies this`runtimeFile
      ensures ok == outcome.Complete? && runtimeFile == AfterFile(old(runtimeFile), Some(next), outcome)
    {
      ok := outcome.Complete?;
      if ok || outcome.applied {
        runtimeFile := Some(next);
      }
    }

    method WriteRecord(next: Record, outcome: Written) returns (ok: bool)
      modifies this`record
      ensures ok == outcome.Complete? && record == AfterFile(old(record), Some(next), outcome)
    {
      ok := outcome.Complete?;
      if ok || outcome.applied {
        record := Some(next);
      }
    }

    method ActiveLocked(env: Env) returns (active: Result<Record, Error>)
      requires env.lock.Free?
      modifies this`runtimeFile, this`record
      ensures active.Ok? ==> env.recordRead.Readable? && env.ownerAlive && old(record) == Some(active.value)
      ensures active.Ok? ==> Value() == old(Value())
      ensures active.Err? ==> Prepared(old(Value()), env) == (Value(), Err(active.error))
    {
      if env.recordRead.Unreadable? { return Err(SessionRead); }
      if env.recordRead.Malformed? { return Err(InvalidSession); }
      if record.None? { return Err(SessionNotRunning); }
      if env.ownerAlive { return Ok(record.value); }
      var removal := env.removal;
      if removal.directory != Failed(false) {
        runtimeFile := None;
      }
      if !removal.directory.Complete? { return Err(RuntimeCleanup); }
      if removal.record != Failed(false) {
        record := None;
      }
      return Err(if removal.record.Complete? then SessionNotRunning else SessionWrite);
    }

    method RollbackSwitch(previous: Config, previousRecord: Record, env: Env, original: Error)
      returns (r: Result<Record, Error>)
      modifies this
      ensures (Value(), r) == RolledBack(old(Value()), previous, previousRecord, env, original)
    {
      var coreRolledBack := Reload(previous, env.undoReload);
      var fileRolledBack := ReplaceRuntimeFile(previous, env.undoFile);
      var descriptorRolledBack := WriteRecord(previousRecord, env.undoRecord);
      if coreRolledBack && fileRolledBack && descriptorRolledBack {
        return Err(original);
      }
      return Err(SessionSwitchRollback);
    }

    method SwitchProfile(profile: string, digest: string, env: Env) returns (r: Result<Record, Error>)
      modifies this, store
      ensures (Value(), r) == Switched(old(Value()), Request(profile, digest, env))
    {
      if env.lock.Held? { return Err(SessionBusy); }
      if env.lock.Broken? { return Err(SessionLock); }
      var active := ActiveLocked(env);
      if active.Err? { return Err(active.error); }
      if env.prepared.Err? { return Err(UnpreparedError(env.prepared.error)); }
      var mode := LiveMode(core);
      var next := Config(env.prepared.value, Some(mode));
      if runtimeFile.None? || !env.runtimeReadable { return Err(ProfileRefused); }
      var previous, previousRecord := runtimeFile.value, active.value;
      var desiredBefore := store.Load(env.desiredLoad);
      if desiredBefore.Err? { return Err(PersistentState); }
      var ok := Reload(next, env.reload);
      if !ok {
        ok := Reload(previous, env.undoReload);
        return Err(if ok then SessionReload else SessionSwitchRollback);
      }
      ok := ReplaceRuntimeFile(next, env.fileWrite);
      if !ok {
        r := RollbackSwitch(previous, previousRecord, env, ConfigurationWrite);
        return;
      }
      var updated := previousRecord.(profile := profile);
      ok := WriteRecord(updated, env.recordWrite);
      if !ok {
        r := RollbackSwitch(previous, previousRecord, env, SessionWrite);
        return;
      }
      var error := store.RecordRuntime(profile, digest, mode, env.desiredWrite);
      if error.Some? {
        r := RollbackSwitch(previous, previousRecord, env, PersistentState);
        return;
      }
      return Ok(updated);
    }

    /** A mode change goes to the running core only. */
    method SetMode(mode: D.Mode)
      modifies this`core
      ensures Value() == old(Value()).(core := old(core).(mode := Some(mode)))
    {
      core := core.(mode := Some(mode));
    }

    method UpdateChildRecord(mine: Record, pid: Option<nat>, ticks: Option<nat>, env: Env)
      returns (r: Result<Record, Error>)
      modifies this`record
      ensures (Value(), r) == ChildUpdated(old(Value()), mine, pid, ticks, env)
    {
      if pid.None? || ticks.None? { return Err(ProcessStatus); }
      if env.lock.Broken? { return Err(SessionLock); }
      if env.recordRead.Unreadable? { return Err(SessionRead); }
      if env.recordRead.Malformed? { return Err(InvalidSession); }
      if record.None? { return Err(SessionNotRunning); }
      var current := record.value;
      if !SameSession(current, mine) { return Err(InvalidSession); }
      current := current.(pid := pid.value);
      current := current.(ticks := ticks.value);
      var ok := WriteRecord(current, env.recordWrite);
      return if ok then Ok(current) else Err(SessionWrite);
    }
  }

  // ---- all or nothing ----

  /** The core runs what the runtime file says. */
  predicate InStep(s: Session) { s.runtimeFile == Some(s.core) }

  predicate Unchanged(s: Session, after: Session) {
    after.core == s.core && after.runtimeFile == s.runtimeFile && after.record == s.record
  }

  /** Success means all four parts are new, and the record changed in its profile alone. */
  lemma SuccessIsComplete(s: Session, r: Request)
    requires Switched(s, r).1.Ok?
    ensures var after := Switched(s, r).0;
      && s.record.Some? && r.env.prepared.Ok?
      && after.core == Config(r.env.prepared.value, Some(LiveMode(s.core)))
      && after.runtimeFile == Some(after.core)
      && after.record == Some(s.record.value.(profile := r.profile)) == Some(Switched(s, r).1.value)
      && after.desired == Some(D.Updated(D.Current(s.desired), D.RecordRuntime(r.profile, r.digest, LiveMode(s.core))))
      && after.desired.value.activeProfile == Some(r.profile)
      && D.ValidState(after.desired.value)
  {
    hide D.ValidState, D.ValidArguments;
  }

  /** The record names a session whose owner is dead, so its files are cleared away. */
  predicate OwnerGone(s: Session, env: Env) {
    env.lock.Free? && env.recordRead.Readable? && s.record.Some? && !env.ownerAlive
  }

  /** The clearing got nowhere: neither the runtime file nor the record was removed. */
  predicate NothingCleared(s: Session, removal: Removal) {
    && (removal.directory == Failed(false) || s.runtimeFile.None?)
    && (!removal.directory.Complete? || removal.record == Failed(false))
  }

  /**
   An error other than SessionSwitchRollback leaves core, file and record as they were if and only
   if, once the switch was prepared, the core ran what the runtime file says, and before that,
   no dead session was cleared away.
   */
  lemma FailureUndoneExactly(s: Session, r: Request)
    requires Switched(s, r).1.Err? && Switched(s, r).1.error != SessionSwitchRollback
    ensures Unchanged(s, Switched(s, r).0) <==>
            if Prepared(s, r.env).1.Ok? then InStep(s) else !OwnerGone(s, r.env) || NothingCleared(s, r.env.removal)
  {
    hide D.Served, D.Opened;
  }

  /** SessionSwitchRollback is reported exactly when a step failed after preparation and an undo step failed too. */
  lemma RollbackReportedExactly(s: Session, r: Request)
    ensures var env := r.env;
      Switched(s, r).1 == Err(SessionSwitchRollback) <==>
        && Prepared(s, env).1.Ok?
        && (env.reload.Rejected? || !env.fileWrite.Complete? || !env.recordWrite.Complete?
            || D.Served(s.desired, D.RecordRuntime(r.profile, r.digest, LiveMode(s.core)), env.desiredWrite).1.Some?)
        && (env.undoReload.Rejected? || (env.reload.Accepted? && !(env.undoFile.Complete? && env.undoRecord.Complete?)))
  {
    hide D.Served, D.Opened;
  }

  // ---- whole runs of switches, mode changes and restarts ----

  /** A restarted core reads the runtime file; its record is updated afterwards. */
  datatype Move =
    | Switch(request: Request)
    | SetMode(mode: D.Mode)
    | Restart(pid: nat, ticks: nat, env: Env)

  function Moved(s: Session, m: Move): Session {
    match m
    case Switch(request) => Switched(s, request).0
    case SetMode(mode) => s.(core := s.core.(mode := Some(mode)))
    case Restart(pid, ticks, env) =>
      if s.runtimeFile.None? || s.record.None? then s
      else ChildUpdated(s.(core := s.runtimeFile.value), s.record.value, Some(pid), Some(ticks), env).0
  }

  function MoveAll(s: Session, moves: seq<Move>): Session {
    if moves == [] then s else Moved(MoveAll(s, moves[..|moves| - 1]), moves[|moves| - 1])
  }

  /** The configuration and the profile of the latest successful switch. */
  function LatestSuccess(s: Session, moves: seq<Move>): (Config, string)
    requires s.record.Some?
  {
    if moves == [] then (s.core, s.record.value.profile)
    else
      var init, last := moves[..|moves| - 1], moves[|moves| - 1];
      var before := MoveAll(s, init);
      if last.Switch? && Switched(before, last.request).1.Ok? && last.request.env.prepared.Ok? then
        (Next(before.core, last.request.env.prepared.value), last.request.profile)
      else LatestSuccess(s, init)
  }

  /** The mode set live since the core was last loaded: by a prepared switch, undone or not, or by a restart. */
  function LiveSince(s: Session, moves: seq<Move>): Option<D.Mode> {
    if moves == [] then None
    else
      var init, last := moves[..|moves| - 1], moves[|moves| - 1];
      match last
      case SetMode(mode) => Some(mode)
      case Restart(_, _, _) => None
      case Switch(request) => if Prepared(MoveAll(s, init), request.env).1.Ok? then None else LiveSince(s, init)
  }

  /** The process of the latest restart that reached the record. */
  function LatestProcess(s: Session, moves: seq<Move>): (nat, nat)
    requires s.record.Some?
  {
    if moves == [] then (s.record.value.pid, s.record.value.ticks)
    else
      var init, last := moves[..|moves| - 1], moves[|moves| - 1];
      if last.Restart? && !last.env.lock.Broken? && last.env.recordRead.Readable? && last.env.recordWrite != Failed(false) then
        (last.pid, last.ticks)
      else LatestProcess(s, init)
  }

  /** No owner died and no undo failed along the way. */
  predicate Orderly(s: Session, moves: seq<Move>) {
    moves == []
    || (var init, last := moves[..|moves| - 1], moves[|moves| - 1];
        && Orderly(s, init)
        && (last.Switch? ==>
              && !OwnerGone(MoveAll(s, init), last.request.env)
              && Switched(MoveAll(s, init), last.request).1 != Err(SessionSwitchRollback)))
  }

  /** What the session shows after a run, from what the run did. */
  ghost predicate Shows(s: Session, after: Session, latest: (Config, string), live: Option<D.Mode>, process: (nat, nat)) {
    && s.record.Some?
    && after.runtimeFile == Some(latest.0)
    && after.core == (if live.Some? then latest.0.(mode := live) else latest.0)
    && after.record == Some(s.record.value.(profile := latest.1, pid := process.0, ticks := process.1))
  }

  /** How one more move changes what is shown. */
  lemma MoveShows(s: Session, before: Session, m: Move, latest: (Config, string), live: Option<D.Mode>, process: (nat, nat))
    requires Shows(s, before, latest, live, process)
    requires m.Switch? ==> !OwnerGone(before, m.request.env) && Switched(before, m.request).1 != Err(SessionSwitchRollback)
    ensures m.Switch? && Switched(before, m.request).1.Ok? ==>
              m.request.env.prepared.Ok? && Prepared(before, m.request.env).1.Ok?
              && Shows(s, Moved(before, m), (Next(before.core, m.request.env.prepared.value), m.request.profile), None, process)
    ensures m.Switch? && Switched(before, m.request).1.Err? ==>
              Shows(s, Moved(before, m), latest, if Prepared(before, m.request.env).1.Ok? then None else live, process)
    ensures m.SetMode? ==> Shows(s, Moved(before, m), latest, Some(m.mode), process)
    ensures m.Restart? ==>
              var reached := !m.env.lock.Broken? && m.env.recordRead.Readable? && m.env.recordWrite != Failed(false);
              Shows(s, Moved(before, m), latest, None, if reached then (m.pid, m.ticks) else process)
  {
    hide D.Served, D.Opened;
  }

  /**
   Over any run of switches, mode changes and restarts, file and record show the latest successful
   switch, and so does the core, but for a mode set live since it was last loaded.
   */
  lemma {:induction false} RunShowsLatestSuccess(s: Session, moves: seq<Move>)
    requires InStep(s) && s.record.Some? && Orderly(s, moves)
    ensures Shows(s, MoveAll(s, moves), LatestSuccess(s, moves), LiveSince(s, moves), LatestProcess(s, moves))
  {
    if moves != [] {
      var init, last := moves[..|moves| - 1], moves[|moves| - 1];
      RunShowsLatestSuccess(s, init);
      MoveShows(s, MoveAll(s, init), last, LatestSuccess(s, init), LiveSince(s, init), LatestProcess(s, init));
      hide Switched, OwnerGone, Moved, Shows, Prepared;
    }
  }

  // ---- the exceptions are reachable ----

  function SampleEnv(ownerAlive: bool, fileWrite: Written): Env {
    var desired := D.Env(Free, Readable, true, Complete);
    Env(Free, Readable, ownerAlive, Removal(Complete, Complete), Ok("new"), true, desired,
        Accepted, fileWrite, Complete, desired, Accepted, Complete, Complete)
  }

  function SampleSession(): Session {
    var identity := Identity("id", "run-1", "url", "secret", 1, "user", "password", None, None);
    Session(Config("old", Some(D.Global)), Some(Config("old", Some(D.Global))), Some(Record(identity, "a", 1, 1)), None)
  }

  /** A switch that fails after a live mode change answers ConfigurationWrite and takes the mode back. */
  lemma LiveModeLost()
    ensures var moves := [SetMode(D.Rule), Switch(Request("b", "", SampleEnv(true, Failed(false))))];
      var before := MoveAll(SampleSession(), moves[..1]);
      && InStep(SampleSession()) && Orderly(SampleSession(), moves)
      && Switched(before, moves[1].request).1 == Err(ConfigurationWrite)
      && before.core == Config("old", Some(D.Rule)) && MoveAll(SampleSession(), moves).core == Config("old", Some(D.Global))
  {
    var moves := [SetMode(D.Rule), Switch(Request("b", "", SampleEnv(true, Failed(false))))];
    assert moves[..1][..0] == [] && moves[..1] == [SetMode(D.Rule)];
    assert D.KnownMode("global") by {
      D.ModesAreKnown(D.Global);
    }
    assert D.ValidState(D.INITIAL);
    var first := moves[..1];
    assert Orderly(SampleSession(), first[..0]) && first[|first| - 1] == SetMode(D.Rule);
    assert Orderly(SampleSession(), first) && MoveAll(SampleSession(), first) == Moved(SampleSession(), SetMode(D.Rule));
  }

  /** A switch that finds the owner dead answers SessionNotRunning and has cleared file and record. */
  lemma DeadSessionCleared()
    ensures var r := Request("b", "", SampleEnv(false, Complete));
      && Switched(SampleSession(), r).1 == Err(SessionNotRunning)
      && Switched(SampleSession(), r).0.runtimeFile == None && Switched(SampleSession(), r).0.record == None
  {
  }

  /** Neither writer undoes the other: a switch and a child restart that both succeed commute. */
  lemma SwitchAndRestartCommute(s: Session, r: Request, mine: Record, pid: nat, ticks: nat, env: Env)
    requires Switched(s, r).1.Ok? && ChildUpdated(s, mine, Some(pid), Some(ticks), env).1.Ok?
    ensures var switchedFirst := ChildUpdated(Switched(s, r).0, mine, Some(pid), Some(ticks), env);
      var restartedFirst := Switched(ChildUpdated(s, mine, Some(pid), Some(ticks), env).0, r);
      && switchedFirst.1.Ok? && restartedFirst.1.Ok?
      && switchedFirst.0 == restartedFirst.0
      && switchedFirst.0.record == Some(s.record.value.(profile := r.profile, pid := pid, ticks := ticks))
  {
    hide D.Served, D.Opened;
  }
}
