/** Which step of a hot switch names its error, and what core, files and desired state then hold. */
module HotSwitchSteps {
  import opened Wrappers
  import opened Names
  import opened SessionRecord
  import opened HotSwitch
  import D = DesiredState

  /** A step that may fail, and the error that it fails with. */
  datatype Check = Check(fails: bool, error: Error)

  /** A stored state that can be read and is valid. */
  predicate Loads(file: Option<D.State>, env: D.Env) {
    env.lock.Free? && env.read.Readable? && (file.Some? ==> D.ValidState(file.value))
  }

  /** The desired state after the switch can be written. */
  predicate Writes(s: Session, r: Request) {
    && ValidProfileId(r.profile) && D.ValidDigest(r.digest)
    && Loads(s.desired, r.env.desiredWrite) && r.env.desiredWrite.fits
  }

  /** The preparation in order; nothing before the reload touches core or desired state. */
  function Preparation(s: Session, env: Env): seq<Check> {
    [Check(env.lock.Held?, SessionBusy),
     Check(env.lock.Broken?, SessionLock),
     Check(env.recordRead.Unreadable?, SessionRead),
     Check(env.recordRead.Malformed?, InvalidSession),
     Check(s.record.None?, SessionNotRunning),
     Check(!env.ownerAlive && !env.removal.directory.Complete?, RuntimeCleanup),
     Check(!env.ownerAlive && !env.removal.record.Complete?, SessionWrite),
     Check(!env.ownerAlive, SessionNotRunning),
     Check(env.prepared == Err(NoController), SessionReload),
     Check(env.prepared == Err(BadControllerUrl), InvalidSession),
     Check(env.prepared == Err(BadProfile), ProfileRefused),
     Check(s.runtimeFile.None? || !env.runtimeReadable, ProfileRefused),
     Check(!Loads(s.desired, env.desiredLoad), PersistentState)]
  }

  /** The four steps that are undone when one of them fails. */
  function Steps(s: Session, r: Request): seq<Check> {
    var env := r.env;
    [Check(env.reload.Rejected?, SessionReload),
     Check(!env.fileWrite.Complete?, ConfigurationWrite),
     Check(!env.recordWrite.Complete?, SessionWrite),
     Check(!Writes(s, r) || !env.desiredWrite.write.Complete?, PersistentState)]
  }

  /** The first step that fails, or none. */
  ghost predicate FirstFailure(checks: seq<Check>, k: int) {
    0 <= k < |checks| && checks[k].fails && forall i :: 0 <= i < k ==> !checks[i].fails
  }

  ghost predicate AllWork(checks: seq<Check>) {
    forall i :: 0 <= i < |checks| ==> !checks[i].fails
  }

  lemma FailsOrWorks(checks: seq<Check>)
    ensures AllWork(checks) <==> !exists k :: FirstFailure(checks, k)
  {
    if !AllWork(checks) {
      var k := SomeFirst(checks, 0);
    }
  }

  lemma {:induction false} SomeFirst(checks: seq<Check>, from: nat) returns (k: nat)
    requires from <= |checks| && !AllWork(checks) && forall i :: 0 <= i < from ==> !checks[i].fails
    ensures FirstFailure(checks, k)
    decreases |checks| - from
  {
    if checks[from].fails {
      k := from;
    } else {
      k := SomeFirst(checks, from + 1);
    }
  }

  /** Every step that has to be undone was. */
  predicate Undone(env: Env, k: int) {
    env.undoReload.Accepted? && (k > 0 ==> env.undoFile.Complete? && env.undoRecord.Complete?)
  }

  lemma Unrolled(s: Session, r: Request)
    ensures var c, env := Preparation(s, r.env), r.env;
      && |c| == 13
      && c[0].fails == env.lock.Held? && c[1].fails == env.lock.Broken?
      && c[2].fails == env.recordRead.Unreadable? && c[3].fails == env.recordRead.Malformed? && c[4].fails == s.record.None?
      && c[5].fails == (!env.ownerAlive && !env.removal.directory.Complete?)
      && c[6].fails == (!env.ownerAlive && !env.removal.record.Complete?) && c[7].fails == !env.ownerAlive
      && c[8].fails == (env.prepared == Err(NoController)) && c[9].fails == (env.prepared == Err(BadControllerUrl))
      && c[10].fails == (env.prepared == Err(BadProfile)) && c[11].fails == (s.runtimeFile.None? || !env.runtimeReadable)
      && (env.prepared.Ok? <==> !c[8].fails && !c[9].fails && !c[10].fails)
      && c[12].fails == !Loads(s.desired, env.desiredLoad)
    ensures var c, env := Steps(s, r), r.env;
      && |c| == 4
      && c[0].fails == env.reload.Rejected? && c[1].fails == !env.fileWrite.Complete?
      && c[2].fails == !env.recordWrite.Complete? && c[3].fails == (!Writes(s, r) || !env.desiredWrite.write.Complete?)
  {
    match r.env.prepared {
      case Ok(_) =>
      case Err(e) =>
        match e {
          case NoController =>
          case BadControllerUrl =>
          case BadProfile =>
        }
    }
  }

  lemma DesiredExactly(s: Session, r: Request)
    ensures D.Opened(s.desired, r.env.desiredLoad).Ok? <==> Loads(s.desired, r.env.desiredLoad)
    ensures D.Served(s.desired, D.RecordRuntime(r.profile, r.digest, LiveMode(s.core)), r.env.desiredWrite).1.Some?
       <==> Steps(s, r)[3].fails
    ensures D.Served(s.desired, D.RecordRuntime(r.profile, r.digest, LiveMode(s.core)), r.env.desiredWrite).0
         == if Writes(s, r) && r.env.desiredWrite.write != Failed(false)
            then Some(D.Updated(D.Current(s.desired), D.RecordRuntime(r.profile, r.digest, LiveMode(s.core)))) else s.desired
  {
    var call := D.RecordRuntime(r.profile, r.digest, LiveMode(s.core));
    assert D.ValidState(D.INITIAL) by {
      D.ModesAreKnown(D.Global);
    }
    if D.ValidState(D.Current(s.desired)) && D.ValidArguments(call) {
      D.UpdateValidExactly(D.Current(s.desired), call);
    }
    Unrolled(s, r);
    hide Steps, D.ValidState, D.ValidDigest, ValidProfileId, D.Updated, D.INITIAL;
  }

  /**
   A switch succeeds if and only if every step works; otherwise the first step that fails names the
   error, unless it had to be undone and was not.
   */
  lemma AnswerExactly(s: Session, r: Request)
    ensures Switched(s, r).1.Ok? <==> AllWork(Preparation(s, r.env)) && AllWork(Steps(s, r))
    ensures AllWork(Preparation(s, r.env)) && AllWork(Steps(s, r)) <==>
              !exists k :: FirstFailure(Preparation(s, r.env), k) || FirstFailure(Steps(s, r), k)
    ensures forall k :: FirstFailure(Preparation(s, r.env), k) ==>
              Switched(s, r).1 == Err(Preparation(s, r.env)[k].error)
    ensures AllWork(Preparation(s, r.env)) ==> forall k :: FirstFailure(Steps(s, r), k) ==>
              Switched(s, r).1 == Err(if Undone(r.env, k) then Steps(s, r)[k].error else SessionSwitchRollback)
  {
    DesiredExactly(s, r);
    Unrolled(s, r);
    FailsOrWorks(Preparation(s, r.env));
    FailsOrWorks(Steps(s, r));
    forall k | FirstFailure(Preparation(s, r.env), k)
      ensures Switched(s, r).1 == Err(Preparation(s, r.env)[k].error)
    {
      PreparationNames(s, r, k);
    }
    forall k | AllWork(Preparation(s, r.env)) && FirstFailure(Steps(s, r), k)
      ensures Switched(s, r).1 == Err(if Undone(r.env, k) then Steps(s, r)[k].error else SessionSwitchRollback)
    {
      StepNames(s, r, k);
    }
    hide D.Served, D.Opened, Loads, Writes, Undone;
  }

  lemma PreparationNames(s: Session, r: Request, k: nat)
    requires FirstFailure(Preparation(s, r.env), k)
    ensures Switched(s, r).1 == Err(Preparation(s, r.env)[k].error)
  {
    DesiredExactly(s, r);
    Unrolled(s, r);
    hide D.Served, D.Opened, Loads, Writes;
  }

  lemma StepNames(s: Session, r: Request, k: nat)
    requires AllWork(Preparation(s, r.env)) && FirstFailure(Steps(s, r), k)
    ensures Switched(s, r).1 == Err(if Undone(r.env, k) then Steps(s, r)[k].error else SessionSwitchRollback)
  {
    DesiredExactly(s, r);
    Unrolled(s, r);
    hide D.Served, D.Opened, Loads, Writes;
  }

  /** A switch that is refused before the reload leaves everything, but for the files of a dead session. */
  lemma RefusedExactly(s: Session, r: Request, k: nat)
    requires FirstFailure(Preparation(s, r.env), k)
    ensures var after, removal := Switched(s, r).0, r.env.removal;
      var dead := 5 <= k <= 7;
      && after.core == s.core && after.desired == s.desired
      && after.runtimeFile == (if dead && removal.directory != Failed(false) then None else s.runtimeFile)
      && after.record == (if dead && removal.directory == Complete && removal.record != Failed(false) then None else s.record)
  {
    DesiredExactly(s, r);
    Unrolled(s, r);
    hide D.Served, D.Opened, Loads, D.ValidDigest, ValidProfileId;
  }

  /**
   After a failed step the undo has reached whatever it could: the core runs the previous file, or what
   a rejected reload left; file and record are the previous ones, unless an undo that failed left the new.
   The desired state is the old one, unless its own write failed after replacing it.
   */
  lemma UndoneExactly(s: Session, r: Request, k: nat)
    requires AllWork(Preparation(s, r.env)) && FirstFailure(Steps(s, r), k)
    ensures s.runtimeFile.Some? && s.record.Some? && r.env.prepared.Ok?
    ensures var after, env := Switched(s, r).0, r.env;
      var next := Config(env.prepared.value, Some(if s.core.mode.Some? then s.core.mode.value else D.Global));
      var newFile := k > 1 || (k == 1 && env.fileWrite.applied);
      var newRecord := k > 2 || (k == 2 && env.recordWrite.applied);
      && after.core == (match env.undoReload case Accepted => s.runtimeFile.value case Rejected(left) => left)
      && after.runtimeFile == (if newFile && env.undoFile == Failed(false) then Some(next) else s.runtimeFile)
      && after.record == (if newRecord && env.undoRecord == Failed(false) then Some(s.record.value.(profile := r.profile)) else s.record)
      && after.desired == (if k == 3 && Writes(s, r) && env.desiredWrite.write == Failed(true)
                           then Some(D.Updated(D.Current(s.desired), D.RecordRuntime(r.profile, r.digest, LiveMode(s.core))))
                           else s.desired)
  {
    DesiredExactly(s, r);
    Unrolled(s, r);
    hide Writes, D.Opened, D.Served, Loads, D.Updated;
  }

  // ---- the record after a restart of the child ----

  function ChildSteps(s: Session, mine: Record, pid: Option<nat>, ticks: Option<nat>, env: Env): seq<Check> {
    var foreign := s.record.Some? && (s.record.value.identity.sessionId != mine.identity.sessionId
                                      || s.record.value.identity.runtimeDir != mine.identity.runtimeDir);
    [Check(pid.None? || ticks.None?, ProcessStatus),
     Check(env.lock.Broken?, SessionLock),
     Check(env.recordRead.Unreadable?, SessionRead),
     Check(env.recordRead.Malformed?, InvalidSession),
     Check(s.record.None?, SessionNotRunning),
     Check(foreign, InvalidSession),
     Check(!env.recordWrite.Complete?, SessionWrite)]
  }

  /** A restarted child reaches the record of its own session, which then differs in the process alone. */
  lemma ChildExactly(s: Session, mine: Record, pid: Option<nat>, ticks: Option<nat>, env: Env, k: nat)
    ensures var checks, r := ChildSteps(s, mine, pid, ticks, env), ChildUpdated(s, mine, pid, ticks, env);
      && (FirstFailure(checks, k) ==> r.1 == Err(checks[k].error) && (k < 6 || env.recordWrite == Failed(false) ==> r.0 == s))
      && (AllWork(checks) || (FirstFailure(checks, 6) && env.recordWrite == Failed(true)) ==>
            && s.record.Some? && pid.Some? && ticks.Some?
            && r.0 == s.(record := Some(s.record.value.(pid := pid.value, ticks := ticks.value)))
            && (r.1.Ok? ==> r.0.record == Some(r.1.value)))
      && (AllWork(checks) <==> r.1.Ok?)
  {
    var c := ChildSteps(s, mine, pid, ticks, env);
    assert c[0].fails == (pid.None? || ticks.None?) && c[1].fails == env.lock.Broken? && c[2].fails == env.recordRead.Unreadable?;
    assert c[3].fails == env.recordRead.Malformed? && c[4].fails == s.record.None? && c[6].fails == !env.recordWrite.Complete?;
    assert s.record.Some? ==> c[5].fails == !SameSession(s.record.value, mine);
  }
}
