/** What the profile store keeps: after a cut-off operation, across a rollback, and over whole runs. */
module StoreRuns {
  import opened Wrappers
  import opened Names
  import opened Store

  predicate LiveHolds(d: Disk, source: Source, profile: string) {
    d.source == source && d.profile == profile
  }

  predicate BackupHolds(d: Disk, source: Source, profile: string) {
    d.backupSource == Some(source) && d.backupProfile == Some(profile)
  }

  /** The live pair of `before` is still whole somewhere in `after`. */
  predicate Recoverable(before: Disk, after: Disk) {
    LiveHolds(after, before.source, before.profile) || BackupHolds(after, before.source, before.profile)
  }

  // ---- a replacement cut short anywhere ----

  /** The plan of any operation but a rollback keeps the live pair and installs a new one. */
  lemma PlanShape(rb: Rulebook, d: Disk, op: Op) returns (plan: seq<Rename>, next: Source, contents: string)
    requires Planned(rb, d, op).Ok? && !op.Rollback?
    ensures plan == Planned(rb, d, op).value
    ensures plan == ReplacePlan(d, next, contents) || (plan == UpdatePlan(d, contents) && next == d.source)
    ensures rb.valid(contents) && exists raw :: ApplySource(rb, next, raw) == Ok(contents)
  {
    plan := Planned(rb, d, op).value;
    match op {
      case Update(raw) =>
        next, contents := d.source, Loaded(rb, d.source, raw).value;
        assert ApplySource(rb, next, raw.value) == Ok(contents);
      case ReplaceSource(source, raw) =>
        next, contents := Replacement(rb, d.source, source, raw).value.0, Replacement(rb, d.source, source, raw).value.1;
        assert ApplySource(rb, next, raw.value) == Ok(contents);
      case ConfigurePolicy(group, absolute, raw) =>
        next := d.source.(policy := Some(ManagedPolicy(group, absolute)));
        contents := Loaded(rb, next, raw).value;
        assert ApplySource(rb, next, raw.value) == Ok(contents);
      case DisablePolicy(raw) =>
        next := d.source.(policy := None);
        contents := Loaded(rb, next, raw).value;
        assert ApplySource(rb, next, raw.value) == Ok(contents);
    }
  }

  /** The first `k` renames of a replacement, written out. */
  lemma ReplacePrefix(d: Disk, next: Source, contents: string, k: nat)
    requires k <= 4
    ensures Replay(d, ReplacePlan(d, next, contents)[..k])
         == Disk(if k >= 3 then next else d.source, if k == 4 then contents else d.profile,
                 if k >= 1 then Some(d.source) else d.backupSource, if k >= 2 then Some(d.profile) else d.backupProfile)
  {
    ReplayPrefix(d, ReplacePlan(d, next, contents), k);
  }

  lemma UpdatePrefix(d: Disk, contents: string, k: nat)
    requires k <= 3
    ensures Replay(d, UpdatePlan(d, contents)[..k])
         == Disk(d.source, if k == 3 then contents else d.profile,
                 if k >= 1 then Some(d.source) else d.backupSource, if k >= 2 then Some(d.profile) else d.backupProfile)
  {
    ReplayPrefix(d, UpdatePlan(d, contents), k);
  }

  lemma ReplayPrefix(d: Disk, plan: seq<Rename>, k: nat)
    requires k <= |plan| <= 4
    ensures k == 0 ==> Replay(d, plan[..k]) == d
    ensures k == 1 ==> Replay(d, plan[..k]) == Do(d, plan[0])
    ensures k == 2 ==> Replay(d, plan[..k]) == Do(Do(d, plan[0]), plan[1])
    ensures k == 3 ==> Replay(d, plan[..k]) == Do(Do(Do(d, plan[0]), plan[1]), plan[2])
    ensures k == 4 ==> Replay(d, plan[..k]) == Do(Do(Do(Do(d, plan[0]), plan[1]), plan[2]), plan[3])
  {
    if k > 0 {
      assert plan[..k] == plan[..k - 1] + [plan[k - 1]];
      ReplaySnoc(d, plan[..k - 1], plan[k - 1]);
      ReplayPrefix(d, plan, k - 1);
    }
  }

  /**
   However an update or a replacement ends, the old live pair is whole in the live or in the
   backup files, it is the backup pair once both backup renames are done, and every file holds
   an old or a new value in full.
   */
  lemma CrashConsistent(rb: Rulebook, d: Disk, op: Op, out: Outcome, steps: seq<Rename>)
    requires Allowed(rb, d, op, out, steps) && !op.Rollback?
    ensures var after := Replay(d, steps);
      && Recoverable(d, after)
      && (|steps| >= 2 ==> BackupHolds(after, d.source, d.profile))
      && (after.backupSource == d.backupSource || after.backupSource == Some(d.source))
      && (after.backupProfile == d.backupProfile || after.backupProfile == Some(d.profile))
      && (steps != [] ==>
            var final := Replay(d, Planned(rb, d, op).value);
            && (after.source == d.source || after.source == final.source)
            && (after.profile == d.profile || after.profile == final.profile))
  {
    if Planned(rb, d, op).Ok? {
      var plan, next, contents := PlanShape(rb, d, op);
      assert plan[..|plan|] == plan && plan[..|steps|] == steps;
      if plan == UpdatePlan(d, contents) {
        UpdatePrefix(d, contents, |steps|);
        UpdatePrefix(d, contents, 3);
      } else {
        ReplacePrefix(d, next, contents, |steps|);
        ReplacePrefix(d, next, contents, 4);
      }
    }
  }

  /** Any disk at all: a completed operation leaves a coherent live pair and the old live pair as backup. */
  lemma CompletedIsCoherent(rb: Rulebook, d: Disk, op: Op)
    requires Planned(rb, d, op).Ok? && !op.Rollback?
    ensures var after := Replay(d, Planned(rb, d, op).value);
      Coherent(rb, after.source, after.profile) && BackupHolds(after, d.source, d.profile)
  {
    var plan, next, contents := PlanShape(rb, d, op);
    assert plan[..|plan|] == plan;
    if plan == UpdatePlan(d, contents) {
      UpdatePrefix(d, contents, 3);
    } else {
      ReplacePrefix(d, next, contents, 4);
    }
  }

  // ---- rollback ----

  lemma RollbackPrefix(d: Disk, k: nat)
    requires d.backupProfile.Some? && d.backupSource.Some? && k <= 4
    ensures Replay(d, RollbackPlan(d)[..k])
         == Disk(if k == 4 then d.backupSource.value else d.source, if k >= 2 then d.backupProfile.value else d.profile,
                 if k >= 3 then Some(d.source) else d.backupSource, if k >= 1 then Some(d.profile) else d.backupProfile)
  {
    ReplayPrefix(d, RollbackPlan(d), k);
  }

  /** A completed rollback exchanges the two pairs; a second one exchanges them back. */
  lemma RollbackExchanges(d: Disk)
    requires d.backupProfile.Some? && d.backupSource.Some?
    ensures var after := Replay(d, RollbackPlan(d));
      && after == Disk(d.backupSource.value, d.backupProfile.value, Some(d.source), Some(d.profile))
      && Replay(after, RollbackPlan(after)) == d
  {
    RollbackPrefix(d, 4);
    assert RollbackPlan(d)[..4] == RollbackPlan(d);
    var after := Replay(d, RollbackPlan(d));
    RollbackPrefix(after, 4);
    assert RollbackPlan(after)[..4] == RollbackPlan(after);
  }

  /** From wherever a replacement stopped after its two backup renames, rollback restores the old live pair. */
  lemma RollbackRestores(rb: Rulebook, d: Disk, op: Op, out: Outcome, steps: seq<Rename>)
    requires Allowed(rb, d, op, out, steps) && !op.Rollback? && |steps| >= 2
    requires rb.valid(d.profile)
    ensures var after := Replay(d, steps);
      && Planned(rb, after, Rollback).Ok?
      && LiveHolds(Replay(after, Planned(rb, after, Rollback).value), d.source, d.profile)
  {
    var plan, next, contents := PlanShape(rb, d, op);
    CrashConsistent(rb, d, op, out, steps);
    assert plan[..|steps|] == steps;
    if plan == UpdatePlan(d, contents) {
      UpdatePrefix(d, contents, |steps|);
    } else {
      ReplacePrefix(d, next, contents, |steps|);
    }
    RollbackExchanges(Replay(d, steps));
  }

  /** The profiles have changed places, the descriptors have not: where a rollback must not stop. */
  predicate BetweenSwaps(d: Disk, steps: seq<Rename>) {
    && d.backupProfile.Some? && d.backupSource.Some?
    && (steps == RollbackPlan(d)[..2] || steps == RollbackPlan(d)[..3] + [ToBackupSource(d.backupSource.value)])
  }

  /**
   A cut-off rollback keeps the old live pair whole exactly when it did not stop between the
   two swaps, or the two sources or the two profiles are equal anyway.
   */
  lemma RollbackWindow(d: Disk, steps: seq<Rename>)
    requires d.backupProfile.Some? && d.backupSource.Some? && RollbackSteps(d, steps)
    ensures Recoverable(d, Replay(d, steps))
       <==> (!BetweenSwaps(d, steps) || d.backupSource.value == d.source || d.backupProfile.value == d.profile)
  {
    var plan := RollbackPlan(d);
    if steps <= plan {
      assert steps == plan[..|steps|];
      RollbackPrefix(d, |steps|);
      assert steps == plan[..2] <==> |steps| == 2;
      assert |steps| == 4 ==> steps[3] == ToSource(d.backupSource.value);
    } else if steps == [plan[0], ToBackupProfile(d.backupProfile.value)] {
      ReplayPrefix(d, steps, 2);
      assert steps[..2] == steps;
      assert plan[..2][1] == plan[1] && steps[1] != plan[1];
    } else {
      ReplaySnoc(d, plan[..3], ToBackupSource(d.backupSource.value));
      RollbackPrefix(d, 3);
    }
  }

  /** A concrete case: a rollback that stops between the swaps mixes the pairs. */
  lemma RollbackWindowIsReal()
    ensures var d := Disk(Source("b", None), "new", Some(Source("a", None)), Some("old"));
      && RollbackSteps(d, RollbackPlan(d)[..2])
      && !Recoverable(d, Replay(d, RollbackPlan(d)[..2]))
      && Replay(d, RollbackPlan(d)[..2]) == Disk(Source("b", None), "old", Some(Source("a", None)), Some("new"))
  {
    var d := Disk(Source("b", None), "new", Some(Source("a", None)), Some("old"));
    RollbackPrefix(d, 2);
    assert "old"[0] != "new"[0] && "a"[0] != "b"[0];
  }

  // ---- whole runs over many profiles ----

  /** The profile is the descriptor's policy applied to some downloaded document, and valid. */
  ghost predicate Coherent(rb: Rulebook, source: Source, profile: string) {
    rb.valid(profile) && exists raw :: ApplySource(rb, source, raw) == Ok(profile)
  }

  ghost predicate Sound(rb: Rulebook, d: Disk) {
    && Coherent(rb, d.source, d.profile)
    && (d.backupSource.Some? <==> d.backupProfile.Some?)
    && (d.backupSource.Some? ==> Coherent(rb, d.backupSource.value, d.backupProfile.value))
  }

  /** `fault`: some file operation failed before the first rename. Every other request is carried out in full. */
  datatype Request =
    | Add(id: string, source: Source, raw: Option<string>, fault: bool)
    | Change(id: string, op: Op, fault: bool)

  function Added(rb: Rulebook, store: map<string, Disk>, id: string, source: Source, raw: Option<string>)
    : Result<Disk, Error>
  {
    if !ValidProfileId(id) then Err(InvalidId)
    else
      match Loaded(rb, source, raw)
      case Err(e) => Err(e)
      case Ok(contents) => if id in store then Err(AlreadyExists) else Ok(Disk(source, contents, None, None))
  }

  function Changed(rb: Rulebook, store: map<string, Disk>, id: string, op: Op): Result<Disk, Error> {
    if !ValidProfileId(id) then Err(InvalidId)
    else if id !in store then Err(NotFound)
    else
      match Planned(rb, store[id], op)
      case Err(e) => Err(e)
      case Ok(plan) => Ok(Replay(store[id], plan))
  }

  function Serve(rb: Rulebook, store: map<string, Disk>, r: Request): map<string, Disk> {
    var next := match r
      case Add(id, source, raw, _) => Added(rb, store, id, source, raw)
      case Change(id, op, _) => Changed(rb, store, id, op);
    if next.Ok? && !r.fault then store[r.id := next.value] else store
  }

  function ServeAll(rb: Rulebook, store: map<string, Disk>, requests: seq<Request>): map<string, Disk> {
    if requests == [] then store
    else Serve(rb, ServeAll(rb, store, requests[..|requests| - 1]), requests[|requests| - 1])
  }

  lemma ServeKeeps(rb: Rulebook, store: map<string, Disk>, r: Request)
    requires forall id :: id in store ==> Sound(rb, store[id])
    ensures forall id :: id in Serve(rb, store, r) ==> Sound(rb, Serve(rb, store, r)[id])
  {
    match r {
      case Add(id, source, raw, _) =>
        if Added(rb, store, id, source, raw).Ok? {
          assert ApplySource(rb, source, raw.value) == Ok(Loaded(rb, source, raw).value);
        }
      case Change(id, op, _) =>
        if Changed(rb, store, id, op).Ok? {
          if op.Rollback? {
            RollbackExchanges(store[id]);
          } else {
            CompletedIsCoherent(rb, store[id], op);
          }
        }
    }
  }

  /** Whatever a store that starts empty completes or never starts, every profile in it stays sound. */
  lemma {:induction false} StoreCoherent(rb: Rulebook, requests: seq<Request>)
    ensures forall id :: id in ServeAll(rb, map[], requests) ==> Sound(rb, ServeAll(rb, map[], requests)[id])
  {
    if requests != [] {
      StoreCoherent(rb, requests[..|requests| - 1]);
      ServeKeeps(rb, ServeAll(rb, map[], requests[..|requests| - 1]), requests[|requests| - 1]);
    }
  }

  /** In every reachable store, an operation cut short outside the rollback window leaves a coherent pair. */
  lemma CutShortStillCoherent(rb: Rulebook, requests: seq<Request>, id: string, op: Op, out: Outcome, steps: seq<Rename>)
    requires id in ServeAll(rb, map[], requests)
    requires Allowed(rb, ServeAll(rb, map[], requests)[id], op, out, steps)
    requires op.Rollback? ==> !BetweenSwaps(ServeAll(rb, map[], requests)[id], steps)
    ensures var after := Replay(ServeAll(rb, map[], requests)[id], steps);
      || Coherent(rb, after.source, after.profile)
      || (after.backupSource.Some? && after.backupProfile.Some?
          && Coherent(rb, after.backupSource.value, after.backupProfile.value))
  {
    StoreCoherent(rb, requests);
    var d := ServeAll(rb, map[], requests)[id];
    if op.Rollback? {
      if Planned(rb, d, op).Ok? {
        RollbackWindow(d, steps);
      }
    } else {
      CrashConsistent(rb, d, op, out, steps);
    }
  }
}
