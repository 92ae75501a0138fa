/**
 The profile store: four files per profile, changed only by whole-file renames. An
 operation is a plan of renames; a crash or a failed rename leaves part of the plan done.
 How a policy is applied to a document and what makes a profile valid is left open (`Rulebook`).
 */
module Store {
  import opened Wrappers
  import PolicyApply

  datatype ApplyError = InvalidFallbackPolicy | OtherApplyError

  datatype Rulebook = Rulebook(
    apply: (PolicyApply.Policy, string) -> Result<string, ApplyError>,
    valid: string -> bool)

  datatype Source = Source(location: string, policy: Option<PolicyApply.Policy>)

  /** The live pair and the backup pair of one profile. */
  datatype Disk = Disk(source: Source, profile: string, backupSource: Option<Source>, backupProfile: Option<string>)

  datatype Rename =
    | ToBackupSource(s: Source)
    | ToBackupProfile(p: string)
    | ToSource(s: Source)
    | ToProfile(p: string)

  datatype Error =
    Load | Invalid | NoBackup | AlreadyExists | NotFound | InvalidId | Storage | PolicyRefused(reason: ApplyError)

  datatype Outcome = Done | Refused(error: Error)

  /** An operation together with what its download returned. */
  datatype Op =
    | Update(raw: Option<string>)
    | ReplaceSource(source: Source, raw: Option<string>)
    | ConfigurePolicy(group: string, logPathAbsolute: bool, raw: Option<string>)
    | DisablePolicy(raw: Option<string>)
    | Rollback

  function Do(d: Disk, r: Rename): Disk {
    match r
    case ToBackupSource(s) => d.(backupSource := Some(s))
    case ToBackupProfile(p) => d.(backupProfile := Some(p))
    case ToSource(s) => d.(source := s)
    case ToProfile(p) => d.(profile := p)
  }

  function Replay(d: Disk, renames: seq<Rename>): Disk
    decreases |renames|
  {
    if renames == [] then d else Replay(Do(d, renames[0]), renames[1..])
  }

  // ---- what each operation sets out to do ----

  function UpdatePlan(d: Disk, contents: string): seq<Rename> {
    [ToBackupSource(d.source), ToBackupProfile(d.profile), ToProfile(contents)]
  }

  function ReplacePlan(d: Disk, source: Source, contents: string): seq<Rename> {
    [ToBackupSource(d.source), ToBackupProfile(d.profile), ToSource(source), ToProfile(contents)]
  }

  /** The profile files are swapped first, the source files after them. */
  function RollbackPlan(d: Disk): seq<Rename>
    requires d.backupProfile.Some?
  {
    [ToBackupProfile(d.profile), ToProfile(d.backupProfile.value)]
    + (if d.backupSource.Some? then [ToBackupSource(d.source), ToSource(d.backupSource.value)] else [])
  }

  function ApplySource(rb: Rulebook, source: Source, raw: string): Result<string, ApplyError> {
    if source.policy.Some? then rb.apply(source.policy.value, raw) else Ok(raw)
  }

  /** Download, apply the source's policy, validate. */
  function Loaded(rb: Rulebook, source: Source, raw: Option<string>): Result<string, Error> {
    if raw.None? then Err(Load)
    else
      match ApplySource(rb, source, raw.value)
      case Err(e) => Err(PolicyRefused(e))
      case Ok(contents) => if rb.valid(contents) then Ok(contents) else Err(Invalid)
  }

  /** The new pair of a source replacement: an inherited policy that no longer fits is dropped. */
  function Replacement(rb: Rulebook, previous: Source, source: Source, raw: Option<string>)
    : Result<(Source, string), Error>
  {
    var inherited := source.policy.None? && previous.policy.Some?;
    var next := if inherited then source.(policy := previous.policy) else source;
    if raw.None? then Err(Load)
    else if !rb.valid(raw.value) then Err(Invalid)
    else
      match ApplySource(rb, next, raw.value)
      case Err(e) =>
        if e == InvalidFallbackPolicy && inherited then Ok((next.(policy := None), raw.value)) else Err(PolicyRefused(e))
      case Ok(contents) => if rb.valid(contents) then Ok((next, contents)) else Err(Invalid)
  }

  function ManagedPolicy(group: string, logPathAbsolute: bool): PolicyApply.Policy {
    PolicyApply.Policy(group, None, true, logPathAbsolute)
  }

  function Planned(rb: Rulebook, d: Disk, op: Op): Result<seq<Rename>, Error> {
    match op
    case Update(raw) =>
      (match Loaded(rb, d.source, raw)
       case Err(e) => Err(e)
       case Ok(contents) => Ok(UpdatePlan(d, contents)))
    case ReplaceSource(source, raw) =>
      (match Replacement(rb, d.source, source, raw)
       case Err(e) => Err(e)
       case Ok(next) => Ok(ReplacePlan(d, next.0, next.1)))
    case ConfigurePolicy(group, absolute, raw) =>
      var policy := ManagedPolicy(group, absolute);
      if !PolicyApply.ValidPolicy(policy) then Err(PolicyRefused(InvalidFallbackPolicy))
      else
        (match Loaded(rb, d.source.(policy := Some(policy)), raw)
         case Err(e) => Err(e)
         case Ok(contents) => Ok(ReplacePlan(d, d.source.(policy := Some(policy)), contents)))
    case DisablePolicy(raw) =>
      (match Loaded(rb, d.source.(policy := None), raw)
       case Err(e) => Err(e)
       case Ok(contents) => Ok(ReplacePlan(d, d.source.(policy := None), contents)))
    case Rollback =>
      if d.backupProfile.None? then Err(NoBackup)
      else if !rb.valid(d.profile) || !rb.valid(d.backupProfile.value) then Err(Invalid)
      else Ok(RollbackPlan(d))
  }

  // ---- what an operation may have done when it returns or is cut short ----

  /** Part of one swap: a prefix of it, or its first rename undone. */
  predicate SwapSteps(first: Rename, second: Rename, undo: Rename, steps: seq<Rename>) {
    steps <= [first, second] || steps == [first, undo]
  }

  predicate RollbackSteps(d: Disk, steps: seq<Rename>)
    requires d.backupProfile.Some?
  {
    var plan := RollbackPlan(d);
    || steps <= plan
    || steps == [plan[0], ToBackupProfile(d.backupProfile.value)]
    || (d.backupSource.Some? && steps == plan[..3] + [ToBackupSource(d.backupSource.value)])
  }

  /** The renames `steps` are all that `op` may have done from `d` when it reports `out`. */
  predicate Allowed(rb: Rulebook, d: Disk, op: Op, out: Outcome, steps: seq<Rename>) {
    match Planned(rb, d, op)
    case Err(e) => steps == [] && (out == Refused(e) || out == Refused(Storage))
    case Ok(plan) =>
      && (out == Done || out == Refused(Storage))
      && (out == Done ==> steps == plan)
      && (if op.Rollback? then RollbackSteps(d, steps) else steps <= plan)
  }

  // ---- the files changed in place ----

  /** `fails(k)` decides whether the k-th file operation fails. */
  class ProfileDirectory {
    const rb: Rulebook
    const fails: nat -> bool
    var operations: nat
    var source: Source
    var profile: string
    var backupSource: Option<Source>
    var backupProfile: Option<string>

    function Value(): Disk
      reads this
    {
      Disk(source, profile, backupSource, backupProfile)
    }

    constructor (rb: Rulebook, d: Disk, fails: nat -> bool)
      ensures Value() == d && this.rb == rb && this.fails == fails
    {
      this.rb, this.fails := rb, fails;
      operations := 0;
      source, profile, backupSource, backupProfile := d.source, d.profile, d.backupSource, d.backupProfile;
    }

    /** Reads, temporary writes or syncs: any may fail, and none changes one of the four files. */
    method Touch(times: nat) returns (ok: bool)
      modifies this`operations
    {
      ok := true;
      var i := 0;
      while i < times && ok {
        ok := !fails(operations);
        operations := operations + 1;
        i := i + 1;
      }
    }

    /** An atomic rename onto one of the four files. */
    method Move(r: Rename) returns (ok: bool)
      modifies this
      ensures Value() == if ok then Do(old(Value()), r) else old(Value())
    {
      ok := !fails(operations);
      operations := operations + 1;
      if ok {
        match r {
          case ToBackupSource(s) => backupSource := Some(s);
          case ToBackupProfile(p) => backupProfile := Some(p);
          case ToSource(s) => source := s;
          case ToProfile(p) => profile := p;
        }
      }
    }

    method ReplaceWithBackup(contents: string) returns (out: Outcome, ghost steps: seq<Rename>)
      modifies this
      ensures Value() == Replay(old(Value()), steps) && steps <= UpdatePlan(old(Value()), contents)
      ensures out == Refused(Storage) || (out == Done && steps == UpdatePlan(old(Value()), contents))
    {
      out, steps := Refused(Storage), [];
      var current, currentSource := profile, source;
      var ok := Touch(5);
      if !ok { return; }
      ok := Move(ToBackupSource(currentSource));
      if !ok { return; }
      ReplaySnoc(old(Value()), steps, ToBackupSource(currentSource));
      steps := steps + [ToBackupSource(currentSource)];
      ok := Move(ToBackupProfile(current));
      if !ok { return; }
      ReplaySnoc(old(Value()), steps, ToBackupProfile(current));
      steps := steps + [ToBackupProfile(current)];
      ok := Move(ToProfile(contents));
      if !ok { return; }
      ReplaySnoc(old(Value()), steps, ToProfile(contents));
      steps := steps + [ToProfile(contents)];
      ok := Touch(1);
      if ok { out := Done; }
    }

    method ReplaceSourceWithBackup(next: Source, contents: string) returns (out: Outcome, ghost steps: seq<Rename>)
      modifies this
      ensures Value() == Replay(old(Value()), steps) && steps <= ReplacePlan(old(Value()), next, contents)
      ensures out == Refused(Storage) || (out == Done && steps == ReplacePlan(old(Value()), next, contents))
    {
      out, steps := Refused(Storage), [];
      var current, currentSource := profile, source;
      var ok := Touch(6);
      if !ok { return; }
      ok := Move(ToBackupSource(currentSource));
      if !ok { return; }
      ReplaySnoc(old(Value()), steps, ToBackupSource(currentSource));
      steps := steps + [ToBackupSource(currentSource)];
      ok := Move(ToBackupProfile(current));
      if !ok { return; }
      ReplaySnoc(old(Value()), steps, ToBackupProfile(current));
      steps := steps + [ToBackupProfile(current)];
      ok := Move(ToSource(next));
      if !ok { return; }
      ReplaySnoc(old(Value()), steps, ToSource(next));
      steps := steps + [ToSource(next)];
      ok := Move(ToProfile(contents));
      if !ok { return; }
      ReplaySnoc(old(Value()), steps, ToProfile(contents));
      steps := steps + [ToProfile(contents)];
      ok := Touch(1);
      if ok { out := Done; }
    }

    /** If the second rename fails, the displaced backup is put back, if that works. */
    method Swap(first: Rename, second: Rename, undo: Rename) returns (ok: bool, ghost steps: seq<Rename>)
      modifies this
      ensures Value() == Replay(old(Value()), steps)
      ensures SwapSteps(first, second, undo, steps) && (ok ==> steps == [first, second])
    {
      steps := [];
      ok := Touch(2);
      if !ok { return; }
      ok := Move(first);
      if !ok { return; }
      steps := [first];
      ok := Move(second);
      if !ok {
        var undone := Move(undo);
        if undone {
          ReplaySnoc(old(Value()), steps, undo);
          steps := steps + [undo];
        }
        return;
      }
      ReplaySnoc(old(Value()), steps, second);
      steps := steps + [second];
      ok := Touch(1);
    }

    method UpdateProfile(raw: Option<string>) returns (out: Outcome, ghost steps: seq<Rename>)
      modifies this
      ensures Value() == Replay(old(Value()), steps)
      ensures Allowed(rb, old(Value()), Update(raw), out, steps)
    {
      out, steps := Refused(Storage), [];
      var ok := Touch(1);
      if !ok { return; }
      var contents := Loaded(rb, source, raw);
      if contents.Err? {
        out := Refused(contents.error);
        return;
      }
      out, steps := ReplaceWithBackup(contents.value);
    }

    method ReplaceProfileSource(next: Source, raw: Option<string>) returns (out: Outcome, ghost steps: seq<Rename>)
      modifies this
      ensures Value() == Replay(old(Value()), steps)
      ensures Allowed(rb, old(Value()), ReplaceSource(next, raw), out, steps)
    {
      out, steps := Refused(Storage), [];
      var ok := Touch(1);
      if !ok { return; }
      var pair := Replacement(rb, source, next, raw);
      if pair.Err? {
        out := Refused(pair.error);
        return;
      }
      out, steps := ReplaceSourceWithBackup(pair.value.0, pair.value.1);
    }

    method ConfigureProfilePolicy(group: string, logPathAbsolute: bool, raw: Option<string>)
      returns (out: Outcome, ghost steps: seq<Rename>)
      modifies this
      ensures Value() == Replay(old(Value()), steps)
      ensures Allowed(rb, old(Value()), ConfigurePolicy(group, logPathAbsolute, raw), out, steps)
    {
      out, steps := Refused(Storage), [];
      var ok := Touch(1);
      if !ok { return; }
      var policy := ManagedPolicy(group, logPathAbsolute);
      if !PolicyApply.ValidPolicy(policy) {
        out := Refused(PolicyRefused(InvalidFallbackPolicy));
        return;
      }
      var next := source.(policy := Some(policy));
      var contents := Loaded(rb, next, raw);
      if contents.Err? {
        out := Refused(contents.error);
        return;
      }
      out, steps := ReplaceSourceWithBackup(next, contents.value);
    }

    method DisableProfilePolicy(raw: Option<string>) returns (out: Outcome, ghost steps: seq<Rename>)
      modifies this
      ensures Value() == Replay(old(Value()), steps)
      ensures Allowed(rb, old(Value()), DisablePolicy(raw), out, steps)
    {
      out, steps := Refused(Storage), [];
      var ok := Touch(1);
      if !ok { return; }
      var next := source.(policy := None);
      var contents := Loaded(rb, next, raw);
      if contents.Err? {
        out := Refused(contents.error);
        return;
      }
      out, steps := ReplaceSourceWithBackup(next, contents.value);
    }

    method RollbackProfile() returns (out: Outcome, ghost steps: seq<Rename>)
      modifies this
      ensures Value() == Replay(old(Value()), steps)
      ensures Allowed(rb, old(Value()), Rollback, out, steps)
    {
      out, steps := Refused(Storage), [];
      if backupProfile.None? {
        out := Refused(NoBackup);
        return;
      }
      var current, backup := profile, backupProfile.value;
      var ok := Touch(2);
      if !ok { return; }
      if !rb.valid(current) || !rb.valid(backup) {
        out := Refused(Invalid);
        return;
      }
      var currentSource, displacedSource := source, backupSource;
      ok := Touch(if displacedSource.Some? then 2 else 0);
      if !ok { return; }
      ok, steps := Swap(ToBackupProfile(current), ToProfile(backup), ToBackupProfile(backup));
      if !ok { return; }
      if displacedSource.Some? {
        ghost var swapped, more := steps, [];
        ok, more := Swap(ToBackupSource(currentSource), ToSource(displacedSource.value), ToBackupSource(displacedSource.value));
        ReplayConcat(old(Value()), swapped, more);
        steps := swapped + more;
        if !ok { return; }
      }
      out := Done;
    }
  }

  lemma ReplaySnoc(d: Disk, steps: seq<Rename>, r: Rename)
    ensures Replay(d, steps + [r]) == Do(Replay(d, steps), r)
  {
    ReplayConcat(d, steps, [r]);
  }

  lemma {:induction false} ReplayConcat(d: Disk, a: seq<Rename>, b: seq<Rename>)
    ensures Replay(d, a + b) == Replay(Replay(d, a), b)
    decreases |a|
  {
    if a == [] {
      assert a + b == b;
    } else {
      assert (a + b)[1..] == a[1..] + b;
      ReplayConcat(Do(d, a[0]), a[1..], b);
    }
  }
}
