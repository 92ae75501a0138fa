/** The persistent record told from the calls that reached it, for every run of calls and failures. */
module DesiredHistory {
  import opened Wrappers
  import opened Names
  import opened DesiredState

  /** The calls that reached the file, in order. */
  function Reached(calls: seq<(Call, Env)>): seq<Call> {
    if calls == [] then []
    else
      var init, last := calls[..|calls| - 1], calls[|calls| - 1];
      if Took(ServedAll(init), last.0, last.1) then Reached(init) + [last.0] else Reached(init)
  }

  predicate OfProfile(c: Call) { c.RecordProfile? || c.RecordRuntime? }

  predicate OfMode(c: Call) { c.RecordRuntime? || c.RecordMode? }

  predicate OfAttempt(c: Call) { c.MarkRecoveryAttempt? }

  /** The last call of a kind. */
  ghost predicate Last(h: seq<Call>, kind: Call -> bool, i: int) {
    0 <= i < |h| && kind(h[i]) && forall j :: i < j < |h| ==> !kind(h[j])
  }

  ghost predicate Never(h: seq<Call>, kind: Call -> bool) {
    forall i :: 0 <= i < |h| ==> !kind(h[i])
  }

  /** The last call that recorded a profile recorded this one. */
  ghost predicate Activates(h: seq<Call>, id: string) {
    exists i :: Last(h, OfProfile, i) && h[i].id == id
  }

  /** The call makes another profile current. */
  ghost predicate Replaces(h: seq<Call>, c: Call) {
    OfProfile(c) && !Activates(h, c.id)
  }

  ghost predicate Changes(h: seq<Call>, j: int)
    requires 0 <= j < |h|
  {
    Replaces(h[..j], h[j])
  }

  /** The call writes the selection of a group: its own, or for a policy also the global selector's. */
  predicate Sets(c: Call, group: string, selection: string) {
    || c == RecordSelection(group, selection)
    || (c.RecordPolicySelection? && group == c.group && selection == c.selection)
    || (c.RecordPolicySelection? && group == "GLOBAL" && c.group != "GLOBAL" && selection == c.group)
  }

  predicate Touches(c: Call, group: string) {
    || (c.RecordSelection? && c.group == group)
    || (c.RecordPolicySelection? && (group == c.group || group == "GLOBAL"))
  }

  /** The i-th call set the selection, and nothing has disturbed it since. */
  ghost predicate SetAt(h: seq<Call>, group: string, selection: string, i: int) {
    0 <= i < |h| && Sets(h[i], group, selection) && forall j :: i < j < |h| ==> !Touches(h[j], group) && !Changes(h, j)
  }

  /** Some call set the selection, and none has set the group again or changed the profile since. */
  ghost predicate StillSet(h: seq<Call>, group: string, selection: string) {
    exists i :: SetAt(h, group, selection, i)
  }

  predicate Spells(text: string, mode: Mode) {
    text == match mode case Rule => "rule" case Global => "global" case Direct => "direct"
  }

  ghost predicate ProfileOf(h: seq<Call>, s: State) {
    && (Never(h, OfProfile) ==> s.activeProfile == None && s.digest == None)
    && (forall i :: Last(h, OfProfile, i) ==> s.activeProfile == Some(h[i].id) && s.digest == Some(h[i].digest))
  }

  ghost predicate ModeOf(h: seq<Call>, s: State) {
    && (Never(h, OfMode) ==> s.mode == "global")
    && (forall i :: Last(h, OfMode, i) ==> Spells(s.mode, h[i].mode))
  }

  ghost predicate AttemptOf(h: seq<Call>, s: State) {
    && (Never(h, OfAttempt) ==> s.lastRecovery == None)
    && (forall i :: Last(h, OfAttempt, i) ==> s.lastRecovery == Some(h[i].at))
  }

  ghost predicate SelectionOf(h: seq<Call>, s: State, group: string, selection: string) {
    group in s.selections && s.selections[group] == selection <==> StillSet(h, group, selection)
  }

  ghost predicate SelectionsOf(h: seq<Call>, s: State) {
    forall group, selection :: SelectionOf(h, s, group, selection)
  }

  ghost predicate Tells(h: seq<Call>, s: State) {
    s.schemaVersion == 1 && ProfileOf(h, s) && ModeOf(h, s) && AttemptOf(h, s) && SelectionsOf(h, s)
  }

  // ---- one more call ----

  lemma LastSnoc(h: seq<Call>, c: Call, kind: Call -> bool, i: int)
    ensures Last(h + [c], kind, i) <==> if kind(c) then i == |h| else Last(h, kind, i)
    ensures Never(h + [c], kind) <==> Never(h, kind) && !kind(c)
  {
    var longer := h + [c];
    assert longer[|h|] == c;
    assert forall j :: 0 <= j < |h| ==> longer[j] == h[j];
  }

  lemma {:induction false} LastThere(h: seq<Call>, kind: Call -> bool)
    ensures Never(h, kind) || exists i :: Last(h, kind, i)
  {
    if h != [] {
      var init, c := h[..|h| - 1], h[|h| - 1];
      assert h == init + [c];
      LastThere(init, kind);
      if i :| Last(init, kind, i) {
        LastSnoc(init, c, kind, i);
      }
      LastSnoc(init, c, kind, |init|);
    }
  }

  /** What is current is what was recorded last. */
  lemma ActiveExactly(h: seq<Call>, s: State, id: string)
    requires ProfileOf(h, s)
    ensures Activates(h, id) <==> s.activeProfile == Some(id)
  {
    LastThere(h, OfProfile);
  }

  lemma ProfileSnoc(h: seq<Call>, s: State, c: Call)
    requires ProfileOf(h, s)
    ensures ProfileOf(h + [c], Updated(s, c))
  {
    var longer := h + [c];
    LastSnoc(h, c, OfProfile, 0);
    forall i | Last(longer, OfProfile, i)
      ensures Updated(s, c).activeProfile == Some(longer[i].id) && Updated(s, c).digest == Some(longer[i].digest)
    {
      LastSnoc(h, c, OfProfile, i);
      hide Last;
    }
    hide Last, Never, Remember;
  }

  lemma ModeSnoc(h: seq<Call>, s: State, c: Call)
    requires ModeOf(h, s)
    ensures ModeOf(h + [c], Updated(s, c))
  {
    var longer := h + [c];
    LastSnoc(h, c, OfMode, 0);
    forall i | Last(longer, OfMode, i) ensures Spells(Updated(s, c).mode, longer[i].mode) {
      LastSnoc(h, c, OfMode, i);
    }
    hide Last, Never, Remember;
  }

  lemma AttemptSnoc(h: seq<Call>, s: State, c: Call)
    requires AttemptOf(h, s)
    ensures AttemptOf(h + [c], Updated(s, c))
  {
    var longer := h + [c];
    LastSnoc(h, c, OfAttempt, 0);
    forall i | Last(longer, OfAttempt, i) ensures Updated(s, c).lastRecovery == Some(longer[i].at) {
      LastSnoc(h, c, OfAttempt, i);
    }
    hide Last, Never, Remember;
  }

  lemma SetAtSnoc(h: seq<Call>, c: Call, group: string, selection: string, i: int)
    ensures SetAt(h + [c], group, selection, i) <==>
              || (i == |h| && Sets(c, group, selection))
              || (SetAt(h, group, selection, i) && !Touches(c, group) && !Replaces(h, c))
  {
    var longer := h + [c];
    assert longer[|h|] == c && longer[..|h|] == h;
    forall j | 0 <= j < |h| ensures longer[j] == h[j] && (Changes(longer, j) <==> Changes(h, j)) {
      assert longer[..j] == h[..j];
    }
    assert Changes(longer, |h|) <==> Replaces(h, c);
    hide Sets, Touches, Replaces, Changes;
  }

  lemma StillSetSnoc(h: seq<Call>, c: Call, group: string, selection: string)
    ensures StillSet(h + [c], group, selection) <==>
              || Sets(c, group, selection)
              || (StillSet(h, group, selection) && !Touches(c, group) && !Replaces(h, c))
  {
    hide Sets, Touches, Replaces, SetAt;
    forall i ensures SetAt(h + [c], group, selection, i) <==>
                       || (i == |h| && Sets(c, group, selection))
                       || (SetAt(h, group, selection, i) && !Touches(c, group) && !Replaces(h, c))
    {
      SetAtSnoc(h, c, group, selection, i);
    }
    assert Sets(c, group, selection) ==> SetAt(h + [c], group, selection, |h|);
  }

  lemma SelectionSnoc(h: seq<Call>, s: State, c: Call, group: string, selection: string)
    requires ProfileOf(h, s) && SelectionOf(h, s, group, selection)
    ensures SelectionOf(h + [c], Updated(s, c), group, selection)
  {
    StillSetSnoc(h, c, group, selection);
    if OfProfile(c) {
      ActiveExactly(h, s, c.id);
    }
    hide ProfileOf, StillSet, Activates, Remember;
  }

  lemma TellsSnoc(h: seq<Call>, s: State, c: Call)
    requires Tells(h, s)
    ensures Tells(h + [c], Updated(s, c))
  {
    ProfileSnoc(h, s, c);
    ModeSnoc(h, s, c);
    AttemptSnoc(h, s, c);
    forall group, selection ensures SelectionOf(h + [c], Updated(s, c), group, selection) {
      SelectionSnoc(h, s, c, group, selection);
    }
    hide ProfileOf, ModeOf, AttemptOf, SelectionOf;
  }

  /**
   Whatever calls come, with whatever failures: profile, digest, mode and attempt time on disk are those
   of the last call that recorded them and reached the file, and exactly those selections are stored
   that were set and neither set again nor dropped by a change of profile since.
   */
  lemma {:induction false} FileExactly(calls: seq<(Call, Env)>)
    ensures Tells(Reached(calls), Current(ServedAll(calls)))
  {
    if calls != [] {
      var init, last := calls[..|calls| - 1], calls[|calls| - 1];
      FileExactly(init);
      TookUpdates(ServedAll(init), last.0, last.1);
      TellsSnoc(Reached(init), Current(ServedAll(init)), last.0);
      hide Served, Took, Updated, Tells;
    }
  }

  // ---- how each call is answered ----

  ghost predicate WellArgued(call: Call) {
    match call
    case RecordProfile(id, _) => WellFormedId(id)
    case RecordRuntime(id, _, _) => WellFormedId(id)
    case RecordPolicySelection(group, selection) => ProperName(group, 512) && ProperName(selection, 512)
    case RecordSelection(group, selection) => ProperName(group, 512) && ProperName(selection, 512)
    case RecordHealthy(group, selection, _) => ProperName(group, 512) && ProperName(selection, 512)
    case _ => true
  }

  /** The digest is one, and no 129th group is named. */
  ghost predicate HasRoom(s: State, call: Call) {
    match call
    case RecordProfile(_, digest) => |digest| == 64 && forall c :: c in digest ==> '0' <= c <= '9' || 'a' <= c <= 'f'
    case RecordRuntime(_, digest, _) => |digest| == 64 && forall c :: c in digest ==> '0' <= c <= '9' || 'a' <= c <= 'f'
    case RecordPolicySelection(group, _) => |s.selections.Keys + {"GLOBAL", group}| <= 128
    case RecordSelection(group, _) => |s.selections.Keys + {group}| <= 128
    case RecordHealthy(group, _, _) => |s.knownGood.Keys + {group}| <= 128
    case _ => true
  }

  lemma ArgumentsExactly(call: Call)
    ensures ValidArguments(call) <==> WellArgued(call)
  {
    match call {
      case RecordProfile(id, _) => IdExactly(id);
      case RecordRuntime(id, _, _) => IdExactly(id);
      case RecordPolicySelection(group, selection) => NameExactly(group, 512); NameExactly(selection, 512);
      case RecordSelection(group, selection) => NameExactly(group, 512); NameExactly(selection, 512);
      case RecordHealthy(group, selection, _) => NameExactly(group, 512); NameExactly(selection, 512);
      case _ =>
    }
    hide ValidProfileId, WellFormedId, NameWithin, ProperName;
  }

  lemma DigestExactly(digest: string)
    ensures ValidDigest(digest) <==> |digest| == 64 && forall c :: c in digest ==> '0' <= c <= '9' || 'a' <= c <= 'f'
  {
    if |digest| == 64 && forall c :: c in digest ==> '0' <= c <= '9' || 'a' <= c <= 'f' {
      assert forall i :: 0 <= i < 64 ==> digest[i] in digest;
    }
  }

  lemma RoomExactly(s: State, call: Call)
    ensures Accepts(s, call) <==> HasRoom(s, call)
  {
    if OfProfile(call) {
      DigestExactly(call.digest);
    }
    hide ValidDigest;
  }

  /**
   In every run, each call is answered by exactly the first thing that stands in its way: its arguments,
   the lock, the file, the room left, the write. Only a refused argument is found before the lock.
   */
  lemma AnswerExactly(calls: seq<(Call, Env)>, call: Call, env: Env)
    ensures Served(ServedAll(calls), call, env).1 ==
              if !WellArgued(call) then Some(Invalid)
              else if env.lock.Held? then Some(Busy)
              else if env.lock.Broken? then Some(Lock)
              else if env.read.Unreadable? then Some(Read)
              else if env.read.Malformed? || !HasRoom(Current(ServedAll(calls)), call) || !env.fits then Some(Invalid)
              else if env.write.Complete? then None else Some(Write)
  {
    PersistedValid(calls);
    var s := Current(ServedAll(calls));
    assert ValidState(INITIAL) by {
      ModesAreKnown(Global);
    }
    ArgumentsExactly(call);
    RoomExactly(s, call);
    if ValidArguments(call) {
      UpdateValidExactly(s, call);
    }
    hide ValidState, ValidArguments, WellArgued, Accepts, HasRoom, Updated, ServedAll;
  }
}
