/**
 The persistent record of what the user wants: read, changed, validated and rewritten under a
 lock. The profile digest is passed in; lengths are counted in characters.
 */
module DesiredState {
  import opened Wrappers
  import opened Sequences
  import opened Names

  const STATE_SCHEMA_VERSION: nat := 1
  const MAX_SELECTIONS: nat := 128
  const MAX_KNOWN_GOOD: nat := 4
  const MAX_NAME_BYTES: nat := 512

  /** The core's own selector over all nodes. */
  const GLOBAL_GROUP := "GLOBAL"

  datatype Mode = Rule | Global | Direct

  datatype KnownGood = KnownGood(name: string, verified: nat)

  datatype State = State(
    schemaVersion: nat, activeProfile: Option<string>, digest: Option<string>, mode: string,
    selections: map<string, string>, knownGood: map<string, seq<KnownGood>>, lastRecovery: Option<nat>)

  datatype Error = Busy | Lock | Read | Invalid | Write

  /** What the file system does during one call. `fits`: the serialised state is within the size limit. */
  datatype Env = Env(lock: Locking, read: Reading, fits: bool, write: Written)

  datatype Call =
    | RecordProfile(id: string, digest: string)
    | RecordRuntime(id: string, digest: string, mode: Mode)
    | RecordMode(mode: Mode)
    | RecordPolicySelection(group: string, selection: string)
    | RecordSelection(group: string, selection: string)
    | RecordHealthy(group: string, selection: string, verified: nat)
    | MarkRecoveryAttempt(at: nat)

  function ModeText(mode: Mode): string {
    match mode
    case Rule => "rule"
    case Global => "global"
    case Direct => "direct"
  }

  function LowerChar(c: char): char { if 'A' <= c <= 'Z' then (c as int + 32) as char else c }

  function Lower(s: string): string { seq(|s|, i requires 0 <= i < |s| => LowerChar(s[i])) }

  predicate KnownMode(mode: string) {
    var m := Lower(mode);
    m == "rule" || m == "global" || m == "direct"
  }

  predicate ValidName(name: string) { NameWithin(name, MAX_NAME_BYTES) }

  predicate ValidDigest(digest: string) {
    |digest| == 64 && forall i :: 0 <= i < 64 ==> '0' <= digest[i] <= '9' || 'a' <= digest[i] <= 'f'
  }

  predicate ValidProfilePart(profile: Option<string>, digest: Option<string>) {
    match profile
    case None => digest.None?
    case Some(id) => ValidProfileId(id) && digest.Some? && ValidDigest(digest.value)
  }

  predicate ValidEntries(entries: seq<KnownGood>) {
    |entries| <= MAX_KNOWN_GOOD && forall e :: e in entries ==> ValidName(e.name)
  }

  predicate ValidNames(selections: map<string, string>) {
    forall group :: group in selections ==> ValidName(group) && ValidName(selections[group])
  }

  predicate ValidSelections(selections: map<string, string>) {
    |selections| <= MAX_SELECTIONS && ValidNames(selections)
  }

  predicate ValidKnownGood(knownGood: map<string, seq<KnownGood>>) {
    && |knownGood| <= MAX_SELECTIONS
    && forall group :: group in knownGood ==> ValidName(group) && ValidEntries(knownGood[group])
  }

  predicate ValidState(s: State) {
    && s.schemaVersion == STATE_SCHEMA_VERSION
    && KnownMode(s.mode)
    && ValidProfilePart(s.activeProfile, s.digest)
    && ValidSelections(s.selections)
    && ValidKnownGood(s.knownGood)
  }

  const INITIAL: State := State(STATE_SCHEMA_VERSION, None, None, "global", map[], map[], None)

  /** A missing file reads as the initial state. */
  function Current(file: Option<State>): State { if file.Some? then file.value else INITIAL }

  function OtherName(name: string): KnownGood -> bool { (e: KnownGood) => e.name != name }

  function Remember(entries: seq<KnownGood>, e: KnownGood): seq<KnownGood> {
    Take([e] + Filter(entries, OtherName(e.name)), MAX_KNOWN_GOOD)
  }

  function EntriesOf(s: State, group: string): seq<KnownGood> {
    if group in s.knownGood then s.knownGood[group] else []
  }

  function ForProfile(s: State, id: string, digest: string): State {
    var kept := if s.activeProfile == Some(id) then s else s.(selections := map[], knownGood := map[]);
    kept.(activeProfile := Some(id), digest := Some(digest))
  }

  function Updated(s: State, call: Call): State {
    match call
    case RecordProfile(id, digest) => ForProfile(s, id, digest)
    case RecordRuntime(id, digest, mode) => ForProfile(s, id, digest).(mode := ModeText(mode))
    case RecordMode(mode) => s.(mode := ModeText(mode))
    case RecordPolicySelection(group, selection) =>
      s.(selections := s.selections[GLOBAL_GROUP := group][group := selection])
    case RecordSelection(group, selection) => s.(selections := s.selections[group := selection])
    case RecordHealthy(group, selection, verified) =>
      s.(knownGood := s.knownGood[group := Remember(EntriesOf(s, group), KnownGood(selection, verified))])
    case MarkRecoveryAttempt(at) => s.(lastRecovery := Some(at))
  }

  predicate ValidArguments(call: Call) {
    match call
    case RecordProfile(id, _) => ValidProfileId(id)
    case RecordRuntime(id, _, _) => ValidProfileId(id)
    case RecordPolicySelection(group, selection) => ValidName(group) && ValidName(selection)
    case RecordSelection(group, selection) => ValidName(group) && ValidName(selection)
    case RecordHealthy(group, selection, _) => ValidName(group) && ValidName(selection)
    case _ => true
  }

  /** Lock, read and validate. */
  function Opened(file: Option<State>, env: Env): Result<State, Error> {
    match env.lock
    case Held => Err(Busy)
    case Broken => Err(Lock)
    case Free =>
      match env.read
      case Unreadable => Err(Read)
      case Malformed => Err(Invalid)
      case Readable => if ValidState(Current(file)) then Ok(Current(file)) else Err(Invalid)
  }

  /** The file and the answer after one call. */
  function Served(file: Option<State>, call: Call, env: Env): (Option<State>, Option<Error>) {
    if !ValidArguments(call) then (file, Some(Invalid))
    else if Opened(file, env).Err? then (file, Some(Opened(file, env).error))
    else
      var before := Current(file);
      var after := Updated(before, call);
      if !ValidState(after) || !env.fits then (file, Some(Invalid))
      else
        match env.write
        case Complete => (Some(after), None)
        case Failed(applied) => (if applied then Some(after) else file, Some(Write))
  }

  // ---- the file rewritten by the store's methods ----

  class DesiredStateStore {
    var file: Option<State>

    constructor ()
      ensures file == None
    {
      file := None;
    }

    method Load(env: Env) returns (s: Result<State, Error>)
      ensures s == Opened(file, env)
    {
      if env.lock.Held? { return Err(Busy); }
      if env.lock.Broken? { return Err(Lock); }
      if env.read.Unreadable? { return Err(Read); }
      if env.read.Malformed? { return Err(Invalid); }
      var current := if file.Some? then file.value else INITIAL;
      return if ValidState(current) then Ok(current) else Err(Invalid);
    }

    /** Validates and writes; a write that fails after its rename has still replaced the file. */
    method Store(s: State, env: Env) returns (error: Option<Error>)
      modifies this
      ensures (file, error) == if !ValidState(s) || !env.fits then (old(file), Some(Invalid))
                               else if env.write.Complete? then (Some(s), None)
                               else (if env.write.applied then Some(s) else old(file), Some(Write))
    {
      if !ValidState(s) || !env.fits { return Some(Invalid); }
      if env.write.Complete? || env.write.applied {
        file := Some(s);
      }
      return if env.write.Complete? then None else Some(Write);
    }

    method RecordProfile(id: string, digest: string, env: Env) returns (error: Option<Error>)
      modifies this
      ensures (file, error) == Served(old(file), Call.RecordProfile(id, digest), env)
    {
      if !ValidProfileId(id) { return Some(Invalid); }
      var loaded := Load(env);
      if loaded.Err? { return Some(loaded.error); }
      var s := loaded.value;
      if s.activeProfile != Some(id) {
        s := s.(selections := map[]);
        s := s.(knownGood := map[]);
      }
      s := s.(activeProfile := Some(id));
      s := s.(digest := Some(digest));
      error := Store(s, env);
    }

    method RecordRuntime(id: string, digest: string, mode: Mode, env: Env) returns (error: Option<Error>)
      modifies this
      ensures (file, error) == Served(old(file), Call.RecordRuntime(id, digest, mode), env)
    {
      if !ValidProfileId(id) { return Some(Invalid); }
      var loaded := Load(env);
      if loaded.Err? { return Some(loaded.error); }
      var s := loaded.value;
      if s.activeProfile != Some(id) {
        s := s.(selections := map[]);
        s := s.(knownGood := map[]);
      }
      s := s.(activeProfile := Some(id));
      s := s.(digest := Some(digest));
      s := s.(mode := ModeText(mode));
      error := Store(s, env);
    }

    method RecordMode(mode: Mode, env: Env) returns (error: Option<Error>)
      modifies this
      ensures (file, error) == Served(old(file), Call.RecordMode(mode), env)
    {
      var loaded := Load(env);
      if loaded.Err? { return Some(loaded.error); }
      error := Store(loaded.value.(mode := ModeText(mode)), env);
    }

    method RecordSelection(group: string, selection: string, env: Env) returns (error: Option<Error>)
      modifies this
      ensures (file, error) == Served(old(file), Call.RecordSelection(group, selection), env)
    {
      if !ValidName(group) || !ValidName(selection) { return Some(Invalid); }
      var loaded := Load(env);
      if loaded.Err? { return Some(loaded.error); }
      var s := loaded.value;
      error := Store(s.(selections := s.selections[group := selection]), env);
    }

    method MarkRecoveryAttempt(at: nat, env: Env) returns (error: Option<Error>)
      modifies this
      ensures (file, error) == Served(old(file), Call.MarkRecoveryAttempt(at), env)
    {
      var loaded := Load(env);
      if loaded.Err? { return Some(loaded.error); }
      error := Store(loaded.value.(lastRecovery := Some(at)), env);
    }

    method RecordPolicySelection(group: string, selection: string, env: Env) returns (error: Option<Error>)
      modifies this
      ensures (file, error) == Served(old(file), Call.RecordPolicySelection(group, selection), env)
    {
      if !ValidName(group) || !ValidName(selection) { return Some(Invalid); }
      var loaded := Load(env);
      if loaded.Err? { return Some(loaded.error); }
      var s := loaded.value;
      s := s.(selections := s.selections[GLOBAL_GROUP := group]);
      s := s.(selections := s.selections[group := selection]);
      error := Store(s, env);
    }

    method RecordHealthySelection(group: string, selection: string, verified: nat, env: Env) returns (error: Option<Error>)
      modifies this
      ensures (file, error) == Served(old(file), RecordHealthy(group, selection, verified), env)
    {
      if !ValidName(group) || !ValidName(selection) { return Some(Invalid); }
      var loaded := Load(env);
      if loaded.Err? { return Some(loaded.error); }
      var s := loaded.value;
      var entries := if group in s.knownGood then s.knownGood[group] else [];
      entries := Filter(entries, OtherName(selection));
      entries := [KnownGood(selection, verified)] + entries;
      if |entries| > MAX_KNOWN_GOOD {
        entries := entries[..MAX_KNOWN_GOOD];
      }
      s := s.(knownGood := s.knownGood[group := entries]);
      error := Store(s, env);
    }
  }

  // ---- which calls a valid state accepts ----

  lemma ModesAreKnown(mode: Mode)
    ensures KnownMode(ModeText(mode))
  {
    assert Lower(ModeText(mode)) == ModeText(mode);
  }

  lemma RememberedEntriesValid(entries: seq<KnownGood>, e: KnownGood)
    requires ValidEntries(entries) && ValidName(e.name)
    ensures ValidEntries(Remember(entries, e))
  {
    FilterMembers(entries, OtherName(e.name));
  }

  /** The second validation can fail only on a digest that is not one, or on one group too many. */
  predicate Accepts(s: State, call: Call) {
    match call
    case RecordProfile(_, digest) => ValidDigest(digest)
    case RecordRuntime(_, digest, _) => ValidDigest(digest)
    case RecordMode(_) => true
    case RecordPolicySelection(group, _) => |s.selections.Keys + {GLOBAL_GROUP, group}| <= MAX_SELECTIONS
    case RecordSelection(group, _) => |s.selections.Keys + {group}| <= MAX_SELECTIONS
    case RecordHealthy(group, _, _) => |s.knownGood.Keys + {group}| <= MAX_SELECTIONS
    case MarkRecoveryAttempt(_) => true
  }

  predicate AcceptedExactly(s: State, call: Call) {
    ValidState(Updated(s, call)) <==> Accepts(s, call)
  }

  lemma UpdateValidExactly(s: State, call: Call)
    requires ValidState(s) && ValidArguments(call)
    ensures ValidState(Updated(s, call)) <==> Accepts(s, call)
  {
    assert AcceptedExactly(s, call) by {
      hide AcceptedExactly, ValidState, ValidName, ValidProfileId;
      match call {
        case RecordProfile(id, digest) => ProfileAccepted(s, id, digest);
        case RecordRuntime(id, digest, mode) => RuntimeAccepted(s, id, digest, mode);
        case RecordMode(mode) => ModeAccepted(s, mode);
        case RecordPolicySelection(group, selection) => PolicySelectionAccepted(s, group, selection);
        case RecordSelection(group, selection) => SelectionAccepted(s, group, selection);
        case RecordHealthy(group, selection, verified) => HealthyAccepted(s, group, selection, verified);
        case MarkRecoveryAttempt(at) => AttemptAccepted(s, at);
      }
    }
    hide ValidState, Updated, Accepts;
  }

  lemma AttemptAccepted(s: State, at: nat)
    requires ValidState(s)
    ensures AcceptedExactly(s, MarkRecoveryAttempt(at))
  {
  }

  lemma ModeAccepted(s: State, mode: Mode)
    requires ValidState(s)
    ensures AcceptedExactly(s, RecordMode(mode))
  {
    ModeReplaced(s, mode);
    hide ValidState, ModeText;
  }

  lemma SelectionAccepted(s: State, group: string, selection: string)
    requires ValidState(s) && ValidName(group) && ValidName(selection)
    ensures AcceptedExactly(s, RecordSelection(group, selection))
  {
    NamesKept(s.selections, group, selection);
    KeysCounted(s.selections[group := selection], s.selections.Keys + {group});
    hide ValidNames, ValidKnownGood, ValidProfilePart, KnownMode;
  }

  lemma NamesKept(m: map<string, string>, group: string, selection: string)
    requires ValidNames(m) && ValidName(group) && ValidName(selection)
    ensures ValidNames(m[group := selection])
  {
    hide ValidName;
  }

  lemma KeysCounted<V>(m: map<string, V>, keys: set<string>)
    requires m.Keys == keys
    ensures |m| == |keys|
  {
    assert |m| == |m.Keys|;
  }

  lemma PolicySelectionAccepted(s: State, group: string, selection: string)
    requires ValidState(s) && ValidName(group) && ValidName(selection)
    ensures AcceptedExactly(s, RecordPolicySelection(group, selection))
  {
    assert ValidName(GLOBAL_GROUP);
    hide ValidName, ValidNames, ValidState;
    var call, names := RecordPolicySelection(group, selection), s.selections[GLOBAL_GROUP := group][group := selection];
    assert Updated(s, call) == s.(selections := names);
    assert Accepts(s, call) <==> |names| <= MAX_SELECTIONS by {
      TwoKeys(s.selections, GLOBAL_GROUP, group, selection);
    }
    hide Updated, Accepts;
    assert ValidState(s.(selections := names)) <==> |names| <= MAX_SELECTIONS by {
      NamesReplaced(s, GLOBAL_GROUP, group, selection);
    }
  }

  lemma NamesReplaced(s: State, first: string, group: string, selection: string)
    requires ValidState(s) && ValidName(first) && ValidName(group) && ValidName(selection)
    ensures var names := s.selections[first := group][group := selection];
      ValidState(s.(selections := names)) <==> |names| <= MAX_SELECTIONS
  {
    hide ValidName, ValidKnownGood, ValidProfilePart, KnownMode, ValidNames;
    NamesKept(s.selections, first, group);
    NamesKept(s.selections[first := group], group, selection);
  }

  lemma TwoKeys(m: map<string, string>, first: string, second: string, selection: string)
    ensures |m[first := second][second := selection]| == |m.Keys + {first, second}|
  {
    var two := m[first := second][second := selection];
    assert forall k :: k in two <==> k in m || k == first || k == second;
    KeysCounted(two, m.Keys + {first, second});
  }

  lemma ForProfileValid(s: State, id: string, digest: string)
    requires ValidState(s) && ValidProfileId(id)
    ensures ValidState(ForProfile(s, id, digest)) <==> ValidDigest(digest)
  {
    hide ValidName, ValidDigest, ValidProfileId, KnownMode;
    assert ValidProfilePart(Some(id), Some(digest)) <==> ValidDigest(digest);
    assert ValidSelections(map[]) && ValidKnownGood(map[]);
    hide ValidProfilePart, ValidSelections, ValidKnownGood;
  }

  lemma ProfileAccepted(s: State, id: string, digest: string)
    requires ValidState(s) && ValidProfileId(id)
    ensures AcceptedExactly(s, RecordProfile(id, digest))
  {
    ForProfileValid(s, id, digest);
    hide ForProfile, ValidState, ValidDigest;
  }

  lemma RuntimeAccepted(s: State, id: string, digest: string, mode: Mode)
    requires ValidState(s) && ValidProfileId(id)
    ensures AcceptedExactly(s, RecordRuntime(id, digest, mode))
  {
    ForProfileValid(s, id, digest);
    ModeReplaced(ForProfile(s, id, digest), mode);
    hide ForProfile, ValidState, ValidDigest, ModeText;
  }

  lemma ModeReplaced(s: State, mode: Mode)
    requires KnownMode(s.mode)
    ensures ValidState(s.(mode := ModeText(mode))) <==> ValidState(s)
  {
    ModesAreKnown(mode);
    hide ValidSelections, ValidKnownGood, ValidProfilePart, KnownMode, ModeText;
  }

  lemma HealthyAccepted(s: State, group: string, selection: string, verified: nat)
    requires ValidState(s) && ValidName(group) && ValidName(selection)
    ensures AcceptedExactly(s, RecordHealthy(group, selection, verified))
  {
    RememberedEntriesValid(EntriesOf(s, group), KnownGood(selection, verified));
    OneList(s.knownGood, group, Remember(EntriesOf(s, group), KnownGood(selection, verified)));
    hide ValidSelections, ValidKnownGood, ValidProfilePart, KnownMode, Remember, EntriesOf;
  }

  lemma OneList(m: map<string, seq<KnownGood>>, group: string, entries: seq<KnownGood>)
    requires ValidKnownGood(m) && ValidName(group) && ValidEntries(entries)
    ensures ValidKnownGood(m[group := entries]) <==> |m.Keys + {group}| <= MAX_SELECTIONS
  {
    hide ValidName, ValidEntries;
    var after := m[group := entries];
    assert after.Keys == m.Keys + {group};
    assert |after| == |after.Keys|;
  }

  // ---- the bounded list against the full history ----

  function EntryNames(entries: seq<KnownGood>): seq<string> {
    if entries == [] then [] else EntryNames(entries[..|entries| - 1]) + [entries[|entries| - 1].name]
  }

  /** The unbounded most-recent-first list of a history. */
  function Recent(history: seq<KnownGood>): seq<KnownGood> {
    if history == [] then []
    else
      var last := history[|history| - 1];
      [last] + Filter(Recent(history[..|history| - 1]), OtherName(last.name))
  }

  ghost predicate DistinctNames(entries: seq<KnownGood>) {
    forall i, j :: 0 <= i < j < |entries| ==> entries[i].name != entries[j].name
  }

  lemma {:induction false} FilterKeepsAll(entries: seq<KnownGood>, name: string)
    requires forall e :: e in entries ==> e.name != name
    ensures Filter(entries, OtherName(name)) == entries
  {
    if entries != [] {
      var init := entries[..|entries| - 1];
      assert entries == init + [entries[|entries| - 1]];
      FilterKeepsAll(init, name);
    }
  }

  lemma DistinctSnoc(entries: seq<KnownGood>, e: KnownGood)
    requires DistinctNames(entries) && forall x :: x in entries ==> x.name != e.name
    ensures DistinctNames(entries + [e]) && DistinctNames([e] + entries)
  {
  }

  lemma {:induction false} FilterDistinct(entries: seq<KnownGood>, name: string)
    requires DistinctNames(entries)
    ensures DistinctNames(Filter(entries, OtherName(name)))
    ensures |Filter(entries, OtherName(name))| >= |entries| - 1
  {
    if entries != [] {
      var init, last := entries[..|entries| - 1], entries[|entries| - 1];
      FilterDistinct(init, name);
      FilterMembers(init, OtherName(name));
      assert forall e :: e in init ==> e.name != last.name;
      hide DistinctNames;
      if last.name == name {
        FilterKeepsAll(init, name);
      } else {
        DistinctSnoc(Filter(init, OtherName(name)), last);
      }
    }
  }

  /** Forgetting all but the newest four loses nothing that a later list of four would show. */
  lemma TruncatedRemember(entries: seq<KnownGood>, e: KnownGood)
    requires DistinctNames(entries)
    ensures Remember(Take(entries, MAX_KNOWN_GOOD), e) == Remember(entries, e)
  {
    if |entries| > MAX_KNOWN_GOOD {
      var front, back := entries[..MAX_KNOWN_GOOD], entries[MAX_KNOWN_GOOD..];
      assert entries == front + back;
      FilterConcat(front, back, OtherName(e.name));
      FilterDistinct(front, e.name);
    }
  }

  lemma {:induction false} RecentDistinct(history: seq<KnownGood>)
    ensures DistinctNames(Recent(history))
  {
    if history != [] {
      hide DistinctNames;
      var init, last := history[..|history| - 1], history[|history| - 1];
      RecentDistinct(init);
      FilterDistinct(Recent(init), last.name);
      FilterMembers(Recent(init), OtherName(last.name));
      DistinctSnoc(Filter(Recent(init), OtherName(last.name)), last);
    }
  }

  lemma RecentSnoc(history: seq<KnownGood>, e: KnownGood)
    ensures Take(Recent(history + [e]), MAX_KNOWN_GOOD) == Remember(Take(Recent(history), MAX_KNOWN_GOOD), e)
  {
    assert (history + [e])[..|history|] == history;
    RecentDistinct(history);
    TruncatedRemember(Recent(history), e);
  }

  function Reversed(names: seq<string>): seq<string> {
    if names == [] then [] else [names[|names| - 1]] + Reversed(names[..|names| - 1])
  }

  function Not(name: string): string -> bool { (x: string) => x != name }

  lemma DedupSnoc(names: seq<string>, name: string)
    ensures Dedup(names + [name]) == AddNew(Dedup(names), name)
  {
    AddAllNewAppend([], names, name);
  }

  /** A name put in front of a list is the first of its distinct names; its later copies vanish. */
  lemma {:induction false} DedupCons(name: string, names: seq<string>)
    ensures Dedup([name] + names) == [name] + Filter(Dedup(names), Not(name))
  {
    if names == [] {
      assert [name] + names == [] + [name];
      DedupSnoc([], name);
    } else {
      var init, last := names[..|names| - 1], names[|names| - 1];
      DedupCons(name, init);
      assert [name] + names == ([name] + init) + [last] && names == init + [last];
      DedupSnoc([name] + init, last);
      DedupSnoc(init, last);
      hide Dedup, Filter, AddAllNew;
      Reinsert(Dedup(init), name, last);
    }
  }

  lemma Reinsert(names: seq<string>, name: string, last: string)
    ensures AddNew([name] + Filter(names, Not(name)), last) == [name] + Filter(AddNew(names, last), Not(name))
  {
    var kept := Filter(names, Not(name));
    FilterIn(names, Not(name), last);
    FilterAppend(names, last, Not(name));
    hide Filter;
    if last == name {
      assert kept + [] == kept;
    } else {
      assert last in [name] + kept <==> last in names;
      assert ([name] + kept) + [last] == [name] + (kept + [last]);
    }
  }

  lemma FilterIn(names: seq<string>, keep: string -> bool, x: string)
    ensures x in Filter(names, keep) <==> x in names && keep(x)
  {
    FilterMembers(names, keep);
  }

  lemma {:induction false} FilterNames(entries: seq<KnownGood>, name: string)
    ensures EntryNames(Filter(entries, OtherName(name))) == Filter(EntryNames(entries), Not(name))
  {
    if entries != [] {
      var init, last := entries[..|entries| - 1], entries[|entries| - 1];
      FilterNames(init, name);
      FilterAppend(EntryNames(init), last.name, Not(name));
      assert OtherName(name)(last) == Not(name)(last.name);
      if last.name != name {
        EntryNamesSnoc(Filter(init, OtherName(name)), last);
      } else {
        assert Filter(init, OtherName(name)) + [] == Filter(init, OtherName(name));
      }
    }
  }

  lemma EntryNamesSnoc(entries: seq<KnownGood>, e: KnownGood)
    ensures EntryNames(entries + [e]) == EntryNames(entries) + [e.name]
  {
    assert (entries + [e])[..|entries|] == entries;
  }

  lemma {:induction false} EntryNamesCons(e: KnownGood, entries: seq<KnownGood>)
    ensures EntryNames([e] + entries) == [e.name] + EntryNames(entries)
  {
    if entries == [] {
      assert [e] + entries == [e];
    } else {
      var init := entries[..|entries| - 1];
      EntryNamesCons(e, init);
      assert ([e] + entries)[..|entries|] == [e] + init;
    }
  }

  /** By name, the list is the distinct names of the history read backwards. */
  lemma {:induction false} RecentNames(history: seq<KnownGood>)
    ensures EntryNames(Recent(history)) == Dedup(Reversed(EntryNames(history)))
  {
    if history != [] {
      var init, last := history[..|history| - 1], history[|history| - 1];
      RecentNames(init);
      EntryNamesCons(last, Filter(Recent(init), OtherName(last.name)));
      FilterNames(Recent(init), last.name);
      DedupCons(last.name, Reversed(EntryNames(init)));
      assert EntryNames(history)[..|history| - 1] == EntryNames(init) by {
        EntryNamesLength(init);
      }
      EntryNamesLength(init);
    }
  }

  lemma {:induction false} EntryNamesLength(entries: seq<KnownGood>)
    ensures |EntryNames(entries)| == |entries|
    ensures forall i :: 0 <= i < |entries| ==> EntryNames(entries)[i] == entries[i].name
  {
    if entries != [] {
      EntryNamesLength(entries[..|entries| - 1]);
    }
  }

  /** Each name keeps the time at which it was recorded last. */
  ghost predicate LastFor(history: seq<KnownGood>, e: KnownGood) {
    exists i :: 0 <= i < |history| && history[i] == e && forall j :: i < j < |history| ==> history[j].name != e.name
  }

  lemma LastForSnoc(history: seq<KnownGood>, last: KnownGood, e: KnownGood)
    ensures LastFor(history + [last], e) <==> (e == last || (e.name != last.name && LastFor(history, e)))
  {
    var longer := history + [last];
    assert longer[|history|] == last;
    if LastFor(longer, e) && e != last {
      var i :| 0 <= i < |longer| && longer[i] == e && forall j :: i < j < |longer| ==> longer[j].name != e.name;
      assert history[i] == e;
      assert forall j :: i < j < |history| ==> longer[j] == history[j];
    }
    if LastFor(history, e) && e.name != last.name {
      var i :| 0 <= i < |history| && history[i] == e && forall j :: i < j < |history| ==> history[j].name != e.name;
      assert longer[i] == e;
    }
  }

  lemma {:induction false} RecentIsLatest(history: seq<KnownGood>, e: KnownGood)
    ensures e in Recent(history) <==> LastFor(history, e)
  {
    if history != [] {
      var init, last := history[..|history| - 1], history[|history| - 1];
      RecentIsLatest(init, e);
      FilterMembers(Recent(init), OtherName(last.name));
      assert history == init + [last];
      LastForSnoc(init, last, e);
      hide LastFor;
    }
  }

  // ---- whole runs ----

  function ServedAll(calls: seq<(Call, Env)>): Option<State> {
    if calls == [] then None
    else Served(ServedAll(calls[..|calls| - 1]), calls[|calls| - 1].0, calls[|calls| - 1].1).0
  }

  /** The call reached the file, whatever it answered. */
  predicate Took(file: Option<State>, call: Call, env: Env) {
    var r := Served(file, call, env);
    r.1.None? || (r.1 == Some(Write) && env.write == Failed(true))
  }

  function Extended(history: seq<KnownGood>, before: State, call: Call, group: string): seq<KnownGood> {
    match call
    case RecordHealthy(g, selection, verified) => if g == group then history + [KnownGood(selection, verified)] else history
    case RecordProfile(id, _) => if before.activeProfile == Some(id) then history else []
    case RecordRuntime(id, _, _) => if before.activeProfile == Some(id) then history else []
    case _ => history
  }

  /** Every healthy recording of `group` that reached the file since the profile last changed. */
  function History(calls: seq<(Call, Env)>, group: string): seq<KnownGood> {
    if calls == [] then []
    else
      var init, last := calls[..|calls| - 1], calls[|calls| - 1];
      var earlier, file := History(init, group), ServedAll(init);
      if Took(file, last.0, last.1) then Extended(earlier, Current(file), last.0, group) else earlier
  }

  lemma TookUpdates(file: Option<State>, call: Call, env: Env)
    ensures Served(file, call, env).0 == if Took(file, call, env) then Some(Updated(Current(file), call)) else file
  {
  }

  /** Whatever is recorded, in whatever order and with whatever failures, what is on disk is valid. */
  lemma {:induction false} PersistedValid(calls: seq<(Call, Env)>)
    ensures ServedAll(calls).Some? ==> ValidState(ServedAll(calls).value)
  {
    if calls != [] {
      PersistedValid(calls[..|calls| - 1]);
    }
  }

  /** The stored list is the first four of the full most-recent-first list, although it forgot the rest. */
  lemma {:induction false} RecencyRefinesHistory(calls: seq<(Call, Env)>, group: string)
    ensures EntriesOf(Current(ServedAll(calls)), group) == Take(Recent(History(calls, group)), MAX_KNOWN_GOOD)
    ensures EntryNames(EntriesOf(Current(ServedAll(calls)), group))
         == Take(Dedup(Reversed(EntryNames(History(calls, group)))), MAX_KNOWN_GOOD)
  {
    RecencyStep(calls, group);
    var recent := Recent(History(calls, group));
    RecentNames(History(calls, group));
    EntryNamesLength(recent);
    EntryNamesLength(Take(recent, MAX_KNOWN_GOOD));
    assert EntryNames(Take(recent, MAX_KNOWN_GOOD)) == Take(EntryNames(recent), MAX_KNOWN_GOOD);
  }

  lemma UpdateExtends(history: seq<KnownGood>, before: State, call: Call, group: string)
    requires EntriesOf(before, group) == Take(Recent(history), MAX_KNOWN_GOOD)
    ensures EntriesOf(Updated(before, call), group) == Take(Recent(Extended(history, before, call, group)), MAX_KNOWN_GOOD)
  {
    if call.RecordHealthy? {
      RecentSnoc(history, KnownGood(call.selection, call.verified));
      hide Recent, Remember;
    }
  }

  lemma {:induction false} RecencyStep(calls: seq<(Call, Env)>, group: string)
    ensures EntriesOf(Current(ServedAll(calls)), group) == Take(Recent(History(calls, group)), MAX_KNOWN_GOOD)
  {
    if calls != [] {
      var init, last := calls[..|calls| - 1], calls[|calls| - 1];
      RecencyStep(init, group);
      TookUpdates(ServedAll(init), last.0, last.1);
      UpdateExtends(History(init, group), Current(ServedAll(init)), last.0, group);
      hide Served, Took, Recent, Remember, Extended, Updated;
    }
  }
}
