/**
 Walks along the `now` pointers of a controller snapshot. The pointers may form
 cycles or leave the snapshot, so every walk keeps the set of names it has seen.
 */
module PointerWalk {
  import opened Wrappers
  import opened Sequences

  /** Proxy kinds that matter here; their names are compared ignoring ASCII case. */
  datatype Kind = Selector | Fallback | UrlTest | Other

  datatype Info = Info(kind: Kind, now: Option<string>, all: seq<string>)

  type Proxies = map<string, Info>

  /** Longest walk the leaf search follows. */
  const WALK_LIMIT: nat := 32

  /** Most candidates the general recovery tries. */
  const MAX_RECOVERY_CANDIDATES: nat := 4

  /** The k-th name on the pointer chain from `start`, if the chain is that long. */
  ghost function Nth(p: Proxies, start: string, k: nat): Option<string> {
    if k == 0 then Some(start)
    else
      var previous := Nth(p, start, k - 1);
      if previous.Some? && previous.value in p then p[previous.value].now else None
  }

  /** A true leaf: present, pointing nowhere and without members. */
  predicate IsLeaf(p: Proxies, name: string) {
    name in p && p[name].now.None? && p[name].all == []
  }

  predicate IsFallbackGroup(p: Proxies, name: string) {
    name in p && (p[name].kind.Fallback? || p[name].kind.UrlTest?)
  }

  /** The capped leaf search, as a function of the names already seen. */
  function LeafFrom(p: Proxies, name: string, seen: set<string>): Option<string>
    decreases WALK_LIMIT - |seen|
  {
    if name in seen || |seen| >= WALK_LIMIT then None
    else if name !in p then None
    else if p[name].now.Some? then LeafFrom(p, p[name].now.value, seen + {name})
    else if p[name].all == [] then Some(name)
    else None
  }

  function SelectedLeaf(p: Proxies, group: string): Option<string> {
    LeafFrom(p, group, {})
  }

  /** `selected_leaf`: the loop over a growing set of seen names. */
  method FindSelectedLeaf(p: Proxies, group: string) returns (r: Option<string>)
    ensures r == SelectedLeaf(p, group)
  {
    var name := group;
    var seen := {};
    while name !in seen && |seen| + 1 <= WALK_LIMIT
      invariant SelectedLeaf(p, group) == LeafFrom(p, name, seen)
      decreases WALK_LIMIT - |seen|
    {
      if name !in p {
        return None;
      }
      seen := seen + {name};
      var proxy := p[name];
      if proxy.now.Some? {
        name := proxy.now.value;
      } else {
        return if proxy.all == [] then Some(name) else None;
      }
    }
    return None;
  }

  /** The uncapped fallback search; only the finite snapshot bounds it. */
  predicate FallbackFrom(p: Proxies, name: string, visited: set<string>)
    decreases p.Keys - visited
  {
    if name in visited || name !in p then false
    else if IsFallbackGroup(p, name) then true
    else if p[name].now.None? then false
    else FallbackFrom(p, p[name].now.value, visited + {name})
  }

  predicate SelectedFallback(p: Proxies, selected: string) {
    FallbackFrom(p, selected, {})
  }

  /** `selected_fallback`: terminates because each round visits a new name of the snapshot. */
  method FindSelectedFallback(p: Proxies, selected: string) returns (r: bool)
    ensures r == SelectedFallback(p, selected)
  {
    var name := selected;
    var visited := {};
    while name !in visited
      invariant SelectedFallback(p, selected) == FallbackFrom(p, name, visited)
      decreases p.Keys - visited
    {
      if name !in p {
        return false;
      }
      visited := visited + {name};
      var info := p[name];
      if info.kind.Fallback? || info.kind.UrlTest? {
        return true;
      }
      if info.now.None? {
        return false;
      }
      name := info.now.value;
    }
    return false;
  }

  // ---- the chain itself ----

  lemma {:induction false} NthShift(p: Proxies, start: string, i: nat, j: nat, d: nat)
    requires Nth(p, start, i) == Nth(p, start, j)
    ensures Nth(p, start, i + d) == Nth(p, start, j + d)
  {
    if d > 0 {
      NthShift(p, start, i, j, d - 1);
    }
  }

  lemma {:induction false} NthStaysNone(p: Proxies, start: string, i: nat, k: nat)
    requires i <= k && Nth(p, start, i).None?
    ensures Nth(p, start, k).None?
  {
    if i < k {
      NthStaysNone(p, start, i, k - 1);
    }
  }

  lemma {:induction false} NthNext(p: Proxies, start: string, k: nat)
    requires start in p && p[start].now.Some?
    ensures Nth(p, start, k + 1) == Nth(p, p[start].now.value, k)
  {
    if k > 0 {
      NthNext(p, start, k - 1);
    }
  }

  ghost predicate FirstVisit(p: Proxies, start: string, k: nat) {
    forall m: nat :: m < k ==> Nth(p, start, m) != Nth(p, start, k)
  }

  /** Up to the first visit of its end, a chain never repeats a name. */
  lemma ChainDistinctAt(p: Proxies, start: string, k: nat, i: nat, j: nat)
    requires FirstVisit(p, start, k)
    requires i < j <= k
    ensures Nth(p, start, i) != Nth(p, start, j)
  {
    if Nth(p, start, i) == Nth(p, start, j) {
      NthShift(p, start, i, j, k - j);
      assert false;
    }
  }

  lemma LeafIsFirst(p: Proxies, start: string, k: nat)
    requires Nth(p, start, k).Some? && IsLeaf(p, Nth(p, start, k).value)
    ensures FirstVisit(p, start, k)
  {
    forall m: nat | m < k ensures Nth(p, start, m) != Nth(p, start, k) {
      if Nth(p, start, m) == Nth(p, start, k) {
        assert Nth(p, start, m + 1).None?;
        NthStaysNone(p, start, m + 1, k);
        assert false;
      }
    }
  }

  /** By pigeonhole, a leaf on the chain is met within as many steps as the snapshot has entries. */
  lemma LeafWithinSnapshot(p: Proxies, start: string, k: nat)
    requires Nth(p, start, k).Some? && IsLeaf(p, Nth(p, start, k).value)
    ensures k < |p|
  {
    LeafIsFirst(p, start, k);
    var names := seq(k + 1, i requires i >= 0 => Nth(p, start, i));
    forall i, j | 0 <= i < j < |names| ensures names[i] != names[j] {
      ChainDistinctAt(p, start, k, i, j);
    }
    var universe := set n | n in p.Keys :: Some(n);
    forall x | x in names ensures x in universe {
      var i: nat :| i <= k && x == Nth(p, start, i);
      if i < k && (x.None? || x.value !in p) {
        NthStaysNone(p, start, i + 1, k);
        assert false;
      }
    }
    Pigeonhole(names, universe);
    SomeImage(p.Keys);
  }

  lemma {:induction false} SomeImage(names: set<string>)
    ensures |set n | n in names :: Some(n)| == |names|
  {
    if names != {} {
      var x :| x in names;
      var rest := names - {x};
      SomeImage(rest);
      assert (set n | n in names :: Some(n)) == (set n | n in rest :: Some(n)) + {Some(x)};
    }
  }

  // ---- soundness and completeness of the two walks ----

  lemma {:induction false} LeafFromSound(p: Proxies, name: string, seen: set<string>) returns (k: nat)
    requires LeafFrom(p, name, seen).Some?
    ensures k + |seen| < WALK_LIMIT
    ensures Nth(p, name, k) == LeafFrom(p, name, seen)
    ensures IsLeaf(p, LeafFrom(p, name, seen).value)
    decreases WALK_LIMIT - |seen|
  {
    if p[name].now.Some? {
      var k' := LeafFromSound(p, p[name].now.value, seen + {name});
      NthNext(p, name, k');
      k := k' + 1;
    } else {
      k := 0;
    }
  }

  lemma {:induction false} LeafFromComplete(p: Proxies, name: string, seen: set<string>, k: nat)
    requires Nth(p, name, k).Some? && IsLeaf(p, Nth(p, name, k).value)
    requires k + |seen| < WALK_LIMIT
    requires forall i: nat :: i <= k && Nth(p, name, i).Some? ==> Nth(p, name, i).value !in seen
    ensures LeafFrom(p, name, seen) == Nth(p, name, k)
    decreases k
  {
    assert Nth(p, name, 0) == Some(name);
    if k > 0 {
      if name !in p || p[name].now.None? {
        NthStaysNone(p, name, 1, k);
        assert false;
      }
      var next := p[name].now.value;
      NthNext(p, name, k - 1);
      LeafIsFirst(p, name, k);
      forall i: nat | i <= k - 1 && Nth(p, next, i).Some?
        ensures Nth(p, next, i).value !in seen + {name}
      {
        NthNext(p, name, i);
        ChainDistinctAt(p, name, k, 0, i + 1);
      }
      LeafFromComplete(p, next, seen + {name}, k - 1);
    }
  }

  /** The leaf search answers `n` exactly when the chain reaches the true leaf `n` within 32 names. */
  lemma SelectedLeafExact(p: Proxies, group: string, n: string)
    ensures SelectedLeaf(p, group) == Some(n) <==>
            exists k: nat :: k < WALK_LIMIT && Nth(p, group, k) == Some(n) && IsLeaf(p, n)
  {
    if SelectedLeaf(p, group) == Some(n) {
      var k := LeafFromSound(p, group, {});
      assert k < WALK_LIMIT;
    }
    if k: nat :| k < WALK_LIMIT && Nth(p, group, k) == Some(n) && IsLeaf(p, n) {
      LeafFromComplete(p, group, {}, k);
    }
  }

  /** In a snapshot of at most 32 entries the cap never hides a leaf. */
  lemma SelectedLeafCapIrrelevant(p: Proxies, group: string, n: string)
    requires |p| <= WALK_LIMIT
    ensures SelectedLeaf(p, group) == Some(n) <==>
            exists k: nat :: Nth(p, group, k) == Some(n) && IsLeaf(p, n)
  {
    SelectedLeafExact(p, group, n);
    if k: nat :| Nth(p, group, k) == Some(n) && IsLeaf(p, n) {
      LeafWithinSnapshot(p, group, k);
    }
  }

  /** The search returns the start itself exactly when the start is a true leaf. */
  lemma LeafIsStart(p: Proxies, group: string)
    ensures SelectedLeaf(p, group) == Some(group) <==> IsLeaf(p, group)
  {
    if SelectedLeaf(p, group) == Some(group) {
      var k := LeafFromSound(p, group, {});
    }
  }

  ghost predicate MeetsFallback(p: Proxies, start: string, k: nat) {
    Nth(p, start, k).Some? && IsFallbackGroup(p, Nth(p, start, k).value)
  }

  lemma {:induction false} FallbackFromSound(p: Proxies, name: string, visited: set<string>) returns (k: nat)
    requires FallbackFrom(p, name, visited)
    ensures MeetsFallback(p, name, k)
    decreases p.Keys - visited
  {
    if IsFallbackGroup(p, name) {
      k := 0;
    } else {
      var k' := FallbackFromSound(p, p[name].now.value, visited + {name});
      NthNext(p, name, k');
      k := k' + 1;
    }
  }

  lemma {:induction false} FallbackFromComplete(p: Proxies, name: string, visited: set<string>, k: nat)
    requires MeetsFallback(p, name, k)
    requires forall m: nat :: m < k ==> !MeetsFallback(p, name, m)
    requires forall i: nat :: i <= k && Nth(p, name, i).Some? ==> Nth(p, name, i).value !in visited
    ensures FallbackFrom(p, name, visited)
    decreases k
  {
    assert Nth(p, name, 0) == Some(name);
    if k > 0 {
      assert !MeetsFallback(p, name, 0);
      if name !in p || p[name].now.None? {
        NthStaysNone(p, name, 1, k);
        assert false;
      }
      var next := p[name].now.value;
      NthNext(p, name, k - 1);
      assert MeetsFallback(p, name, k);
      forall m: nat | m < k ensures Nth(p, name, m) != Nth(p, name, k) {
        assert !MeetsFallback(p, name, m);
      }
      forall i: nat | i <= k - 1 && Nth(p, next, i).Some?
        ensures Nth(p, next, i).value !in visited + {name}
      {
        NthNext(p, name, i);
        ChainDistinctAt(p, name, k, 0, i + 1);
      }
      forall m: nat | m < k - 1 ensures !MeetsFallback(p, next, m) {
        NthNext(p, name, m);
        assert !MeetsFallback(p, name, m + 1);
      }
      FallbackFromComplete(p, next, visited + {name}, k - 1);
    }
  }

  lemma {:induction false} FirstFallback(p: Proxies, start: string, k: nat) returns (first: nat)
    requires MeetsFallback(p, start, k)
    ensures MeetsFallback(p, start, first)
    ensures forall m: nat :: m < first ==> !MeetsFallback(p, start, m)
  {
    if m: nat :| m < k && MeetsFallback(p, start, m) {
      first := FirstFallback(p, start, m);
    } else {
      first := k;
    }
  }

  /** The uncapped walk is true exactly when the chain meets a fallback or url-test group. */
  lemma SelectedFallbackExact(p: Proxies, selected: string)
    ensures SelectedFallback(p, selected) <==> exists k: nat :: MeetsFallback(p, selected, k)
  {
    if SelectedFallback(p, selected) {
      var k := FallbackFromSound(p, selected, {});
    }
    if k: nat :| MeetsFallback(p, selected, k) {
      var first := FirstFallback(p, selected, k);
      FallbackFromComplete(p, selected, {}, first);
    }
  }

  // ---- recovery candidates ----

  function NotCurrent(original: Option<string>): string -> bool {
    n => Some(n) != original
  }

  function ProfileFallback(p: Proxies): string -> bool {
    n => IsFallbackGroup(p, n)
  }

  function Kept(names: seq<string>, original: Option<string>): seq<string> {
    Dedup(Filter(names, NotCurrent(original)))
  }

  lemma KeptPush(names: seq<string>, n: string, original: Option<string>)
    ensures Kept(names + [n], original) ==
            if Some(n) == original then Kept(names, original) else AddNew(Kept(names, original), n)
  {
    var before := Filter(names, NotCurrent(original));
    FilterAppend(names, n, NotCurrent(original));
    if Some(n) == original {
      assert before + [] == before;
    } else {
      AddAllNewAppend([], before, n);
    }
  }

  /** Known-good names first, then the fallback groups of the global selector. */
  function CandidateNames(knownGood: seq<string>, p: Option<Proxies>, global: Option<Info>): seq<string> {
    if p.Some? && global.Some? then
      knownGood + Filter(global.value.all, ProfileFallback(p.value))
    else knownGood
  }

  /** The recovery boundary rule and the bounded, distinct choice list it leaves. */
  function Candidates(knownGood: seq<string>, p: Option<Proxies>, global: Option<Info>, original: Option<string>)
    : seq<string>
  {
    if p.Some? && original.Some? && SelectedFallback(p.value, original.value) then []
    else
      Take(Kept(CandidateNames(knownGood, p, global), original), MAX_RECOVERY_CANDIDATES)
  }

  /** First loop of `recovery_candidates`: the remembered healthy choices. */
  method RememberedChoices(knownGood: seq<string>, original: Option<string>) returns (candidates: seq<string>)
    ensures candidates == Kept(knownGood, original)
  {
    candidates := [];
    assert Kept([], original) == [];
    hide Kept;
    for i := 0 to |knownGood|
      invariant candidates == Kept(knownGood[..i], original)
    {
      KeptPush(knownGood[..i], knownGood[i], original);
      if Some(knownGood[i]) != original && knownGood[i] !in candidates {
        candidates := candidates + [knownGood[i]];
      }
      assert knownGood[..i + 1] == knownGood[..i] + [knownGood[i]];
    }
    assert knownGood[..|knownGood|] == knownGood;
  }

  /** What the second loop has after `i` names of the global selector. */
  ghost function KeptSoFar(names: seq<string>, p: Proxies, all: seq<string>, i: nat, original: Option<string>): seq<string>
    requires i <= |all|
  {
    Kept(names + Filter(all[..i], ProfileFallback(p)), original)
  }

  /** Second loop of `recovery_candidates`: the profile's own fallback groups. */
  method FallbackChoices(start: seq<string>, ghost names: seq<string>, p: Proxies, all: seq<string>, original: Option<string>)
    returns (candidates: seq<string>)
    requires start == Kept(names, original)
    ensures candidates == Kept(names + Filter(all, ProfileFallback(p)), original)
  {
    candidates := start;
    KeptEnds(names, p, all, original);
    hide KeptSoFar, Kept, Filter, IsFallbackGroup;
    for i := 0 to |all|
      invariant candidates == KeptSoFar(names, p, all, i, original)
    {
      NextFallback(names, p, all, i, original);
      if IsFallbackGroup(p, all[i]) && Some(all[i]) != original && all[i] !in candidates {
        candidates := candidates + [all[i]];
      }
    }
  }

  lemma KeptEnds(names: seq<string>, p: Proxies, all: seq<string>, original: Option<string>)
    ensures KeptSoFar(names, p, all, 0, original) == Kept(names, original)
    ensures KeptSoFar(names, p, all, |all|, original) == Kept(names + Filter(all, ProfileFallback(p)), original)
  {
    hide Kept;
    assert names + Filter(all[..0], ProfileFallback(p)) == names;
    assert all[..|all|] == all;
  }

  /** One turn of the second loop. */
  lemma NextFallback(names: seq<string>, p: Proxies, all: seq<string>, i: nat, original: Option<string>)
    requires i < |all|
    ensures var before := KeptSoFar(names, p, all, i, original);
            KeptSoFar(names, p, all, i + 1, original)
            == if IsFallbackGroup(p, all[i]) && Some(all[i]) != original && all[i] !in before then before + [all[i]] else before
  {
    hide Kept, Filter;
    var accepted := Filter(all[..i], ProfileFallback(p));
    FilterAppend(all[..i], all[i], ProfileFallback(p));
    assert all[..i + 1] == all[..i] + [all[i]];
    if IsFallbackGroup(p, all[i]) {
      KeptPush(names + accepted, all[i], original);
      assert names + (accepted + [all[i]]) == (names + accepted) + [all[i]];
    } else {
      assert accepted + [] == accepted;
    }
  }

  /** `recovery_candidates`; `global` is the entry whose name is GLOBAL, ignoring case. */
  method RecoveryCandidates(knownGood: seq<string>, p: Option<Proxies>, global: Option<Info>, original: Option<string>)
    returns (candidates: seq<string>)
    ensures candidates == Candidates(knownGood, p, global, original)
  {
    if p.Some? && original.Some? {
      var bounded := FindSelectedFallback(p.value, original.value);
      if bounded {
        return [];
      }
    }
    candidates := RememberedChoices(knownGood, original);
    if p.Some? && global.Some? {
      candidates := FallbackChoices(candidates, knownGood, p.value, global.value.all, original);
    }
    candidates := Take(candidates, MAX_RECOVERY_CANDIDATES);
  }

  /**
   At most four distinct choices, never the current one; none at all when the current
   selection lies on a chain through a fallback group.
   */
  lemma CandidatesBounded(knownGood: seq<string>, p: Option<Proxies>, global: Option<Info>, original: Option<string>)
    ensures var c := Candidates(knownGood, p, global, original);
            && |c| <= MAX_RECOVERY_CANDIDATES
            && NoDuplicates(c)
            && (original.Some? ==> original.value !in c)
            && (forall n :: n in c ==>
                  (n in knownGood
                   || (p.Some? && global.Some? && n in global.value.all && IsFallbackGroup(p.value, n))))
    ensures p.Some? && original.Some? && (exists k: nat :: MeetsFallback(p.value, original.value, k))
            ==> Candidates(knownGood, p, global, original) == []
  {
    if p.Some? && original.Some? {
      SelectedFallbackExact(p.value, original.value);
    }
    FilterMembers(CandidateNames(knownGood, p, global), NotCurrent(original));
    if p.Some? && global.Some? {
      FilterMembers(global.value.all, ProfileFallback(p.value));
    }
    var kept := Kept(CandidateNames(knownGood, p, global), original);
    DedupMeaning(Filter(CandidateNames(knownGood, p, global), NotCurrent(original)));
    assert original.Some? ==> !NotCurrent(original)(original.value);
    assert forall n :: n in Take(kept, MAX_RECOVERY_CANDIDATES) ==> n in kept;
  }

  // ---- which candidates, and in which order ----

  /** `m` stands in the list before any `n` does. */
  ghost predicate StandsBefore(names: seq<string>, m: string, n: string) {
    exists a :: 0 <= a < |names| && names[a] == m && n !in names[..a + 1]
  }

  /** Not the current choice, and remembered as healthy or a fallback group of the global selector. */
  ghost predicate Choosable(knownGood: seq<string>, p: Option<Proxies>, global: Option<Info>, original: Option<string>, n: string) {
    && original != Some(n)
    && (n in knownGood
        || (p.Some? && global.Some? && n in global.value.all
            && n in p.value && (p.value[n].kind == Fallback || p.value[n].kind == UrlTest)))
  }

  /** Remembered names come first, in their order; the others follow in the order of the global selector. */
  ghost predicate Ahead(knownGood: seq<string>, global: Option<Info>, m: string, n: string) {
    StandsBefore(knownGood, m, n) || (n !in knownGood && global.Some? && StandsBefore(global.value.all, m, n))
  }

  lemma {:induction false} BeforeFiltered(names: seq<string>, keep: string -> bool, m: string, n: string)
    requires StandsBefore(Filter(names, keep), m, n) && keep(n)
    ensures StandsBefore(names, m, n)
  {
    var init, last := names[..|names| - 1], names[|names| - 1];
    var kept := Filter(names, keep);
    var a :| 0 <= a < |kept| && kept[a] == m && n !in kept[..a + 1];
    if a < |Filter(init, keep)| {
      assert kept[..a + 1] == Filter(init, keep)[..a + 1];
      BeforeFiltered(init, keep, m, n);
      var b :| 0 <= b < |init| && init[b] == m && n !in init[..b + 1];
      assert names[..b + 1] == init[..b + 1] && names[b] == m;
    } else {
      assert kept[..a + 1] == kept;
      FilterMembers(names, keep);
      assert names[..|names|] == names;
      assert names[|names| - 1] == m;
    }
  }

  lemma BeforeConcat(a: seq<string>, b: seq<string>, m: string, n: string)
    requires StandsBefore(a + b, m, n)
    ensures StandsBefore(a, m, n) || (n !in a && StandsBefore(b, m, n))
  {
    var i :| 0 <= i < |a + b| && (a + b)[i] == m && n !in (a + b)[..i + 1];
    if i < |a| {
      assert (a + b)[..i + 1] == a[..i + 1];
    } else {
      assert (a + b)[..i + 1] == a + b[..i - |a| + 1];
      assert b[i - |a|] == m;
    }
  }

  /** The kept names stand in the order in which the two sources offer them. */
  lemma OfferedInOrder(knownGood: seq<string>, p: Option<Proxies>, global: Option<Info>, original: Option<string>, m: string, n: string)
    requires StandsBefore(Filter(CandidateNames(knownGood, p, global), NotCurrent(original)), m, n)
    requires Choosable(knownGood, p, global, original, n)
    ensures Ahead(knownGood, global, m, n)
  {
    hide Filter, StandsBefore;
    BeforeFiltered(CandidateNames(knownGood, p, global), NotCurrent(original), m, n);
    if p.Some? && global.Some? && !StandsBefore(knownGood, m, n) {
      BeforeConcat(knownGood, Filter(global.value.all, ProfileFallback(p.value)), m, n);
      BeforeFiltered(global.value.all, ProfileFallback(p.value), m, n);
    }
  }

  lemma OfferedExactly(knownGood: seq<string>, p: Option<Proxies>, global: Option<Info>, original: Option<string>, n: string)
    ensures n in Kept(CandidateNames(knownGood, p, global), original) <==> Choosable(knownGood, p, global, original, n)
  {
    var names := CandidateNames(knownGood, p, global);
    FilterMembers(names, NotCurrent(original));
    DedupMeaning(Filter(names, NotCurrent(original)));
    if p.Some? && global.Some? {
      FilterMembers(global.value.all, ProfileFallback(p.value));
    }
    hide Filter, Dedup;
  }

  /**
   Outside every fallback chain the candidates are the first four choosable names, each once: they stand
   in the order stated, and an choosable name is missing only if four others are ahead of it.
   */
  lemma CandidatesExactly(knownGood: seq<string>, p: Option<Proxies>, global: Option<Info>, original: Option<string>)
    requires !(p.Some? && original.Some? && exists k: nat :: MeetsFallback(p.value, original.value, k))
    ensures var c := Candidates(knownGood, p, global, original);
      && NoDuplicates(c) && |c| <= 4
      && (forall n :: n in c ==> Choosable(knownGood, p, global, original, n))
      && (forall i, j :: 0 <= i < j < |c| ==> Ahead(knownGood, global, c[i], c[j]))
      && (forall m :: Choosable(knownGood, p, global, original, m) && m !in c ==>
            |c| == 4 && forall n :: n in c ==> Ahead(knownGood, global, n, m))
  {
    if p.Some? && original.Some? {
      SelectedFallbackExact(p.value, original.value);
    }
    var offered := Filter(CandidateNames(knownGood, p, global), NotCurrent(original));
    var kept := Kept(CandidateNames(knownGood, p, global), original);
    var c := Candidates(knownGood, p, global, original);
    DedupMeaning(offered);
    forall n ensures n in kept <==> Choosable(knownGood, p, global, original, n) {
      OfferedExactly(knownGood, p, global, original, n);
    }
    hide Dedup, Filter, Choosable, Ahead, SelectedFallback, MeetsFallback, CandidateNames;
    forall i, j | 0 <= i < j < |kept| ensures Ahead(knownGood, global, kept[i], kept[j]) {
      assert StandsBefore(offered, kept[i], kept[j]);
      assert kept[j] in kept;
      OfferedInOrder(knownGood, p, global, original, kept[i], kept[j]);
    }
    assert c == Take(kept, 4);
  }
}
