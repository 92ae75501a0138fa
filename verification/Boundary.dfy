/**
 The recovery boundary: the proxies reachable from one group of a possibly cyclic group
 graph. The recursive collector is proved sound and complete against paths in the graph.
 */
module Boundary {
  import opened Wrappers
  import opened Sequences
  import opened Names

  const MAX_DEPTH: nat := 32
  const MAX_NAME: nat := 256

  datatype GroupKind = Select | Fallback | OtherKind

  /** Health-check keys of a group: the provider's own, or those this program writes. */
  datatype Health = ProviderCheck | LegacyCheck

  /** `dynamic`: provider membership or an include-all filter. A member that is not text is None. */
  datatype Group = Group(
    name: Option<string>, kind: GroupKind, dynamic: bool, members: Option<seq<Option<string>>>, health: Option<Health>)

  datatype Graph = Graph(groups: seq<Group>, leaves: set<string>)

  predicate ValidName(name: string) { NameWithin(name, MAX_NAME) }

  predicate BuiltIn(name: string) {
    name in {"DIRECT", "REJECT", "REJECT-DROP", "PASS"}
  }

  function IndexOf(groups: seq<Group>, name: string, from: nat): Option<nat>
    decreases |groups| - from
  {
    if from >= |groups| then None
    else if groups[from].name == Some(name) then Some(from)
    else IndexOf(groups, name, from + 1)
  }

  lemma {:induction false} IndexOfFirst(groups: seq<Group>, name: string, from: nat)
    ensures IndexOf(groups, name, from).Some? ==>
              var i := IndexOf(groups, name, from).value;
              from <= i < |groups| && groups[i].name == Some(name)
              && forall k :: from <= k < i ==> groups[k].name != Some(name)
    ensures IndexOf(groups, name, from).None? ==> forall k :: from <= k < |groups| ==> groups[k].name != Some(name)
    decreases |groups| - from
  {
    if from < |groups| && groups[from].name != Some(name) {
      IndexOfFirst(groups, name, from + 1);
    }
  }

  /** The members of a group that can be expanded: found, static, and with a member list. */
  function MembersOf(g: Graph, name: string): Option<seq<Option<string>>> {
    var i := IndexOf(g.groups, name, 0);
    IndexOfFirst(g.groups, name, 0);
    if i.None? || g.groups[i.value].dynamic then None else g.groups[i.value].members
  }

  // ---- the traversal as a function ----

  /** Leaves met below `name`, in order and with repetitions, or none if the walk is rejected. */
  function Walk(g: Graph, name: string, visiting: set<string>): Option<seq<string>>
    decreases MAX_DEPTH - |visiting|, 0
  {
    if !ValidName(name) then None
    else if name in g.leaves then Some([name])
    else if BuiltIn(name) then Some([])
    else if |visiting| >= MAX_DEPTH || name in visiting then None
    else
      var members := MembersOf(g, name);
      if members.None? then None else WalkAll(g, members.value, visiting + {name})
  }

  function WalkAll(g: Graph, members: seq<Option<string>>, visiting: set<string>): Option<seq<string>>
    decreases MAX_DEPTH - |visiting|, |members| + 1
  {
    if members == [] then Some([])
    else
      var last := members[|members| - 1];
      var before := WalkAll(g, members[..|members| - 1], visiting);
      if before.None? || last.None? then None
      else
        var met := Walk(g, last.value, visiting);
        if met.None? then None else Some(before.value + met.value)
  }

  lemma {:induction false} WalkAllPrefix(g: Graph, members: seq<Option<string>>, n: nat, visiting: set<string>)
    requires n <= |members| && WalkAll(g, members[..n], visiting).None?
    ensures WalkAll(g, members, visiting).None?
    decreases |members|
  {
    if n < |members| {
      var init := members[..|members| - 1];
      assert init[..n] == members[..n];
      WalkAllPrefix(g, init, n, visiting);
    } else {
      assert members[..n] == members;
    }
  }

  /** `collect_leaves` with the set and the list it updates. */
  class Collector {
    var visiting: set<string>
    var out: seq<string>

    constructor ()
      ensures visiting == {} && out == []
    {
      visiting, out := {}, [];
    }

    method CollectLeaves(g: Graph, name: string) returns (ok: bool)
      modifies this
      ensures ok <==> Walk(g, name, old(visiting)).Some?
      ensures ok ==> visiting == old(visiting)
      ensures ok ==> out == AddAllNew(old(out), Walk(g, name, old(visiting)).value)
      decreases MAX_DEPTH - |visiting|
    {
      if !ValidName(name) {
        return false;
      }
      if name in g.leaves {
        AddAllNewAppend(out, [], name);
        assert [] + [name] == [name];
        if name !in out {
          out := out + [name];
        }
        return true;
      }
      if BuiltIn(name) {
        return true;
      }
      if |visiting| >= MAX_DEPTH || name in visiting {
        return false;
      }
      visiting := visiting + {name};
      var members := MembersOf(g, name);
      if members.None? {
        return false;
      }
      ghost var entered := visiting;
      for i := 0 to |members.value|
        invariant visiting == entered
        invariant WalkAll(g, members.value[..i], entered).Some?
        invariant out == AddAllNew(old(out), WalkAll(g, members.value[..i], entered).value)
      {
        var member := members.value[i];
        assert members.value[..i + 1][..i] == members.value[..i];
        if member.None? {
          WalkAllPrefix(g, members.value, i + 1, entered);
          return false;
        }
        ghost var before := out;
        var collected := CollectLeaves(g, member.value);
        if !collected {
          WalkAllPrefix(g, members.value, i + 1, entered);
          return false;
        }
        AddAllNewConcat(old(out), WalkAll(g, members.value[..i], entered).value, Walk(g, member.value, entered).value);
      }
      assert members.value[..|members.value|] == members.value;
      visiting := visiting - {name};
      return true;
    }
  }

  // ---- paths ----

  /** Not empty, at most 256 characters, none of them a control character. */
  ghost predicate WellNamed(name: string) {
    ProperName(name, 256)
  }

  /** A group that has to be opened: well named, no leaf, and none of the four built-in policies. */
  ghost predicate Opens(g: Graph, name: string) {
    WellNamed(name) && name !in g.leaves && name !in {"DIRECT", "REJECT", "REJECT-DROP", "PASS"}
  }

  lemma NamesExactly(name: string)
    ensures ValidName(name) <==> WellNamed(name)
    ensures BuiltIn(name) <==> name == "DIRECT" || name == "REJECT" || name == "REJECT-DROP" || name == "PASS"
  {
    NameExactly(name, 256);
  }

  /** The first group of that name is static and lists these members. */
  ghost predicate Lists(g: Graph, name: string, members: seq<Option<string>>) {
    exists i :: 0 <= i < |g.groups| && g.groups[i].name == Some(name) && (forall k :: 0 <= k < i ==> g.groups[k].name != Some(name))
                && !g.groups[i].dynamic && g.groups[i].members == Some(members)
  }

  lemma MembersExactly(g: Graph, name: string, members: seq<Option<string>>)
    ensures MembersOf(g, name) == Some(members) <==> Lists(g, name, members)
  {
    IndexOfFirst(g.groups, name, 0);
  }

  /** Resolvable, static, and with textual members only. */
  ghost predicate StaticGroup(g: Graph, name: string) {
    var members := MembersOf(g, name);
    members.Some? && forall i :: 0 <= i < |members.value| ==> members.value[i].Some?
  }

  ghost predicate Edge(g: Graph, a: string, b: string) {
    Opens(g, a) && StaticGroup(g, a) && Some(b) in MembersOf(g, a).value
  }

  ghost predicate IsPath(g: Graph, p: seq<string>) {
    |p| > 0 && forall i :: 0 <= i < |p| - 1 ==> Edge(g, p[i], p[i + 1])
  }

  /**
   Where a path may end, given the groups already open: at a leaf, at a built-in policy, or at a
   static group that is new on the path and at most the 32nd.
   */
  ghost predicate GoodEnd(g: Graph, p: seq<string>, open: set<string>)
    requires |p| > 0
  {
    var n := p[|p| - 1];
    && WellNamed(n)
    && (n in g.leaves || n in {"DIRECT", "REJECT", "REJECT-DROP", "PASS"}
        || (n !in open && n !in p[..|p| - 1] && |open| + |p| <= 32 && StaticGroup(g, n)))
  }

  lemma {:induction false} WalkAllMember(g: Graph, members: seq<Option<string>>, visiting: set<string>, m: string)
    requires WalkAll(g, members, visiting).Some? && Some(m) in members
    ensures Walk(g, m, visiting).Some?
    ensures forall n :: n in Walk(g, m, visiting).value ==> n in WalkAll(g, members, visiting).value
    decreases |members|
  {
    var init, last := members[..|members| - 1], members[|members| - 1];
    if last != Some(m) {
      assert members == init + [last];
      WalkAllMember(g, init, visiting, m);
    }
  }

  lemma {:induction false} WalkAllTextual(g: Graph, members: seq<Option<string>>, visiting: set<string>)
    requires WalkAll(g, members, visiting).Some?
    ensures forall i :: 0 <= i < |members| ==> members[i].Some?
    decreases |members|
  {
    if members != [] {
      WalkAllTextual(g, members[..|members| - 1], visiting);
    }
  }

  lemma {:induction false} WalkAllSource(g: Graph, members: seq<Option<string>>, visiting: set<string>, n: string)
    returns (m: string)
    requires WalkAll(g, members, visiting).Some? && n in WalkAll(g, members, visiting).value
    ensures Some(m) in members && Walk(g, m, visiting).Some? && n in Walk(g, m, visiting).value
    decreases |members|
  {
    var init, last := members[..|members| - 1], members[|members| - 1];
    if n in Walk(g, last.value, visiting).value {
      m := last.value;
    } else {
      m := WalkAllSource(g, init, visiting, n);
      assert Some(m) in init;
    }
  }

  lemma {:induction false} WalkAllFailure(g: Graph, members: seq<Option<string>>, visiting: set<string>) returns (m: string)
    requires WalkAll(g, members, visiting).None? && forall i :: 0 <= i < |members| ==> members[i].Some?
    ensures Some(m) in members && Walk(g, m, visiting).None?
    decreases |members|
  {
    var init, last := members[..|members| - 1], members[|members| - 1];
    if WalkAll(g, init, visiting).None? {
      m := WalkAllFailure(g, init, visiting);
      assert Some(m) in init;
    } else {
      m := last.value;
    }
  }

  /** If the walk succeeds, every path ends well, and the leaf it ends at is met. */
  lemma {:induction false} WalkSound(g: Graph, name: string, visiting: set<string>, p: seq<string>)
    requires Walk(g, name, visiting).Some? && IsPath(g, p) && p[0] == name
    ensures GoodEnd(g, p, visiting)
    ensures p[|p| - 1] in g.leaves ==> p[|p| - 1] in Walk(g, name, visiting).value
    decreases |p|
  {
    NamesExactly(name);
    if |p| == 1 {
      if Opens(g, name) {
        WalkAllTextual(g, MembersOf(g, name).value, visiting + {name});
      }
    } else {
      var rest := p[1..];
      assert Edge(g, p[0], p[1]);
      forall i | 0 <= i < |rest| - 1 ensures Edge(g, rest[i], rest[i + 1]) {
        assert Edge(g, p[i + 1], p[i + 2]);
      }
      WalkAllMember(g, MembersOf(g, name).value, visiting + {name}, p[1]);
      WalkSound(g, p[1], visiting + {name}, rest);
      assert p[..|p| - 1] == [name] + rest[..|rest| - 1];
    }
  }

  /** If the walk is rejected, some path ends badly. */
  lemma {:induction false} WalkComplete(g: Graph, name: string, visiting: set<string>) returns (p: seq<string>)
    requires Walk(g, name, visiting).None?
    ensures IsPath(g, p) && p[0] == name && !GoodEnd(g, p, visiting)
    decreases MAX_DEPTH - |visiting|
  {
    NamesExactly(name);
    if !Opens(g, name) || |visiting| >= MAX_DEPTH || name in visiting || !StaticGroup(g, name) {
      p := [name];
    } else {
      var m := WalkAllFailure(g, MembersOf(g, name).value, visiting + {name});
      var rest := WalkComplete(g, m, visiting + {name});
      p := [name] + rest;
      assert Edge(g, name, m);
      assert p[..|p| - 1] == [name] + rest[..|rest| - 1];
      forall i | 0 <= i < |p| - 1 ensures Edge(g, p[i], p[i + 1]) {
        if i > 0 {
          assert p[i] == rest[i - 1] && p[i + 1] == rest[i];
        }
      }
    }
  }

  /** Every leaf met is the end of a path. */
  lemma {:induction false} WalkReaches(g: Graph, name: string, visiting: set<string>, n: string) returns (p: seq<string>)
    requires Walk(g, name, visiting).Some? && n in Walk(g, name, visiting).value
    ensures IsPath(g, p) && p[0] == name && p[|p| - 1] == n && n in g.leaves
    decreases MAX_DEPTH - |visiting|
  {
    NamesExactly(name);
    if name in g.leaves {
      p := [name];
    } else {
      var members := MembersOf(g, name).value;
      var m := WalkAllSource(g, members, visiting + {name}, n);
      WalkAllTextual(g, members, visiting + {name});
      var rest := WalkReaches(g, m, visiting + {name}, n);
      p := [name] + rest;
      assert Edge(g, name, m);
      forall i | 0 <= i < |p| - 1 ensures Edge(g, p[i], p[i + 1]) {
        if i > 0 {
          assert p[i] == rest[i - 1] && p[i + 1] == rest[i];
        }
      }
    }
  }

  ghost predicate Reachable(g: Graph, root: string, n: string) {
    exists p :: IsPath(g, p) && p[0] == root && p[|p| - 1] == n
  }

  function Leaves(g: Graph, root: string): Option<seq<string>> {
    var met := Walk(g, root, {});
    if met.None? then None else Some(Dedup(met.value))
  }

  /** The collector called as the policy calls it: nothing open, nothing collected yet. */
  method Collect(g: Graph, root: string) returns (leaves: Option<seq<string>>)
    ensures leaves == Leaves(g, root)
  {
    var collector := new Collector();
    var ok := collector.CollectLeaves(g, root);
    leaves := if ok then Some(collector.out) else None;
  }

  /**
   Exactness of the boundary: it is found exactly when every path from the root ends well, that is,
   when everything reachable is well named, resolvable, static and acyclic with no more than 32
   groups on a path. It then holds exactly the reachable leaves, each once, in the order of first visit.
   */
  lemma BoundaryExact(g: Graph, root: string)
    ensures Leaves(g, root).Some? <==> forall p :: IsPath(g, p) && p[0] == root ==> GoodEnd(g, p, {})
    ensures Leaves(g, root).Some? ==>
              var out := Leaves(g, root).value;
              && NoDuplicates(out)
              && FirstOccurrenceOrder(Walk(g, root, {}).value, out)
              && forall n :: n in out <==> n in g.leaves && Reachable(g, root, n)
  {
    var met := Walk(g, root, {});
    if met.Some? {
      forall p | IsPath(g, p) && p[0] == root ensures GoodEnd(g, p, {}) {
        WalkSound(g, root, {}, p);
      }
      DedupMeaning(met.value);
      forall n ensures n in met.value <==> n in g.leaves && Reachable(g, root, n) {
        if n in met.value {
          var p := WalkReaches(g, root, {}, n);
        }
        if n in g.leaves && Reachable(g, root, n) {
          var p :| IsPath(g, p) && p[0] == root && p[|p| - 1] == n;
          WalkSound(g, root, {}, p);
        }
      }
    } else {
      var p := WalkComplete(g, root, {});
    }
  }
}
