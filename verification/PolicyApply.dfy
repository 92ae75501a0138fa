/**
 Applying a fallback policy to a profile document, and installing one private probe
 listener for each node of the group that the policy generates.
 */
module PolicyApply {
  import opened Wrappers
  import opened Sequences
  import opened Names
  import opened Boundary

  datatype ProxyKind = DirectProxy | RejectProxy | OtherProxy

  datatype Proxy = Proxy(name: Option<string>, kind: ProxyKind)

  datatype Rules = Absent | Listed(rules: seq<string>) | Malformed

  /** The parts of a profile that the policy reads or writes; a missing or ill-typed list is None. */
  datatype Document = Document(
    proxies: Option<seq<Proxy>>, groups: Option<seq<Group>>, rules: Rules, probeGroup: Option<string>)

  datatype Policy = Policy(group: string, preferred: Option<string>, managed: bool, logPathAbsolute: bool)

  datatype Error = InvalidFallbackPolicy | ProfileTooLarge

  const MANAGED_RULES: seq<string> :=
    ["GEOSITE,openai", "DOMAIN-SUFFIX,openai.com", "DOMAIN-SUFFIX,chatgpt.com",
     "DOMAIN-SUFFIX,oaistatic.com", "DOMAIN-SUFFIX,oaiusercontent.com"]

  predicate Printable(name: string) {
    ValidName(name) && exists i :: 0 <= i < |name| && name[i] != ' '
  }

  predicate ValidPolicy(policy: Policy) {
    && Printable(policy.group)
    && (policy.preferred.Some? ==> Printable(policy.preferred.value))
    && policy.logPathAbsolute
  }

  /** Names of the proxies that can carry traffic abroad. */
  function LeafNames(proxies: seq<Proxy>): set<string> {
    set p | p in proxies && !p.kind.DirectProxy? && !p.kind.RejectProxy? && p.name.Some? :: p.name.value
  }

  function AllNames(proxies: seq<Proxy>): set<string> {
    set p | p in proxies && p.name.Some? :: p.name.value
  }

  /** The member names a legacy policy keeps: direct members that are leaves. */
  function TextLeaves(members: seq<Option<string>>, leaves: set<string>): seq<string> {
    if members == [] then []
    else
      var last := members[|members| - 1];
      TextLeaves(members[..|members| - 1], leaves) + (if last.Some? && last.value in leaves then [last.value] else [])
  }

  function Position(nodes: seq<string>, name: string, from: nat): Option<nat>
    decreases |nodes| - from
  {
    if from >= |nodes| then None
    else if nodes[from] == name then Some(from)
    else Position(nodes, name, from + 1)
  }

  /** The preferred node, when present, moves to the front; the others keep their order. */
  function PreferredFirst(nodes: seq<string>, preferred: Option<string>): seq<string> {
    if preferred.None? then nodes
    else
      var i := Position(nodes, preferred.value, 0);
      if i.None? || i.value >= |nodes| then nodes
      else [nodes[i.value]] + nodes[..i.value] + nodes[i.value + 1..]
  }

  function Named(nodes: seq<string>): seq<Option<string>> {
    seq(|nodes|, i requires 0 <= i < |nodes| => Some(nodes[i]))
  }

  function PrefixedRules(group: string): seq<string> {
    seq(|MANAGED_RULES|, i requires 0 <= i < |MANAGED_RULES| => MANAGED_RULES[i] + "," + group)
  }

  /** The nodes of the generated group, or none if the policy does not fit the document. */
  function ChosenNodes(policy: Policy, groups: seq<Group>, leaves: set<string>, members: seq<Option<string>>)
    : Option<seq<string>>
  {
    var nodes := if policy.managed then Leaves(Graph(groups, leaves), policy.group)
                 else Some(Dedup(TextLeaves(members, leaves)));
    if nodes.None? || nodes.value == [] then None else Some(PreferredFirst(nodes.value, policy.preferred))
  }

  /** The selected group as it is rewritten. */
  function Rewritten(policy: Policy, group: Group, members: seq<Option<string>>, nodes: seq<string>): Group {
    var auto := Some(AutoName(policy.group));
    if policy.managed then group.(kind := Select, health := None, members := Some([auto] + Named(nodes)))
    else group.(members := Some([auto] + members))
  }

  function Generated(policy: Policy, nodes: seq<string>): Group {
    Group(Some(AutoName(policy.group)), if policy.managed then Select else Fallback, false, Some(Named(nodes)),
          if policy.managed then None else Some(LegacyCheck))
  }

  /** `apply` as a function; `fits` says whether the serialised result is within the size limit. */
  function Applied(policy: Policy, doc: Document, fits: bool): Result<Document, Error> {
    if !ValidPolicy(policy) || doc.proxies.None? || doc.groups.None? then Err(InvalidFallbackPolicy)
    else
      var groups, leaves := doc.groups.value, LeafNames(doc.proxies.value);
      var auto := AutoName(policy.group);
      var at := IndexOf(groups, policy.group, 0);
      if auto in leaves || IndexOf(groups, auto, 0).Some? || at.None? || at.value >= |groups| then Err(InvalidFallbackPolicy)
      else
        var group := groups[at.value];
        if !(group.kind.Select? || (policy.managed && group.kind.Fallback?)) || group.members.None? then
          Err(InvalidFallbackPolicy)
        else
          var nodes := ChosenNodes(policy, groups, leaves, group.members.value);
          if nodes.None? then Err(InvalidFallbackPolicy)
          else if policy.managed && (',' in policy.group || doc.rules.Malformed?) then Err(InvalidFallbackPolicy)
          else if !fits then Err(ProfileTooLarge)
          else
            var changed := groups[at.value := Rewritten(policy, group, group.members.value, nodes.value)]
                           + [Generated(policy, nodes.value)];
            var rules := if doc.rules.Listed? then doc.rules.rules else [];
            Ok(if policy.managed then
                 doc.(groups := Some(changed), probeGroup := Some(policy.group),
                      rules := Listed(PrefixedRules(policy.group) + rules))
               else doc.(groups := Some(changed)))
  }

  // ---- the document rewritten in place ----

  class Profile {
    var proxies: Option<seq<Proxy>>
    var groups: Option<seq<Group>>
    var rules: Rules
    var probeGroup: Option<string>

    function Value(): Document
      reads this
    {
      Document(proxies, groups, rules, probeGroup)
    }

    constructor (doc: Document)
      ensures Value() == doc
    {
      proxies, groups, rules, probeGroup := doc.proxies, doc.groups, doc.rules, doc.probeGroup;
    }

    /** The legacy filter over the direct members. */
    static method DirectLeaves(members: seq<Option<string>>, leaves: set<string>) returns (nodes: seq<string>)
      ensures nodes == Dedup(TextLeaves(members, leaves))
    {
      nodes := [];
      for i := 0 to |members|
        invariant nodes == Dedup(TextLeaves(members[..i], leaves))
      {
        assert members[..i + 1][..i] == members[..i];
        ghost var before := TextLeaves(members[..i], leaves);
        assert before + [] == before;
        if members[i].Some? && members[i].value in leaves {
          AddAllNewAppend([], before, members[i].value);
          if members[i].value !in nodes {
            nodes := nodes + [members[i].value];
          }
        }
      }
      assert members[..|members|] == members;
    }

    /** Moving the preferred node: remove it where it stands, insert it in front. */
    static method MovePreferred(nodes: seq<string>, preferred: Option<string>) returns (moved: seq<string>)
      ensures moved == PreferredFirst(nodes, preferred)
    {
      moved := nodes;
      if preferred.Some? {
        var i := 0;
        while i < |nodes| && nodes[i] != preferred.value
          invariant 0 <= i <= |nodes|
          invariant Position(nodes, preferred.value, 0) == Position(nodes, preferred.value, i)
        {
          i := i + 1;
        }
        if i < |nodes| {
          moved := [nodes[i]] + nodes[..i] + nodes[i + 1..];
        }
      }
    }

    /** The loop that inserts the rules one by one at the front. */
    method InsertRules(group: string)
      requires rules.Listed?
      modifies this`rules
      ensures rules == Listed(PrefixedRules(group) + old(rules).rules)
    {
      var k := |MANAGED_RULES|;
      assert PrefixedRules(group)[k..] == [];
      while k > 0
        invariant 0 <= k <= |MANAGED_RULES|
        invariant rules == Listed(PrefixedRules(group)[k..] + old(rules).rules)
      {
        k := k - 1;
        rules := Listed([MANAGED_RULES[k] + "," + group] + rules.rules);
        assert PrefixedRules(group)[k..] == [PrefixedRules(group)[k]] + PrefixedRules(group)[k + 1..];
      }
    }

    /** `apply`. After an error the document is discarded. */
    method Apply(policy: Policy, fits: bool) returns (error: Option<Error>)
      modifies this
      ensures Applied(policy, old(Value()), fits) == if error.Some? then Err(error.value) else Ok(Value())
    {
      if !ValidPolicy(policy) || proxies.None? || groups.None? {
        return Some(InvalidFallbackPolicy);
      }
      var leaves := LeafNames(proxies.value);
      var auto := AutoName(policy.group);
      if auto in leaves || IndexOf(groups.value, auto, 0).Some? {
        return Some(InvalidFallbackPolicy);
      }
      var expanded := None;
      if policy.managed {
        expanded := Collect(Graph(groups.value, leaves), policy.group);
        if expanded.None? {
          AppliedNeedsBoundary(policy, Value(), fits);
          return Some(InvalidFallbackPolicy);
        }
      }
      var at := IndexOf(groups.value, policy.group, 0);
      IndexOfFirst(groups.value, policy.group, 0);
      if at.None? {
        return Some(InvalidFallbackPolicy);
      }
      var group := groups.value[at.value];
      if !(group.kind.Select? || (policy.managed && group.kind.Fallback?)) || group.members.None? {
        return Some(InvalidFallbackPolicy);
      }
      var members := group.members.value;
      var nodes;
      if policy.managed {
        nodes := expanded.value;
      } else {
        nodes := DirectLeaves(members, leaves);
      }
      if nodes == [] {
        return Some(InvalidFallbackPolicy);
      }
      nodes := MovePreferred(nodes, policy.preferred);
      groups := Some(groups.value[at.value := Rewritten(policy, group, members, nodes)] + [Generated(policy, nodes)]);
      if policy.managed {
        if ',' in policy.group || rules.Malformed? {
          return Some(InvalidFallbackPolicy);
        }
        probeGroup := Some(policy.group);
        if rules.Absent? {
          rules := Listed([]);
        }
        InsertRules(policy.group);
      }
      if !fits {
        return Some(ProfileTooLarge);
      }
      return None;
    }
  }

  lemma AppliedNeedsBoundary(policy: Policy, doc: Document, fits: bool)
    requires policy.managed && doc.proxies.Some? && doc.groups.Some?
    requires Leaves(Graph(doc.groups.value, LeafNames(doc.proxies.value)), policy.group).None?
    ensures Applied(policy, doc, fits) == Err(InvalidFallbackPolicy)
  {
  }

  // ---- what applying achieves ----

  lemma {:induction false} PositionFound(nodes: seq<string>, name: string, from: nat)
    ensures Position(nodes, name, from).Some? ==>
              from <= Position(nodes, name, from).value < |nodes| && nodes[Position(nodes, name, from).value] == name
    ensures Position(nodes, name, from).None? ==> name !in nodes[Min(from, |nodes|)..]
    decreases |nodes| - from
  {
    if from < |nodes| && nodes[from] != name {
      PositionFound(nodes, name, from + 1);
      assert nodes[from..] == [nodes[from]] + nodes[from + 1..];
    }
  }

  lemma PreferredFirstMeaning(nodes: seq<string>, preferred: Option<string>)
    ensures Permutation(PreferredFirst(nodes, preferred), nodes)
    ensures preferred.Some? && preferred.value in nodes ==>
              PreferredFirst(nodes, preferred) != [] && PreferredFirst(nodes, preferred)[0] == preferred.value
    ensures preferred.None? || preferred.value !in nodes ==> PreferredFirst(nodes, preferred) == nodes
  {
    if preferred.Some? {
      PositionFound(nodes, preferred.value, 0);
      var at := Position(nodes, preferred.value, 0);
      if at.Some? {
        var i := at.value;
        assert nodes == nodes[..i] + [nodes[i]] + nodes[i + 1..];
      }
    }
  }

  lemma PermutationKeeps(a: seq<string>, b: seq<string>)
    requires Permutation(a, b)
    ensures forall n :: n in a <==> n in b
    ensures |a| == |b|
    ensures NoDuplicates(b) ==> NoDuplicates(a)
  {
    forall n ensures n in a <==> n in b {
      assert n in multiset(a) <==> n in multiset(b);
    }
    assert |multiset(a)| == |multiset(b)|;
    if NoDuplicates(b) {
      forall i, j | 0 <= i < j < |a| ensures a[i] != a[j] {
        if a[i] == a[j] {
          CountedTwice(a, i, j);
          OnceEach(b, a[i]);
        }
      }
    }
  }

  lemma CountedTwice(s: seq<string>, i: int, j: int)
    requires 0 <= i < j < |s| && s[i] == s[j]
    ensures multiset(s)[s[i]] >= 2
  {
    assert s == s[..i] + [s[i]] + s[i + 1..j] + [s[j]] + s[j + 1..];
  }

  lemma {:induction false} OnceEach(s: seq<string>, n: string)
    requires NoDuplicates(s)
    ensures multiset(s)[n] <= 1
  {
    if s != [] {
      var init, last := s[..|s| - 1], s[|s| - 1];
      assert s == init + [last];
      OnceEach(init, n);
      if n == last {
        assert n !in multiset(init);
      }
    }
  }

  /**
   A managed policy generates one selector whose members are exactly the reachable leaves, each
   once, the preferred one first; the selected group becomes that group followed by the same
   leaves; every other group is untouched. The policy's rules come before the document's own.
   */
  lemma ManagedGroups(policy: Policy, doc: Document, fits: bool)
    requires policy.managed && Applied(policy, doc, fits).Ok?
    ensures var before, after := doc.groups.value, Applied(policy, doc, fits).value.groups.value;
            var g := Graph(before, LeafNames(doc.proxies.value));
            var at := IndexOf(before, policy.group, 0);
            var auto := after[|before|];
            && |after| == |before| + 1 && at.Some? && at.value < |before|
            && auto.name == Some(AutoName(policy.group)) && auto.kind.Select?
            && auto.members.Some? && Leaves(g, policy.group).Some?
            && (exists nodes :: auto.members.value == Named(nodes) && nodes != [] && NoDuplicates(nodes)
                  && Permutation(nodes, Leaves(g, policy.group).value)
                  && (forall n :: n in nodes <==> n in g.leaves && Reachable(g, policy.group, n))
                  && (policy.preferred.Some? && policy.preferred.value in nodes ==> nodes[0] == policy.preferred.value))
            && after[at.value].kind.Select? && after[at.value].health.None?
            && after[at.value].members == Some([auto.name] + auto.members.value)
            && forall i :: 0 <= i < |before| && i != at.value ==> after[i] == before[i]
    ensures Applied(policy, doc, fits).value.rules
            == Listed(PrefixedRules(policy.group) + (if doc.rules.Listed? then doc.rules.rules else []))
  {
    ManagedRules(policy, doc, fits);
    hide Applied, PreferredFirst;
    ManagedShape(policy, doc, fits);
    var before := doc.groups.value;
    var g := Graph(before, LeafNames(doc.proxies.value));
    var found := Leaves(g, policy.group).value;
    var nodes := PreferredFirst(found, policy.preferred);
    BoundaryExact(g, policy.group);
    PreferredFirstMeaning(found, policy.preferred);
    PermutationKeeps(nodes, found);
  }

  lemma ManagedShape(policy: Policy, doc: Document, fits: bool)
    requires policy.managed && Applied(policy, doc, fits).Ok?
    ensures doc.groups.Some? && doc.proxies.Some?
    ensures var before, after := doc.groups.value, Applied(policy, doc, fits).value;
            var at := IndexOf(before, policy.group, 0);
            var found := Leaves(Graph(before, LeafNames(doc.proxies.value)), policy.group);
            && at.Some? && at.value < |before| && found.Some? && found.value != [] && before[at.value].members.Some?
            && after.proxies == doc.proxies && after.probeGroup == Some(policy.group)
            && IndexOf(before, AutoName(policy.group), 0).None?
            && var nodes := PreferredFirst(found.value, policy.preferred);
               after.groups == Some(before[at.value := Rewritten(policy, before[at.value], before[at.value].members.value, nodes)]
                                    + [Generated(policy, nodes)])
  {
    hide Leaves, PreferredFirst;
  }

  /** The rules of a managed policy come first, then the document's own. */
  lemma ManagedRules(policy: Policy, doc: Document, fits: bool)
    requires policy.managed && Applied(policy, doc, fits).Ok?
    ensures Applied(policy, doc, fits).value.rules
            == Listed(PrefixedRules(policy.group) + (if doc.rules.Listed? then doc.rules.rules else []))
  {
    hide Leaves, PreferredFirst;
  }

  /** A policy never applies to its own output, managed or not. */
  lemma ReapplyRejected(policy: Policy, doc: Document, fits: bool, again: Policy, fitsAgain: bool)
    requires Applied(policy, doc, fits).Ok? && again.group == policy.group
    ensures Applied(again, Applied(policy, doc, fits).value, fitsAgain) == Err(InvalidFallbackPolicy)
  {
    hide Leaves, PreferredFirst;
    var groups := Applied(policy, doc, fits).value.groups.value;
    IndexOfFirst(groups, AutoName(policy.group), 0);
    assert groups[|groups| - 1].name == Some(AutoName(policy.group));
  }

  /** A legacy policy keeps the direct leaf members only, each once, in their order. */
  lemma LegacyGroups(policy: Policy, doc: Document, fits: bool)
    requires !policy.managed && Applied(policy, doc, fits).Ok?
    ensures var before, after := doc.groups.value, Applied(policy, doc, fits).value.groups.value;
            var leaves := LeafNames(doc.proxies.value);
            var at := IndexOf(before, policy.group, 0).value;
            var auto := after[|before|];
            && at < |before| && before[at].kind.Select? && before[at].members.Some?
            && auto.kind.Fallback? && auto.health == Some(LegacyCheck)
            && after[at] == before[at].(members := Some([auto.name] + before[at].members.value))
            && (exists nodes :: auto.members == Some(Named(nodes)) && NoDuplicates(nodes)
                  && (forall n :: n in nodes <==> n in leaves && Some(n) in before[at].members.value))
  {
    hide Leaves, PreferredFirst;
    var before := doc.groups.value;
    var leaves := LeafNames(doc.proxies.value);
    var members := before[IndexOf(before, policy.group, 0).value].members.value;
    var kept := Dedup(TextLeaves(members, leaves));
    TextLeavesMembers(members, leaves);
    DedupMeaning(TextLeaves(members, leaves));
    PreferredFirstMeaning(kept, policy.preferred);
    PermutationKeeps(PreferredFirst(kept, policy.preferred), kept);
  }

  lemma {:induction false} TextLeavesMembers(members: seq<Option<string>>, leaves: set<string>)
    ensures forall n :: n in TextLeaves(members, leaves) <==> n in leaves && Some(n) in members
  {
    if members != [] {
      assert members == members[..|members| - 1] + [members[|members| - 1]];
      TextLeavesMembers(members[..|members| - 1], leaves);
    }
  }
}
