/** When a policy is accepted and what it writes, from the document and the paths of its groups alone. */
module PolicyAcceptance {
  import opened Wrappers
  import opened Sequences
  import opened Boundary
  import opened BoundaryOrder
  import opened PolicyApply

  /** Well named, and not blank. */
  ghost predicate Presentable(name: string) {
    WellNamed(name) && exists c :: c in name && c != ' '
  }

  ghost predicate SoundPolicy(policy: Policy) {
    && Presentable(policy.group)
    && (policy.preferred.Some? ==> Presentable(policy.preferred.value))
    && policy.logPathAbsolute
  }

  lemma PrintableExactly(name: string)
    ensures Printable(name) <==> Presentable(name)
  {
    NamesExactly(name);
    if c :| c in name && c != ' ' {
      var i :| 0 <= i < |name| && name[i] == c;
    }
    if i :| 0 <= i < |name| && name[i] != ' ' {
      assert name[i] in name;
    }
  }

  lemma PolicyExactly(policy: Policy)
    ensures ValidPolicy(policy) <==> SoundPolicy(policy)
  {
    PrintableExactly(policy.group);
    if policy.preferred.Some? {
      PrintableExactly(policy.preferred.value);
    }
    hide Printable, Presentable;
  }

  /** A proxy of that name that neither connects directly nor rejects. */
  ghost predicate Relay(proxies: seq<Proxy>, n: string) {
    exists p :: p in proxies && p.name == Some(n) && !p.kind.DirectProxy? && !p.kind.RejectProxy?
  }

  /** The first group of that name. */
  ghost predicate FirstNamed(groups: seq<Group>, name: string, i: int) {
    0 <= i < |groups| && groups[i].name == Some(name) && forall k :: 0 <= k < i ==> groups[k].name != Some(name)
  }

  /** The first group of the policy's name, if it can be taken over. */
  ghost predicate Eligible(policy: Policy, proxies: seq<Proxy>, group: Group) {
    && (group.kind.Select? || (policy.managed && group.kind.Fallback?))
    && group.members.Some?
    && (policy.managed || exists n :: Some(n) in group.members.value && Relay(proxies, n))
  }

  /** A managed policy needs a boundary with a leaf, a name without a comma, and rules it can extend. */
  ghost predicate Manageable(policy: Policy, doc: Document)
    requires doc.proxies.Some? && doc.groups.Some?
  {
    var g := Graph(doc.groups.value, LeafNames(doc.proxies.value));
    && (forall p :: IsPath(g, p) && p[0] == policy.group ==> GoodEnd(g, p, {}))
    && (exists n :: Relay(doc.proxies.value, n) && Reachable(g, policy.group, n))
    && ',' !in policy.group && !doc.rules.Malformed?
  }

  ghost predicate Accepted(policy: Policy, doc: Document) {
    && SoundPolicy(policy) && doc.proxies.Some? && doc.groups.Some?
    && !Relay(doc.proxies.value, policy.group + " Auto")
    && (forall g :: g in doc.groups.value ==> g.name != Some(policy.group + " Auto"))
    && (exists i :: FirstNamed(doc.groups.value, policy.group, i) && Eligible(policy, doc.proxies.value, doc.groups.value[i]))
    && (policy.managed ==> Manageable(policy, doc))
  }

  lemma LeavesAreRelays(proxies: seq<Proxy>, n: string)
    ensures n in LeafNames(proxies) <==> Relay(proxies, n)
  {
  }

  lemma IndexExactly(groups: seq<Group>, name: string)
    ensures IndexOf(groups, name, 0).Some? <==> exists i :: FirstNamed(groups, name, i)
    ensures IndexOf(groups, name, 0).Some? <==> exists g :: g in groups && g.name == Some(name)
    ensures forall i :: FirstNamed(groups, name, i) <==> IndexOf(groups, name, 0) == Some(i)
  {
    IndexOfFirst(groups, name, 0);
    var found := IndexOf(groups, name, 0);
    if found.Some? {
      assert FirstNamed(groups, name, found.value) && groups[found.value] in groups;
    }
    forall i | FirstNamed(groups, name, i) ensures found == Some(i) {
      assert found.Some? && FirstNamed(groups, name, found.value);
    }
  }

  /** There is something to choose from exactly if a leaf is listed, or reachable within a boundary. */
  lemma ChosenExactly(policy: Policy, proxies: seq<Proxy>, groups: seq<Group>, members: seq<Option<string>>)
    ensures var g := Graph(groups, LeafNames(proxies));
            ChosenNodes(policy, groups, LeafNames(proxies), members).Some? <==>
              if policy.managed then
                && (forall p :: IsPath(g, p) && p[0] == policy.group ==> GoodEnd(g, p, {}))
                && (exists n :: Relay(proxies, n) && Reachable(g, policy.group, n))
              else exists n :: Some(n) in members && Relay(proxies, n)
  {
    var g := Graph(groups, LeafNames(proxies));
    forall n ensures n in LeafNames(proxies) <==> Relay(proxies, n) {
      LeavesAreRelays(proxies, n);
    }
    if policy.managed {
      BoundaryExact(g, policy.group);
      hide LeafNames, Relay, IsPath, GoodEnd, Reachable, Leaves, Walk, FirstOccurrenceOrder, PreferredFirst;
      if Leaves(g, policy.group).Some? {
        Inhabited(Leaves(g, policy.group).value);
      }
    } else {
      var kept := TextLeaves(members, LeafNames(proxies));
      TextLeavesMembers(members, LeafNames(proxies));
      DedupMeaning(kept);
      Inhabited(Dedup(kept));
      hide LeafNames, Relay, Leaves, TextLeaves, Dedup, PreferredFirst;
    }
  }

  lemma Inhabited(s: seq<string>)
    ensures s != [] <==> exists n :: n in s
  {
    if s != [] {
      assert s[0] in s;
    }
  }

  /** Exactly when a policy is accepted, and exactly how a refused one is refused. */
  lemma AppliedExactly(policy: Policy, doc: Document, fits: bool)
    ensures Applied(policy, doc, fits).Ok? <==> Accepted(policy, doc) && fits
    ensures Applied(policy, doc, fits) == Err(InvalidFallbackPolicy) <==> !Accepted(policy, doc)
    ensures Applied(policy, doc, fits) == Err(ProfileTooLarge) <==> Accepted(policy, doc) && !fits
  {
    PolicyExactly(policy);
    if doc.proxies.Some? && doc.groups.Some? {
      var proxies, groups := doc.proxies.value, doc.groups.value;
      var auto := policy.group + " Auto";
      LeavesAreRelays(proxies, auto);
      IndexExactly(groups, auto);
      IndexExactly(groups, policy.group);
      var at := IndexOf(groups, policy.group, 0);
      if at.Some? {
        assert FirstNamed(groups, policy.group, at.value);
        if groups[at.value].members.Some? {
          ChosenExactly(policy, proxies, groups, groups[at.value].members.value);
        }
      }
    }
    hide ValidPolicy, SoundPolicy, LeafNames, Relay, IndexOf, ChosenNodes, IsPath, GoodEnd, Reachable, Rewritten, Generated;
  }

  // ---- what an accepted policy writes ----

  /** The nodes of the generated group, which is the last one. */
  ghost predicate Generates(after: Document, nodes: seq<string>) {
    && after.groups.Some? && after.groups.value != []
    && after.groups.value[|after.groups.value| - 1].members == Some(Named(nodes))
  }

  /**
   The whole document that an accepted policy writes: the group taken over, the generated group at the
   end, the rules in front and the probe group if the policy is managed, and nothing else.
   */
  lemma WritesExactly(policy: Policy, doc: Document, fits: bool) returns (at: nat, nodes: seq<string>)
    requires Applied(policy, doc, fits).Ok?
    ensures Generates(Applied(policy, doc, fits).value, nodes)
    ensures doc.proxies.Some? && doc.groups.Some? && FirstNamed(doc.groups.value, policy.group, at)
    ensures var g := doc.groups.value[at];
            var auto := Some(policy.group + " Auto");
            && g.members.Some?
            && Applied(policy, doc, fits).value ==
                 if policy.managed then
                   Document(doc.proxies,
                     Some(doc.groups.value[at := Group(g.name, Select, g.dynamic, Some([auto] + Named(nodes)), None)]
                          + [Group(auto, Select, false, Some(Named(nodes)), None)]),
                     Listed(["GEOSITE,openai," + policy.group, "DOMAIN-SUFFIX,openai.com," + policy.group,
                             "DOMAIN-SUFFIX,chatgpt.com," + policy.group, "DOMAIN-SUFFIX,oaistatic.com," + policy.group,
                             "DOMAIN-SUFFIX,oaiusercontent.com," + policy.group]
                            + (if doc.rules.Listed? then doc.rules.rules else [])),
                     Some(policy.group))
                 else
                   Document(doc.proxies,
                     Some(doc.groups.value[at := Group(g.name, g.kind, g.dynamic, Some([auto] + g.members.value), g.health)]
                          + [Group(auto, Fallback, false, Some(Named(nodes)), Some(LegacyCheck))]),
                     doc.rules, doc.probeGroup)
    ensures ChosenNodes(policy, doc.groups.value, LeafNames(doc.proxies.value), doc.groups.value[at].members.value) == Some(nodes)
  {
    IndexExactly(doc.groups.value, policy.group);
    at := IndexOf(doc.groups.value, policy.group, 0).value;
    hide IndexOf, ChosenNodes, ValidPolicy;
    nodes := ChosenNodes(policy, doc.groups.value, LeafNames(doc.proxies.value), doc.groups.value[at].members.value).value;
    RulesLiteral(policy.group);
  }

  lemma RulesLiteral(group: string)
    ensures PrefixedRules(group) ==
              ["GEOSITE,openai," + group, "DOMAIN-SUFFIX,openai.com," + group, "DOMAIN-SUFFIX,chatgpt.com," + group,
               "DOMAIN-SUFFIX,oaistatic.com," + group, "DOMAIN-SUFFIX,oaiusercontent.com," + group]
  {
    forall i | 0 <= i < 5 ensures (MANAGED_RULES[i] + ",") + group == MANAGED_RULES[i] + ("," + group) {
    }
    assert "GEOSITE,openai" + "," == "GEOSITE,openai,";
    assert "DOMAIN-SUFFIX,openai.com" + "," == "DOMAIN-SUFFIX,openai.com,";
    assert "DOMAIN-SUFFIX,chatgpt.com" + "," == "DOMAIN-SUFFIX,chatgpt.com,";
    assert "DOMAIN-SUFFIX,oaistatic.com" + "," == "DOMAIN-SUFFIX,oaistatic.com,";
    assert "DOMAIN-SUFFIX,oaiusercontent.com" + "," == "DOMAIN-SUFFIX,oaiusercontent.com,";
  }

  /** But for a preferred node in front, moving it there leaves the others in their order. */
  lemma OthersKeepOrder(nodes: seq<string>, preferred: Option<string>, i: nat, j: nat) returns (a: nat, b: nat)
    requires i < j < |PreferredFirst(nodes, preferred)|
    requires i == 0 ==> preferred != Some(PreferredFirst(nodes, preferred)[0])
    ensures a < b < |nodes|
    ensures nodes[a] == PreferredFirst(nodes, preferred)[i] && nodes[b] == PreferredFirst(nodes, preferred)[j]
  {
    a, b := i, j;
    if preferred.Some? {
      PositionFound(nodes, preferred.value, 0);
      var at := Position(nodes, preferred.value, 0);
      if at.Some? {
        a, b := if i <= at.value then i - 1 else i, if j <= at.value then j - 1 else j;
      }
    }
  }

  /**
   The nodes generated by a managed policy, but for a preferred one in front, follow the order of the
   group graph: some route to the earlier node precedes every route to the later one.
   */
  lemma ManagedOrder(policy: Policy, doc: Document, fits: bool, nodes: seq<string>, i: nat, j: nat) returns (route: Route)
    requires policy.managed && Applied(policy, doc, fits).Ok? && Generates(Applied(policy, doc, fits).value, nodes)
    requires i < j < |nodes| && (i == 0 ==> policy.preferred != Some(nodes[0]))
    ensures doc.groups.Some? && doc.proxies.Some?
    ensures var g := Graph(doc.groups.value, LeafNames(doc.proxies.value));
            && Leads(g, policy.group, route, nodes[i])
            && forall other :: Leads(g, policy.group, other, nodes[j]) ==> Precedes(route, other)
  {
    var at, chosen := WritesExactly(policy, doc, fits);
    NamedInjective(chosen, nodes);
    hide Applied, PreferredFirst, Leads, LeafNames, Leaves;
    var g := Graph(doc.groups.value, LeafNames(doc.proxies.value));
    var found := Leaves(g, policy.group).value;
    var a, b := OthersKeepOrder(found, policy.preferred, i, j);
    route := BoundaryInOrder(g, policy.group, a, b);
  }

  lemma NamedInjective(a: seq<string>, b: seq<string>)
    requires Named(a) == Named(b)
    ensures a == b
  {
    assert |a| == |Named(a)| && |b| == |Named(b)|;
    forall i | 0 <= i < |a| ensures a[i] == b[i] {
      assert Named(a)[i] == Named(b)[i];
    }
  }

  /** Some member before position `k` names the node. */
  ghost predicate NamedBefore(members: seq<Option<string>>, n: string, k: nat) {
    exists m :: 0 <= m < k && m < |members| && members[m] == Some(n)
  }

  /** The nodes kept by a legacy policy, but for a preferred one in front, stand in the order of the members. */
  lemma LegacyOrder(policy: Policy, doc: Document, fits: bool, nodes: seq<string>, i: nat, j: nat) returns (at: nat, a: nat)
    requires !policy.managed && Applied(policy, doc, fits).Ok? && Generates(Applied(policy, doc, fits).value, nodes)
    requires i < j < |nodes| && (i == 0 ==> policy.preferred != Some(nodes[0]))
    ensures doc.groups.Some? && FirstNamed(doc.groups.value, policy.group, at) && doc.groups.value[at].members.Some?
    ensures var members := doc.groups.value[at].members.value;
            a < |members| && members[a] == Some(nodes[i]) && !NamedBefore(members, nodes[j], a + 1)
  {
    var chosen;
    at, chosen := WritesExactly(policy, doc, fits);
    NamedInjective(chosen, nodes);
    hide Applied, PreferredFirst, Generates;
    var members, leaves := doc.groups.value[at].members.value, LeafNames(doc.proxies.value);
    var kept := TextLeaves(members, leaves);
    DedupMeaning(kept);
    hide LeafNames, Dedup;
    var x, y := OthersKeepOrder(Dedup(kept), policy.preferred, i, j);
    var c :| 0 <= c < |kept| && kept[c] == nodes[i] && nodes[j] !in kept[..c + 1];
    TextLeavesMembers(members, leaves);
    a := KeptAt(members, leaves, c, nodes[j]);
  }

  /** Where the c-th kept leaf stands among the members; what is not kept before it does not stand before it. */
  lemma {:induction false} KeptAt(members: seq<Option<string>>, leaves: set<string>, c: nat, later: string) returns (a: nat)
    requires c < |TextLeaves(members, leaves)| && later !in TextLeaves(members, leaves)[..c + 1] && later in leaves
    ensures a < |members| && members[a] == Some(TextLeaves(members, leaves)[c])
    ensures !NamedBefore(members, later, a + 1)
  {
    var init: seq<Option<string>> := members[..|members| - 1];
    if c < |TextLeaves(init, leaves)| {
      assert TextLeaves(members, leaves)[..c + 1] == TextLeaves(init, leaves)[..c + 1];
      a := KeptAt(init, leaves, c, later);
    } else {
      a := |members| - 1;
      var kept := TextLeaves(members, leaves);
      assert kept[..c + 1] == kept;
      TextLeavesMembers(members, leaves);
      hide TextLeaves;
      assert Some(later) !in members;
    }
  }
}
