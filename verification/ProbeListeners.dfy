/**
 The private probe listeners of a derived configuration: one per node of the generated
 group, each on its own reserved loopback port, and how a probe finds its listener.
 */
module ProbeListeners {
  import opened Wrappers
  import opened Sequences
  import opened Names
  import opened Boundary
  import opened PolicyApply

  const MAX_PROBE_NODES: nat := 64

  datatype Listener = Listener(index: nat, proxy: string, port: nat)

  datatype Failure = InvalidProfile | PortReservation

  predicate IsPort(port: nat) { 0 < port < 0x1_0000 }

  /** Members of the generated selector that name a proxy of the profile. */
  function ProbeNodes(doc: Document): set<string> {
    if doc.probeGroup.None? || doc.groups.None? || doc.proxies.None? then {}
    else
      var names := AllNames(doc.proxies.value);
      set g, m | g in doc.groups.value && g.kind.Select? && g.name == Some(AutoName(doc.probeGroup.value))
                 && g.members.Some? && m in g.members.value && m.Some? && m.value in names :: m.value
  }

  /** Ports the system hands out while all earlier reservations are held; None when a reservation fails. */
  ghost predicate ReservedTogether(ports: seq<Option<nat>>) {
    && (forall i :: 0 <= i < |ports| && ports[i].Some? ==> IsPort(ports[i].value))
    && (forall i, j :: 0 <= i < j < |ports| && ports[i].Some? ==> ports[i] != ports[j])
  }

  ghost predicate Served(listeners: seq<Listener>, node: string) {
    exists i :: 0 <= i < |listeners| && listeners[i].proxy == node
  }

  /** Exactly one listener per node, on distinct ports and with distinct indices. */
  ghost predicate OnePerNode(listeners: seq<Listener>, nodes: set<string>) {
    && |listeners| == |nodes|
    && (forall i :: 0 <= i < |listeners| ==> listeners[i].index == i && listeners[i].proxy in nodes && IsPort(listeners[i].port))
    && (forall i, j :: 0 <= i < j < |listeners| ==>
          listeners[i].proxy != listeners[j].proxy && listeners[i].port != listeners[j].port)
    && (forall n :: n in nodes ==> Served(listeners, n))
  }

  /** `install_node_probe_listeners`; the order in which the nodes are taken is left open. */
  method InstallNodeProbeListeners(doc: Document, ports: seq<Option<nat>>) returns (r: Result<seq<Listener>, Failure>)
    requires |ports| >= MAX_PROBE_NODES && ReservedTogether(ports)
    ensures r == Err(InvalidProfile) <==> |ProbeNodes(doc)| > MAX_PROBE_NODES
    ensures r == Err(PortReservation) <==>
              |ProbeNodes(doc)| <= MAX_PROBE_NODES && exists i :: 0 <= i < |ProbeNodes(doc)| && ports[i].None?
    ensures r.Ok? ==> OnePerNode(r.value, ProbeNodes(doc))
  {
    var nodes := ProbeNodes(doc);
    if |nodes| > MAX_PROBE_NODES {
      return Err(InvalidProfile);
    }
    r := BindAll(nodes, ports);
  }

  lemma AddListener(listeners: seq<Listener>, done: set<string>, node: string, port: nat)
    requires OnePerNode(listeners, done) && node !in done && IsPort(port)
    requires forall i :: 0 <= i < |listeners| ==> listeners[i].port != port
    ensures OnePerNode(listeners + [Listener(|listeners|, node, port)], done + {node})
  {
    var longer := listeners + [Listener(|listeners|, node, port)];
    assert longer[|listeners|].proxy == node;
    assert forall n :: Served(listeners, n) ==> Served(longer, n) by {
      forall n | Served(listeners, n) ensures Served(longer, n) {
        var i :| 0 <= i < |listeners| && listeners[i].proxy == n;
        assert longer[i].proxy == n;
      }
    }
    assert Served(longer, node);
    hide Served;
  }

  /** The loop: all reservations are held until every node has its listener. */
  method BindAll(nodes: set<string>, ports: seq<Option<nat>>) returns (r: Result<seq<Listener>, Failure>)
    requires |nodes| <= |ports| && ReservedTogether(ports)
    ensures r.Err? ==> r.error == PortReservation && exists i :: 0 <= i < |nodes| && ports[i].None?
    ensures r.Ok? ==> OnePerNode(r.value, nodes) && forall i :: 0 <= i < |nodes| ==> ports[i].Some?
  {
    hide OnePerNode;
    var listeners: seq<Listener> := [];
    var done: set<string> := {};
    assert OnePerNode([], {}) by {
      NoListeners();
    }
    while done != nodes
      invariant done <= nodes && |listeners| == |done| <= |nodes|
      invariant OnePerNode(listeners, done)
      invariant forall i :: 0 <= i < |listeners| ==> Some(listeners[i].port) == ports[i]
      decreases nodes - done
    {
      Smaller(done, nodes);
      var node :| node in nodes - done;
      var port := ports[|listeners|];
      if port.None? {
        return Err(PortReservation);
      }
      forall i | 0 <= i < |listeners| ensures listeners[i].port != port.value {
        assert ports[i] != ports[|listeners|];
      }
      AddListener(listeners, done, node, port.value);
      listeners := listeners + [Listener(|listeners|, node, port.value)];
      done := done + {node};
      Smaller(done, nodes);
    }
    return Ok(listeners);
  }

  lemma NoListeners()
    ensures OnePerNode([], {})
  {
  }

  lemma Smaller(a: set<string>, b: set<string>)
    requires a <= b
    ensures |a| <= |b|
    ensures a != b ==> |a| < |b| && b - a != {}
  {
    assert b == a + (b - a);
    assert |b| == |a| + |b - a|;
  }

  /** How a probe looks its listener up: the first one that is bound to the node and has a usable port. */
  function ProbePort(listeners: seq<Listener>, node: string, from: nat): Option<nat>
    decreases |listeners| - from
  {
    if from >= |listeners| then None
    else if listeners[from].proxy == node && IsPort(listeners[from].port) then Some(listeners[from].port)
    else ProbePort(listeners, node, from + 1)
  }

  lemma {:induction false} ProbePortFound(listeners: seq<Listener>, node: string, from: nat, at: nat)
    requires from <= at < |listeners| && listeners[at].proxy == node && IsPort(listeners[at].port)
    requires forall i :: from <= i < |listeners| && i != at ==> listeners[i].proxy != node
    ensures ProbePort(listeners, node, from) == Some(listeners[at].port)
    decreases |listeners| - from
  {
    if from < at {
      ProbePortFound(listeners, node, from + 1, at);
    }
  }

  /** After a managed policy, the nodes to be probed are exactly the reachable leaves. */
  lemma ProbeNodesAreLeaves(policy: Policy, doc: Document, fits: bool)
    requires policy.managed && Applied(policy, doc, fits).Ok?
    ensures var g := Graph(doc.groups.value, LeafNames(doc.proxies.value));
            && Leaves(g, policy.group).Some?
            && forall n :: n in ProbeNodes(Applied(policy, doc, fits).value) <==> n in Leaves(g, policy.group).value
  {
    hide Applied, PreferredFirst, Leaves;
    ManagedShape(policy, doc, fits);
    var before, after := doc.groups.value, Applied(policy, doc, fits).value;
    var g := Graph(before, LeafNames(doc.proxies.value));
    var found := Leaves(g, policy.group).value;
    var nodes := PreferredFirst(found, policy.preferred);
    PreferredFirstMeaning(found, policy.preferred);
    PermutationKeeps(nodes, found);
    BoundaryExact(g, policy.group);
    var auto := AutoName(policy.group);
    var groups := after.groups.value;
    IndexOfFirst(before, auto, 0);
    IndexOfFirst(before, policy.group, 0);
    assert groups[|before|] in groups;
    forall n ensures n in ProbeNodes(after) <==> n in nodes {
      if n in nodes {
        var i :| 0 <= i < |nodes| && nodes[i] == n;
        assert Named(nodes)[i] == Some(n);
        assert n in AllNames(doc.proxies.value);
      }
      if n in ProbeNodes(after) {
        var k :| 0 <= k < |groups| && groups[k].name == Some(auto) && groups[k].members.Some? && Some(n) in groups[k].members.value;
        assert k == |before|;
        var i :| 0 <= i < |nodes| && Named(nodes)[i] == Some(n);
      }
    }
  }

  /**
   End to end: from a managed policy to the listeners, every node that recovery may choose has a
   listener of its own, found by its probe, and no listener serves any other node.
   */
  lemma EveryCandidateProbed(policy: Policy, doc: Document, fits: bool, listeners: seq<Listener>, node: string)
    requires policy.managed && Applied(policy, doc, fits).Ok?
    requires OnePerNode(listeners, ProbeNodes(Applied(policy, doc, fits).value))
    ensures var g := Graph(doc.groups.value, LeafNames(doc.proxies.value));
            && (node in Leaves(g, policy.group).value <==> ProbePort(listeners, node, 0).Some?)
            && (node in Leaves(g, policy.group).value ==>
                  exists i :: 0 <= i < |listeners| && listeners[i].proxy == node
                    && ProbePort(listeners, node, 0) == Some(listeners[i].port)
                    && forall j :: 0 <= j < |listeners| && j != i ==> listeners[j].proxy != node && listeners[j].port != listeners[i].port)
            && |listeners| == |Leaves(g, policy.group).value|
  {
    hide Applied, ProbeNodes, Leaves, OnePerNode, ProbePort;
    ManagedShape(policy, doc, fits);
    ProbeNodesAreLeaves(policy, doc, fits);
    var nodes := ProbeNodes(Applied(policy, doc, fits).value);
    var g := Graph(doc.groups.value, LeafNames(doc.proxies.value));
    var found := Leaves(g, policy.group).value;
    OwnListener(listeners, nodes, node);
    ListedAtLeast(nodes, found);
    BoundaryExact(g, policy.group);
    Pigeonhole(found, nodes);
  }

  /** A node has exactly one listener, which its probe finds, and any other name none. */
  lemma OwnListener(listeners: seq<Listener>, nodes: set<string>, node: string)
    requires OnePerNode(listeners, nodes)
    ensures |listeners| == |nodes|
    ensures node in nodes <==> ProbePort(listeners, node, 0).Some?
    ensures node in nodes ==>
              exists i :: 0 <= i < |listeners| && listeners[i].proxy == node
                && ProbePort(listeners, node, 0) == Some(listeners[i].port)
                && forall j :: 0 <= j < |listeners| && j != i ==> listeners[j].proxy != node && listeners[j].port != listeners[i].port
  {
    if node in nodes {
      assert Served(listeners, node);
      var i :| 0 <= i < |listeners| && listeners[i].proxy == node;
      ProbePortFound(listeners, node, 0, i);
    } else {
      ProbePortAbsent(listeners, node, 0);
    }
  }

  lemma {:induction false} ProbePortAbsent(listeners: seq<Listener>, node: string, from: nat)
    requires forall i :: from <= i < |listeners| ==> listeners[i].proxy != node
    ensures ProbePort(listeners, node, from).None?
    decreases |listeners| - from
  {
    if from < |listeners| {
      ProbePortAbsent(listeners, node, from + 1);
    }
  }

  lemma {:induction false} ListedAtLeast(names: set<string>, listed: seq<string>)
    requires forall n :: n in names ==> n in listed
    ensures |names| <= |listed|
  {
    if listed != [] {
      var init, last := listed[..|listed| - 1], listed[|listed| - 1];
      assert listed == init + [last];
      ListedAtLeast(names - {last}, init);
    } else {
      assert names == {};
    }
  }
}
