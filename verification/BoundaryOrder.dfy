/** The order of the boundary, told from routes through the group graph alone. */
module BoundaryOrder {
  import opened Wrappers
  import opened Sequences
  import opened Boundary

  /** The member taken at each group on the way. */
  type Route = seq<nat>

  /** From `name`, taking the members at these positions one after the other, one ends at the leaf `n`. */
  ghost predicate Leads(g: Graph, name: string, route: Route, n: string)
    decreases |route|
  {
    if route == [] then name == n && n in g.leaves
    else
      && Opens(g, name)
      && exists members: seq<Option<string>> :: Lists(g, name, members) && route[0] < |members| && members[route[0]].Some?
           && Leads(g, members[route[0]].value, route[1..], n)
  }

  /** At the first group where two routes part, the first one takes the earlier member. */
  ghost predicate Precedes(a: Route, b: Route) {
    exists k :: 0 <= k < |a| && k < |b| && a[..k] == b[..k] && a[k] < b[k]
  }

  lemma PrecedesUnder(p: nat, a: Route, b: Route)
    requires Precedes(a, b)
    ensures Precedes([p] + a, [p] + b)
  {
    var k :| 0 <= k < |a| && k < |b| && a[..k] == b[..k] && a[k] < b[k];
    var x, y := [p] + a, [p] + b;
    assert x[..k + 1] == [p] + a[..k] && y[..k + 1] == [p] + b[..k];
    assert x[k + 1] < y[k + 1];
  }

  lemma PrecedesFirst(a: Route, b: Route)
    requires a != [] && b != [] && a[0] < b[0]
    ensures Precedes(a, b)
  {
    assert a[..0] == b[..0];
  }

  /** One step of a route, with the members that the collector sees. */
  lemma LeadsStep(g: Graph, name: string, route: Route, n: string)
    requires route != []
    ensures Leads(g, name, route, n) <==>
              && Opens(g, name) && MembersOf(g, name).Some?
              && route[0] < |MembersOf(g, name).value| && MembersOf(g, name).value[route[0]].Some?
              && Leads(g, MembersOf(g, name).value[route[0]].value, route[1..], n)
  {
    if Leads(g, name, route, n) {
      var members: seq<Option<string>> :| Lists(g, name, members) && route[0] < |members| && members[route[0]].Some?
                     && Leads(g, members[route[0]].value, route[1..], n);
      MembersExactly(g, name, members);
    }
    if MembersOf(g, name).Some? {
      MembersExactly(g, name, MembersOf(g, name).value);
    }
  }

  // ---- the routes of a walk, met by met ----

  ghost function Under(p: nat, routes: seq<Route>): seq<Route> {
    seq(|routes|, i requires 0 <= i < |routes| => [p] + routes[i])
  }

  ghost function Routes(g: Graph, name: string, visiting: set<string>): seq<Route>
    requires Walk(g, name, visiting).Some?
    decreases MAX_DEPTH - |visiting|, 0
  {
    if name in g.leaves then [[]]
    else if BuiltIn(name) then []
    else RoutesAll(g, MembersOf(g, name).value, visiting + {name})
  }

  ghost function RoutesAll(g: Graph, members: seq<Option<string>>, visiting: set<string>): seq<Route>
    requires WalkAll(g, members, visiting).Some?
    decreases MAX_DEPTH - |visiting|, |members| + 1
  {
    if members == [] then []
    else
      RoutesAll(g, members[..|members| - 1], visiting)
      + Under(|members| - 1, Routes(g, members[|members| - 1].value, visiting))
  }

  /** A route of a member list starts at one of its members. */
  ghost predicate Starts(g: Graph, members: seq<Option<string>>, route: Route, n: string) {
    route != [] && route[0] < |members| && members[route[0]].Some? && Leads(g, members[route[0]].value, route[1..], n)
  }

  lemma {:induction false} RoutesLead(g: Graph, name: string, visiting: set<string>)
    requires Walk(g, name, visiting).Some?
    ensures |Routes(g, name, visiting)| == |Walk(g, name, visiting).value|
    ensures forall i :: 0 <= i < |Routes(g, name, visiting)| ==>
              Leads(g, name, Routes(g, name, visiting)[i], Walk(g, name, visiting).value[i])
    decreases MAX_DEPTH - |visiting|, 0
  {
    NamesExactly(name);
    if name !in g.leaves && !BuiltIn(name) {
      var members := MembersOf(g, name).value;
      RoutesAllLead(g, members, visiting + {name});
      var routes, met := RoutesAll(g, members, visiting + {name}), WalkAll(g, members, visiting + {name}).value;
      forall i | 0 <= i < |routes| ensures Leads(g, name, routes[i], met[i]) {
        assert Starts(g, members, routes[i], met[i]);
        LeadsStep(g, name, routes[i], met[i]);
      }
    }
  }

  lemma {:induction false} RoutesAllLead(g: Graph, members: seq<Option<string>>, visiting: set<string>)
    requires WalkAll(g, members, visiting).Some?
    ensures |RoutesAll(g, members, visiting)| == |WalkAll(g, members, visiting).value|
    ensures forall i :: 0 <= i < |RoutesAll(g, members, visiting)| ==>
              Starts(g, members, RoutesAll(g, members, visiting)[i], WalkAll(g, members, visiting).value[i])
    decreases MAX_DEPTH - |visiting|, |members| + 1
  {
    if members != [] {
      var init, last := members[..|members| - 1], members[|members| - 1].value;
      RoutesAllLead(g, init, visiting);
      RoutesLead(g, last, visiting);
      var before, below := RoutesAll(g, init, visiting), Routes(g, last, visiting);
      var met, lower := WalkAll(g, init, visiting).value, Walk(g, last, visiting).value;
      hide Leads, Starts, Walk, Routes, Under;
      StartsJoined(g, members, before, met, below, lower);
    }
  }

  /** The routes of the earlier members, and then those of the last one. */
  lemma StartsJoined(g: Graph, members: seq<Option<string>>, before: seq<Route>, met: seq<string>, below: seq<Route>, lower: seq<string>)
    requires members != [] && members[|members| - 1].Some? && |before| == |met| && |below| == |lower|
    requires forall i :: 0 <= i < |before| ==> Starts(g, members[..|members| - 1], before[i], met[i])
    requires forall i :: 0 <= i < |below| ==> Leads(g, members[|members| - 1].value, below[i], lower[i])
    ensures var routes := before + Under(|members| - 1, below);
            |routes| == |met + lower| && forall i :: 0 <= i < |routes| ==> Starts(g, members, routes[i], (met + lower)[i])
  {
    hide Leads;
    var routes := before + Under(|members| - 1, below);
    forall i | 0 <= i < |routes| ensures Starts(g, members, routes[i], (met + lower)[i]) {
      if i < |before| {
        assert Starts(g, members[..|members| - 1], before[i], met[i]);
      } else {
        assert routes[i] == [|members| - 1] + below[i - |before|];
        assert routes[i][1..] == below[i - |before|];
      }
    }
  }

  ghost predicate Sorted(routes: seq<Route>) {
    forall i, j :: 0 <= i < j < |routes| ==> Precedes(routes[i], routes[j])
  }

  lemma {:induction false} RoutesSorted(g: Graph, name: string, visiting: set<string>)
    requires Walk(g, name, visiting).Some?
    ensures Sorted(Routes(g, name, visiting))
    decreases MAX_DEPTH - |visiting|, 0
  {
    if name !in g.leaves && !BuiltIn(name) {
      RoutesAllSorted(g, MembersOf(g, name).value, visiting + {name});
    }
  }

  lemma {:induction false} RoutesAllSorted(g: Graph, members: seq<Option<string>>, visiting: set<string>)
    requires WalkAll(g, members, visiting).Some?
    ensures Sorted(RoutesAll(g, members, visiting))
    decreases MAX_DEPTH - |visiting|, |members| + 1
  {
    if members != [] {
      var init, last := members[..|members| - 1], members[|members| - 1].value;
      RoutesAllSorted(g, init, visiting);
      RoutesSorted(g, last, visiting);
      RoutesAllLead(g, init, visiting);
      var before, below := RoutesAll(g, init, visiting), Routes(g, last, visiting);
      var all := before + Under(|init|, below);
      forall i, j | 0 <= i < j < |all| ensures Precedes(all[i], all[j]) {
        if i < |before| <= j {
          assert Starts(g, init, before[i], WalkAll(g, init, visiting).value[i]);
          PrecedesFirst(all[i], all[j]);
        } else if |before| <= i {
          PrecedesUnder(|init|, below[i - |before|], below[j - |before|]);
        }
      }
    }
  }

  /** Every route that ends at a leaf is among the routes of a walk, at that leaf. */
  lemma {:induction false} RoutesComplete(g: Graph, name: string, visiting: set<string>, route: Route, n: string) returns (i: nat)
    requires Walk(g, name, visiting).Some? && Leads(g, name, route, n)
    ensures |Routes(g, name, visiting)| == |Walk(g, name, visiting).value|
    ensures i < |Routes(g, name, visiting)| && Routes(g, name, visiting)[i] == route && Walk(g, name, visiting).value[i] == n
    decreases MAX_DEPTH - |visiting|, 0
  {
    NamesExactly(name);
    RoutesLead(g, name, visiting);
    if route == [] {
      i := 0;
    } else {
      LeadsStep(g, name, route, n);
      i := RoutesAllComplete(g, MembersOf(g, name).value, visiting + {name}, route, n);
    }
  }

  /** Unfolding a member list at its last member: the walk, the routes, and their common length. */
  lemma AllUnfolds(g: Graph, members: seq<Option<string>>, visiting: set<string>)
    requires WalkAll(g, members, visiting).Some? && members != []
    ensures var init, last := members[..|members| - 1], members[|members| - 1];
            && last.Some? && WalkAll(g, init, visiting).Some? && Walk(g, last.value, visiting).Some?
            && |RoutesAll(g, init, visiting)| == |WalkAll(g, init, visiting).value|
            && |Routes(g, last.value, visiting)| == |Walk(g, last.value, visiting).value|
            && WalkAll(g, members, visiting).value == WalkAll(g, init, visiting).value + Walk(g, last.value, visiting).value
            && RoutesAll(g, members, visiting) == RoutesAll(g, init, visiting) + Under(|init|, Routes(g, last.value, visiting))
  {
    var init, last := members[..|members| - 1], members[|members| - 1];
    RoutesAllLead(g, init, visiting);
    RoutesLead(g, last.value, visiting);
    hide Leads, Starts, Walk, Routes, Under;
  }

  lemma UnderAt(before: seq<Route>, p: nat, below: seq<Route>, k: nat)
    requires k < |below|
    ensures (before + Under(p, below))[|before| + k] == [p] + below[k]
  {
  }

  lemma MetAt(met: seq<string>, lower: seq<string>, k: nat)
    requires k < |lower|
    ensures (met + lower)[|met| + k] == lower[k]
  {
  }

  lemma {:induction false} RoutesAllComplete(g: Graph, members: seq<Option<string>>, visiting: set<string>,
                                             route: Route, n: string)
    returns (i: nat)
    requires WalkAll(g, members, visiting).Some? && Starts(g, members, route, n)
    ensures |RoutesAll(g, members, visiting)| == |WalkAll(g, members, visiting).value|
    ensures i < |RoutesAll(g, members, visiting)|
    ensures RoutesAll(g, members, visiting)[i] == route && WalkAll(g, members, visiting).value[i] == n
    decreases MAX_DEPTH - |visiting|, |members| + 1
  {
    AllUnfolds(g, members, visiting);
    hide Leads, Walk, Routes, RoutesAll, WalkAll;
    var init, last := members[..|members| - 1], members[|members| - 1].value;
    var before, met := RoutesAll(g, init, visiting), WalkAll(g, init, visiting).value;
    var below, lower := Routes(g, last, visiting), Walk(g, last, visiting).value;
    assert |Under(|init|, below)| == |below|;
    hide Under;
    if route[0] < |init| {
      assert Starts(g, init, route, n);
      i := RoutesAllComplete(g, init, visiting, route, n);
    } else {
      var k := RoutesComplete(g, last, visiting, route[1..], n);
      i := |before| + k;
      UnderAt(before, |init|, below, k);
      MetAt(met, lower, k);
      assert route == [|init|] + route[1..];
    }
  }

  /**
   The boundary lists its leaves in the order of the group graph: for a leaf before another, some
   route to the first precedes every route to the second.
   */
  lemma BoundaryInOrder(g: Graph, root: string, i: nat, j: nat) returns (route: Route)
    requires Leaves(g, root).Some? && i < j < |Leaves(g, root).value|
    ensures Leads(g, root, route, Leaves(g, root).value[i])
    ensures forall other :: Leads(g, root, other, Leaves(g, root).value[j]) ==> Precedes(route, other)
  {
    var met, out := Walk(g, root, {}).value, Leaves(g, root).value;
    DedupMeaning(met);
    var a :| 0 <= a < |met| && met[a] == out[i] && out[j] !in met[..a + 1];
    RoutesLead(g, root, {});
    RoutesSorted(g, root, {});
    var routes := Routes(g, root, {});
    route := routes[a];
    forall c | 0 <= c <= a ensures met[c] in met[..a + 1] {
      assert met[..a + 1][c] == met[c];
    }
    forall other | Leads(g, root, other, out[j]) ensures Precedes(route, other) {
      var c := RoutesComplete(g, root, {}, other, out[j]);
    }
  }
}
