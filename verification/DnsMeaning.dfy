/**
 What a resolver configuration means, with its listener and after the listener is gone, and
 exactly when preparing it keeps that meaning, leaves no reference, and touches nothing else.
 */
module DnsMeaning {
  import opened Wrappers
  import opened Sequences
  import opened Dns

  // ---- a denotation ----

  /** Who is asking. An upstream that is not direct may be reached differently by each. */
  datatype Asker = MainPipeline | NodePool | DirectPool

  datatype Answer =
    | Direct(upstream: Value)
    | Routed(asker: Asker, upstream: Value)
    | PipelineWithOptions(entry: Value)
    | Dangling(entry: Value)

  /** Where answers may come from: the resolvers asked first, and those of the fallback stage. */
  datatype Meaning = Meaning(primary: set<Answer>, fallback: set<Answer>)

  /**
   What the resolver software decides: which policy key applies to a domain, and what node
   resolution means when it has no pool although a node policy or rule routing asks for one.
   */
  datatype World = World(choose: (set<string>, string) -> Option<string>, noPool: string -> Meaning)

  ghost function Entry(x: Syntax, asker: Asker, v: Value): Answer {
    if AllDirect(x, v) then Direct(v) else Routed(asker, v)
  }

  ghost function Entries(x: Syntax, asker: Asker, vs: seq<Value>): set<Answer> {
    set v | v in vs :: Entry(x, asker, v)
  }

  /** The main pipeline: the policy's resolvers where it applies, otherwise nameserver backed by fallback. */
  ghost function Main(x: Syntax, w: World, dns: Config, domain: string): Meaning {
    var policy := EntriesOf(Field(dns, NAMESERVER_POLICY));
    var key := w.choose(policy.Keys, domain);
    if key.Some? && key.value in policy then
      Meaning(Entries(x, MainPipeline, Values(x, policy[key.value])), {})
    else
      Meaning(Entries(x, MainPipeline, Values(x, Field(dns, NAMESERVER))),
              Entries(x, MainPipeline, Values(x, Field(dns, FALLBACK))))
  }

  /** The entries of a pool field; a mapping is no list of resolvers, but it may refer to the listener. */
  ghost function Elements(x: Syntax, v: Value, l: Endpoint): seq<Value> {
    if v.Mapping? && ContainsSelf(x, v, l) then [v] else Values(x, v)
  }

  /** The entry asks the listener: it is the listener itself, or refers to it somewhere inside. */
  ghost predicate UsesMain(x: Syntax, v: Value, l: Endpoint) {
    ContainsSelf(x, v, l) && !(IsSelf(x, v, l) && EndpointOf(x, v).value.options)
  }

  /**
   A pool asks each entry. While the listener is alive, an entry that refers to it asks the main
   pipeline; once it is gone, such an entry dangles.
   */
  ghost function Pool(x: Syntax, asker: Asker, vs: seq<Value>, l: Endpoint, alive: bool, main: Meaning): Meaning {
    var others := set v | v in vs && !IsSelf(x, v, l) :: Entry(x, asker, v);
    if !alive then Meaning(others + (set v | v in vs && ContainsSelf(x, v, l) :: Dangling(v)), {})
    else
      var optioned := set v | v in vs && IsSelf(x, v, l) && EndpointOf(x, v).value.options :: PipelineWithOptions(v);
      if exists v :: v in vs && UsesMain(x, v, l) then Meaning(others + optioned + main.primary, main.fallback)
      else Meaning(others + optioned, {})
  }

  /** Node resolution: the policy entry that applies, else the node pool, else what its absence means. */
  ghost function Node(x: Syntax, w: World, dns: Config, l: Endpoint, alive: bool, domain: string): Meaning {
    var policy := EntriesOf(Field(dns, NODE_POLICY));
    var key := w.choose(policy.Keys, domain);
    var main := Main(x, w, dns, domain);
    if key.Some? && key.value in policy then Pool(x, NodePool, Elements(x, policy[key.value], l), l, alive, main)
    else if NODE in dns then Pool(x, NodePool, Elements(x, dns[NODE], l), l, alive, main)
    else if NodePoolOptional(dns) then main
    else w.noPool(domain)
  }

  ghost function DirectMeaning(x: Syntax, w: World, dns: Config, l: Endpoint, alive: bool, domain: string): Meaning {
    var main := Main(x, w, dns, domain);
    if DIRECT in dns then Pool(x, DirectPool, Elements(x, dns[DIRECT], l), l, alive, main) else main
  }

  /** One domain resolves from the same sources before, with the listener, and after, without it. */
  ghost predicate SameResolution(x: Syntax, w: World, before: Config, after: Config, l: Endpoint, domain: string) {
    && Main(x, w, after, domain) == Main(x, w, before, domain)
    && Node(x, w, after, l, false, domain) == Node(x, w, before, l, true, domain)
    && DirectMeaning(x, w, after, l, false, domain) == DirectMeaning(x, w, before, l, true, domain)
  }

  /** An element that hides a self reference inside a nested list or mapping. */
  ghost predicate HidesSelf(x: Syntax, v: Value, l: Endpoint) {
    ContainsSelf(x, v, l) && !IsSelf(x, v, l)
  }

  ghost predicate ListHidesSelf(x: Syntax, vs: seq<Value>, l: Endpoint) {
    exists i :: 0 <= i < |vs| && HidesSelf(x, vs[i], l)
  }

  /** A pool field whose entries hide a self reference from the rewriting. */
  ghost predicate Hides(x: Syntax, v: Value, l: Endpoint) {
    ListHidesSelf(x, Elements(x, v, l), l)
  }

  /** Somewhere a resolver pool or a policy entry hides a self reference. */
  ghost predicate Hidden(x: Syntax, dns: Config, l: Endpoint) {
    || Hides(x, Field(dns, NODE), l)
    || Hides(x, Field(dns, DIRECT), l)
    || exists k :: k in EntriesOf(Field(dns, NODE_POLICY)) && Hides(x, EntriesOf(Field(dns, NODE_POLICY))[k], l)
  }

  // ---- facts about the transformation ----

  lemma {:induction false} FlatMembers(x: Syntax, resolvers: seq<Value>, l: Endpoint, upstreams: seq<Value>)
    ensures forall v :: v in Flat(x, resolvers, l, upstreams) <==>
              || (v in resolvers && !IsSelf(x, v, l))
              || (v in upstreams && exists s :: s in resolvers && IsSelf(x, s, l))
  {
    if resolvers != [] {
      var init, last := resolvers[..|resolvers| - 1], resolvers[|resolvers| - 1];
      assert resolvers == init + [last];
      FlatMembers(x, init, l, upstreams);
    }
  }

  lemma ExpandedMembers(x: Syntax, resolvers: seq<Value>, l: Endpoint, upstreams: seq<Value>)
    ensures forall v :: v in Expanded(x, resolvers, l, upstreams) <==>
              || (v in resolvers && !IsSelf(x, v, l))
              || (v in upstreams && exists s :: s in resolvers && IsSelf(x, s, l))
  {
    FlatMembers(x, resolvers, l, upstreams);
    DedupMeaning(Flat(x, resolvers, l, upstreams));
  }

  /** Where no self entry carries options, no pool entry that is the listener does. */
  lemma NoOptions(x: Syntax, v: Value, l: Endpoint)
    requires !HasSelfOptions(x, v, l)
    ensures forall e :: e in Values(x, v) && IsSelf(x, e, l) ==> !EndpointOf(x, e).value.options
  {
    forall e | e in Values(x, v) && IsSelf(x, e, l) ensures !EndpointOf(x, e).value.options {
      if v.List? {
        var i :| 0 <= i < |v.items| && v.items[i] == e;
        assert !HasSelfOptions(x, v.items[i], l);
      }
    }
  }

  /** In a simple configuration made of direct upstreams, the main pipeline is just the nameserver list. */
  lemma SimpleMain(x: Syntax, w: World, dns: Config, domain: string)
    requires !Complex(x, dns)
    ensures Main(x, w, dns, domain) == Meaning(Entries(x, MainPipeline, Values(x, Field(dns, NAMESERVER))), {})
  {
  }

  lemma NameserverDirect(x: Syntax, v: Value, asker: Asker)
    requires AllDirect(x, v)
    ensures forall u :: u in Values(x, v) ==> AllDirect(x, u)
    ensures Entries(x, asker, Values(x, v)) == Entries(x, MainPipeline, Values(x, v))
  {
    forall u | u in Values(x, v) ensures AllDirect(x, u) {
      if v.List? {
        var i :| 0 <= i < |v.items| && v.items[i] == u;
      }
    }
  }

  /** A pool whose self entries all stand for the plain main pipeline keeps its meaning when they are expanded. */
  lemma ExpandedPool(x: Syntax, asker: Asker, vs: seq<Value>, l: Endpoint, upstreams: seq<Value>, main: Meaning)
    requires forall e :: e in vs && IsSelf(x, e, l) ==> !EndpointOf(x, e).value.options
    requires !ListHidesSelf(x, vs, l) && forall u :: u in upstreams ==> !ContainsSelf(x, u, l)
    requires main == Meaning(Entries(x, asker, upstreams), {})
    ensures Pool(x, asker, Expanded(x, vs, l, upstreams), l, false, main) == Pool(x, asker, vs, l, true, main)
  {
    ExpandedMembers(x, vs, l, upstreams);
    PlainEntries(x, vs, l);
    hide ContainsSelf, Expanded;
    var r := Expanded(x, vs, l, upstreams);
    var after := Pool(x, asker, r, l, false, main);
    var before := Pool(x, asker, vs, l, true, main);
    assert forall v :: v in r ==> !ContainsSelf(x, v, l) && !IsSelf(x, v, l);
    forall a | a in after.primary ensures a in before.primary {
      var v :| v in r && a == Entry(x, asker, v);
    }
    forall a | a in before.primary ensures a in after.primary {
      if v :| v in vs && !IsSelf(x, v, l) && a == Entry(x, asker, v) {
        assert v in r;
      } else {
        var u :| u in upstreams && a == Entry(x, asker, u);
        assert u in r;
      }
    }
    assert after.primary == before.primary;
  }

  /** Where nothing is hidden, referring to the listener means being the listener. */
  lemma PlainEntries(x: Syntax, vs: seq<Value>, l: Endpoint)
    requires !ListHidesSelf(x, vs, l)
    ensures forall v :: v in vs ==> (ContainsSelf(x, v, l) <==> IsSelf(x, v, l))
  {
    forall v | v in vs ensures ContainsSelf(x, v, l) <==> IsSelf(x, v, l) {
      var i :| 0 <= i < |vs| && vs[i] == v;
      assert !HidesSelf(x, vs[i], l);
    }
  }

  /** A pool made of self entries only is the main pipeline. */
  lemma InheritedPool(x: Syntax, asker: Asker, vs: seq<Value>, l: Endpoint, main: Meaning)
    requires vs != [] && forall e :: e in vs ==> IsSelf(x, e, l) && !EndpointOf(x, e).value.options
    ensures Pool(x, asker, vs, l, true, main) == main
  {
    assert vs[0] in vs && UsesMain(x, vs[0], l);
  }

  /** A pool that does not refer to the listener means the same whether or not the listener exists. */
  lemma IndependentPool(x: Syntax, asker: Asker, vs: seq<Value>, l: Endpoint, main: Meaning)
    requires forall e :: e in vs ==> !ContainsSelf(x, e, l)
    ensures Pool(x, asker, vs, l, true, main) == Pool(x, asker, vs, l, false, main)
  {
    forall e | e in vs ensures !IsSelf(x, e, l) {
      SelfContained(x, e, l);
    }
    hide ContainsSelf;
    assert (set v | v in vs && ContainsSelf(x, v, l) :: Dangling(v)) == {};
  }

  lemma SelfContained(x: Syntax, v: Value, l: Endpoint)
    ensures IsSelf(x, v, l) ==> ContainsSelf(x, v, l)
  {
  }

  /** Where nothing is hidden, the entries are the values that the rewriting sees. */
  lemma VisibleElements(x: Syntax, v: Value, l: Endpoint)
    requires !Hides(x, v, l)
    ensures Elements(x, v, l) == Values(x, v) && !ListHidesSelf(x, Values(x, v), l)
  {
    assert v.Mapping? && ContainsSelf(x, v, l) ==> [v][0] == v && HidesSelf(x, [v][0], l);
  }

  ghost predicate Accepted(x: Syntax, dns: Config) {
    Prepared(x, dns).Ok? && Listener(x, dns).Some?
  }

  /** The checks that an adapted configuration has passed. */
  ghost predicate Adaptable(x: Syntax, base: Config, l: Endpoint) {
    && !MainRefersToSelf(x, base, l)
    && !PoolsHaveSelfOptions(x, base, l)
    && MainIsDirect(x, base)
  }

  ghost function PoolOrMain(x: Syntax, dns: Config, field: string, asker: Asker, l: Endpoint, main: Meaning): Meaning {
    if field in dns then Pool(x, asker, Elements(x, dns[field], l), l, false, main) else main
  }

  /** One pool field: rewriting it keeps what it means, whichever of the three cases applies. */
  lemma RewritePoolMeaning(x: Syntax, w: World, dns: Config, field: string, asker: Asker, l: Endpoint,
                           inheritable: bool, domain: string)
    requires !HasSelfOptions(x, Field(dns, field), l) && AllDirect(x, Field(dns, NAMESERVER))
    requires !ContainsSelf(x, Field(dns, NAMESERVER), l) && !Hides(x, Field(dns, field), l)
    requires RewritePool(x, dns, field, l, inheritable).Ok?
    requires field in dns
    ensures var after := RewritePool(x, dns, field, l, inheritable).value;
            var main := Main(x, w, dns, domain);
            && PoolOrMain(x, after, field, asker, l, main) == Pool(x, asker, Elements(x, dns[field], l), l, true, main)
            && (field in after || inheritable)
  {
    hide HasSelfOptions, AllDirect, Complex, Main, Pool, IsSelf, Expanded, ContainsSelf, Hides, ListHidesSelf;
    var resolvers := Values(x, dns[field]);
    var upstreams := Values(x, Field(dns, NAMESERVER));
    var main := Main(x, w, dns, domain);
    NoOptions(x, dns[field], l);
    VisibleElements(x, dns[field], l);
    UpstreamsSelfFree(x, Field(dns, NAMESERVER), l);
    if forall i :: 0 <= i < |resolvers| ==> !IsSelf(x, resolvers[i], l) {
      PlainEntries(x, resolvers, l);
      IndependentPool(x, asker, resolvers, l, main);
    } else if inheritable && forall i :: 0 <= i < |resolvers| ==> IsSelf(x, resolvers[i], l) {
      InheritedPool(x, asker, resolvers, l, main);
    } else {
      SimpleMain(x, w, dns, domain);
      NameserverDirect(x, Field(dns, NAMESERVER), asker);
      ExpandedPool(x, asker, resolvers, l, upstreams, main);
    }
  }

  /** One policy entry keeps its meaning. */
  lemma RewriteEntryMeaning(x: Syntax, asker: Asker, v: Value, l: Endpoint, upstreams: seq<Value>, main: Meaning)
    requires !HasSelfOptions(x, v, l) && !Hides(x, v, l)
    requires forall u :: u in upstreams ==> !ContainsSelf(x, u, l)
    requires ContainsSelf(x, v, l) ==> main == Meaning(Entries(x, asker, upstreams), {})
    ensures Pool(x, asker, Elements(x, RewriteEntry(x, v, l, upstreams), l), l, false, main)
            == Pool(x, asker, Elements(x, v, l), l, true, main)
  {
    NoOptions(x, v, l);
    VisibleElements(x, v, l);
    if ContainsSelf(x, v, l) {
      hide Pool, Hides, ListHidesSelf;
      ExpandedPool(x, asker, Values(x, v), l, upstreams, main);
    } else {
      UpstreamsSelfFree(x, v, l);
      hide Hides, ListHidesSelf;
      IndependentPool(x, asker, Values(x, v), l, main);
    }
  }

  lemma SameMainMeaning(x: Syntax, w: World, a: Config, b: Config, domain: string)
    requires SameMain(a, b)
    ensures Main(x, w, a, domain) == Main(x, w, b, domain)
  {
    SameMainFields(x, a, b);
  }

  /** The three stages of an accepted rewriting. */
  lemma Stages(x: Syntax, base: Config, l: Endpoint) returns (first: Config, second: Config)
    requires RewritePools(x, base, l).Ok?
    ensures RewritePool(x, base, NODE, l, NodePoolOptional(base)) == Ok(first)
    ensures RewritePool(x, first, DIRECT, l, true) == Ok(second)
    ensures RewriteNodePolicy(x, second, l) == RewritePools(x, base, l)
    ensures SameMain(base, first) && SameMain(first, second) && SameMain(second, RewritePools(x, base, l).value)
    ensures Field(second, NODE_POLICY) == Field(base, NODE_POLICY) && (NODE_POLICY in second <==> NODE_POLICY in base)
    ensures Field(first, DIRECT) == Field(base, DIRECT) && (DIRECT in first <==> DIRECT in base)
    ensures var after := RewritePools(x, base, l).value;
            && Field(after, NODE) == Field(first, NODE) && (NODE in after <==> NODE in first)
            && Field(after, DIRECT) == Field(second, DIRECT) && (DIRECT in after <==> DIRECT in second)
  {
    first := RewritePool(x, base, NODE, l, NodePoolOptional(base)).value;
    second := RewritePool(x, first, DIRECT, l, true).value;
    DistinctKeys();
    RewritePoolFrame(x, base, NODE, l, NodePoolOptional(base));
    RewritePoolFrame(x, first, DIRECT, l, true);
  }

  lemma DirectPreserved(x: Syntax, w: World, base: Config, l: Endpoint, domain: string)
    requires Adaptable(x, base, l) && RewritePools(x, base, l).Ok? && !Hides(x, Field(base, DIRECT), l)
    ensures DirectMeaning(x, w, RewritePools(x, base, l).value, l, false, domain)
         == DirectMeaning(x, w, base, l, true, domain)
  {
    hide RewritePool, RewritePools, RewriteNodePolicy, HasSelfOptions, AllDirect, Pool, Main, ContainsSelf, Hides;
    var after := RewritePools(x, base, l).value;
    var first, second := Stages(x, base, l);
    SameMainMeaning(x, w, base, first, domain);
    SameMainMeaning(x, w, first, second, domain);
    SameMainMeaning(x, w, second, after, domain);
    SameMainFields(x, base, first);
    if DIRECT in base {
      RewritePoolMeaning(x, w, first, DIRECT, DirectPool, l, true, domain);
    } else {
      AbsentPool(x, first, DIRECT, l, true);
    }
  }

  lemma AbsentPool(x: Syntax, dns: Config, field: string, l: Endpoint, inheritable: bool)
    requires field !in dns
    ensures RewritePool(x, dns, field, l, inheritable) == Ok(dns)
  {
  }

  lemma NodePolicyRewritten(x: Syntax, second: Config, l: Endpoint)
    requires RewriteNodePolicy(x, second, l).Ok?
    ensures var before := EntriesOf(Field(second, NODE_POLICY));
            var after := EntriesOf(Field(RewriteNodePolicy(x, second, l).value, NODE_POLICY));
            var upstreams := Values(x, Field(second, NAMESERVER));
            && after.Keys == before.Keys
            && (forall k :: k in before ==> after[k] == RewriteEntry(x, before[k], l, upstreams))
            && ((exists k :: k in before && ContainsSelf(x, before[k], l)) ==> !Complex(x, second))
  {
  }

  lemma PolicyPreserved(x: Syntax, w: World, second: Config, l: Endpoint, key: string, domain: string)
    requires RewriteNodePolicy(x, second, l).Ok? && key in EntriesOf(Field(second, NODE_POLICY))
    requires !HasSelfOptions(x, Field(second, NODE_POLICY), l) && AllDirect(x, Field(second, NAMESERVER))
    requires !ContainsSelf(x, Field(second, NAMESERVER), l) && !Hides(x, EntriesOf(Field(second, NODE_POLICY))[key], l)
    ensures var after := RewriteNodePolicy(x, second, l).value;
            var main := Main(x, w, second, domain);
            && key in EntriesOf(Field(after, NODE_POLICY))
            && Pool(x, NodePool, Elements(x, EntriesOf(Field(after, NODE_POLICY))[key], l), l, false, main)
               == Pool(x, NodePool, Elements(x, EntriesOf(Field(second, NODE_POLICY))[key], l), l, true, main)
  {
    hide RewriteNodePolicy, Pool, Main, Complex, ContainsSelf, RewriteEntry, Hides;
    NodePolicyRewritten(x, second, l);
    var v := EntriesOf(Field(second, NODE_POLICY))[key];
    var upstreams := Values(x, Field(second, NAMESERVER));
    UpstreamsSelfFree(x, Field(second, NAMESERVER), l);
    if ContainsSelf(x, v, l) {
      SimpleMain(x, w, second, domain);
      NameserverDirect(x, Field(second, NAMESERVER), NodePool);
    }
    RewriteEntryMeaning(x, NodePool, v, l, upstreams, Main(x, w, second, domain));
  }

  lemma NodePreserved(x: Syntax, w: World, base: Config, l: Endpoint, domain: string)
    requires Adaptable(x, base, l) && RewritePools(x, base, l).Ok? && !Hidden(x, base, l)
    ensures Node(x, w, RewritePools(x, base, l).value, l, false, domain) == Node(x, w, base, l, true, domain)
  {
    hide RewritePool, RewritePools, RewriteNodePolicy, HasSelfOptions, AllDirect, Pool, Main, Complex, ContainsSelf, Hides;
    var after := RewritePools(x, base, l).value;
    var first, second := Stages(x, base, l);
    SameMainMeaning(x, w, base, first, domain);
    SameMainMeaning(x, w, first, second, domain);
    SameMainMeaning(x, w, second, after, domain);
    SameMainFields(x, base, first);
    SameMainFields(x, first, second);
    SameMainFields(x, second, after);
    NodePolicyRewritten(x, second, l);
    var policy := EntriesOf(Field(base, NODE_POLICY));
    var key := w.choose(policy.Keys, domain);
    if key.Some? && key.value in policy {
      PolicyPreserved(x, w, second, l, key.value, domain);
    } else if NODE in base {
      RewritePoolMeaning(x, w, base, NODE, NodePool, l, NodePoolOptional(base), domain);
    } else {
      AbsentPool(x, base, NODE, l, NodePoolOptional(base));
    }
  }

  /**
   Meaning preservation: for every domain, an accepted configuration that hides no reference
   resolves node names, direct names and everything else from the same sources as before,
   although the listener is gone.
   */
  lemma MeaningPreserved(x: Syntax, w: World, dns: Config, domain: string)
    requires Accepted(x, dns) && !Hidden(x, dns, Listener(x, dns).value)
    ensures SameResolution(x, w, dns, Prepared(x, dns).value, Listener(x, dns).value, domain)
  {
    hide RewritePools, MainRefersToSelf, HasSelfOptions, AllDirect, Pool, ContainsSelf, Complex, Main, Hides;
    DistinctKeys();
    var base, l := WithoutListener(dns), Listener(x, dns).value;
    BaseMeaning(x, w, dns, l, domain);
    if PoolsReferToSelf(x, base, l) {
      var first, second := Stages(x, base, l);
      SameMainMeaning(x, w, base, first, domain);
      SameMainMeaning(x, w, first, second, domain);
      SameMainMeaning(x, w, second, RewritePools(x, base, l).value, domain);
      NodePreserved(x, w, base, l, domain);
      DirectPreserved(x, w, base, l, domain);
    } else {
      UnreferencedPools(x, w, base, l, domain);
    }
  }

  lemma BaseMeaning(x: Syntax, w: World, dns: Config, l: Endpoint, domain: string)
    ensures var base := WithoutListener(dns);
            && Main(x, w, base, domain) == Main(x, w, dns, domain)
            && Node(x, w, base, l, true, domain) == Node(x, w, dns, l, true, domain)
            && DirectMeaning(x, w, base, l, true, domain) == DirectMeaning(x, w, dns, l, true, domain)
  {
    hide Pool, Elements;
    DistinctKeys();
  }

  lemma UnreferencedPools(x: Syntax, w: World, base: Config, l: Endpoint, domain: string)
    requires !PoolsReferToSelf(x, base, l)
    ensures Node(x, w, base, l, false, domain) == Node(x, w, base, l, true, domain)
    ensures DirectMeaning(x, w, base, l, false, domain) == DirectMeaning(x, w, base, l, true, domain)
  {
    var main := Main(x, w, base, domain);
    UpstreamsSelfFree(x, Field(base, NODE), l);
    UpstreamsSelfFree(x, Field(base, DIRECT), l);
    IndependentPool(x, NodePool, Values(x, Field(base, NODE)), l, main);
    IndependentPool(x, DirectPool, Values(x, Field(base, DIRECT)), l, main);
    var policy := EntriesOf(Field(base, NODE_POLICY));
    var key := w.choose(policy.Keys, domain);
    if key.Some? && key.value in policy {
      assert !ContainsSelf(x, policy[key.value], l);
      UpstreamsSelfFree(x, policy[key.value], l);
      IndependentPool(x, NodePool, Values(x, policy[key.value]), l, main);
    }
    hide Pool, Main;
  }

  // ---- where a reference is hidden, the meaning is lost ----

  /** The main pipeline never dangles, and neither does a pool whose listener is alive. */
  lemma AliveNeverDangles(x: Syntax, w: World, asker: Asker, vs: seq<Value>, l: Endpoint, dns: Config, domain: string)
    ensures forall a :: a in Pool(x, asker, vs, l, true, Main(x, w, dns, domain)).primary ==> !a.Dangling?
  {
    hide ContainsSelf, IsSelf, AllDirect;
  }

  lemma DeadDangles(x: Syntax, asker: Asker, vs: seq<Value>, l: Endpoint, main: Meaning, e: Value)
    requires e in vs && ContainsSelf(x, e, l)
    ensures Dangling(e) in Pool(x, asker, vs, l, false, main).primary
  {
    hide ContainsSelf;
  }

  /** A hidden entry survives the rewriting of its list. */
  lemma HiddenSurvives(x: Syntax, vs: seq<Value>, l: Endpoint, upstreams: seq<Value>) returns (e: Value)
    requires ListHidesSelf(x, vs, l)
    ensures e in vs && HidesSelf(x, e, l) && e in Expanded(x, vs, l, upstreams)
  {
    var i :| 0 <= i < |vs| && HidesSelf(x, vs[i], l);
    e := vs[i];
    ExpandedMembers(x, vs, l, upstreams);
  }

  /** A pool field that hides a reference still has it after the rewriting. */
  lemma PoolStillHides(x: Syntax, dns: Config, field: string, l: Endpoint, inheritable: bool) returns (e: Value)
    requires RewritePool(x, dns, field, l, inheritable).Ok? && Hides(x, Field(dns, field), l)
    ensures var after := RewritePool(x, dns, field, l, inheritable).value;
            field in dns && field in after && e in Elements(x, after[field], l) && ContainsSelf(x, e, l)
  {
    hide Complex, Expanded, ContainsSelf;
    var v := Field(dns, field);
    var resolvers := Values(x, v);
    var i :| 0 <= i < |Elements(x, v, l)| && HidesSelf(x, Elements(x, v, l)[i], l);
    e := Elements(x, v, l)[i];
    if !v.Mapping? {
      e := HiddenSurvives(x, resolvers, l, Values(x, Field(dns, NAMESERVER)));
      var j :| 0 <= j < |resolvers| && resolvers[j] == e;
    }
  }

  lemma HiddenIsAdapted(x: Syntax, dns: Config, l: Endpoint)
    requires Accepted(x, dns) && l == Listener(x, dns).value && Hidden(x, dns, l)
    ensures var base := WithoutListener(dns);
            PoolsReferToSelf(x, base, l) && Adaptable(x, base, l) && Hidden(x, base, l)
            && Prepared(x, dns) == RewritePools(x, base, l)
  {
    DistinctKeys();
    var base := WithoutListener(dns);
    HidesContains(x, Field(base, NODE), l);
    HidesContains(x, Field(base, DIRECT), l);
    var policy := EntriesOf(Field(base, NODE_POLICY));
    forall k | k in policy && Hides(x, policy[k], l) ensures ContainsSelf(x, Field(base, NODE_POLICY), l) {
      HidesContains(x, policy[k], l);
    }
    hide RewritePools, Hides, MainIsDirect, PoolsHaveSelfOptions, MainRefersToSelf;
  }

  lemma HidesContains(x: Syntax, v: Value, l: Endpoint)
    ensures Hides(x, v, l) ==> ContainsSelf(x, v, l)
  {
    if Hides(x, v, l) {
      var i :| 0 <= i < |Elements(x, v, l)| && HidesSelf(x, Elements(x, v, l)[i], l);
    }
  }

  ghost function FixedWorld(key: Option<string>): World {
    World((keys: set<string>, domain: string) => key, (domain: string) => Meaning({}, {}))
  }

  lemma DirectLost(x: Syntax, base: Config, l: Endpoint)
    requires RewritePools(x, base, l).Ok? && Hides(x, Field(base, DIRECT), l)
    ensures DirectMeaning(x, FixedWorld(None), RewritePools(x, base, l).value, l, false, "")
         != DirectMeaning(x, FixedWorld(None), base, l, true, "")
  {
    hide RewritePool, RewritePools, RewriteNodePolicy, Pool, Main, ContainsSelf, Hides, Elements;
    var w, after := FixedWorld(None), RewritePools(x, base, l).value;
    var first, second := Stages(x, base, l);
    var e := PoolStillHides(x, first, DIRECT, l, true);
    DeadDangles(x, DirectPool, Elements(x, after[DIRECT], l), l, Main(x, w, after, ""), e);
    AliveNeverDangles(x, w, DirectPool, Elements(x, base[DIRECT], l), l, base, "");
  }

  lemma NodePoolLost(x: Syntax, base: Config, l: Endpoint)
    requires RewritePools(x, base, l).Ok? && Hides(x, Field(base, NODE), l)
    ensures Node(x, FixedWorld(None), RewritePools(x, base, l).value, l, false, "")
         != Node(x, FixedWorld(None), base, l, true, "")
  {
    hide RewritePool, RewritePools, RewriteNodePolicy, Pool, Main, ContainsSelf, Hides, Elements;
    var w, after := FixedWorld(None), RewritePools(x, base, l).value;
    var first, second := Stages(x, base, l);
    var e := PoolStillHides(x, base, NODE, l, NodePoolOptional(base));
    DeadDangles(x, NodePool, Elements(x, after[NODE], l), l, Main(x, w, after, ""), e);
    AliveNeverDangles(x, w, NodePool, Elements(x, base[NODE], l), l, base, "");
  }

  /** A list entry keeps its hidden reference; an entry that is a mapping is emptied. */
  lemma EntryLost(x: Syntax, w: World, v: Value, l: Endpoint, upstreams: seq<Value>, dns: Config, after: Config)
    requires Hides(x, v, l)
    ensures Pool(x, NodePool, Elements(x, RewriteEntry(x, v, l, upstreams), l), l, false, Main(x, w, after, ""))
         != Pool(x, NodePool, Elements(x, v, l), l, true, Main(x, w, dns, ""))
  {
    HidesContains(x, v, l);
    hide Main, ContainsSelf;
    var before := Pool(x, NodePool, Elements(x, v, l), l, true, Main(x, w, dns, ""));
    if v.Mapping? {
      assert Expanded(x, [], l, upstreams) == [];
      assert [v][0] == v && Entry(x, NodePool, v) in before.primary;
    } else {
      var e := HiddenSurvives(x, Values(x, v), l, upstreams);
      hide Pool, Expanded;
      DeadDangles(x, NodePool, Expanded(x, Values(x, v), l, upstreams), l, Main(x, w, after, ""), e);
      AliveNeverDangles(x, w, NodePool, Elements(x, v, l), l, dns, "");
    }
  }

  lemma PolicyLost(x: Syntax, base: Config, l: Endpoint, key: string)
    requires RewritePools(x, base, l).Ok? && key in EntriesOf(Field(base, NODE_POLICY))
    requires Hides(x, EntriesOf(Field(base, NODE_POLICY))[key], l)
    ensures Node(x, FixedWorld(Some(key)), RewritePools(x, base, l).value, l, false, "")
         != Node(x, FixedWorld(Some(key)), base, l, true, "")
  {
    hide RewritePool, RewritePools, RewriteNodePolicy, RewriteEntry, Pool, Main, ContainsSelf, Hides, Elements;
    var after := RewritePools(x, base, l).value;
    var first, second := Stages(x, base, l);
    NodePolicyRewritten(x, second, l);
    EntryLost(x, FixedWorld(Some(key)), EntriesOf(Field(base, NODE_POLICY))[key], l,
              Values(x, Field(second, NAMESERVER)), base, after);
  }

  /** Where a reference is hidden, some domain no longer resolves as before. */
  lemma MeaningLost(x: Syntax, dns: Config) returns (w: World, domain: string)
    requires Accepted(x, dns) && Hidden(x, dns, Listener(x, dns).value)
    ensures !SameResolution(x, w, dns, Prepared(x, dns).value, Listener(x, dns).value, domain)
  {
    var base, l := WithoutListener(dns), Listener(x, dns).value;
    HiddenIsAdapted(x, dns, l);
    hide Prepared, RewritePools, Hides, Node, DirectMeaning, Main, PoolsReferToSelf, Adaptable;
    domain := "";
    if Hides(x, Field(base, DIRECT), l) {
      w := FixedWorld(None);
      DirectLost(x, base, l);
    } else if Hides(x, Field(base, NODE), l) {
      w := FixedWorld(None);
      NodePoolLost(x, base, l);
    } else {
      var key :| key in EntriesOf(Field(base, NODE_POLICY)) && Hides(x, EntriesOf(Field(base, NODE_POLICY))[key], l);
      w := FixedWorld(Some(key));
      PolicyLost(x, base, l, key);
    }
    BaseMeaning(x, w, dns, l, domain);
  }

  /** Preparing keeps the meaning for every domain if and only if no reference is hidden. */
  lemma MeaningExactly(x: Syntax, dns: Config)
    requires Accepted(x, dns)
    ensures (forall w, domain :: SameResolution(x, w, dns, Prepared(x, dns).value, Listener(x, dns).value, domain))
       <==> !Hidden(x, dns, Listener(x, dns).value)
  {
    hide SameResolution, Hidden, Prepared, Listener;
    if Hidden(x, dns, Listener(x, dns).value) {
      var w, domain := MeaningLost(x, dns);
    } else {
      forall w, domain ensures SameResolution(x, w, dns, Prepared(x, dns).value, Listener(x, dns).value, domain) {
        MeaningPreserved(x, w, dns, domain);
      }
    }
  }

  // ---- no reference is left, and nothing else changes ----

  /** A pool whose self reference is not one of its plain entries. */
  ghost predicate PoolLeftover(x: Syntax, v: Value, l: Endpoint) {
    if v.List? then ListHidesSelf(x, v.items, l) else ContainsSelf(x, v, l) && Values(x, v) == []
  }

  ghost predicate PolicyLeftover(x: Syntax, v: Value, l: Endpoint) {
    if v.Mapping? then exists k :: k in v.entries && v.entries[k].List? && ListHidesSelf(x, v.entries[k].items, l)
    else ContainsSelf(x, v, l)
  }

  ghost predicate Leftover(x: Syntax, dns: Config, l: Endpoint) {
    || PoolLeftover(x, Field(dns, NODE), l)
    || PoolLeftover(x, Field(dns, DIRECT), l)
    || PolicyLeftover(x, Field(dns, NODE_POLICY), l)
  }

  lemma ExpandedSelfFree(x: Syntax, vs: seq<Value>, l: Endpoint, upstreams: seq<Value>)
    requires forall u :: u in upstreams ==> !ContainsSelf(x, u, l)
    ensures ContainsSelf(x, List(Expanded(x, vs, l, upstreams)), l) <==> ListHidesSelf(x, vs, l)
  {
    var r := Expanded(x, vs, l, upstreams);
    ExpandedMembers(x, vs, l, upstreams);
    if ContainsSelf(x, List(r), l) {
      var i :| 0 <= i < |r| && ContainsSelf(x, r[i], l);
      assert r[i] in vs;
      var j :| 0 <= j < |vs| && vs[j] == r[i];
      assert HidesSelf(x, vs[j], l);
    }
    if ListHidesSelf(x, vs, l) {
      var j :| 0 <= j < |vs| && HidesSelf(x, vs[j], l);
      assert vs[j] in r;
      var i :| 0 <= i < |r| && r[i] == vs[j];
      assert ContainsSelf(x, r[i], l);
    }
  }

  lemma UpstreamsSelfFree(x: Syntax, v: Value, l: Endpoint)
    requires !ContainsSelf(x, v, l)
    ensures forall u :: u in Values(x, v) ==> !ContainsSelf(x, u, l)
  {
    forall u | u in Values(x, v) ensures !ContainsSelf(x, u, l) {
      if v.List? {
        var i :| 0 <= i < |v.items| && v.items[i] == u;
      }
    }
  }

  lemma PoolSelfFree(x: Syntax, dns: Config, field: string, l: Endpoint, inheritable: bool)
    requires RewritePool(x, dns, field, l, inheritable).Ok?
    requires !ContainsSelf(x, Field(dns, NAMESERVER), l)
    ensures ContainsSelf(x, Field(RewritePool(x, dns, field, l, inheritable).value, field), l)
            <==> PoolLeftover(x, Field(dns, field), l)
  {
    hide Complex, Expanded;
    var v := Field(dns, field);
    var resolvers := Values(x, v);
    UpstreamsSelfFree(x, Field(dns, NAMESERVER), l);
    ExpandedSelfFree(x, resolvers, l, Values(x, Field(dns, NAMESERVER)));
    if v.List? && forall i :: 0 <= i < |resolvers| ==> !IsSelf(x, resolvers[i], l) {
      assert ContainsSelf(x, v, l) <==> ListHidesSelf(x, v.items, l);
    }
    if v.Text? && !x.blank(v.text) {
      assert resolvers == [v] && (IsSelf(x, resolvers[0], l) <==> ContainsSelf(x, v, l));
      assert !HidesSelf(x, resolvers[0], l);
    }
  }

  lemma PolicySelfFree(x: Syntax, second: Config, l: Endpoint)
    requires RewriteNodePolicy(x, second, l).Ok?
    requires !ContainsSelf(x, Field(second, NAMESERVER), l)
    ensures ContainsSelf(x, Field(RewriteNodePolicy(x, second, l).value, NODE_POLICY), l)
            <==> PolicyLeftover(x, Field(second, NODE_POLICY), l)
  {
    hide Complex, Expanded;
    var after := RewriteNodePolicy(x, second, l).value;
    var upstreams := Values(x, Field(second, NAMESERVER));
    UpstreamsSelfFree(x, Field(second, NAMESERVER), l);
    if Field(second, NODE_POLICY).Mapping? {
      var policy := Field(second, NODE_POLICY).entries;
      forall k | k in policy
        ensures ContainsSelf(x, RewriteEntry(x, policy[k], l, upstreams), l)
                <==> policy[k].List? && ListHidesSelf(x, policy[k].items, l)
      {
        EntrySelfFree(x, policy[k], l, upstreams);
      }
      NodePolicyRewritten(x, second, l);
      assert Field(after, NODE_POLICY).Mapping?;
    }
  }

  lemma EntrySelfFree(x: Syntax, v: Value, l: Endpoint, upstreams: seq<Value>)
    requires forall u :: u in upstreams ==> !ContainsSelf(x, u, l)
    ensures ContainsSelf(x, RewriteEntry(x, v, l, upstreams), l) <==> v.List? && ListHidesSelf(x, v.items, l)
  {
    hide Expanded;
    ExpandedSelfFree(x, Values(x, v), l, upstreams);
    if !v.List? {
      assert forall i :: 0 <= i < |Values(x, v)| ==> !HidesSelf(x, Values(x, v)[i], l);
    }
  }

  /**
   An accepted configuration refers to its removed listener nowhere, unless a pool hid the
   reference from the rewriting: inside a nested list or mapping, or in a policy that is none.
   */
  lemma SelfFreeExactly(x: Syntax, dns: Config)
    requires Accepted(x, dns)
    ensures var after := Prepared(x, dns).value;
            var l := Listener(x, dns).value;
            !MainRefersToSelf(x, after, l) && (PoolsReferToSelf(x, after, l) <==> Leftover(x, dns, l))
  {
    hide RewritePools, RewritePool, RewriteNodePolicy, ContainsSelf, PoolLeftover, PolicyLeftover, PoolsHaveSelfOptions, MainIsDirect;
    DistinctKeys();
    var base, l := WithoutListener(dns), Listener(x, dns).value;
    var after := Prepared(x, dns).value;
    if PoolsReferToSelf(x, base, l) {
      var first, second := Stages(x, base, l);
      SameMainFields(x, base, first);
      SameMainFields(x, first, second);
      SameMainFields(x, second, after);
      PoolSelfFree(x, base, NODE, l, NodePoolOptional(base));
      PoolSelfFree(x, first, DIRECT, l, true);
      PolicySelfFree(x, second, l);
    } else {
      LeftoverRefers(x, base, l);
    }
  }

  lemma LeftoverRefers(x: Syntax, base: Config, l: Endpoint)
    requires !PoolsReferToSelf(x, base, l)
    ensures !Leftover(x, base, l)
  {
    ListedRefers(x, Field(base, NODE), l);
    ListedRefers(x, Field(base, DIRECT), l);
    var v := Field(base, NODE_POLICY);
    if v.Mapping? {
      forall k | k in v.entries ensures !(v.entries[k].List? && ListHidesSelf(x, v.entries[k].items, l)) {
        ListedRefers(x, v.entries[k], l);
      }
    }
  }

  lemma ListedRefers(x: Syntax, v: Value, l: Endpoint)
    ensures v.List? && ListHidesSelf(x, v.items, l) ==> ContainsSelf(x, v, l)
  {
  }

  /** Rewritten from `before`: plain entries kept, self entries replaced, each entry once, in order of first use. */
  ghost predicate RewrittenFrom(x: Syntax, after: seq<Value>, before: seq<Value>, l: Endpoint, upstreams: seq<Value>) {
    && NoDuplicates(after)
    && FirstOccurrenceOrder(Flat(x, before, l, upstreams), after)
    && (forall v :: v in before && !IsSelf(x, v, l) ==> v in after)
    && (forall v :: v in after ==> (v in before && !IsSelf(x, v, l)) || (v in upstreams && AllDirect(x, v)))
  }

  lemma ExpandedIsRewritten(x: Syntax, before: seq<Value>, l: Endpoint, nameserver: Value)
    requires AllDirect(x, nameserver)
    ensures RewrittenFrom(x, Expanded(x, before, l, Values(x, nameserver)), before, l, Values(x, nameserver))
  {
    DedupMeaning(Flat(x, before, l, Values(x, nameserver)));
    ExpandedMembers(x, before, l, Values(x, nameserver));
    NameserverDirect(x, nameserver, MainPipeline);
  }

  /** Untouched; removed, which needs self entries only and a pool that may be absent; or rewritten. */
  ghost predicate PoolKept(x: Syntax, a: Config, b: Config, field: string, l: Endpoint, upstreams: seq<Value>, optional: bool) {
    || ((field in b <==> field in a) && Field(b, field) == Field(a, field))
    || (field in a && field !in b && optional
        && Values(x, a[field]) != [] && forall v :: v in Values(x, a[field]) ==> IsSelf(x, v, l))
    || (field in b && RewrittenFrom(x, Values(x, b[field]), Values(x, Field(a, field)), l, upstreams))
  }

  lemma PoolFrame(x: Syntax, dns: Config, field: string, l: Endpoint, inheritable: bool)
    requires RewritePool(x, dns, field, l, inheritable).Ok? && AllDirect(x, Field(dns, NAMESERVER))
    ensures PoolKept(x, dns, RewritePool(x, dns, field, l, inheritable).value, field, l,
                     Values(x, Field(dns, NAMESERVER)), inheritable)
  {
    hide RewrittenFrom, Expanded, Complex, AllDirect;
    ExpandedIsRewritten(x, Values(x, Field(dns, field)), l, Field(dns, NAMESERVER));
  }

  /**
   Frame: the listener is dropped and its routing mark zeroed; every key outside the three
   resolver pools is untouched; a pool is untouched, dropped where it only stood for the main
   pipeline, or rewritten from its own entries and direct upstreams; a policy keeps its keys.
   */
  lemma FramePreserved(x: Syntax, dns: Config)
    requires Prepared(x, dns).Ok?
    ensures var after := Prepared(x, dns).value;
            && LISTEN !in after && ROUTING_MARK in after && after[ROUTING_MARK] == Number(0)
            && (forall k :: k !in POOL_KEYS && k != LISTEN && k != ROUTING_MARK ==>
                  (k in after <==> k in dns) && Field(after, k) == Field(dns, k))
            && EntriesOf(Field(after, NODE_POLICY)).Keys == EntriesOf(Field(dns, NODE_POLICY)).Keys
    ensures Listener(x, dns).None? ==> Prepared(x, dns) == Ok(WithoutListener(dns))
    ensures Listener(x, dns).Some? ==>
            var after := Prepared(x, dns).value;
            var l, upstreams := Listener(x, dns).value, Values(x, Field(dns, NAMESERVER));
            var before, policy := EntriesOf(Field(dns, NODE_POLICY)), EntriesOf(Field(after, NODE_POLICY));
            && PoolKept(x, dns, after, NODE, l, upstreams, NodePoolOptional(dns))
            && PoolKept(x, dns, after, DIRECT, l, upstreams, true)
            && forall k :: k in before ==>
                 policy[k] == before[k] || RewrittenFrom(x, Values(x, policy[k]), Values(x, before[k]), l, upstreams)
  {
    hide RewritePools, RewritePool, RewriteNodePolicy, ContainsSelf, RewrittenFrom, PoolsHaveSelfOptions, AllDirect;
    DistinctKeys();
    var base := WithoutListener(dns);
    var after := Prepared(x, dns).value;
    if Listener(x, dns).Some? && after != base {
      var l := Listener(x, dns).value;
      var first, second := Stages(x, base, l);
      SameMainFields(x, base, first);
      SameMainFields(x, first, second);
      PoolFrame(x, base, NODE, l, NodePoolOptional(base));
      PoolFrame(x, first, DIRECT, l, true);
      PolicyFrame(x, second, l);
    }
  }

  lemma PolicyFrame(x: Syntax, second: Config, l: Endpoint)
    requires RewriteNodePolicy(x, second, l).Ok? && AllDirect(x, Field(second, NAMESERVER))
    ensures var before := EntriesOf(Field(second, NODE_POLICY));
            var policy := EntriesOf(Field(RewriteNodePolicy(x, second, l).value, NODE_POLICY));
            && policy.Keys == before.Keys
            && forall k :: k in before ==>
                 || policy[k] == before[k]
                 || RewrittenFrom(x, Values(x, policy[k]), Values(x, before[k]), l, Values(x, Field(second, NAMESERVER)))
  {
    hide RewriteNodePolicy, RewrittenFrom, Expanded, AllDirect, ContainsSelf;
    NodePolicyRewritten(x, second, l);
    var before := EntriesOf(Field(second, NODE_POLICY));
    forall k | k in before
      ensures var r := RewriteEntry(x, before[k], l, Values(x, Field(second, NAMESERVER)));
              r == before[k] || RewrittenFrom(x, Values(x, r), Values(x, before[k]), l, Values(x, Field(second, NAMESERVER)))
    {
      ExpandedIsRewritten(x, Values(x, before[k]), l, Field(second, NAMESERVER));
    }
  }

  /** Preparing a prepared section changes nothing. */
  lemma PreparedIdempotent(x: Syntax, dns: Config)
    requires Prepared(x, dns).Ok?
    ensures Prepared(x, Prepared(x, dns).value) == Prepared(x, dns)
  {
    FramePreserved(x, dns);
    var after := Prepared(x, dns).value;
    assert WithoutListener(after) == after;
  }

  // ---- hidden references are reachable ----

  /** "self" is the listener on localhost, every other string an upstream; only "up" is direct. */
  ghost function SampleSyntax(): Syntax {
    Syntax((s: string) => if s == "self" then Some(Endpoint(Localhost, 53, false)) else None,
           (s: string) => s == "up", (s: string) => s == "")
  }

  ghost function SampleSection(field: string, v: Value): Config {
    map[ENABLE := Bool(true), LISTEN := Text("self"), NAMESERVER := Text("up")][field := v]
  }

  lemma SampleFields(field: string, v: Value)
    requires field == DIRECT || field == NODE_POLICY
    ensures var dns := SampleSection(field, v);
      var base := WithoutListener(dns);
      && Field(dns, LISTEN) == Text("self") && Field(base, ENABLE) == Bool(true) && Field(base, NAMESERVER) == Text("up")
      && Field(base, FALLBACK) == Field(base, DEFAULT_NAMESERVER) == Field(base, NAMESERVER_POLICY) == Null
      && Field(base, NODE) == Field(base, if field == DIRECT then NODE_POLICY else DIRECT) == Null
      && Field(base, field) == v
      && (forall k :: k in POOL_KEYS ==> Field(dns, k) == Field(base, k))
  {
    DistinctKeys();
    assert |ENABLE| == |LISTEN| == 6 && |NAMESERVER| == 10 && |DIRECT| == 17 && |NODE_POLICY| == 30 && |NODE| == 23;
    assert |FALLBACK| == 8 && |DEFAULT_NAMESERVER| == 18 && |NAMESERVER_POLICY| == 17 && NAMESERVER_POLICY[0] == 'n';
    assert DIRECT[0] == 'd' && ENABLE[0] == 'e' && LISTEN[0] == 'l' && |ROUTING_MARK| == 19;
  }

  lemma SampleUpstream()
    ensures var x, l := SampleSyntax(), Endpoint(Localhost, 53, false);
      && EndpointOf(x, Text("self")) == Some(l) && IsSelf(x, Text("self"), l)
      && !ContainsSelf(x, Text("up"), l) && AllDirect(x, Text("up")) && Values(x, Text("up")) == [Text("up")]
      && !ContainsSelf(x, Null, l) && !HasSelfOptions(x, Null, l) && AllDirect(x, Null) && Values(x, Null) == []
  {
    assert |"up"| == 2 && |"self"| == 4;
  }

  /** One upstream `up`, one field with a self reference, nothing else: such a section is accepted. */
  lemma PlainAccepted(x: Syntax, dns: Config, l: Endpoint, up: Value, field: string, v: Value)
    requires Listener(x, dns) == Some(l) && (field == DIRECT || field == NODE_POLICY)
    requires !ContainsSelf(x, up, l) && AllDirect(x, up) && Values(x, up) != []
    requires ContainsSelf(x, v, l) && !HasSelfOptions(x, v, l)
    requires field == DIRECT ==> forall e :: e in Values(x, v) ==> !IsSelf(x, e, l)
    requires var base := WithoutListener(dns);
      && Field(base, NAMESERVER) == up && Field(base, field) == v
      && Field(base, FALLBACK) == Field(base, DEFAULT_NAMESERVER) == Field(base, NAMESERVER_POLICY) == Null
      && Field(base, NODE) == Field(base, if field == DIRECT then NODE_POLICY else DIRECT) == Null
    ensures !Complex(x, WithoutListener(dns))
    ensures Prepared(x, dns).Ok? && Prepared(x, dns) == RewriteNodePolicy(x, WithoutListener(dns), l)
  {
    assert !ContainsSelf(x, Null, l) && !HasSelfOptions(x, Null, l) && AllDirect(x, Null);
    hide WithoutListener, Listener, Field, IsSelf;
    var base := WithoutListener(dns);
    assert RewritePool(x, base, NODE, l, NodePoolOptional(base)) == Ok(base);
    assert RewritePool(x, base, DIRECT, l, true) == Ok(base);
    assert !MainRefersToSelf(x, base, l) && MainIsDirect(x, base) && !PoolsHaveSelfOptions(x, base, l);
    assert PoolsReferToSelf(x, base, l) && !Complex(x, base) && RewriteNodePolicy(x, base, l).Ok?;
    hide MainRefersToSelf, MainIsDirect, PoolsHaveSelfOptions, PoolsReferToSelf, RewritePool, RewriteNodePolicy, Complex;
  }

  lemma SampleAccepted(field: string, v: Value)
    requires field == DIRECT || field == NODE_POLICY
    requires var x, l := SampleSyntax(), Endpoint(Localhost, 53, false);
      && ContainsSelf(x, v, l) && !HasSelfOptions(x, v, l)
      && (field == DIRECT ==> forall e :: e in Values(x, v) ==> !IsSelf(x, e, l))
    ensures var x, dns, l := SampleSyntax(), SampleSection(field, v), Endpoint(Localhost, 53, false);
      && Listener(x, dns) == Some(l) && Accepted(x, dns)
      && Prepared(x, dns) == RewriteNodePolicy(x, WithoutListener(dns), l)
      && !Complex(x, WithoutListener(dns))
  {
    SampleFields(field, v);
    SampleUpstream();
    hide SampleSection, SampleSyntax, WithoutListener, Field, Values, ContainsSelf, HasSelfOptions, AllDirect, IsSelf;
    assert Listener(SampleSyntax(), SampleSection(field, v)) == Some(Endpoint(Localhost, 53, false));
    PlainAccepted(SampleSyntax(), SampleSection(field, v), Endpoint(Localhost, 53, false), Text("up"), field, v);
    hide Prepared, Complex, RewriteNodePolicy, Listener;
  }

  /** A self reference in a nested list is left in the output, and its meaning is lost. */
  lemma NestedReferenceLeft()
    ensures var v := List([List([Text("self")]), Text("up")]);
      var x, dns, l := SampleSyntax(), SampleSection(DIRECT, v), Endpoint(Localhost, 53, false);
      && Accepted(x, dns) && Listener(x, dns) == Some(l) && Hidden(x, dns, l) && Leftover(x, dns, l)
      && PoolsReferToSelf(x, Prepared(x, dns).value, l)
  {
    var v := List([List([Text("self")]), Text("up")]);
    var x, dns, l := SampleSyntax(), SampleSection(DIRECT, v), Endpoint(Localhost, 53, false);
    var inner := List([Text("self")]);
    assert inner.items[0] == Text("self") && v.items[0] == inner;
    assert ContainsSelf(x, inner, l) && HidesSelf(x, v.items[0], l);
    assert ListHidesSelf(x, v.items, l);
    SampleAccepted(DIRECT, v);
    SelfFreeExactly(x, dns);
  }

  /** A policy entry that is a mapping with a self reference inside is emptied: nothing is left, and the meaning is lost. */
  lemma MappingEntryEmptied()
    ensures var v := Mapping(map["a.example" := Mapping(map["server" := Text("self")])]);
      var x, dns, l := SampleSyntax(), SampleSection(NODE_POLICY, v), Endpoint(Localhost, 53, false);
      && Accepted(x, dns) && Listener(x, dns) == Some(l) && Hidden(x, dns, l) && !Leftover(x, dns, l)
      && EntriesOf(Field(Prepared(x, dns).value, NODE_POLICY)) == map["a.example" := List([])]
  {
    var inner := Mapping(map["server" := Text("self")]);
    var v := Mapping(map["a.example" := inner]);
    var x, dns, l := SampleSyntax(), SampleSection(NODE_POLICY, v), Endpoint(Localhost, 53, false);
    SampleMapping(x, "a.example", "server", inner, l);
    SampleAccepted(NODE_POLICY, v);
    SampleFields(NODE_POLICY, v);
    SampleUpstream();
    hide SampleSection, SampleSyntax, ContainsSelf, HasSelfOptions, IsSelf, Hides, RewriteNodePolicy, WithoutListener, Prepared,
      Listener, Accepted, Complex;
    SampleEmptied(x, "a.example", inner, WithoutListener(dns), l);
    SampleVisible(x, v, dns, l);
    assert "a.example" in EntriesOf(Field(dns, NODE_POLICY));
    hide Leftover, SampleSection;
  }

  lemma SampleMapping(x: Syntax, key: string, field: string, inner: Value, l: Endpoint)
    requires x == SampleSyntax() && l == Endpoint(Localhost, 53, false) && inner == Mapping(map[field := Text("self")])
    ensures ContainsSelf(x, inner, l) && Hides(x, inner, l)
    ensures ContainsSelf(x, Mapping(map[key := inner]), l) && !HasSelfOptions(x, Mapping(map[key := inner]), l)
  {
    SampleUpstream();
    assert field in inner.entries && key in Mapping(map[key := inner]).entries;
    assert EndpointOf(x, inner) == None && !IsSelf(x, inner, l);
    assert !HasSelfOptions(x, Text("self"), l);
    assert !HasSelfOptions(x, inner, l);
    assert [inner][0] == inner && HidesSelf(x, [inner][0], l);
  }

  lemma SampleEmptied(x: Syntax, key: string, inner: Value, base: Config, l: Endpoint)
    requires Field(base, NODE_POLICY) == Mapping(map[key := inner]) && !Complex(x, base)
    requires inner.Mapping? && ContainsSelf(x, inner, l) && ContainsSelf(x, Mapping(map[key := inner]), l)
    ensures RewriteNodePolicy(x, base, l).Ok?
    ensures EntriesOf(Field(RewriteNodePolicy(x, base, l).value, NODE_POLICY)) == map[key := List([])]
  {
    NodePolicyRewritten(x, base, l);
    var after := EntriesOf(Field(RewriteNodePolicy(x, base, l).value, NODE_POLICY));
    assert Expanded(x, [], l, Values(x, Field(base, NAMESERVER))) == [];
    hide RewriteNodePolicy, ContainsSelf, Complex, Expanded;
    assert after.Keys == {key};
  }

  lemma SampleVisible(x: Syntax, v: Value, dns: Config, l: Endpoint)
    requires v.Mapping? && Field(dns, NODE_POLICY) == v && forall k :: k in v.entries ==> !v.entries[k].List?
    requires Field(dns, NODE) == Null && Field(dns, DIRECT) == Null && !ContainsSelf(x, Null, l)
    ensures !Leftover(x, dns, l)
  {
  }
}
