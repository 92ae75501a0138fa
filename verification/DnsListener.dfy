/**
 Who refers to the listener, in terms of addresses and ports, and what becomes of a section that
 does: every refusal and every acceptance, told from the section's own keys.
 */
module DnsListener {
  import opened Wrappers
  import opened Dns

  const LOCALHOST_4: nat := 0x7F00_0001

  /** The address or name reaches a listener on `listen`; the first octet of 127.0.0.0/8 is 127. */
  ghost predicate ReachesHost(listen: Host, host: Host) {
    || host == listen
    || (listen == Ipv4(0) && host.Ipv4? && 0x7F00_0000 <= host.address <= 0x7FFF_FFFF)
    || (listen == Ipv6(0) && host == Ipv6(1))
    || (listen == Localhost && host in {Ipv4(LOCALHOST_4), Ipv4(0), Ipv6(1), Ipv6(0)})
    || (host == Localhost && listen in {Ipv4(LOCALHOST_4), Ipv4(0), Ipv6(1), Ipv6(0)})
  }

  ghost predicate Reaches(listen: Endpoint, e: Endpoint) {
    e.port == listen.port && ReachesHost(listen.host, e.host)
  }

  /** The resolver string parses to an endpoint that reaches the listener. */
  ghost predicate ReachesListener(x: Syntax, leaf: Value, l: Endpoint) {
    leaf.Text? && x.endpoint(leaf.text).Some? && Reaches(l, x.endpoint(leaf.text).value)
  }

  /** `leaf` is the value, or stands somewhere inside its lists and mappings. */
  ghost predicate LeafIn(v: Value, leaf: Value) {
    match v
    case Mapping(entries) => exists k :: k in entries && LeafIn(entries[k], leaf)
    case List(items) => exists i :: 0 <= i < |items| && LeafIn(items[i], leaf)
    case _ => v == leaf
  }

  ghost predicate Refers(x: Syntax, v: Value, l: Endpoint) {
    exists leaf :: LeafIn(v, leaf) && ReachesListener(x, leaf, l)
  }

  ghost predicate RefersWithOptions(x: Syntax, v: Value, l: Endpoint) {
    exists leaf :: LeafIn(v, leaf) && ReachesListener(x, leaf, l) && x.endpoint(leaf.text).value.options
  }

  ghost predicate OnlyDirect(x: Syntax, v: Value) {
    forall leaf :: LeafIn(v, leaf) ==> leaf.Null? || (leaf.Text? && x.direct(leaf.text))
  }

  /** The entries of a pool: of a list its items, of a text that is not blank the text itself. */
  ghost function Listed(x: Syntax, v: Value): seq<Value> {
    if v.List? then v.items else if v.Text? && !x.blank(v.text) then [v] else []
  }

  // ---- the code's own tests mean this ----

  lemma SelfExactly(x: Syntax, v: Value, l: Endpoint)
    ensures IsSelf(x, v, l) <==> ReachesListener(x, v, l)
  {
  }

  lemma {:induction false} ContainsExactly(x: Syntax, v: Value, l: Endpoint)
    ensures ContainsSelf(x, v, l) <==> Refers(x, v, l)
    decreases v
  {
    match v {
      case Mapping(entries) =>
        forall k | k in entries ensures ContainsSelf(x, entries[k], l) <==> Refers(x, entries[k], l) {
          ContainsExactly(x, entries[k], l);
        }
        if ContainsSelf(x, v, l) {
          var k :| k in entries && ContainsSelf(x, entries[k], l);
          var leaf :| LeafIn(entries[k], leaf) && ReachesListener(x, leaf, l);
          assert LeafIn(v, leaf);
        }
        if leaf :| LeafIn(v, leaf) && ReachesListener(x, leaf, l) {
          var k :| k in entries && LeafIn(entries[k], leaf);
          assert ContainsSelf(x, entries[k], l);
        }
      case List(items) =>
        forall i | 0 <= i < |items| ensures ContainsSelf(x, items[i], l) <==> Refers(x, items[i], l) {
          ContainsExactly(x, items[i], l);
        }
        if ContainsSelf(x, v, l) {
          var i :| 0 <= i < |items| && ContainsSelf(x, items[i], l);
          var leaf :| LeafIn(items[i], leaf) && ReachesListener(x, leaf, l);
          assert LeafIn(v, leaf);
        }
        if leaf :| LeafIn(v, leaf) && ReachesListener(x, leaf, l) {
          var i :| 0 <= i < |items| && LeafIn(items[i], leaf);
          assert ContainsSelf(x, items[i], l);
        }
      case _ =>
        SelfExactly(x, v, l);
        assert LeafIn(v, v);
    }
  }

  lemma {:induction false} OptionsExactly(x: Syntax, v: Value, l: Endpoint)
    ensures HasSelfOptions(x, v, l) <==> RefersWithOptions(x, v, l)
    decreases v
  {
    match v {
      case Mapping(entries) =>
        forall k | k in entries ensures HasSelfOptions(x, entries[k], l) <==> RefersWithOptions(x, entries[k], l) {
          OptionsExactly(x, entries[k], l);
        }
        if HasSelfOptions(x, v, l) {
          var k :| k in entries && HasSelfOptions(x, entries[k], l);
          var leaf :| LeafIn(entries[k], leaf) && ReachesListener(x, leaf, l) && x.endpoint(leaf.text).value.options;
          assert LeafIn(v, leaf);
        }
        if leaf :| LeafIn(v, leaf) && ReachesListener(x, leaf, l) && x.endpoint(leaf.text).value.options {
          var k :| k in entries && LeafIn(entries[k], leaf);
          assert HasSelfOptions(x, entries[k], l);
        }
      case List(items) =>
        forall i | 0 <= i < |items| ensures HasSelfOptions(x, items[i], l) <==> RefersWithOptions(x, items[i], l) {
          OptionsExactly(x, items[i], l);
        }
        if HasSelfOptions(x, v, l) {
          var i :| 0 <= i < |items| && HasSelfOptions(x, items[i], l);
          var leaf :| LeafIn(items[i], leaf) && ReachesListener(x, leaf, l) && x.endpoint(leaf.text).value.options;
          assert LeafIn(v, leaf);
        }
        if leaf :| LeafIn(v, leaf) && ReachesListener(x, leaf, l) && x.endpoint(leaf.text).value.options {
          var i :| 0 <= i < |items| && LeafIn(items[i], leaf);
          assert HasSelfOptions(x, items[i], l);
        }
      case _ =>
        SelfExactly(x, v, l);
        assert LeafIn(v, v);
    }
  }

  lemma {:induction false} DirectExactly(x: Syntax, v: Value)
    ensures AllDirect(x, v) <==> OnlyDirect(x, v)
    decreases v
  {
    match v {
      case Mapping(entries) =>
        forall k | k in entries ensures AllDirect(x, entries[k]) <==> OnlyDirect(x, entries[k]) {
          DirectExactly(x, entries[k]);
        }
        if !AllDirect(x, v) {
          var k :| k in entries && !AllDirect(x, entries[k]);
          var leaf :| LeafIn(entries[k], leaf) && !(leaf.Null? || (leaf.Text? && x.direct(leaf.text)));
          assert LeafIn(v, leaf);
        }
      case List(items) =>
        forall i | 0 <= i < |items| ensures AllDirect(x, items[i]) <==> OnlyDirect(x, items[i]) {
          DirectExactly(x, items[i]);
        }
        if !AllDirect(x, v) {
          var i :| 0 <= i < |items| && !AllDirect(x, items[i]);
          var leaf :| LeafIn(items[i], leaf) && !(leaf.Null? || (leaf.Text? && x.direct(leaf.text)));
          assert LeafIn(v, leaf);
        }
      case _ =>
        assert LeafIn(v, v);
    }
  }

  lemma ValuesExactly(x: Syntax, v: Value)
    ensures Values(x, v) == Listed(x, v)
  {
  }

  // ---- what becomes of a section ----

  /** An absent key reads like an explicit null. */
  ghost function At(dns: Config, key: string): Value { if key in dns then dns[key] else Null }

  /** DNS is enabled and its listen address is recognised as `l`. */
  ghost predicate ListensOn(x: Syntax, dns: Config, l: Endpoint) {
    At(dns, "enable") == Bool(true) && At(dns, "listen").Text? && x.endpoint(At(dns, "listen").text) == Some(l)
  }

  ghost function Stripped(dns: Config): Config {
    (dns - {"listen"})["listen-routing-mark" := Number(0)]
  }

  ghost predicate MainRefers(x: Syntax, dns: Config, l: Endpoint) {
    || Refers(x, At(dns, "nameserver"), l) || Refers(x, At(dns, "default-nameserver"), l)
    || Refers(x, At(dns, "fallback"), l) || Refers(x, At(dns, "nameserver-policy"), l)
  }

  ghost predicate PoolsRefer(x: Syntax, dns: Config, l: Endpoint) {
    || Refers(x, At(dns, "proxy-server-nameserver"), l)
    || Refers(x, At(dns, "proxy-server-nameserver-policy"), l)
    || Refers(x, At(dns, "direct-nameserver"), l)
  }

  ghost predicate PoolsReferWithOptions(x: Syntax, dns: Config, l: Endpoint) {
    || RefersWithOptions(x, At(dns, "proxy-server-nameserver"), l)
    || RefersWithOptions(x, At(dns, "proxy-server-nameserver-policy"), l)
    || RefersWithOptions(x, At(dns, "direct-nameserver"), l)
  }

  ghost predicate UpstreamsUsable(x: Syntax, dns: Config) {
    && Listed(x, At(dns, "nameserver")) != []
    && OnlyDirect(x, At(dns, "nameserver")) && OnlyDirect(x, At(dns, "fallback")) && OnlyDirect(x, At(dns, "nameserver-policy"))
  }

  /** The main pipeline is more than its nameserver list. */
  ghost predicate MainIsComplex(x: Syntax, dns: Config) {
    || Listed(x, At(dns, "fallback")) != []
    || (At(dns, "nameserver-policy").Mapping? && At(dns, "nameserver-policy").entries != map[])
  }

  ghost predicate NodePoolMayGo(dns: Config) {
    && !(At(dns, "proxy-server-nameserver-policy").Mapping? && At(dns, "proxy-server-nameserver-policy").entries != map[])
    && At(dns, "respect-rules") != Bool(true)
  }

  /** Some entry of the pool is the listener, and the pool cannot just be removed. */
  ghost predicate NeedsExpansion(x: Syntax, v: Value, l: Endpoint, mayGo: bool) {
    && (exists i :: 0 <= i < |Listed(x, v)| && ReachesListener(x, Listed(x, v)[i], l))
    && !(mayGo && forall i :: 0 <= i < |Listed(x, v)| ==> ReachesListener(x, Listed(x, v)[i], l))
  }

  ghost predicate ExpansionNeeded(x: Syntax, dns: Config, l: Endpoint) {
    || NeedsExpansion(x, At(dns, "proxy-server-nameserver"), l, NodePoolMayGo(dns))
    || NeedsExpansion(x, At(dns, "direct-nameserver"), l, true)
    || Refers(x, At(dns, "proxy-server-nameserver-policy"), l)
  }

  lemma Keys(dns: Config)
    ensures WithoutListener(dns) == Stripped(dns)
    ensures forall k: string :: k != "listen" && k != "listen-routing-mark" ==> Field(WithoutListener(dns), k) == At(dns, k)
    ensures var base := WithoutListener(dns);
      && Field(base, ENABLE) == At(dns, "enable") && Field(dns, LISTEN) == At(dns, "listen")
      && Field(base, NAMESERVER) == At(dns, "nameserver") && Field(base, DEFAULT_NAMESERVER) == At(dns, "default-nameserver")
      && Field(base, FALLBACK) == At(dns, "fallback") && Field(base, NAMESERVER_POLICY) == At(dns, "nameserver-policy")
      && Field(base, NODE) == At(dns, "proxy-server-nameserver") && Field(base, DIRECT) == At(dns, "direct-nameserver")
      && Field(base, NODE_POLICY) == At(dns, "proxy-server-nameserver-policy")
      && Field(base, RESPECT_RULES) == At(dns, "respect-rules")
  {
    DistinctKeys();
  }

  lemma TestsExactly(x: Syntax, dns: Config, l: Endpoint)
    ensures var base := WithoutListener(dns);
      && (MainRefersToSelf(x, base, l) <==> MainRefers(x, dns, l))
      && (PoolsReferToSelf(x, base, l) <==> PoolsRefer(x, dns, l))
      && (PoolsHaveSelfOptions(x, base, l) <==> PoolsReferWithOptions(x, dns, l))
      && ((Values(x, Field(base, NAMESERVER)) != [] && MainIsDirect(x, base)) <==> UpstreamsUsable(x, dns))
      && (Complex(x, base) <==> MainIsComplex(x, dns))
      && (NodePoolOptional(base) <==> NodePoolMayGo(dns))
  {
    Keys(dns);
    var base := WithoutListener(dns);
    forall v: Value
      ensures ContainsSelf(x, v, l) <==> Refers(x, v, l)
      ensures HasSelfOptions(x, v, l) <==> RefersWithOptions(x, v, l)
      ensures AllDirect(x, v) <==> OnlyDirect(x, v)
      ensures Values(x, v) == Listed(x, v)
    {
      ContainsExactly(x, v, l);
      OptionsExactly(x, v, l);
      DirectExactly(x, v);
    }
    hide Field, At, WithoutListener, ContainsSelf, HasSelfOptions, AllDirect, Values, Refers, RefersWithOptions, OnlyDirect, Listed;
  }

  lemma PoolRefused(x: Syntax, dns: Config, field: string, l: Endpoint, mayGo: bool)
    ensures RewritePool(x, dns, field, l, mayGo).Err? <==> NeedsExpansion(x, Field(dns, field), l, mayGo) && Complex(x, dns)
    ensures RewritePool(x, dns, field, l, mayGo).Err? ==> RewritePool(x, dns, field, l, mayGo).error == DnsListenerPolicy
  {
    ValuesExactly(x, Field(dns, field));
    var resolvers := Values(x, Field(dns, field));
    forall i | 0 <= i < |resolvers| ensures IsSelf(x, resolvers[i], l) <==> ReachesListener(x, resolvers[i], l) {
      SelfExactly(x, resolvers[i], l);
    }
    hide IsSelf, ReachesListener, Complex, Expanded, Values, Listed;
  }

  /** The rewriting is refused exactly when an expansion is needed that the main pipeline does not allow. */
  lemma RewriteRefused(x: Syntax, base: Config, l: Endpoint)
    ensures RewritePools(x, base, l).Err? <==>
              Complex(x, base) && (|| NeedsExpansion(x, Field(base, NODE), l, NodePoolOptional(base))
                                   || NeedsExpansion(x, Field(base, DIRECT), l, true)
                                   || ContainsSelf(x, Field(base, NODE_POLICY), l))
    ensures RewritePools(x, base, l).Err? ==> RewritePools(x, base, l).error == DnsListenerPolicy
  {
    DistinctKeys();
    PoolRefused(x, base, NODE, l, NodePoolOptional(base));
    RewritePoolFrame(x, base, NODE, l, NodePoolOptional(base));
    if RewritePool(x, base, NODE, l, NodePoolOptional(base)).Ok? {
      var first := RewritePool(x, base, NODE, l, NodePoolOptional(base)).value;
      SameMainFields(x, base, first);
      PoolRefused(x, first, DIRECT, l, true);
      RewritePoolFrame(x, first, DIRECT, l, true);
      if RewritePool(x, first, DIRECT, l, true).Ok? {
        SameMainFields(x, first, RewritePool(x, first, DIRECT, l, true).value);
      }
    }
    hide RewritePool, NeedsExpansion, ContainsSelf, Complex, NodePoolOptional;
  }

  /**
   The outcome of preparing a section, case by case: without a recognised listener only the key is
   dropped; a reference from the main pipeline is a cycle; without any reference nothing else
   happens; otherwise options, unusable upstreams or a needed expansion of a complex pipeline refuse.
   */
  lemma OutcomeExactly(x: Syntax, dns: Config)
    ensures (forall l :: !ListensOn(x, dns, l)) ==> Prepared(x, dns) == Ok(Stripped(dns))
    ensures forall l :: ListensOn(x, dns, l) ==>
              var out := Prepared(x, dns);
              if MainRefers(x, dns, l) then out == Err(DnsListenerCycle)
              else if !PoolsRefer(x, dns, l) then out == Ok(Stripped(dns))
              else if PoolsReferWithOptions(x, dns, l) then out == Err(DnsListenerPolicy)
              else if !UpstreamsUsable(x, dns) then out == Err(DnsListenerUpstreams)
              else if MainIsComplex(x, dns) && ExpansionNeeded(x, dns, l) then out == Err(DnsListenerPolicy)
              else out.Ok?
  {
    Keys(dns);
    assert forall l :: ListensOn(x, dns, l) <==> Listener(x, dns) == Some(l);
    if Listener(x, dns).Some? {
      var l := Listener(x, dns).value;
      TestsExactly(x, dns, l);
      RewriteRefused(x, WithoutListener(dns), l);
      ContainsExactly(x, At(dns, "proxy-server-nameserver-policy"), l);
      hide MainRefers, PoolsRefer, PoolsReferWithOptions, UpstreamsUsable, MainIsComplex, NeedsExpansion, Refers, ListensOn, Listener,
        MainRefersToSelf, PoolsReferToSelf, PoolsHaveSelfOptions, MainIsDirect, Complex, NodePoolOptional, RewritePools,
        ContainsSelf, WithoutListener, Stripped, Values, Field, At;
    }
  }

  /** A nameserver that reaches the listener in any of its spellings makes the section a cycle. */
  lemma NameserverCycle(x: Syntax, dns: Config, l: Endpoint, leaf: Value)
    requires ListensOn(x, dns, l) && LeafIn(At(dns, "nameserver"), leaf) && ReachesListener(x, leaf, l)
    ensures Prepared(x, dns) == Err(DnsListenerCycle)
  {
    OutcomeExactly(x, dns);
  }
}
