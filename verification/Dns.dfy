/**
 Removal of the subscription's own DNS listener from its resolver configuration.
 How a resolver string is parsed and which fragments keep an upstream direct is left open
 (`Syntax`); everything is proved for every such syntax.
 */
module Dns {
  import opened Wrappers
  import opened Sequences

  /** IPv4-mapped IPv6 addresses are already IPv4 here, and the only domain is localhost. */
  datatype Host = Ipv4(address: nat) | Ipv6(address: nat) | Localhost

  datatype Endpoint = Endpoint(host: Host, port: nat, options: bool)

  datatype Value =
    | Null
    | Bool(flag: bool)
    | Number(number: int)
    | Text(text: string)
    | List(items: seq<Value>)
    | Mapping(entries: map<string, Value>)

  datatype Syntax = Syntax(endpoint: string -> Option<Endpoint>, direct: string -> bool, blank: string -> bool)

  datatype Error = DnsListenerCycle | DnsListenerPolicy | DnsListenerUpstreams

  type Config = map<string, Value>

  const LISTEN := "listen"
  const ROUTING_MARK := "listen-routing-mark"
  const ENABLE := "enable"
  const NAMESERVER := "nameserver"
  const DEFAULT_NAMESERVER := "default-nameserver"
  const FALLBACK := "fallback"
  const NAMESERVER_POLICY := "nameserver-policy"
  const NODE := "proxy-server-nameserver"
  const NODE_POLICY := "proxy-server-nameserver-policy"
  const DIRECT := "direct-nameserver"
  const RESPECT_RULES := "respect-rules"

  /** An absent key reads like an explicit null. */
  function Field(dns: Config, key: string): Value {
    if key in dns then dns[key] else Null
  }

  const IPV4_LOCALHOST: nat := 0x7F00_0001

  predicate Ipv4Loopback(address: nat) { address / 0x100_0000 == 127 }

  predicate SameHost(listen: Host, host: Host) {
    listen == host
    || match (listen, host)
       case (Localhost, Ipv4(ip)) => ip == IPV4_LOCALHOST || ip == 0
       case (Ipv4(ip), Localhost) => ip == IPV4_LOCALHOST || ip == 0
       case (Localhost, Ipv6(ip)) => ip == 1 || ip == 0
       case (Ipv6(ip), Localhost) => ip == 1 || ip == 0
       case (Ipv4(any), Ipv4(ip)) => any == 0 && Ipv4Loopback(ip)
       case (Ipv6(any), Ipv6(ip)) => any == 0 && ip == 1
       case _ => false
  }

  function EndpointOf(x: Syntax, v: Value): Option<Endpoint> {
    if v.Text? then x.endpoint(v.text) else None
  }

  predicate IsSelf(x: Syntax, v: Value, listener: Endpoint) {
    var e := EndpointOf(x, v);
    e.Some? && e.value.port == listener.port && SameHost(listener.host, e.value.host)
  }

  predicate ContainsSelf(x: Syntax, v: Value, listener: Endpoint) {
    match v
    case Mapping(entries) => exists k :: k in entries && ContainsSelf(x, entries[k], listener)
    case List(items) => exists i :: 0 <= i < |items| && ContainsSelf(x, items[i], listener)
    case _ => IsSelf(x, v, listener)
  }

  predicate HasSelfOptions(x: Syntax, v: Value, listener: Endpoint) {
    match v
    case Mapping(entries) => exists k :: k in entries && HasSelfOptions(x, entries[k], listener)
    case List(items) => exists i :: 0 <= i < |items| && HasSelfOptions(x, items[i], listener)
    case _ => IsSelf(x, v, listener) && EndpointOf(x, v).value.options
  }

  predicate AllDirect(x: Syntax, v: Value) {
    match v
    case Null => true
    case Mapping(entries) => forall k :: k in entries ==> AllDirect(x, entries[k])
    case List(items) => forall i :: 0 <= i < |items| ==> AllDirect(x, items[i])
    case Text(s) => x.direct(s)
    case _ => false
  }

  function Values(x: Syntax, v: Value): seq<Value> {
    match v
    case Text(s) => if x.blank(s) then [] else [v]
    case List(items) => items
    case _ => []
  }

  function EntriesOf(v: Value): map<string, Value> {
    if v.Mapping? then v.entries else map[]
  }

  /** Each self entry replaced by all upstreams, before duplicates are dropped. */
  function Flat(x: Syntax, resolvers: seq<Value>, listener: Endpoint, upstreams: seq<Value>): seq<Value> {
    if resolvers == [] then []
    else
      var last := resolvers[|resolvers| - 1];
      Flat(x, resolvers[..|resolvers| - 1], listener, upstreams)
      + (if IsSelf(x, last, listener) then upstreams else [last])
  }

  function Expanded(x: Syntax, resolvers: seq<Value>, listener: Endpoint, upstreams: seq<Value>): seq<Value> {
    Dedup(Flat(x, resolvers, listener, upstreams))
  }

  /** `expand`: nested loops that push what is not yet present. */
  method Expand(x: Syntax, resolvers: seq<Value>, listener: Endpoint, upstreams: seq<Value>) returns (result: seq<Value>)
    ensures result == Expanded(x, resolvers, listener, upstreams)
  {
    result := [];
    for i := 0 to |resolvers|
      invariant result == Expanded(x, resolvers[..i], listener, upstreams)
    {
      var resolver := resolvers[i];
      var values := if IsSelf(x, resolver, listener) then upstreams else [resolver];
      ghost var before := Flat(x, resolvers[..i], listener, upstreams);
      assert before + values[..0] == before;
      for j := 0 to |values|
        invariant result == Dedup(before + values[..j])
      {
        assert before + values[..j + 1] == (before + values[..j]) + [values[j]];
        AddAllNewAppend([], before + values[..j], values[j]);
        if values[j] !in result {
          result := result + [values[j]];
        }
      }
      assert values[..|values|] == values;
      assert resolvers[..i + 1][..i] == resolvers[..i];
    }
    assert resolvers[..|resolvers|] == resolvers;
  }

  // ---- the transformation as a function ----

  function WithoutListener(dns: Config): Config {
    (dns - {LISTEN})[ROUTING_MARK := Number(0)]
  }

  /** The enabled DNS section's recognised listener, if it has one. */
  function Listener(x: Syntax, dns: Config): Option<Endpoint> {
    if Field(WithoutListener(dns), ENABLE) == Bool(true) then EndpointOf(x, Field(dns, LISTEN)) else None
  }

  predicate MainRefersToSelf(x: Syntax, dns: Config, l: Endpoint) {
    || ContainsSelf(x, Field(dns, NAMESERVER), l)
    || ContainsSelf(x, Field(dns, DEFAULT_NAMESERVER), l)
    || ContainsSelf(x, Field(dns, FALLBACK), l)
    || ContainsSelf(x, Field(dns, NAMESERVER_POLICY), l)
  }

  predicate PoolsReferToSelf(x: Syntax, dns: Config, l: Endpoint) {
    || ContainsSelf(x, Field(dns, NODE), l)
    || ContainsSelf(x, Field(dns, NODE_POLICY), l)
    || ContainsSelf(x, Field(dns, DIRECT), l)
  }

  predicate PoolsHaveSelfOptions(x: Syntax, dns: Config, l: Endpoint) {
    || HasSelfOptions(x, Field(dns, NODE), l)
    || HasSelfOptions(x, Field(dns, NODE_POLICY), l)
    || HasSelfOptions(x, Field(dns, DIRECT), l)
  }

  predicate MainIsDirect(x: Syntax, dns: Config) {
    && AllDirect(x, Field(dns, NAMESERVER))
    && AllDirect(x, Field(dns, FALLBACK))
    && AllDirect(x, Field(dns, NAMESERVER_POLICY))
  }

  predicate Complex(x: Syntax, dns: Config) {
    Values(x, Field(dns, FALLBACK)) != [] || EntriesOf(Field(dns, NAMESERVER_POLICY)) != map[]
  }

  /** Only without a node policy and without rule routing does an absent node pool mean the main pipeline. */
  predicate NodePoolOptional(dns: Config) {
    EntriesOf(Field(dns, NODE_POLICY)) == map[] && Field(dns, RESPECT_RULES) != Bool(true)
  }

  /** One pool field: untouched, removed so that it is inherited, or expanded. */
  function RewritePool(x: Syntax, dns: Config, field: string, l: Endpoint, inheritable: bool): Result<Config, Error> {
    var resolvers := Values(x, Field(dns, field));
    if forall i :: 0 <= i < |resolvers| ==> !IsSelf(x, resolvers[i], l) then Ok(dns)
    else if inheritable && (forall i :: 0 <= i < |resolvers| ==> IsSelf(x, resolvers[i], l)) then Ok(dns - {field})
    else if Complex(x, dns) then Err(DnsListenerPolicy)
    else Ok(dns[field := List(Expanded(x, resolvers, l, Values(x, Field(dns, NAMESERVER))))])
  }

  function RewriteEntry(x: Syntax, v: Value, l: Endpoint, upstreams: seq<Value>): Value {
    if ContainsSelf(x, v, l) then List(Expanded(x, Values(x, v), l, upstreams)) else v
  }

  function RewriteEntries(x: Syntax, policy: map<string, Value>, l: Endpoint, upstreams: seq<Value>): map<string, Value> {
    map k | k in policy :: RewriteEntry(x, policy[k], l, upstreams)
  }

  function RewriteNodePolicy(x: Syntax, dns: Config, l: Endpoint): Result<Config, Error> {
    if !ContainsSelf(x, Field(dns, NODE_POLICY), l) then Ok(dns)
    else if Complex(x, dns) then Err(DnsListenerPolicy)
    else if !Field(dns, NODE_POLICY).Mapping? then Ok(dns)
    else
      var policy := dns[NODE_POLICY].entries;
      Ok(dns[NODE_POLICY := Mapping(RewriteEntries(x, policy, l, Values(x, Field(dns, NAMESERVER))))])
  }

  function RewritePools(x: Syntax, dns: Config, l: Endpoint): Result<Config, Error> {
    match RewritePool(x, dns, NODE, l, NodePoolOptional(dns))
    case Err(e) => Err(e)
    case Ok(first) =>
      match RewritePool(x, first, DIRECT, l, true)
      case Err(e) => Err(e)
      case Ok(second) => RewriteNodePolicy(x, second, l)
  }

  function Prepared(x: Syntax, dns: Config): Result<Config, Error> {
    var base := WithoutListener(dns);
    var listener := Listener(x, dns);
    if listener.None? then Ok(base)
    else
      var l := listener.value;
      if MainRefersToSelf(x, base, l) then Err(DnsListenerCycle)
      else if !PoolsReferToSelf(x, base, l) then Ok(base)
      else if PoolsHaveSelfOptions(x, base, l) then Err(DnsListenerPolicy)
      else if Values(x, Field(base, NAMESERVER)) == [] || !MainIsDirect(x, base) then Err(DnsListenerUpstreams)
      else RewritePools(x, base, l)
  }

  const POOL_KEYS: set<string> := {NODE, DIRECT, NODE_POLICY}

  const MAIN_KEYS: set<string> :=
    {NAMESERVER, DEFAULT_NAMESERVER, FALLBACK, NAMESERVER_POLICY, RESPECT_RULES, ENABLE, LISTEN, ROUTING_MARK}

  lemma DistinctKeys()
    ensures NODE !in MAIN_KEYS && DIRECT !in MAIN_KEYS && NODE_POLICY !in MAIN_KEYS
    ensures NODE != DIRECT && NODE_POLICY != NODE && NODE_POLICY != DIRECT
    ensures LISTEN !in POOL_KEYS && ROUTING_MARK !in POOL_KEYS
    ensures {NAMESERVER, DEFAULT_NAMESERVER, FALLBACK, NAMESERVER_POLICY, RESPECT_RULES, ENABLE} !! {LISTEN, ROUTING_MARK}
  {
    assert LISTEN[0] == 'l' && ENABLE[0] == 'e' && NAMESERVER_POLICY[0] == 'n' && DIRECT[0] == 'd';
    assert |LISTEN| == |ENABLE| == 6 && |ROUTING_MARK| == 19 && |NAMESERVER| == 10 && |DEFAULT_NAMESERVER| == 18;
    assert |FALLBACK| == 8 && |NAMESERVER_POLICY| == |DIRECT| == 17 && |NODE| == 23 && |NODE_POLICY| == 30;
    assert |RESPECT_RULES| == 13;
  }

  /** The two sections agree on everything but the pools. */
  ghost predicate SameMain(a: Config, b: Config) {
    forall k :: k !in POOL_KEYS ==> Field(a, k) == Field(b, k) && (k in a <==> k in b)
  }

  lemma SameMainFields(x: Syntax, a: Config, b: Config)
    requires SameMain(a, b)
    ensures Complex(x, a) == Complex(x, b)
    ensures Field(a, NAMESERVER) == Field(b, NAMESERVER) && Field(a, FALLBACK) == Field(b, FALLBACK)
    ensures Field(a, DEFAULT_NAMESERVER) == Field(b, DEFAULT_NAMESERVER)
    ensures Field(a, NAMESERVER_POLICY) == Field(b, NAMESERVER_POLICY)
    ensures Field(a, RESPECT_RULES) == Field(b, RESPECT_RULES)
  {
    DistinctKeys();
  }

  lemma RewritePoolFrame(x: Syntax, dns: Config, field: string, l: Endpoint, inheritable: bool)
    requires field == NODE || field == DIRECT
    ensures var r := RewritePool(x, dns, field, l, inheritable);
            r.Ok? ==> SameMain(dns, r.value)
                      && (forall k :: k != field ==> Field(r.value, k) == Field(dns, k) && (k in r.value <==> k in dns))
  {
    DistinctKeys();
  }

  // ---- the section rewritten in place ----

  class DnsSection {
    var dns: Config

    constructor (dns: Config)
      ensures this.dns == dns
    {
      this.dns := dns;
    }

    /** One turn of the pool loop. */
    method AdaptPool(x: Syntax, field: string, l: Endpoint, inheritable: bool, complex: bool, upstreams: seq<Value>)
      returns (error: Option<Error>)
      requires complex == Complex(x, dns) && upstreams == Values(x, Field(dns, NAMESERVER))
      modifies this
      ensures RewritePool(x, old(dns), field, l, inheritable) == if error.Some? then Err(error.value) else Ok(dns)
    {
      error := None;
      var resolvers := Values(x, Field(dns, field));
      if forall i :: 0 <= i < |resolvers| ==> !IsSelf(x, resolvers[i], l) {
        return;
      }
      if inheritable && forall i :: 0 <= i < |resolvers| ==> IsSelf(x, resolvers[i], l) {
        dns := dns - {field};
      } else {
        if complex {
          return Some(DnsListenerPolicy);
        }
        var rewritten := Expand(x, resolvers, l, upstreams);
        dns := dns[field := List(rewritten)];
      }
    }

    /** The loop over the entries of the node policy. */
    static method AdaptEntries(x: Syntax, policy: map<string, Value>, l: Endpoint, upstreams: seq<Value>)
      returns (done: map<string, Value>)
      ensures done == RewriteEntries(x, policy, l, upstreams)
    {
      done := map[];
      var todo := policy.Keys;
      while todo != {}
        invariant todo <= policy.Keys && done.Keys == policy.Keys - todo
        invariant forall k :: k in done ==> done[k] == RewriteEntry(x, policy[k], l, upstreams)
      {
        var k :| k in todo;
        var value := policy[k];
        if ContainsSelf(x, value, l) {
          var rewritten := Expand(x, Values(x, value), l, upstreams);
          value := List(rewritten);
        }
        done := done[k := value];
        todo := todo - {k};
      }
    }

    method AdaptNodePolicy(x: Syntax, l: Endpoint, policySelf: bool, complex: bool, upstreams: seq<Value>)
      returns (error: Option<Error>)
      requires policySelf == ContainsSelf(x, Field(dns, NODE_POLICY), l)
      requires complex == Complex(x, dns) && upstreams == Values(x, Field(dns, NAMESERVER))
      modifies this
      ensures RewriteNodePolicy(x, old(dns), l) == if error.Some? then Err(error.value) else Ok(dns)
    {
      hide ContainsSelf, Complex, RewriteEntries;
      error := None;
      if policySelf {
        if complex {
          return Some(DnsListenerPolicy);
        }
        if Field(dns, NODE_POLICY).Mapping? {
          var entries := AdaptEntries(x, dns[NODE_POLICY].entries, l, upstreams);
          dns := dns[NODE_POLICY := Mapping(entries)];
        }
      }
    }

    /** `prepare_managed_dns`. After an error the section is discarded with the whole configuration. */
    method PrepareManagedDns(x: Syntax) returns (error: Option<Error>)
      modifies this
      ensures error.Some? ==> Prepared(x, old(dns)) == Err(error.value)
      ensures error.None? ==> Prepared(x, old(dns)) == Ok(dns)
    {
      hide ContainsSelf, Complex, MainIsDirect, PoolsHaveSelfOptions, RewritePool, RewriteNodePolicy;
      var listen := Field(dns, LISTEN);
      dns := dns - {LISTEN};
      dns := dns[ROUTING_MARK := Number(0)];
      if Field(dns, ENABLE) != Bool(true) {
        return None;
      }
      var listener := EndpointOf(x, listen);
      if listener.None? {
        return None;
      }
      var l := listener.value;
      if MainRefersToSelf(x, dns, l) {
        return Some(DnsListenerCycle);
      }
      var policySelf := ContainsSelf(x, Field(dns, NODE_POLICY), l);
      if !PoolsReferToSelf(x, dns, l) {
        return None;
      }
      if PoolsHaveSelfOptions(x, dns, l) {
        return Some(DnsListenerPolicy);
      }
      var upstreams := Values(x, Field(dns, NAMESERVER));
      if upstreams == [] || !MainIsDirect(x, dns) {
        return Some(DnsListenerUpstreams);
      }
      var complex := Complex(x, dns);
      var optional := NodePoolOptional(dns);
      ghost var base := dns;
      DistinctKeys();
      RewritePoolFrame(x, base, NODE, l, optional);
      error := AdaptPool(x, NODE, l, optional, complex, upstreams);
      if error.Some? {
        return;
      }
      ghost var first := dns;
      SameMainFields(x, base, first);
      RewritePoolFrame(x, first, DIRECT, l, true);
      error := AdaptPool(x, DIRECT, l, true, complex, upstreams);
      if error.Some? {
        return;
      }
      SameMainFields(x, first, dns);
      error := AdaptNodePolicy(x, l, policySelf, complex, upstreams);
    }
  }
}
