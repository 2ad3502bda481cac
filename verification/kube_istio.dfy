/** Accessors of the Istio objects: VirtualService routes, timeouts and
    gateways, DestinationRule circuit-breaker settings and Gateway hosts. */
module KubeIstio {
  import opened Wrappers
  import opened Seqs
  import opened KubeObjects

  /** One `(host, destination, timeout)` triple of `KubeVirtualService.timeouts`. */
  datatype TimeoutEntry = TimeoutEntry(host: string, destination: string, timeout: string)

  /** A route destination together with the timeout of its http route, before
      any namespace qualification. */
  datatype TimedRoute = TimedRoute(destination: string, timeout: string)

  /** Routes of one http route that name a destination host, paired with timeout `t`. */
  function TimedRoutesOf(t: string, routes: seq<RouteDestination>): (r: seq<TimedRoute>)
    ensures |r| <= |routes|
    ensures forall i :: 0 <= i < |r| ==> r[i].timeout == t
  {
    if |routes| == 0 then []
    else if routes[0].destinationHost.Some? then
      [TimedRoute(routes[0].destinationHost.value, t)] + TimedRoutesOf(t, routes[1..])
    else TimedRoutesOf(t, routes[1..])
  }

  /** Every route, over every http route that declares a timeout, that names a
      destination host, in iteration order. */
  function TimedRoutes(http: seq<HttpRoute>): seq<TimedRoute> {
    if |http| == 0 then []
    else if http[0].timeout.Some? then TimedRoutesOf(http[0].timeout.value, http[0].route) + TimedRoutes(http[1..])
    else TimedRoutes(http[1..])
  }

  /** The innermost loop of `timeouts` for one host and one http route with
      timeout `t`. As in the source, the loop variable `host` is overwritten with
      its qualified form at every route that names a destination, so the host
      flows from one route to the next; the first component of the result is
      its final value. */
  function RouteTimeouts(rules: NameRules, namespace: string, host: string, t: string,
                         routes: seq<RouteDestination>): (r: (string, seq<TimeoutEntry>))
    ensures |r.1| == |TimedRoutesOf(t, routes)|
    ensures forall i :: 0 <= i < |r.1| ==>
      r.1[i].destination == Qualify(rules, TimedRoutesOf(t, routes)[i].destination, namespace)
      && r.1[i].timeout == t
    decreases |routes|
  {
    if |routes| == 0 then (host, [])
    else match routes[0].destinationHost
      case None => RouteTimeouts(rules, namespace, host, t, routes[1..])
      case Some(d) =>
        var h := Qualify(rules, host, namespace);
        var rest := RouteTimeouts(rules, namespace, h, t, routes[1..]);
        (rest.0, [TimeoutEntry(h, Qualify(rules, d, namespace), t)] + rest.1)
  }

  /** The two inner loops of `timeouts` (over http routes, then routes) for one host. */
  function HttpTimeouts(rules: NameRules, namespace: string, host: string,
                        http: seq<HttpRoute>): (r: (string, seq<TimeoutEntry>))
    ensures |r.1| == |TimedRoutes(http)|
    ensures forall i :: 0 <= i < |r.1| ==>
      r.1[i].destination == Qualify(rules, TimedRoutes(http)[i].destination, namespace)
      && r.1[i].timeout == TimedRoutes(http)[i].timeout
    decreases |http|
  {
    if |http| == 0 then (host, [])
    else if http[0].timeout.None? then HttpTimeouts(rules, namespace, host, http[1..])
    else
      var a := RouteTimeouts(rules, namespace, host, http[0].timeout.value, http[0].route);
      var b := HttpTimeouts(rules, namespace, a.0, http[1..]);
      (b.0, a.1 + b.1)
  }

  function HostsTimeouts(rules: NameRules, namespace: string, hosts: seq<string>,
                         http: seq<HttpRoute>): (r: seq<TimeoutEntry>)
    ensures |r| == |hosts| * |TimedRoutes(http)|
  {
    if |hosts| == 0 then []
    else
      var rest := HostsTimeouts(rules, namespace, hosts[1..], http);
      assert |hosts| * |TimedRoutes(http)| == |TimedRoutes(http)| + |hosts[1..]| * |TimedRoutes(http)|;
      HttpTimeouts(rules, namespace, hosts[0], http).1 + rest
  }

  /** `KubeVirtualService.timeouts`: one triple per host, per http route with a
      timeout, per route naming a destination host. */
  function Timeouts(rules: NameRules, vs: KubeObject): (r: seq<TimeoutEntry>)
    requires vs.body.VirtualService?
    ensures |r| == |vs.body.virtualService.hosts| * |TimedRoutes(vs.body.virtualService.http)|
  {
    HostsTimeouts(rules, vs.namespace, vs.body.virtualService.hosts, vs.body.virtualService.http)
  }

  /** The triples `timeouts` would list if hosts were qualified once, up front:
      the reference the source's loop is compared with. */
  function ReferenceTimeouts(rules: NameRules, namespace: string, hosts: seq<string>,
                             trs: seq<TimedRoute>): seq<TimeoutEntry>
  {
    if |hosts| == 0 then []
    else
      HostEntries(rules, namespace, Qualify(rules, hosts[0], namespace), trs)
      + ReferenceTimeouts(rules, namespace, hosts[1..], trs)
  }

  function HostEntries(rules: NameRules, namespace: string, host: string, trs: seq<TimedRoute>)
    : (r: seq<TimeoutEntry>)
  {
    if |trs| == 0 then []
    else
      [TimeoutEntry(host, Qualify(rules, trs[0].destination, namespace), trs[0].timeout)]
      + HostEntries(rules, namespace, host, trs[1..])
  }

  lemma {:induction false} RouteTimeoutsStable(rules: NameRules, namespace: string, host: string,
                                               t: string, routes: seq<RouteDestination>)
    requires QualifyStable(rules, host, namespace)
    ensures var r := RouteTimeouts(rules, namespace, host, t, routes);
      && r.1 == HostEntries(rules, namespace, Qualify(rules, host, namespace), TimedRoutesOf(t, routes))
      && QualifyStable(rules, r.0, namespace)
      && Qualify(rules, r.0, namespace) == Qualify(rules, host, namespace)
    decreases |routes|
  {
    if |routes| > 0 {
      var h := Qualify(rules, host, namespace);
      assert rules.hasNamespace(h);
      RouteTimeoutsStable(rules, namespace, if routes[0].destinationHost.Some? then h else host, t, routes[1..]);
    }
  }

  lemma {:induction false} HostEntriesAppend(rules: NameRules, namespace: string, host: string,
                                             a: seq<TimedRoute>, b: seq<TimedRoute>)
    ensures HostEntries(rules, namespace, host, a + b)
         == HostEntries(rules, namespace, host, a) + HostEntries(rules, namespace, host, b)
  {
    if |a| > 0 {
      assert (a + b)[1..] == a[1..] + b;
      HostEntriesAppend(rules, namespace, host, a[1..], b);
    } else {
      assert a + b == b;
    }
  }

  lemma {:induction false} HttpTimeoutsStable(rules: NameRules, namespace: string, host: string,
                                              http: seq<HttpRoute>)
    requires QualifyStable(rules, host, namespace)
    ensures HttpTimeouts(rules, namespace, host, http).1
         == HostEntries(rules, namespace, Qualify(rules, host, namespace), TimedRoutes(http))
    decreases |http|
  {
    if |http| > 0 {
      if http[0].timeout.None? {
        HttpTimeoutsStable(rules, namespace, host, http[1..]);
      } else {
        var t := http[0].timeout.value;
        var a := RouteTimeouts(rules, namespace, host, t, http[0].route);
        RouteTimeoutsStable(rules, namespace, host, t, http[0].route);
        HttpTimeoutsStable(rules, namespace, a.0, http[1..]);
        HostEntriesAppend(rules, namespace, Qualify(rules, host, namespace),
                          TimedRoutesOf(t, http[0].route), TimedRoutes(http[1..]));
      }
    }
  }

  lemma {:induction false} HostsTimeoutsStable(rules: NameRules, namespace: string, hosts: seq<string>,
                                               http: seq<HttpRoute>)
    requires forall i :: 0 <= i < |hosts| ==> QualifyStable(rules, hosts[i], namespace)
    ensures HostsTimeouts(rules, namespace, hosts, http) == ReferenceTimeouts(rules, namespace, hosts, TimedRoutes(http))
  {
    if |hosts| > 0 {
      HttpTimeoutsStable(rules, namespace, hosts[0], http);
      HostsTimeoutsStable(rules, namespace, hosts[1..], http);
    }
  }

  /** When qualifying a host twice changes nothing, `timeouts` lists, for each
      host in order, every timed route with the host and the destination
      namespace-qualified: the host written back into the loop variable has no
      effect. */
  lemma TimeoutsMatchReference(rules: NameRules, vs: KubeObject)
    requires vs.body.VirtualService?
    requires forall i :: 0 <= i < |vs.body.virtualService.hosts| ==>
      QualifyStable(rules, vs.body.virtualService.hosts[i], vs.namespace)
    ensures Timeouts(rules, vs)
         == ReferenceTimeouts(rules, vs.namespace, vs.body.virtualService.hosts, TimedRoutes(vs.body.virtualService.http))
  {
    HostsTimeoutsStable(rules, vs.namespace, vs.body.virtualService.hosts, vs.body.virtualService.http);
  }

  /** Route destination hosts across all http routes, in order, unqualified. */
  function RouteHosts(http: seq<HttpRoute>): seq<string> {
    if |http| == 0 then [] else DestinationHosts(http[0].route) + RouteHosts(http[1..])
  }

  function DestinationHosts(routes: seq<RouteDestination>): (r: seq<string>)
    ensures forall d :: d in r <==> RouteDestination(Some(d)) in routes
  {
    if |routes| == 0 then []
    else if routes[0].destinationHost.Some? then [routes[0].destinationHost.value] + DestinationHosts(routes[1..])
    else DestinationHosts(routes[1..])
  }

  /** Namespace-qualifies every host of `hosts`. */
  function QualifyAll(rules: NameRules, hosts: seq<string>, namespace: string): (r: seq<string>)
    ensures |r| == |hosts|
    ensures forall i :: 0 <= i < |hosts| ==> r[i] == Qualify(rules, hosts[i], namespace)
  {
    if |hosts| == 0 then [] else [Qualify(rules, hosts[0], namespace)] + QualifyAll(rules, hosts[1..], namespace)
  }

  /** `KubeVirtualService.destinations`: every route destination host, in order, qualified. */
  function Destinations(rules: NameRules, vs: KubeObject): (r: seq<string>)
    requires vs.body.VirtualService?
    ensures |r| == |RouteHosts(vs.body.virtualService.http)|
    ensures forall i :: 0 <= i < |r| ==>
      r[i] == Qualify(rules, RouteHosts(vs.body.virtualService.http)[i], vs.namespace)
  {
    QualifyAll(rules, RouteHosts(vs.body.virtualService.http), vs.namespace)
  }

  lemma {:induction false} TimedRouteIsRouteHost(http: seq<HttpRoute>, tr: TimedRoute)
    requires tr in TimedRoutes(http)
    ensures tr.destination in RouteHosts(http)
  {
    if |http| > 0 {
      if http[0].timeout.Some? && tr in TimedRoutesOf(http[0].timeout.value, http[0].route) {
        TimedRoutesOfHosts(http[0].timeout.value, http[0].route, tr);
      } else {
        TimedRouteIsRouteHost(http[1..], tr);
      }
    }
  }

  lemma {:induction false} TimedRoutesOfHosts(t: string, routes: seq<RouteDestination>, tr: TimedRoute)
    requires tr in TimedRoutesOf(t, routes)
    ensures tr.destination in DestinationHosts(routes)
  {
    if |routes| > 0 && !(routes[0].destinationHost.Some? && tr == TimedRoute(routes[0].destinationHost.value, t)) {
      TimedRoutesOfHosts(t, routes[1..], tr);
    }
  }

  /** Every destination that `timeouts` reports is one of the `destinations`. */
  lemma TimeoutDestinationsAreDestinations(rules: NameRules, vs: KubeObject, e: TimeoutEntry)
    requires vs.body.VirtualService?
    requires e in Timeouts(rules, vs)
    ensures e.destination in Destinations(rules, vs)
  {
    var spec := vs.body.virtualService;
    var trs := TimedRoutes(spec.http);
    var j := HostsTimeoutsSource(rules, vs.namespace, spec.hosts, spec.http, e);
    TimedRouteIsRouteHost(spec.http, trs[j]);
    var hosts := RouteHosts(spec.http);
    var k :| 0 <= k < |hosts| && hosts[k] == trs[j].destination;
    assert Destinations(rules, vs)[k] == e.destination;
  }

  /** The timed route an entry of `HostsTimeouts` comes from. */
  lemma {:induction false} HostsTimeoutsSource(rules: NameRules, namespace: string, hosts: seq<string>,
                                               http: seq<HttpRoute>, e: TimeoutEntry) returns (j: nat)
    requires e in HostsTimeouts(rules, namespace, hosts, http)
    ensures j < |TimedRoutes(http)|
    ensures e.destination == Qualify(rules, TimedRoutes(http)[j].destination, namespace)
  {
    var first := HttpTimeouts(rules, namespace, hosts[0], http).1;
    if e in first {
      var i :| 0 <= i < |first| && first[i] == e;
      j := i;
    } else {
      j := HostsTimeoutsSource(rules, namespace, hosts[1..], http, e);
    }
  }

  /** `KubeVirtualService.gateways`: the spec gateways, each namespace-qualified. */
  function Gateways(rules: NameRules, vs: KubeObject): (r: seq<string>)
    requires vs.body.VirtualService?
    ensures |r| == |vs.body.virtualService.gateways|
    ensures forall i :: 0 <= i < |r| ==> r[i] == Qualify(rules, vs.body.virtualService.gateways[i], vs.namespace)
  {
    QualifyAll(rules, vs.body.virtualService.gateways, vs.namespace)
  }

  /** `KubeVirtualService.hosts`: the spec hosts as written. */
  function Hosts(vs: KubeObject): seq<string>
    requires vs.body.VirtualService?
  {
    vs.body.virtualService.hosts
  }

  /** `KubeDestinationRule.is_circuit_breaker`. */
  function IsCircuitBreaker(dr: KubeObject): (b: bool)
    requires dr.body.DestinationRule?
    ensures b <==> dr.body.rule.trafficPolicy.Some? && dr.body.rule.trafficPolicy.value.connectionPool.Some?
  {
    match dr.body.rule.trafficPolicy
    case None => false
    case Some(policy) => policy.connectionPool.Some?
  }

  /** `KubeDestinationRule.host`. */
  function RuleHost(rules: NameRules, dr: KubeObject): (r: string)
    requires dr.body.DestinationRule?
    ensures rules.hasNamespace(dr.body.rule.host) ==> r == dr.body.rule.host
    ensures !rules.hasNamespace(dr.body.rule.host) ==> r == dr.body.rule.host + "." + dr.namespace
  {
    Qualify(rules, dr.body.rule.host, dr.namespace)
  }

  /** `KubeDestinationRule.timeout`: `trafficPolicy.connectionPool.tcp.connectionTimeout`. */
  function RuleTimeout(dr: KubeObject): (r: Option<string>)
    requires dr.body.DestinationRule?
    ensures r.Some? <==>
      && dr.body.rule.trafficPolicy.Some?
      && dr.body.rule.trafficPolicy.value.connectionPool.Some?
      && dr.body.rule.trafficPolicy.value.connectionPool.value.tcp.Some?
      && dr.body.rule.trafficPolicy.value.connectionPool.value.tcp.value.connectionTimeout.Some?
    ensures r.Some? ==> r.value == dr.body.rule.trafficPolicy.value.connectionPool.value.tcp.value.connectionTimeout.value
  {
    match dr.body.rule.trafficPolicy
    case None => None
    case Some(policy) =>
      match policy.connectionPool
      case None => None
      case Some(pool) =>
        match pool.tcp
        case None => None
        case Some(tcp) => tcp.connectionTimeout
  }

  /** Server hosts concatenated in server order. */
  function ServerHosts(servers: seq<Server>): (r: seq<string>)
    ensures |r| == ServerHostCount(servers)
  {
    if |servers| == 0 then [] else servers[0].hosts + ServerHosts(servers[1..])
  }

  function ServerHostCount(servers: seq<Server>): nat {
    if |servers| == 0 then 0 else |servers[0].hosts| + ServerHostCount(servers[1..])
  }

  /** `KubeIstioGateway.hosts_exposed`. */
  function HostsExposed(gw: KubeObject): (r: seq<string>)
    requires gw.body.IstioGateway?
    ensures |r| == ServerHostCount(gw.body.gateway.servers)
  {
    ServerHosts(gw.body.gateway.servers)
  }

  /** A host is exposed exactly when some server lists it. */
  lemma {:induction false} HostsExposedMember(servers: seq<Server>, h: string)
    ensures h in ServerHosts(servers) <==> exists i :: 0 <= i < |servers| && h in servers[i].hosts
  {
    if |servers| > 0 {
      HostsExposedMember(servers[1..], h);
      if h in ServerHosts(servers[1..]) {
        var i :| 0 <= i < |servers[1..]| && h in servers[1..][i].hosts;
        assert h in servers[i + 1].hosts;
      }
      if exists i :: 0 <= i < |servers| && h in servers[i].hosts {
        var i :| 0 <= i < |servers| && h in servers[i].hosts;
        if i > 0 {
          assert h in servers[1..][i - 1].hosts;
        }
      }
    }
  }

  /** `KubeIstioGateway.selectors`. */
  function GatewaySelectors(gw: KubeObject): map<string, string>
    requires gw.body.IstioGateway?
  {
    gw.body.gateway.selector
  }
}
