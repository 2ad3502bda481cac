/** The Istio extension worker (`IstioWorker`): it connects an ingress
    gateway node to the services an Istio Gateway exposes, and switches on the
    circuit-breaker and timeout flags that DestinationRules and
    VirtualServices configure. */
module IstioWorker {
  import opened Wrappers
  import opened Seqs
  import opened Errors
  import opened KubeObjects
  import opened KubeIstio
  import opened KubeCluster
  import opened ArchModel

  /** The one node standing for every Istio ingress gateway of the cluster. */
  const GATEWAY_NODE_GENERIC_NAME: string := "istio-ingress-gateway"

  /** Appended to a service's fullname to obtain the name of its node. */
  const CLUSTER_DOMAIN_SUFFIX: string := ".svc.cluster.local"

  // ---------------------------------------------------------------------
  // Which services a gateway exposes
  // ---------------------------------------------------------------------

  /** `_check_gateway_virtualservice_match`: the virtual service is bound to
      the gateway and shares at least one host with it. */
  function GatewayMatches(rules: NameRules, gw: KubeObject, vs: KubeObject): (b: bool)
    requires gw.body.IstioGateway? && vs.body.VirtualService?
    ensures b <==> FullName(gw) in Gateways(rules, vs) && exists h :: h in HostsExposed(gw) && h in Hosts(vs)
  {
    var shared := Filter(HostsExposed(gw), h => h in Hosts(vs));
    assert (exists h :: h in HostsExposed(gw) && h in Hosts(vs)) ==> |shared| > 0 by {
      if exists h :: h in HostsExposed(gw) && h in Hosts(vs) {
        var h :| h in HostsExposed(gw) && h in Hosts(vs);
        assert h in shared;
      }
    }
    assert |shared| > 0 ==> shared[0] in HostsExposed(gw) && shared[0] in Hosts(vs);
    |shared| > 0 && FullName(gw) in Gateways(rules, vs)
  }

  /** A label key of the workload is also a selector key of the gateway. */
  predicate SharesSelector(w: KubeObject, gw: KubeObject)
    requires gw.body.IstioGateway?
  {
    w.body.Workload? && exists l :: l in w.body.labels && l in GatewaySelectors(gw)
  }

  /** `_has_pod_exposed`: some workload behind the service carries a label the
      gateway selects on. */
  function HasPodExposed(c: Cluster, x: ExposureRules, service: KubeObject, gw: KubeObject): (b: bool)
    requires gw.body.IstioGateway?
    ensures b <==> exists w :: w in Workloads(c) && x.doesExpose(service, w) && SharesSelector(w, gw)
  {
    var hits := Filter(FindWorkloadExposedBySvc(c, x, service), w => SharesSelector(w, gw));
    assert (exists w :: w in Workloads(c) && x.doesExpose(service, w) && SharesSelector(w, gw)) ==> |hits| > 0 by {
      if exists w :: w in Workloads(c) && x.doesExpose(service, w) && SharesSelector(w, gw) {
        var w :| w in Workloads(c) && x.doesExpose(service, w) && SharesSelector(w, gw);
        assert w in FindWorkloadExposedBySvc(c, x, service);
        assert w in hits;
      }
    }
    assert |hits| > 0 ==> hits[0] in FindWorkloadExposedBySvc(c, x, service) && SharesSelector(hits[0], gw);
    |hits| > 0
  }

  /** The node a service stands for: its fullname in the cluster domain. */
  function ServiceNodeName(s: KubeObject): string {
    FullName(s) + CLUSTER_DOMAIN_SUFFIX
  }

  /** The gateway routes to the service through the virtual service: the two
      match, the service is one of the virtual service's destinations, and a
      pod behind it is selected by the gateway. */
  predicate ExposesThrough(c: Cluster, rules: NameRules, x: ExposureRules, gw: KubeObject, vs: KubeObject, s: KubeObject) {
    && gw.body.IstioGateway? && vs.body.VirtualService?
    && GatewayMatches(rules, gw, vs)
    && FullName(s) in Destinations(rules, vs)
    && HasPodExposed(c, x, s, gw)
  }

  /** `t` is the node name of a service some gateway of the cluster exposes. */
  predicate ExposedTarget(c: Cluster, rules: NameRules, x: ExposureRules, t: string) {
    exists gw, vs, s :: gw in IstioGateways(c) && vs in VirtualServices(c) && s in Services(c)
      && ExposesThrough(c, rules, x, gw, vs, s) && t == ServiceNodeName(s)
  }

  /** The node name one service contributes, when the gateway exposes it
      through the virtual service. */
  function ServiceEntry(c: Cluster, rules: NameRules, x: ExposureRules, gw: KubeObject, vs: KubeObject,
                        s: KubeObject): seq<string> {
    if ExposesThrough(c, rules, x, gw, vs, s) then [ServiceNodeName(s)] else []
  }

  /** The innermost loop of `_search_for_gateways`, over the services. */
  function ServiceTargets(c: Cluster, rules: NameRules, x: ExposureRules, gw: KubeObject, vs: KubeObject,
                          svcs: seq<KubeObject>): seq<string>
  {
    if |svcs| == 0 then []
    else ServiceEntry(c, rules, x, gw, vs, svcs[0]) + ServiceTargets(c, rules, x, gw, vs, svcs[1..])
  }

  lemma {:induction false} ServiceTargetsMember(c: Cluster, rules: NameRules, x: ExposureRules, gw: KubeObject,
                                                vs: KubeObject, svcs: seq<KubeObject>, t: string)
    ensures t in ServiceTargets(c, rules, x, gw, vs, svcs) <==>
      exists k :: 0 <= k < |svcs| && t in ServiceEntry(c, rules, x, gw, vs, svcs[k])
  {
    if |svcs| > 0 {
      ServiceTargetsMember(c, rules, x, gw, vs, svcs[1..], t);
      if exists k :: 0 <= k < |svcs| && t in ServiceEntry(c, rules, x, gw, vs, svcs[k]) {
        var k :| 0 <= k < |svcs| && t in ServiceEntry(c, rules, x, gw, vs, svcs[k]);
        if k > 0 {
          assert svcs[1..][k - 1] == svcs[k];
        }
      }
      if t in ServiceTargets(c, rules, x, gw, vs, svcs[1..]) {
        var k :| 0 <= k < |svcs[1..]| && t in ServiceEntry(c, rules, x, gw, vs, svcs[1..][k]);
        assert svcs[k + 1] == svcs[1..][k];
      }
    }
  }

  /** The services one virtual service contributes under one gateway: none
      unless the two are a gateway and a virtual service that match. */
  function VirtualServiceEntry(c: Cluster, rules: NameRules, x: ExposureRules, gw: KubeObject, vs: KubeObject): seq<string> {
    if gw.body.IstioGateway? && vs.body.VirtualService? && GatewayMatches(rules, gw, vs)
    then ServiceTargets(c, rules, x, gw, vs, Services(c)) else []
  }

  /** The middle loop, over the virtual services matching one gateway. */
  function VirtualServiceTargets(c: Cluster, rules: NameRules, x: ExposureRules, gw: KubeObject,
                                 vss: seq<KubeObject>): seq<string>
  {
    if |vss| == 0 then []
    else VirtualServiceEntry(c, rules, x, gw, vss[0]) + VirtualServiceTargets(c, rules, x, gw, vss[1..])
  }

  lemma {:induction false} VirtualServiceTargetsMember(c: Cluster, rules: NameRules, x: ExposureRules, gw: KubeObject,
                                                       vss: seq<KubeObject>, t: string)
    ensures t in VirtualServiceTargets(c, rules, x, gw, vss) <==>
      exists k :: 0 <= k < |vss| && t in VirtualServiceEntry(c, rules, x, gw, vss[k])
  {
    if |vss| > 0 {
      VirtualServiceTargetsMember(c, rules, x, gw, vss[1..], t);
      if exists k :: 0 <= k < |vss| && t in VirtualServiceEntry(c, rules, x, gw, vss[k]) {
        var k :| 0 <= k < |vss| && t in VirtualServiceEntry(c, rules, x, gw, vss[k]);
        if k > 0 {
          assert vss[1..][k - 1] == vss[k];
        }
      }
      if t in VirtualServiceTargets(c, rules, x, gw, vss[1..]) {
        var k :| 0 <= k < |vss[1..]| && t in VirtualServiceEntry(c, rules, x, gw, vss[1..][k]);
        assert vss[k + 1] == vss[1..][k];
      }
    }
  }

  /** The outer loop, over the Istio gateways. */
  function GatewayListTargets(c: Cluster, rules: NameRules, x: ExposureRules, gws: seq<KubeObject>): seq<string>
  {
    if |gws| == 0 then []
    else VirtualServiceTargets(c, rules, x, gws[0], VirtualServices(c)) + GatewayListTargets(c, rules, x, gws[1..])
  }

  lemma {:induction false} GatewayListTargetsMember(c: Cluster, rules: NameRules, x: ExposureRules,
                                                    gws: seq<KubeObject>, t: string)
    ensures t in GatewayListTargets(c, rules, x, gws) <==>
      exists k :: 0 <= k < |gws| && t in VirtualServiceTargets(c, rules, x, gws[k], VirtualServices(c))
  {
    if |gws| > 0 {
      GatewayListTargetsMember(c, rules, x, gws[1..], t);
      if exists k :: 0 <= k < |gws| && t in VirtualServiceTargets(c, rules, x, gws[k], VirtualServices(c)) {
        var k :| 0 <= k < |gws| && t in VirtualServiceTargets(c, rules, x, gws[k], VirtualServices(c));
        if k > 0 {
          assert gws[1..][k - 1] == gws[k];
        }
      }
      if t in GatewayListTargets(c, rules, x, gws[1..]) {
        var k :| 0 <= k < |gws[1..]| && t in VirtualServiceTargets(c, rules, x, gws[1..][k], VirtualServices(c));
        assert gws[k + 1] == gws[1..][k];
      }
    }
  }

  /** The service node names `_search_for_gateways` visits, in loop order
      (one entry per gateway, virtual service and service triple). */
  function GatewayTargets(c: Cluster, rules: NameRules, x: ExposureRules): seq<string> {
    GatewayListTargets(c, rules, x, IstioGateways(c))
  }

  /** Every visited name is an exposed service node. */
  lemma GatewayTargetsSound(c: Cluster, rules: NameRules, x: ExposureRules, t: string)
    requires t in GatewayTargets(c, rules, x)
    ensures ExposedTarget(c, rules, x, t)
  {
    var gws := IstioGateways(c);
    var vss := VirtualServices(c);
    GatewayListTargetsMember(c, rules, x, gws, t);
    var i :| 0 <= i < |gws| && t in VirtualServiceTargets(c, rules, x, gws[i], vss);
    VirtualServiceTargetsMember(c, rules, x, gws[i], vss, t);
    var j :| 0 <= j < |vss| && t in VirtualServiceEntry(c, rules, x, gws[i], vss[j]);
    EntryExposed(c, rules, x, gws[i], vss[j], t);
    var s :| s in Services(c) && ExposesThrough(c, rules, x, gws[i], vss[j], s) && t == ServiceNodeName(s);
    assert gws[i] in gws && vss[j] in vss;
  }

  /** A name one virtual service contributes is an exposed service's node. */
  lemma EntryExposed(c: Cluster, rules: NameRules, x: ExposureRules, gw: KubeObject, vs: KubeObject, t: string)
    requires t in VirtualServiceEntry(c, rules, x, gw, vs)
    ensures exists s :: s in Services(c) && ExposesThrough(c, rules, x, gw, vs, s) && t == ServiceNodeName(s)
  {
    var svcs := Services(c);
    assert t in ServiceTargets(c, rules, x, gw, vs, svcs);
    ServiceTargetsMember(c, rules, x, gw, vs, svcs, t);
    var k :| 0 <= k < |svcs| && t in ServiceEntry(c, rules, x, gw, vs, svcs[k]);
    assert svcs[k] in svcs && ExposesThrough(c, rules, x, gw, vs, svcs[k]);
  }

  /** The service a gateway exposes through a virtual service is visited. */
  lemma ExposedIsVisited(c: Cluster, rules: NameRules, x: ExposureRules, gw: KubeObject, vs: KubeObject, s: KubeObject)
    requires gw in IstioGateways(c) && vs in VirtualServices(c) && s in Services(c)
    requires ExposesThrough(c, rules, x, gw, vs, s)
    ensures ServiceNodeName(s) in GatewayTargets(c, rules, x)
  {
    var t := ServiceNodeName(s);
    var gws := IstioGateways(c);
    var vss := VirtualServices(c);
    var svcs := Services(c);
    var k :| 0 <= k < |svcs| && svcs[k] == s;
    assert t in ServiceEntry(c, rules, x, gw, vs, svcs[k]);
    ServiceTargetsMember(c, rules, x, gw, vs, svcs, t);
    assert t in ServiceTargets(c, rules, x, gw, vs, svcs);
    assert t in VirtualServiceEntry(c, rules, x, gw, vs);
    var j :| 0 <= j < |vss| && vss[j] == vs;
    VirtualServiceTargetsMember(c, rules, x, gw, vss, t);
    assert t in VirtualServiceTargets(c, rules, x, gw, vss);
    var i :| 0 <= i < |gws| && gws[i] == gw;
    GatewayListTargetsMember(c, rules, x, gws, t);
  }

  /** Every exposed service node is visited. */
  lemma GatewayTargetsComplete(c: Cluster, rules: NameRules, x: ExposureRules, t: string)
    requires ExposedTarget(c, rules, x, t)
    ensures t in GatewayTargets(c, rules, x)
  {
    var gw, vs, s :| gw in IstioGateways(c) && vs in VirtualServices(c) && s in Services(c)
      && ExposesThrough(c, rules, x, gw, vs, s) && t == ServiceNodeName(s);
    ExposedIsVisited(c, rules, x, gw, vs, s);
  }

  /** The visited names are exactly the exposed service nodes. */
  lemma GatewayTargetsExactly(c: Cluster, rules: NameRules, x: ExposureRules, t: string)
    ensures t in GatewayTargets(c, rules, x) <==> ExposedTarget(c, rules, x, t)
  {
    if t in GatewayTargets(c, rules, x) {
      GatewayTargetsSound(c, rules, x, t);
    }
    if ExposedTarget(c, rules, x, t) {
      GatewayTargetsComplete(c, rules, x, t);
    }
  }

  /** No service node can be mistaken for the gateway node: the gateway's
      name does not end in the cluster domain. */
  lemma ServiceNodeIsNotGateway(s: KubeObject)
    ensures ServiceNodeName(s) != GATEWAY_NODE_GENERIC_NAME
  {
    var p := FullName(s);
    var t := p + CLUSTER_DOMAIN_SUFFIX;
    assert t[|p|] == '.';
    assert |t| != |GATEWAY_NODE_GENERIC_NAME| || GATEWAY_NODE_GENERIC_NAME[|p|] == 'i';
  }

  /** Hence the gateway node is never among the visited names. */
  lemma GatewayIsNotTarget(c: Cluster, rules: NameRules, x: ExposureRules)
    ensures GATEWAY_NODE_GENERIC_NAME !in GatewayTargets(c, rules, x)
  {
    if GATEWAY_NODE_GENERIC_NAME in GatewayTargets(c, rules, x) {
      GatewayTargetsSound(c, rules, x, GATEWAY_NODE_GENERIC_NAME);
      var gw, vs, s :| gw in IstioGateways(c) && vs in VirtualServices(c) && s in Services(c)
        && ExposesThrough(c, rules, x, gw, vs, s) && GATEWAY_NODE_GENERIC_NAME == ServiceNodeName(s);
      ServiceNodeIsNotGateway(s);
    }
  }

  // ---------------------------------------------------------------------
  // The gateway node and its interactions
  // ---------------------------------------------------------------------

  /** `_find_or_create_gateway`: reuse a node with the generic name, or add a
      message router of that name and put it in the edge group. */
  function FindOrCreateGateway(m: Model): (r: Model)
    ensures GATEWAY_NODE_GENERIC_NAME in Names(r)
    ensures Names(r) == Names(m) + {GATEWAY_NODE_GENERIC_NAME}
    ensures GATEWAY_NODE_GENERIC_NAME in Names(m) ==> r == m
    ensures GATEWAY_NODE_GENERIC_NAME !in Names(m) ==>
      && GetNode(r, GATEWAY_NODE_GENERIC_NAME) == Some(Node(GATEWAY_NODE_GENERIC_NAME, MessageRouterNode))
      && r.edge == m.edge + {GATEWAY_NODE_GENERIC_NAME}
    ensures forall y :: y != GATEWAY_NODE_GENERIC_NAME ==> GetNode(r, y) == GetNode(m, y)
    ensures r.interactions == m.interactions && r.nextId == m.nextId && r.deployedOn == m.deployedOn
    ensures WellFormed(m) ==> WellFormed(r)
  {
    if GetNode(m, GATEWAY_NODE_GENERIC_NAME).Some? then m
    else
      var e := AddToEdge(m, GATEWAY_NODE_GENERIC_NAME);
      assert GetNode(e, GATEWAY_NODE_GENERIC_NAME) == GetNode(m, GATEWAY_NODE_GENERIC_NAME);
      var r := AddNode(e, Node(GATEWAY_NODE_GENERIC_NAME, MessageRouterNode));
      assert forall y :: y != GATEWAY_NODE_GENERIC_NAME ==> GetNode(r, y) == GetNode(m, y) by {
        forall y | y != GATEWAY_NODE_GENERIC_NAME ensures GetNode(r, y) == GetNode(m, y) {
          assert GetNode(e, y) == GetNode(m, y);
        }
      }
      AddNodeWellFormedInEdge(m, e, r);
      r
  }

  lemma AddNodeWellFormedInEdge(m: Model, e: Model, r: Model)
    requires e == AddToEdge(m, GATEWAY_NODE_GENERIC_NAME)
    requires r == AddNode(e, Node(GATEWAY_NODE_GENERIC_NAME, MessageRouterNode))
    ensures WellFormed(m) ==> WellFormed(r)
  {
  }

  /** The gateway node takes part in some interaction, in either direction. */
  predicate GatewayInvolved(m: Model) {
    exists id :: id in m.interactions && Touches(m.interactions[id], GATEWAY_NODE_GENERIC_NAME)
  }

  /** One visit of the innermost loop body: when the service node exists, take
      it out of the edge group and add an interaction from the gateway to it. */
  function ConnectOne(m: Model, t: string): (r: Model)
    ensures r.nodes == m.nodes && r.deployedOn == m.deployedOn
    ensures t in Names(m) ==> r.edge == m.edge - {t} && r == AddInteraction(RemoveFromEdge(m, t), GATEWAY_NODE_GENERIC_NAME, t, false, false, false)
    ensures t !in Names(m) ==> r == m
  {
    if GetNode(m, t).Some? then AddInteraction(RemoveFromEdge(m, t), GATEWAY_NODE_GENERIC_NAME, t, false, false, false) else m
  }

  /** The loop of `_search_for_gateways` over the visited service names. */
  function Connect(m: Model, ts: seq<string>): (r: Model)
    ensures r.nodes == m.nodes && r.deployedOn == m.deployedOn && r.nextId >= m.nextId
    decreases |ts|
  {
    if |ts| == 0 then m else Connect(ConnectOne(m, ts[0]), ts[1..])
  }

  predicate IdsBelowNext(m: Model) {
    forall id :: id in m.interactions ==> id < m.nextId
  }

  /** The interactions present before the loop are all still there, unchanged. */
  lemma {:induction false} ConnectKeeps(m: Model, ts: seq<string>)
    requires IdsBelowNext(m)
    ensures IdsBelowNext(Connect(m, ts))
    ensures forall id :: id in m.interactions ==>
      id in Connect(m, ts).interactions && Connect(m, ts).interactions[id] == m.interactions[id]
    decreases |ts|
  {
    if |ts| > 0 {
      ConnectKeeps(ConnectOne(m, ts[0]), ts[1..]);
    }
  }

  /** Every interaction the loop adds leads from the gateway, with no flag set,
      to an existing node among the visited names. */
  lemma {:induction false} ConnectAdds(m: Model, ts: seq<string>)
    requires IdsBelowNext(m)
    ensures forall id :: id in Connect(m, ts).interactions && id !in m.interactions ==>
      var y := Connect(m, ts).interactions[id];
      y == Interaction(GATEWAY_NODE_GENERIC_NAME, y.target, false, false, false) && y.target in ts && y.target in Names(m)
    decreases |ts|
  {
    if |ts| > 0 {
      var m1 := ConnectOne(m, ts[0]);
      ConnectAdds(m1, ts[1..]);
      ConnectKeeps(m1, ts[1..]);
    }
  }

  /** Every visited name of an existing node gets an interaction from the gateway. */
  lemma {:induction false} ConnectReaches(m: Model, ts: seq<string>, t: string)
    requires IdsBelowNext(m) && t in ts && t in Names(m)
    ensures exists id :: (id in Connect(m, ts).interactions
      && Connect(m, ts).interactions[id] == Interaction(GATEWAY_NODE_GENERIC_NAME, t, false, false, false))
    decreases |ts|
  {
    var m1 := ConnectOne(m, ts[0]);
    assert Connect(m, ts) == Connect(m1, ts[1..]);
    if ts[0] == t {
      ConnectKeeps(m1, ts[1..]);
      assert m.nextId in m1.interactions;
      assert Connect(m, ts).interactions[m.nextId] == Interaction(GATEWAY_NODE_GENERIC_NAME, t, false, false, false);
    } else {
      assert t in ts[1..];
      ConnectReaches(m1, ts[1..], t);
    }
  }

  /** The visited names of existing nodes leave the edge group; nothing else does. */
  lemma {:induction false} ConnectEdge(m: Model, ts: seq<string>, y: string)
    ensures y in Connect(m, ts).edge <==> y in m.edge && !(y in ts && y in Names(m))
    decreases |ts|
  {
    if |ts| > 0 {
      ConnectEdge(ConnectOne(m, ts[0]), ts[1..], y);
    }
  }

  /** The loop keeps the graph well formed once the gateway node exists. */
  lemma {:induction false} ConnectWellFormed(m: Model, ts: seq<string>)
    requires WellFormed(m) && GATEWAY_NODE_GENERIC_NAME in Names(m)
    ensures WellFormed(Connect(m, ts))
    decreases |ts|
  {
    if |ts| > 0 {
      var m1 := ConnectOne(m, ts[0]);
      assert WellFormed(m1);
      ConnectWellFormed(m1, ts[1..]);
    }
  }

  /** `_search_for_gateways`: find or create the gateway node, connect it to
      every exposed service node, and delete it again when it ends up in no
      interaction at all (even when it existed beforehand). */
  function SearchForGateways(m: Model, c: Cluster, rules: NameRules, x: ExposureRules): Model {
    var connected := Connect(FindOrCreateGateway(m), GatewayTargets(c, rules, x));
    if GatewayInvolved(connected) then connected else DeleteNode(connected, GATEWAY_NODE_GENERIC_NAME)
  }

  /** Some exposed service has a node in the graph. */
  predicate SomeExposedNode(m: Model, c: Cluster, rules: NameRules, x: ExposureRules) {
    exists t :: t in GatewayTargets(c, rules, x) && t in Names(m)
  }

  /** The interactions of the input survive the gateway search unchanged. */
  lemma GatewaysKeepInteractions(m: Model, c: Cluster, rules: NameRules, x: ExposureRules)
    requires WellFormed(m)
    ensures var r := SearchForGateways(m, c, rules, x);
      forall id :: id in m.interactions ==> id in r.interactions && r.interactions[id] == m.interactions[id]
  {
    var g := FindOrCreateGateway(m);
    var connected := Connect(g, GatewayTargets(c, rules, x));
    ConnectKeeps(g, GatewayTargets(c, rules, x));
    if !GatewayInvolved(connected) {
      forall id | id in m.interactions ensures !Touches(m.interactions[id], GATEWAY_NODE_GENERIC_NAME) {
        assert connected.interactions[id] == m.interactions[id];
      }
    }
  }

  /** The interactions the gateway search adds lead from the gateway, with no
      flag set, to the existing node of a visited (that is, exposed) service. */
  lemma GatewaysAddOnlyGatewayInteractions(m: Model, c: Cluster, rules: NameRules, x: ExposureRules)
    requires WellFormed(m)
    ensures var r := SearchForGateways(m, c, rules, x);
      forall id :: id in r.interactions && id !in m.interactions ==>
        var y := r.interactions[id];
        && y == Interaction(GATEWAY_NODE_GENERIC_NAME, y.target, false, false, false)
        && y.target in GatewayTargets(c, rules, x) && y.target in Names(m)
  {
    var g := FindOrCreateGateway(m);
    var ts := GatewayTargets(c, rules, x);
    ConnectAdds(g, ts);
    GatewayIsNotTarget(c, rules, x);
  }

  /** After connecting, the gateway is involved exactly when it was before or
      some exposed service has a node. */
  lemma GatewaysInvolvedIff(m: Model, c: Cluster, rules: NameRules, x: ExposureRules)
    requires WellFormed(m)
    ensures GatewayInvolved(Connect(FindOrCreateGateway(m), GatewayTargets(c, rules, x))) <==>
      GatewayInvolved(m) || SomeExposedNode(m, c, rules, x)
  {
    var g := FindOrCreateGateway(m);
    var ts := GatewayTargets(c, rules, x);
    var connected := Connect(g, ts);
    ConnectKeeps(g, ts);
    if GatewayInvolved(m) {
      var id :| id in m.interactions && Touches(m.interactions[id], GATEWAY_NODE_GENERIC_NAME);
      assert connected.interactions[id] == m.interactions[id];
    }
    if SomeExposedNode(m, c, rules, x) {
      var t :| t in ts && t in Names(m);
      ConnectReaches(g, ts, t);
    }
    if GatewayInvolved(connected) && !GatewayInvolved(m) {
      ConnectAdds(g, ts);
      GatewayIsNotTarget(c, rules, x);
      var id :| id in connected.interactions && Touches(connected.interactions[id], GATEWAY_NODE_GENERIC_NAME);
      assert id !in m.interactions;
      var t := connected.interactions[id].target;
      assert t in ts && t in Names(m);
    }
  }

  /** The node `_find_or_create_gateway` returns. */
  function GatewayNodeFound(m: Model): Option<Node> {
    if GATEWAY_NODE_GENERIC_NAME in Names(m) then GetNode(m, GATEWAY_NODE_GENERIC_NAME)
    else Some(Node(GATEWAY_NODE_GENERIC_NAME, MessageRouterNode))
  }

  lemma NodesDetermineGetNode(a: Model, b: Model, y: string)
    requires a.nodes == b.nodes
    ensures GetNode(a, y) == GetNode(b, y)
  {
  }

  lemma DeleteNodeKeepsOthers(m: Model, name: string, y: string)
    requires UniqueNames(m.nodes) && y != name
    ensures GetNode(DeleteNode(m, name), y) == GetNode(m, y)
  {
    var r := DeleteNode(m, name);
    if y in Names(m) {
      var j :| 0 <= j < |m.nodes| && m.nodes[j].name == y;
      GetNodeOfUnique(m, j);
      assert m.nodes[j] in r.nodes;
      var k :| 0 <= k < |r.nodes| && r.nodes[k] == m.nodes[j];
      assert UniqueNames(r.nodes);
      GetNodeOfUnique(r, k);
    }
  }

  /** The gateway node is in the result exactly when it is in some
      interaction of the input or some exposed service has a node. */
  lemma GatewaysKeepsGatewayIff(m: Model, c: Cluster, rules: NameRules, x: ExposureRules)
    requires WellFormed(m)
    ensures GATEWAY_NODE_GENERIC_NAME in Names(SearchForGateways(m, c, rules, x)) <==>
      GatewayInvolved(m) || SomeExposedNode(m, c, rules, x)
  {
    GatewaysInvolvedIff(m, c, rules, x);
  }

  /** Surviving, the gateway node is the node found or a new message router;
      no other node changes. */
  lemma GatewaysNodes(m: Model, c: Cluster, rules: NameRules, x: ExposureRules)
    requires WellFormed(m)
    ensures var r := SearchForGateways(m, c, rules, x);
      && (forall y :: y != GATEWAY_NODE_GENERIC_NAME ==> GetNode(r, y) == GetNode(m, y))
      && (GATEWAY_NODE_GENERIC_NAME in Names(r) ==> GetNode(r, GATEWAY_NODE_GENERIC_NAME) == GatewayNodeFound(m))
  {
    var g := FindOrCreateGateway(m);
    var ts := GatewayTargets(c, rules, x);
    var connected := Connect(g, ts);
    var r := SearchForGateways(m, c, rules, x);
    forall y ensures GetNode(connected, y) == GetNode(g, y) {
      NodesDetermineGetNode(g, connected, y);
    }
    if !GatewayInvolved(connected) {
      forall y | y != GATEWAY_NODE_GENERIC_NAME ensures GetNode(r, y) == GetNode(connected, y) {
        DeleteNodeKeepsOthers(connected, GATEWAY_NODE_GENERIC_NAME, y);
      }
    }
  }

  /** The exposed service nodes leave the edge group; a gateway node created
      here joins it, and leaves again with the node when it is deleted. */
  lemma GatewaysEdge(m: Model, c: Cluster, rules: NameRules, x: ExposureRules, y: string)
    requires WellFormed(m)
    ensures var r := SearchForGateways(m, c, rules, x);
      && (y != GATEWAY_NODE_GENERIC_NAME ==>
            (y in r.edge <==> y in m.edge && !(y in GatewayTargets(c, rules, x) && y in Names(m))))
      && (y == GATEWAY_NODE_GENERIC_NAME ==>
            (y in r.edge <==> y in Names(r) && (y in m.edge || y !in Names(m))))
  {
    var g := FindOrCreateGateway(m);
    var ts := GatewayTargets(c, rules, x);
    ConnectEdge(g, ts, y);
    GatewayIsNotTarget(c, rules, x);
  }

  /** The gateway search keeps the graph well formed. */
  lemma GatewaysWellFormed(m: Model, c: Cluster, rules: NameRules, x: ExposureRules)
    requires WellFormed(m)
    ensures WellFormed(SearchForGateways(m, c, rules, x))
  {
    var g := FindOrCreateGateway(m);
    var ts := GatewayTargets(c, rules, x);
    ConnectWellFormed(g, ts);
    var connected := Connect(g, ts);
    if !GatewayInvolved(connected) {
      DeleteNodeWellFormed(connected, GATEWAY_NODE_GENERIC_NAME);
    }
  }

  /** Every exposed service with a node ends up with an interaction from the
      gateway, and outside the edge group. */
  lemma GatewaysConnectExposed(m: Model, c: Cluster, rules: NameRules, x: ExposureRules, t: string)
    requires WellFormed(m) && ExposedTarget(c, rules, x, t) && t in Names(m)
    ensures var r := SearchForGateways(m, c, rules, x);
      && GATEWAY_NODE_GENERIC_NAME in Names(r)
      && t !in r.edge
      && exists id :: id in r.interactions && r.interactions[id] == Interaction(GATEWAY_NODE_GENERIC_NAME, t, false, false, false)
  {
    var g := FindOrCreateGateway(m);
    var ts := GatewayTargets(c, rules, x);
    GatewayTargetsComplete(c, rules, x, t);
    ConnectReaches(g, ts, t);
    GatewaysInvolvedIff(m, c, rules, x);
    ConnectEdge(g, ts, t);
  }

  // ---------------------------------------------------------------------
  // Circuit breakers
  // ---------------------------------------------------------------------

  predicate AllDestinationRules(drs: seq<KubeObject>) {
    forall k :: 0 <= k < |drs| ==> drs[k].body.DestinationRule?
  }

  /** Some rule of `drs` configures a circuit breaker for host `t`, and `t`
      names a node of the graph. */
  predicate BreaksInto(rules: NameRules, drs: seq<KubeObject>, m: Model, t: string)
    requires AllDestinationRules(drs)
  {
    t in Names(m) && exists k :: 0 <= k < |drs| && IsCircuitBreaker(drs[k]) && RuleHost(rules, drs[k]) == t
  }

  /** `_search_for_circuit_breaker`: for every circuit-breaking rule whose
      host names a node, switch on the circuit breaker of the interactions
      into that node. */
  function CircuitBreakers(m: Model, rules: NameRules, drs: seq<KubeObject>): (r: Model)
    requires AllDestinationRules(drs)
    ensures r.nodes == m.nodes && r.nextId == m.nextId && r.deployedOn == m.deployedOn && r.edge == m.edge
    ensures r.interactions.Keys == m.interactions.Keys
    decreases |drs|
  {
    if |drs| == 0 then m
    else
      var host := RuleHost(rules, drs[0]);
      var m1 := if IsCircuitBreaker(drs[0]) && GetNode(m, host).Some? then SetCircuitBreakerIncoming(m, host) else m;
      CircuitBreakers(m1, rules, drs[1..])
  }

  lemma BreaksIntoUnfold(rules: NameRules, drs: seq<KubeObject>, m: Model, m1: Model, t: string)
    requires AllDestinationRules(drs) && |drs| > 0 && Names(m1) == Names(m)
    ensures BreaksInto(rules, drs, m, t) <==>
      (t in Names(m) && IsCircuitBreaker(drs[0]) && RuleHost(rules, drs[0]) == t) || BreaksInto(rules, drs[1..], m1, t)
  {
    if BreaksInto(rules, drs, m, t) {
      var k :| 0 <= k < |drs| && IsCircuitBreaker(drs[k]) && RuleHost(rules, drs[k]) == t;
      if k > 0 {
        assert drs[1..][k - 1] == drs[k];
      }
    }
    if BreaksInto(rules, drs[1..], m1, t) {
      var k :| 0 <= k < |drs[1..]| && IsCircuitBreaker(drs[1..][k]) && RuleHost(rules, drs[1..][k]) == t;
      assert drs[k + 1] == drs[1..][k];
    }
  }

  /** An interaction ends with its circuit breaker on exactly when it had it
      on, or a circuit-breaking rule names its target; nothing else changes. */
  lemma {:induction false} CircuitBreakerOf(m: Model, rules: NameRules, drs: seq<KubeObject>, id: nat)
    requires AllDestinationRules(drs) && id in m.interactions
    ensures var y := m.interactions[id];
      CircuitBreakers(m, rules, drs).interactions[id] == y.(circuitBreaker := y.circuitBreaker || BreaksInto(rules, drs, m, y.target))
    decreases |drs|
  {
    if |drs| > 0 {
      var host := RuleHost(rules, drs[0]);
      var m1 := if IsCircuitBreaker(drs[0]) && GetNode(m, host).Some? then SetCircuitBreakerIncoming(m, host) else m;
      CircuitBreakerOf(m1, rules, drs[1..], id);
      BreaksIntoUnfold(rules, drs, m, m1, m.interactions[id].target);
    }
  }

  lemma CircuitBreakersFlags(m: Model, rules: NameRules, drs: seq<KubeObject>)
    requires AllDestinationRules(drs)
    ensures var r := CircuitBreakers(m, rules, drs);
      forall id :: id in m.interactions ==>
        r.interactions[id] == m.interactions[id].(circuitBreaker := (m.interactions[id].circuitBreaker
          || BreaksInto(rules, drs, m, m.interactions[id].target)))
  {
    forall id | id in m.interactions
      ensures CircuitBreakers(m, rules, drs).interactions[id] == m.interactions[id].(circuitBreaker :=
        m.interactions[id].circuitBreaker || BreaksInto(rules, drs, m, m.interactions[id].target))
    {
      CircuitBreakerOf(m, rules, drs, id);
    }
  }

  // ---------------------------------------------------------------------
  // Timeouts from virtual services
  // ---------------------------------------------------------------------

  /** The timed routes of every virtual service, in cluster order. */
  function VirtualServiceTimeouts(rules: NameRules, vss: seq<KubeObject>): (r: seq<TimeoutEntry>)
    requires forall k :: 0 <= k < |vss| ==> vss[k].body.VirtualService?
  {
    if |vss| == 0 then [] else Timeouts(rules, vss[0]) + VirtualServiceTimeouts(rules, vss[1..])
  }

  lemma {:induction false} VirtualServiceTimeoutsMember(rules: NameRules, vss: seq<KubeObject>, e: TimeoutEntry)
    requires forall k :: 0 <= k < |vss| ==> vss[k].body.VirtualService?
    ensures e in VirtualServiceTimeouts(rules, vss) <==> exists k :: 0 <= k < |vss| && e in Timeouts(rules, vss[k])
  {
    if |vss| > 0 {
      VirtualServiceTimeoutsMember(rules, vss[1..], e);
      if exists k :: 0 <= k < |vss| && e in Timeouts(rules, vss[k]) {
        var k :| 0 <= k < |vss| && e in Timeouts(rules, vss[k]);
        if k > 0 {
          assert vss[1..][k - 1] == vss[k];
        }
      }
      if e in VirtualServiceTimeouts(rules, vss[1..]) {
        var k :| 0 <= k < |vss[1..]| && e in Timeouts(rules, vss[1..][k]);
        assert vss[k + 1] == vss[1..][k];
      }
    }
  }

  /** The entry switches on the timeout of interaction `y`: a route to itself
      times every interaction into that node, a route to another destination
      the interactions between the two, provided the nodes exist. */
  predicate TimedBy(m: Model, e: TimeoutEntry, y: Interaction) {
    if e.host == e.destination then e.host in Names(m) && y.target == e.host
    else e.host in Names(m) && e.destination in Names(m) && y.source == e.host && y.target == e.destination
  }

  function TimeoutStep(m: Model, e: TimeoutEntry): (r: Model)
    ensures r.nodes == m.nodes && r.nextId == m.nextId && r.deployedOn == m.deployedOn && r.edge == m.edge
    ensures r.interactions.Keys == m.interactions.Keys
    ensures forall id :: id in m.interactions ==>
      r.interactions[id] == m.interactions[id].(timeout := m.interactions[id].timeout || TimedBy(m, e, m.interactions[id]))
  {
    if e.host == e.destination then
      if GetNode(m, e.host).Some? then SetTimeoutIncoming(m, e.host) else m
    else if GetNode(m, e.host).Some? && GetNode(m, e.destination).Some? then SetTimeoutBetween(m, e.host, e.destination)
    else m
  }

  /** `_search_for_timeouts_with_virtual_service`, one timed route at a time. */
  function VirtualServiceTimeoutsApplied(m: Model, es: seq<TimeoutEntry>): (r: Model)
    ensures r.nodes == m.nodes && r.nextId == m.nextId && r.deployedOn == m.deployedOn && r.edge == m.edge
    ensures r.interactions.Keys == m.interactions.Keys
    decreases |es|
  {
    if |es| == 0 then m else VirtualServiceTimeoutsApplied(TimeoutStep(m, es[0]), es[1..])
  }

  predicate TimedByAny(m: Model, es: seq<TimeoutEntry>, y: Interaction) {
    exists k :: 0 <= k < |es| && TimedBy(m, es[k], y)
  }

  lemma TimedByAnyUnfold(m: Model, m1: Model, es: seq<TimeoutEntry>, y: Interaction)
    requires |es| > 0 && Names(m1) == Names(m)
    ensures TimedByAny(m, es, y) <==> TimedBy(m, es[0], y) || TimedByAny(m1, es[1..], y)
  {
    assert forall e :: TimedBy(m, e, y) == TimedBy(m1, e, y);
    if TimedByAny(m, es, y) {
      var k :| 0 <= k < |es| && TimedBy(m, es[k], y);
      if k > 0 {
        assert es[1..][k - 1] == es[k];
      }
    }
    if TimedByAny(m1, es[1..], y) {
      var k :| 0 <= k < |es[1..]| && TimedBy(m1, es[1..][k], y);
      assert es[k + 1] == es[1..][k];
    }
  }

  /** An interaction ends with its timeout on exactly when it had it on, or
      some timed route switches it on; nothing else changes. */
  lemma {:induction false} VirtualServiceTimeoutOf(m: Model, es: seq<TimeoutEntry>, id: nat)
    requires id in m.interactions
    ensures var y := m.interactions[id];
      VirtualServiceTimeoutsApplied(m, es).interactions[id] == y.(timeout := y.timeout || TimedByAny(m, es, y))
    decreases |es|
  {
    if |es| > 0 {
      var m1 := TimeoutStep(m, es[0]);
      VirtualServiceTimeoutOf(m1, es[1..], id);
      var y := m.interactions[id];
      TimedByAnyUnfold(m, m1, es, y);
      TimedByAnyUnfold(m, m1, es, y.(timeout := true));
      assert forall e :: TimedBy(m1, e, m1.interactions[id]) == TimedBy(m1, e, y);
    }
  }

  // ---------------------------------------------------------------------
  // Timeouts from destination rules
  // ---------------------------------------------------------------------

  /** Some rule of `drs` sets a connection timeout for host `t`. */
  predicate TimesOut(rules: NameRules, drs: seq<KubeObject>, t: string)
    requires AllDestinationRules(drs)
  {
    exists k :: 0 <= k < |drs| && RuleTimeout(drs[k]).Some? && RuleHost(rules, drs[k]) == t
  }

  /** Some rule of `drs` sets a connection timeout for a host with no node. */
  predicate TimeoutHostMissing(rules: NameRules, drs: seq<KubeObject>, m: Model)
    requires AllDestinationRules(drs)
  {
    exists k :: 0 <= k < |drs| && RuleTimeout(drs[k]).Some? && RuleHost(rules, drs[k]) !in Names(m)
  }

  /** `_search_for_timeouts_with_destination_rule`: for every rule with a
      connection timeout, switch on the timeout of the interactions into the
      node of its host; reading the incoming interactions of a missing node
      fails. */
  function DestinationRuleTimeouts(m: Model, rules: NameRules, drs: seq<KubeObject>): (r: Result<Model, Error>)
    requires AllDestinationRules(drs)
    ensures r.Success? ==> (r.value.nodes == m.nodes && r.value.nextId == m.nextId
      && r.value.deployedOn == m.deployedOn && r.value.edge == m.edge
      && r.value.interactions.Keys == m.interactions.Keys)
    decreases |drs|
  {
    if |drs| == 0 then Success(m)
    else if RuleTimeout(drs[0]).Some? then
      var host := RuleHost(rules, drs[0]);
      if GetNode(m, host).None? then Failure(NoneDereference(host))
      else DestinationRuleTimeouts(SetTimeoutIncoming(m, host), rules, drs[1..])
    else DestinationRuleTimeouts(m, rules, drs[1..])
  }

  lemma TimeoutHostMissingUnfold(rules: NameRules, drs: seq<KubeObject>, m: Model, m1: Model)
    requires AllDestinationRules(drs) && |drs| > 0 && Names(m1) == Names(m)
    ensures TimeoutHostMissing(rules, drs, m) <==>
      (RuleTimeout(drs[0]).Some? && RuleHost(rules, drs[0]) !in Names(m)) || TimeoutHostMissing(rules, drs[1..], m1)
  {
    if TimeoutHostMissing(rules, drs, m) {
      var k :| 0 <= k < |drs| && RuleTimeout(drs[k]).Some? && RuleHost(rules, drs[k]) !in Names(m);
      if k > 0 {
        assert drs[1..][k - 1] == drs[k];
      }
    }
    if TimeoutHostMissing(rules, drs[1..], m1) {
      var k :| 0 <= k < |drs[1..]| && RuleTimeout(drs[1..][k]).Some? && RuleHost(rules, drs[1..][k]) !in Names(m1);
      assert drs[k + 1] == drs[1..][k];
    }
  }

  lemma TimesOutUnfold(rules: NameRules, drs: seq<KubeObject>, t: string)
    requires AllDestinationRules(drs) && |drs| > 0
    ensures TimesOut(rules, drs, t) <==>
      (RuleTimeout(drs[0]).Some? && RuleHost(rules, drs[0]) == t) || TimesOut(rules, drs[1..], t)
  {
    if TimesOut(rules, drs, t) {
      var k :| 0 <= k < |drs| && RuleTimeout(drs[k]).Some? && RuleHost(rules, drs[k]) == t;
      if k > 0 {
        assert drs[1..][k - 1] == drs[k];
      }
    }
    if TimesOut(rules, drs[1..], t) {
      var k :| 0 <= k < |drs[1..]| && RuleTimeout(drs[1..][k]).Some? && RuleHost(rules, drs[1..][k]) == t;
      assert drs[k + 1] == drs[1..][k];
    }
  }

  /** The stage fails exactly when a timed rule names a host with no node. */
  lemma {:induction false} DestinationRuleTimeoutsFail(m: Model, rules: NameRules, drs: seq<KubeObject>)
    requires AllDestinationRules(drs)
    ensures DestinationRuleTimeouts(m, rules, drs).Failure? <==> TimeoutHostMissing(rules, drs, m)
    decreases |drs|
  {
    if |drs| > 0 {
      var host := RuleHost(rules, drs[0]);
      var m1 := if RuleTimeout(drs[0]).Some? && host in Names(m) then SetTimeoutIncoming(m, host) else m;
      TimeoutHostMissingUnfold(rules, drs, m, m1);
      DestinationRuleTimeoutsFail(m1, rules, drs[1..]);
    }
  }

  /** On success, an interaction ends with its timeout on exactly when it had
      it on or a timed rule names its target. */
  lemma {:induction false} DestinationRuleTimeoutOf(m: Model, rules: NameRules, drs: seq<KubeObject>, id: nat)
    requires AllDestinationRules(drs) && id in m.interactions
    requires DestinationRuleTimeouts(m, rules, drs).Success?
    ensures var y := m.interactions[id];
      DestinationRuleTimeouts(m, rules, drs).value.interactions[id] == y.(timeout := y.timeout || TimesOut(rules, drs, y.target))
    decreases |drs|
  {
    if |drs| > 0 {
      var host := RuleHost(rules, drs[0]);
      var m1 := if RuleTimeout(drs[0]).Some? then SetTimeoutIncoming(m, host) else m;
      DestinationRuleTimeoutOf(m1, rules, drs[1..], id);
      TimesOutUnfold(rules, drs, m.interactions[id].target);
    }
  }

  // ---------------------------------------------------------------------
  // The worker
  // ---------------------------------------------------------------------

  /** `refine`: gateways, then circuit breakers, then the timeouts of the
      virtual services and of the destination rules. */
  function Refine(m: Model, c: Cluster, rules: NameRules, x: ExposureRules): Result<Model, Error> {
    var gated := SearchForGateways(m, c, rules, x);
    var broken := CircuitBreakers(gated, rules, DestinationRules(c));
    var timed := VirtualServiceTimeoutsApplied(broken, VirtualServiceTimeouts(rules, VirtualServices(c)));
    DestinationRuleTimeouts(timed, rules, DestinationRules(c))
  }

  /** The worker fails exactly when a rule with a connection timeout names a
      host with no node once the gateways are in place. */
  lemma RefineFails(m: Model, c: Cluster, rules: NameRules, x: ExposureRules)
    ensures Refine(m, c, rules, x).Failure? <==>
      TimeoutHostMissing(rules, DestinationRules(c), SearchForGateways(m, c, rules, x))
  {
    var gated := SearchForGateways(m, c, rules, x);
    var broken := CircuitBreakers(gated, rules, DestinationRules(c));
    var timed := VirtualServiceTimeoutsApplied(broken, VirtualServiceTimeouts(rules, VirtualServices(c)));
    DestinationRuleTimeoutsFail(timed, rules, DestinationRules(c));
    assert Names(timed) == Names(gated);
    assert forall k :: 0 <= k < |DestinationRules(c)| ==>
      (RuleHost(rules, DestinationRules(c)[k]) !in Names(timed) <==> RuleHost(rules, DestinationRules(c)[k]) !in Names(gated));
  }

  /** After the gateway stage the worker changes only interaction flags. */
  lemma RefineOnlySetsFlags(m: Model, c: Cluster, rules: NameRules, x: ExposureRules)
    requires Refine(m, c, rules, x).Success?
    ensures var g := SearchForGateways(m, c, rules, x);
      var r := Refine(m, c, rules, x).value;
      && r.nodes == g.nodes && r.nextId == g.nextId && r.deployedOn == g.deployedOn && r.edge == g.edge
      && r.interactions.Keys == g.interactions.Keys
  {
  }

  /** The worker keeps the graph well formed. */
  lemma RefineWellFormed(m: Model, c: Cluster, rules: NameRules, x: ExposureRules)
    requires WellFormed(m) && Refine(m, c, rules, x).Success?
    ensures WellFormed(Refine(m, c, rules, x).value)
  {
    var g := SearchForGateways(m, c, rules, x);
    GatewaysWellFormed(m, c, rules, x);
    var r := Refine(m, c, rules, x).value;
    RefineOnlySetsFlags(m, c, rules, x);
    assert Names(r) == Names(g);
    forall id | id in r.interactions
      ensures r.interactions[id].source in Names(r) && r.interactions[id].target in Names(r)
    {
      RefineFlagsOf(m, c, rules, x, id);
      assert g.interactions[id].source in Names(g) && g.interactions[id].target in Names(g);
    }
  }

  /** Each interaction after the gateway stage keeps its endpoints and
      dynamic-discovery flag; its circuit breaker is on when a circuit-breaking
      rule names its target, and its timeout when a timed route or a timed
      rule does; otherwise each flag is what the gateway stage left. */
  lemma RefineFlagsOf(m: Model, c: Cluster, rules: NameRules, x: ExposureRules, id: nat)
    requires Refine(m, c, rules, x).Success?
    requires id in SearchForGateways(m, c, rules, x).interactions
    ensures var g := SearchForGateways(m, c, rules, x);
      var y := g.interactions[id];
      var es := VirtualServiceTimeouts(rules, VirtualServices(c));
      Refine(m, c, rules, x).value.interactions[id] == y.(
        circuitBreaker := y.circuitBreaker || BreaksInto(rules, DestinationRules(c), g, y.target),
        timeout := y.timeout || TimedByAny(g, es, y) || TimesOut(rules, DestinationRules(c), y.target))
  {
    var g := SearchForGateways(m, c, rules, x);
    var drs := DestinationRules(c);
    var es := VirtualServiceTimeouts(rules, VirtualServices(c));
    var broken := CircuitBreakers(g, rules, drs);
    var timed := VirtualServiceTimeoutsApplied(broken, es);
    var y := g.interactions[id];
    CircuitBreakerOf(g, rules, drs, id);
    VirtualServiceTimeoutOf(broken, es, id);
    DestinationRuleTimeoutOf(timed, rules, drs, id);
    TimedByAnyNames(g, broken, es, y);
    TimedByAnyNames(broken, broken, es, y.(circuitBreaker := true));
    TimedByAnyNames(g, broken, es, y.(circuitBreaker := true));
  }

  /** Whether a route times an interaction depends on its endpoints and the
      node names only. */
  lemma TimedByAnyNames(a: Model, b: Model, es: seq<TimeoutEntry>, y: Interaction)
    requires Names(a) == Names(b)
    ensures forall z: Interaction :: z.source == y.source && z.target == y.target ==> (TimedByAny(a, es, y) <==> TimedByAny(b, es, z))
  {
    forall z: Interaction | z.source == y.source && z.target == y.target ensures TimedByAny(a, es, y) <==> TimedByAny(b, es, z) {
      assert forall e :: TimedBy(a, e, y) == TimedBy(b, e, z);
      if TimedByAny(a, es, y) {
        var k :| 0 <= k < |es| && TimedBy(a, es[k], y);
        assert TimedBy(b, es[k], z);
      }
      if TimedByAny(b, es, z) {
        var k :| 0 <= k < |es| && TimedBy(b, es[k], z);
        assert TimedBy(a, es[k], y);
      }
    }
  }

  /** No interaction is lost or has a flag switched off by the worker. */
  lemma RefineExtends(m: Model, c: Cluster, rules: NameRules, x: ExposureRules)
    requires WellFormed(m) && Refine(m, c, rules, x).Success?
    ensures Extends(m, Refine(m, c, rules, x).value)
  {
    var g := SearchForGateways(m, c, rules, x);
    GatewaysKeepInteractions(m, c, rules, x);
    forall id | id in m.interactions
      ensures id in Refine(m, c, rules, x).value.interactions
      ensures FlagsExtend(m.interactions[id], Refine(m, c, rules, x).value.interactions[id])
    {
      RefineFlagsOf(m, c, rules, x, id);
    }
  }
}
