/** The resource generators of `kobject_generators.py`: Service ports for a
    container, ClusterIP and NodePort Services, NodePort range conversion, the
    selector label, the timeout VirtualService and the circuit-breaker
    DestinationRule. The random label value is a parameter. */
module Generators {
  import opened Wrappers
  import opened Seqs
  import opened Strings
  import opened KubeObjects
  import opened KubeIstio

  const MF_NAME_SUFFIX := "mf"
  const MF_NODEPORT_SERVICE_SUFFIX := "nodeport-svc-" + MF_NAME_SUFFIX
  const MF_CLUSTERIP_SERVICE_SUFFIX := "clusterip-svc-" + MF_NAME_SUFFIX
  const MF_VIRTUALSERVICE_TIMEOUT_NAME := "vs-timeout"
  const MF_CIRCUITBREAKER_NAME := "circuitbreaker"

  /** The Kubernetes default NodePort range. */
  const NODE_PORT_LOWER_BOUND := 30000
  const NODE_PORT_UPPER_BOUND := 32767

  predicate InNodePortRange(p: int) {
    NODE_PORT_LOWER_BOUND <= p <= NODE_PORT_UPPER_BOUND
  }

  predicate HasHostPort(p: Port) {
    TruthyInt(p.hostPort)
  }

  /** `select_ports_for_node_port`: every port under host networking, otherwise
      the ports with a truthy `hostPort`, in order. */
  function SelectPortsForNodePort(c: Container, hostNetwork: bool): (r: seq<Port>)
    ensures hostNetwork ==> r == c.ports
    ensures !hostNetwork ==> IsSubsequence(r, c.ports)
    ensures !hostNetwork ==> forall i :: 0 <= i < |r| ==> TruthyInt(r[i].hostPort)
    ensures !hostNetwork ==> forall i :: 0 <= i < |c.ports| && TruthyInt(c.ports[i].hostPort) ==> c.ports[i] in r
  {
    if hostNetwork then c.ports
    else
      FilterIsSubsequence(c.ports, HasHostPort);
      Filter(c.ports, HasHostPort)
  }

  /** `f"{container.fullname}-port-{containerPort}-mf"`. */
  function DefaultPortName(c: Container, p: Port): string {
    c.fullname + "-port-" + IntToString(p.containerPort) + "-" + MF_NAME_SUFFIX
  }

  /** The Service port generated for one container port. */
  function GeneratePort(c: Container, p: Port, hostNetwork: bool, nodePort: bool): ServicePort {
    ServicePort(
      p.name.GetOr(DefaultPortName(c, p)),
      p.containerPort,
      if !nodePort then None
      else if hostNetwork then Some(p.containerPort)
      else if TruthyInt(p.hostPort) then p.hostPort
      else None,
      if TruthyText(p.protocol) then p.protocol else None,
      if TruthyInt(p.targetPort) then p.targetPort else None)
  }

  function GeneratePorts(c: Container, ports: seq<Port>, hostNetwork: bool, nodePort: bool)
    : (r: seq<ServicePort>)
    ensures |r| == |ports|
    ensures forall i :: 0 <= i < |ports| ==> r[i] == GeneratePort(c, ports[i], hostNetwork, nodePort)
  {
    if |ports| == 0 then [] else [GeneratePort(c, ports[0], hostNetwork, nodePort)] + GeneratePorts(c, ports[1..], hostNetwork, nodePort)
  }

  /** `generate_svc_ports_for_container`: one Service port per selected
      container port, in order. The port number is the container port; the
      name is the port's own or the `-mf` default; in node-port mode the node
      port is the container port under host networking and the host port
      otherwise; protocol and target port are copied only when set. */
  function GenerateSvcPortsForContainer(c: Container, hostNetwork: bool, nodePort: bool)
    : (r: seq<ServicePort>)
    ensures var src := if nodePort then SelectPortsForNodePort(c, hostNetwork) else c.ports;
      && |r| == |src|
      && forall i :: 0 <= i < |r| ==>
        && r[i].port == src[i].containerPort
        && r[i].name == (if src[i].name.Some? then src[i].name.value else DefaultPortName(c, src[i]))
        && (nodePort && hostNetwork ==> r[i].nodePort == Some(src[i].containerPort))
        && (nodePort && !hostNetwork ==> r[i].nodePort == src[i].hostPort && TruthyInt(r[i].nodePort))
        && (!nodePort ==> r[i].nodePort.None?)
        && (r[i].protocol.Some? <==> TruthyText(src[i].protocol))
        && (r[i].protocol.Some? ==> r[i].protocol == src[i].protocol)
        && (r[i].targetPort.Some? <==> TruthyInt(src[i].targetPort))
        && (r[i].targetPort.Some? ==> r[i].targetPort == src[i].targetPort)
  {
    var src := if nodePort then SelectPortsForNodePort(c, hostNetwork) else c.ports;
    GeneratePorts(c, src, hostNetwork, nodePort)
  }

  /** Some port of the Service already carries node port `v`. */
  predicate UsesNodePort(ports: seq<ServicePort>, v: int) {
    exists i :: 0 <= i < |ports| && ports[i].nodePort == Some(v)
  }

  /** The scan loop of `convert_port_to_nodeport`. Its guard stops as soon as
      the candidate exceeds the lower bound, so it advances at most once. */
  function ScanNodePort(ports: seq<ServicePort>, candidate: int): int
    decreases NODE_PORT_LOWER_BOUND + 1 - candidate
  {
    if UsesNodePort(ports, candidate) && candidate <= NODE_PORT_LOWER_BOUND then ScanNodePort(ports, candidate + 1)
    else candidate
  }

  /** `convert_port_to_nodeport(service, port)` over the Service's current ports. */
  function ConvertPortToNodePort(ports: seq<ServicePort>, port: int): (r: Option<int>)
    ensures InNodePortRange(port) ==> r.None?
    ensures !InNodePortRange(port) && !UsesNodePort(ports, NODE_PORT_LOWER_BOUND) ==> r == Some(NODE_PORT_LOWER_BOUND)
    ensures !InNodePortRange(port) && UsesNodePort(ports, NODE_PORT_LOWER_BOUND) ==> r == Some(NODE_PORT_LOWER_BOUND + 1)
    ensures r.Some? ==> InNodePortRange(r.value)
  {
    if InNodePortRange(port) then None
    else
      var candidate := ScanNodePort(ports, NODE_PORT_LOWER_BOUND);
      if candidate > NODE_PORT_UPPER_BOUND then None else Some(candidate)
  }

  /** The scan does not skip a port that is taken twice in a row: with
      30000 and 30001 both in use, the conversion hands out 30001 again. */
  lemma ConvertPortCanCollide(ports: seq<ServicePort>, port: int)
    requires !InNodePortRange(port)
    requires UsesNodePort(ports, NODE_PORT_LOWER_BOUND) && UsesNodePort(ports, NODE_PORT_LOWER_BOUND + 1)
    ensures ConvertPortToNodePort(ports, port) == Some(NODE_PORT_LOWER_BOUND + 1)
    ensures UsesNodePort(ports, ConvertPortToNodePort(ports, port).value)
  {
  }

  /** `generate_random_label(key)` with the random value supplied. */
  function GenerateRandomLabel(key: string, value: string): (r: map<string, string>)
    ensures r.Keys == {key + "-svc-" + MF_NAME_SUFFIX}
    ensures r[key + "-svc-" + MF_NAME_SUFFIX] == value
  {
    map[key + "-svc-" + MF_NAME_SUFFIX := value]
  }

  /** `set_labels` / `add_pod_labels`: the selector labels are added to the
      labels the workload's pods carry. */
  function LabelWorkload(w: KubeObject, labels: map<string, string>): (r: KubeObject)
    requires w.body.Workload?
    ensures r.body.Workload? && r.name == w.name && r.namespace == w.namespace && r.shortname == w.shortname
    ensures r.body.containers == w.body.containers && r.body.hostNetwork == w.body.hostNetwork
    ensures r.body.labels == w.body.labels + labels
  {
    w.(body := w.body.(labels := w.body.labels + labels))
  }

  /** Every selector entry of `s` is among the labels of workload `w`. */
  predicate SelectorMatches(s: KubeObject, w: KubeObject)
    requires s.body.Service? && w.body.Workload?
  {
    forall k :: k in s.body.service.selector ==> k in w.body.labels && w.body.labels[k] == s.body.service.selector[k]
  }

  /** `generate_svc_clusterIP_for_container`: the Service and the relabelled workload. */
  function GenerateSvcClusterIpForContainer(w: KubeObject, c: Container, labelValue: string)
    : (r: (KubeObject, KubeObject))
    requires w.body.Workload?
    ensures var (svc, w') := r;
      && svc.name == w.name + "-" + MF_CLUSTERIP_SERVICE_SUFFIX
      && svc.namespace == w.namespace
      && svc.body.Service? && svc.body.service.serviceType.None?
      && svc.body.service.ports == GenerateSvcPortsForContainer(c, false, false)
      && svc.body.service.selector.Keys == {FullName(w) + "-svc-" + MF_NAME_SUFFIX}
      && w'.body.Workload? && SelectorMatches(svc, w')
      && w'.body.containers == w.body.containers
      && (forall k :: k in w.body.labels && k !in svc.body.service.selector ==>
            k in w'.body.labels && w'.body.labels[k] == w.body.labels[k])
  {
    var selector := GenerateRandomLabel(FullName(w), labelValue);
    var svc := KubeObject(w.name + "-" + MF_CLUSTERIP_SERVICE_SUFFIX, w.namespace, SHORT_SERVICE,
      Service(ServiceSpec(None, GenerateSvcPortsForContainer(c, false, false), selector)));
    (svc, LabelWorkload(w, selector))
  }

  /** The loop of `generate_svc_NodePort_for_container` that converts each
      port's node port in turn, against the Service's ports as they stand at
      that point (earlier ports already converted, later ones not yet). */
  function ConvertPorts(ports: seq<ServicePort>, i: nat): (r: seq<ServicePort>)
    requires i <= |ports|
    requires forall k :: i <= k < |ports| ==> ports[k].nodePort.Some?
    ensures |r| == |ports|
    ensures forall k :: 0 <= k < |ports| ==> r[k] == ports[k].(nodePort := r[k].nodePort)
    ensures forall k :: 0 <= k < i ==> r[k] == ports[k]
    ensures forall k :: i <= k < |ports| ==>
      r[k].nodePort == ConvertPortToNodePort(r[..k] + ports[k..], ports[k].nodePort.value)
    ensures forall k :: i <= k < |ports| ==>
      (r[k].nodePort.None? <==> InNodePortRange(ports[k].nodePort.value))
    ensures forall k :: i <= k < |ports| && r[k].nodePort.Some? ==>
      r[k].nodePort.value in {NODE_PORT_LOWER_BOUND, NODE_PORT_LOWER_BOUND + 1}
    decreases |ports| - i
  {
    if i == |ports| then ports
    else
      var after := ConvertPortToNodePort(ports, ports[i].nodePort.value);
      var ports1 := ports[i := ports[i].(nodePort := after)];
      var r := ConvertPorts(ports1, i + 1);
      assert r[..i] + ports[i..] == ports by {
        assert r[..i] == ports[..i];
      }
      forall k | i < k < |ports|
        ensures r[k].nodePort == ConvertPortToNodePort(r[..k] + ports[k..], ports[k].nodePort.value)
      {
        assert ports1[k..] == ports[k..];
      }
      r
  }

  /** Two node ports outside the range are handed 30000 and 30001, in port order. */
  lemma ConvertTwoOutOfRangePorts(p: ServicePort, q: ServicePort)
    requires p.nodePort.Some? && q.nodePort.Some?
    requires !InNodePortRange(p.nodePort.value) && !InNodePortRange(q.nodePort.value)
    ensures ConvertPorts([p, q], 0) ==
      [p.(nodePort := Some(NODE_PORT_LOWER_BOUND)), q.(nodePort := Some(NODE_PORT_LOWER_BOUND + 1))]
  {
    var r := ConvertPorts([p, q], 0);
    assert !UsesNodePort([p, q], NODE_PORT_LOWER_BOUND);
    assert r[0].nodePort == Some(NODE_PORT_LOWER_BOUND);
    assert r[..1] + [p, q][1..] == [r[0], q];
    assert UsesNodePort([r[0], q], NODE_PORT_LOWER_BOUND) by {
      assert [r[0], q][0].nodePort == Some(NODE_PORT_LOWER_BOUND);
    }
  }

  /** No port after the `k`-th gets the same new node port. */
  predicate LastWithNodePort(after: seq<ServicePort>, k: nat)
    requires k < |after|
  {
    forall j :: k < j < |after| ==> after[j].nodePort != after[k].nodePort
  }

  /** No port gets new node port `key`. */
  predicate NotANewNodePort(after: seq<ServicePort>, key: Option<int>) {
    forall k :: 0 <= k < |after| ==> after[k].nodePort != key
  }

  /** `port_mapping[new_node_port] = old_node_port`, written port by port, so
      a later port overwrites an earlier one with the same new node port. */
  function PortMapping(after: seq<ServicePort>, before: seq<ServicePort>, m: map<Option<int>, Option<int>>)
    : (r: map<Option<int>, Option<int>>)
    requires |after| == |before|
    ensures forall k :: 0 <= k < |after| ==> after[k].nodePort in r
    ensures forall key :: key in r ==> key in m || MappedFrom(after, before, r, key)
    ensures forall key :: key in m ==> key in r && (r[key] == m[key] || MappedFrom(after, before, r, key))
    ensures forall k :: 0 <= k < |after| && LastWithNodePort(after, k) ==> r[after[k].nodePort] == before[k].nodePort
    ensures forall key :: key in m && NotANewNodePort(after, key) ==> r[key] == m[key]
  {
    if |after| == 0 then m
    else
      var m' := m[after[0].nodePort := before[0].nodePort];
      var r := PortMapping(after[1..], before[1..], m');
      forall k | 1 <= k < |after| ensures after[k].nodePort in r {
        assert after[1..][k - 1] == after[k];
      }
      forall key | key in r && (key !in m || r[key] != m[key])
        ensures MappedFrom(after, before, r, key)
      {
        if MappedFrom(after[1..], before[1..], r, key) {
          var k :| 0 <= k < |after| - 1 && after[1..][k].nodePort == key && r[key] == before[1..][k].nodePort;
          assert after[k + 1].nodePort == key && r[key] == before[k + 1].nodePort;
        } else {
          assert key == after[0].nodePort;
        }
      }
      forall k | 0 <= k < |after| && LastWithNodePort(after, k)
        ensures r[after[k].nodePort] == before[k].nodePort
      {
        if k == 0 {
          assert NotANewNodePort(after[1..], after[0].nodePort) by {
            forall j | 0 <= j < |after| - 1 ensures after[1..][j].nodePort != after[0].nodePort {
              assert after[1..][j] == after[j + 1];
            }
          }
        } else {
          assert after[1..][k - 1] == after[k] && before[1..][k - 1] == before[k];
          assert LastWithNodePort(after[1..], k - 1) by {
            forall j | k - 1 < j < |after| - 1 ensures after[1..][j].nodePort != after[1..][k - 1].nodePort {
              assert after[1..][j] == after[j + 1];
            }
          }
        }
      }
      forall key | key in m && NotANewNodePort(after, key) ensures r[key] == m[key] {
        assert after[0].nodePort != key;
        assert NotANewNodePort(after[1..], key) by {
          forall j | 0 <= j < |after| - 1 ensures after[1..][j].nodePort != key {
            assert after[1..][j] == after[j + 1];
          }
        }
      }
      r
  }

  /** Entry `key` of mapping `r` came from some port whose new node port is `key`. */
  predicate MappedFrom(after: seq<ServicePort>, before: seq<ServicePort>, r: map<Option<int>, Option<int>>, key: Option<int>)
    requires |after| == |before| && key in r
  {
    exists k :: 0 <= k < |after| && after[k].nodePort == key && r[key] == before[k].nodePort
  }

  /** `generate_svc_NodePort_for_container`: the Service, the port mapping and
      the relabelled workload. Each node port already inside the NodePort range
      is overwritten with `None`; each other one becomes 30000 or 30001. */
  function GenerateSvcNodePortForContainer(w: KubeObject, c: Container, hostNetwork: bool, labelValue: string)
    : (r: (KubeObject, map<Option<int>, Option<int>>, KubeObject))
    requires w.body.Workload?
    ensures var (svc, mapping, w') := r;
      var generated := GenerateSvcPortsForContainer(c, hostNetwork, true);
      && svc.name == w.name + "-" + MF_NODEPORT_SERVICE_SUFFIX
      && svc.namespace == w.namespace
      && svc.shortname == SHORT_SERVICE
      && svc.body.Service? && svc.body.service.serviceType == Some("NodePort")
      && svc.body.service.selector.Keys == {FullName(w) + "-svc-" + MF_NAME_SUFFIX}
      && w'.body.Workload? && SelectorMatches(svc, w')
      && w'.name == w.name && w'.namespace == w.namespace && w'.shortname == w.shortname
      && w'.body.containers == w.body.containers && w'.body.hostNetwork == w.body.hostNetwork
      && w'.body.labels == w.body.labels + svc.body.service.selector
      && |svc.body.service.ports| == |generated|
      && (forall k :: 0 <= k < |generated| ==>
            && generated[k].nodePort.Some?
            && svc.body.service.ports[k] == generated[k].(nodePort := svc.body.service.ports[k].nodePort)
            && svc.body.service.ports[k].nodePort ==
                 ConvertPortToNodePort(svc.body.service.ports[..k] + generated[k..], generated[k].nodePort.value)
            && (svc.body.service.ports[k].nodePort.None? <==> InNodePortRange(generated[k].nodePort.value))
            && (svc.body.service.ports[k].nodePort.Some? ==>
                  svc.body.service.ports[k].nodePort.value in {NODE_PORT_LOWER_BOUND, NODE_PORT_LOWER_BOUND + 1})
            && svc.body.service.ports[k].nodePort in mapping)
      && (forall key :: key in mapping ==> MappedFrom(svc.body.service.ports, generated, mapping, key))
      && (forall k :: 0 <= k < |generated| && LastWithNodePort(svc.body.service.ports, k) ==>
            mapping[svc.body.service.ports[k].nodePort] == generated[k].nodePort)
  {
    var generated := GenerateSvcPortsForContainer(c, hostNetwork, true);
    var selector := GenerateRandomLabel(FullName(w), labelValue);
    var converted := ConvertPorts(generated, 0);
    var svc := KubeObject(w.name + "-" + MF_NODEPORT_SERVICE_SUFFIX, w.namespace, SHORT_SERVICE,
      Service(ServiceSpec(Some("NodePort"), converted, selector)));
    (svc, PortMapping(converted, generated, map[]), LabelWorkload(w, selector))
  }

  /** A host port already inside the NodePort range is lost: the generated
      Service port has no node port at all. */
  lemma NodePortInRangeIsDropped(w: KubeObject, c: Container, labelValue: string, k: nat)
    requires w.body.Workload?
    requires k < |SelectPortsForNodePort(c, false)|
    requires InNodePortRange(SelectPortsForNodePort(c, false)[k].hostPort.value)
    ensures GenerateSvcNodePortForContainer(w, c, false, labelValue).0.body.service.ports[k].nodePort.None?
  {
  }

  /** `generate_timeout_virtualsvc_for_svc(service, timeout)`. */
  function GenerateTimeoutVirtualSvc(svc: KubeObject, timeout: nat): (r: KubeObject)
    ensures r.name == svc.name + "-" + MF_VIRTUALSERVICE_TIMEOUT_NAME + "-" + MF_NAME_SUFFIX
    ensures r.namespace == svc.namespace && r.shortname == SHORT_VIRTUAL_SERVICE
    ensures r.body.VirtualService? && Hosts(r) == [FullName(svc)]
  {
    KubeObject(
      svc.name + "-" + MF_VIRTUALSERVICE_TIMEOUT_NAME + "-" + MF_NAME_SUFFIX,
      svc.namespace,
      SHORT_VIRTUAL_SERVICE,
      VirtualService(VirtualServiceSpec(
        [FullName(svc)],
        [HttpRoute(Some(NatToString(timeout) + "s"), [RouteDestination(Some(FullName(svc)))])],
        [])))
  }

  /** Read back through the VirtualService accessors, the generated object
      routes the Service's fullname to itself with timeout `"<timeout>s"`, and
      the number of seconds can be recovered from that string. */
  lemma TimeoutVirtualSvcRoundTrip(rules: NameRules, svc: KubeObject, timeout: nat)
    requires rules.hasNamespace(FullName(svc))
    ensures var vs := GenerateTimeoutVirtualSvc(svc, timeout);
      && Destinations(rules, vs) == [FullName(svc)]
      && Timeouts(rules, vs) == [TimeoutEntry(FullName(svc), FullName(svc), NatToString(timeout) + "s")]
    ensures var t := NatToString(timeout) + "s";
      t[|t| - 1] == 's' && ParseDigits(t[..|t| - 1]) == timeout
  {
    var vs := GenerateTimeoutVirtualSvc(svc, timeout);
    var t := NatToString(timeout) + "s";
    assert DestinationHosts(vs.body.virtualService.http[0].route) == [FullName(svc)];
    assert RouteHosts(vs.body.virtualService.http) == [FullName(svc)];
    TimeoutsMatchReference(rules, vs);
    assert t[..|t| - 1] == NatToString(timeout);
    ParseNatToString(timeout);
  }

  /** The optional settings of `CIRCUIT_BREAKER_CONFIG`. */
  datatype CircuitBreakerConfig = CircuitBreakerConfig(
    maxConnections: Option<int>,
    http1MaxPendingRequests: Option<int>,
    maxRequestsPerConnection: Option<int>,
    consecutive5xxErrors: Option<int>,
    interval: Option<string>,
    baseEjectionTime: Option<string>,
    maxEjectionPercent: Option<int>)

  /** A configured number is written only when it is truthy. */
  function WrittenInt(v: Option<int>): Option<int> {
    if TruthyInt(v) then v else None
  }

  function WrittenText(v: Option<string>): Option<string> {
    if TruthyText(v) then v else None
  }

  /** `generate_circuit_breaker_for_svc(service)`. The template sets no namespace;
      it is left empty here. */
  function GenerateCircuitBreakerForSvc(svc: KubeObject, cfg: CircuitBreakerConfig): (r: KubeObject)
    ensures r.name == FullName(svc) + "-" + MF_CIRCUITBREAKER_NAME + "-" + MF_NAME_SUFFIX
    ensures r.shortname == SHORT_DESTINATION_RULE
    ensures r.body.DestinationRule? && r.body.rule.host == FullName(svc)
    ensures IsCircuitBreaker(r) && RuleTimeout(r).None?
    ensures r.body.rule.trafficPolicy.Some? && r.body.rule.trafficPolicy.value.outlierDetection.Some?
    ensures var p := r.body.rule.trafficPolicy.value;
      var pool := p.connectionPool.value;
      var od := p.outlierDetection.value;
      && pool.tcp.Some? && pool.http.Some?
      && (pool.tcp.value.maxConnections.Some? <==> TruthyInt(cfg.maxConnections))
      && (pool.http.value.http1MaxPendingRequests.Some? <==> TruthyInt(cfg.http1MaxPendingRequests))
      && (pool.http.value.maxRequestsPerConnection.Some? <==> TruthyInt(cfg.maxRequestsPerConnection))
      && (od.consecutive5xxErrors.Some? <==> TruthyInt(cfg.consecutive5xxErrors))
      && (od.interval.Some? <==> TruthyText(cfg.interval))
      && (od.baseEjectionTime.Some? <==> TruthyText(cfg.baseEjectionTime))
      && (od.maxEjectionPercent.Some? <==> TruthyInt(cfg.maxEjectionPercent))
      && (pool.tcp.value.maxConnections.Some? ==> pool.tcp.value.maxConnections == cfg.maxConnections)
      && (pool.http.value.http1MaxPendingRequests.Some? ==> pool.http.value.http1MaxPendingRequests == cfg.http1MaxPendingRequests)
      && (pool.http.value.maxRequestsPerConnection.Some? ==> pool.http.value.maxRequestsPerConnection == cfg.maxRequestsPerConnection)
      && (od.consecutive5xxErrors.Some? ==> od.consecutive5xxErrors == cfg.consecutive5xxErrors)
      && (od.interval.Some? ==> od.interval == cfg.interval)
      && (od.baseEjectionTime.Some? ==> od.baseEjectionTime == cfg.baseEjectionTime)
      && (od.maxEjectionPercent.Some? ==> od.maxEjectionPercent == cfg.maxEjectionPercent)
  {
    KubeObject(
      FullName(svc) + "-" + MF_CIRCUITBREAKER_NAME + "-" + MF_NAME_SUFFIX,
      "",
      SHORT_DESTINATION_RULE,
      DestinationRule(DestinationRuleSpec(
        FullName(svc),
        Some(TrafficPolicy(
          Some(ConnectionPool(
            Some(TcpSettings(WrittenInt(cfg.maxConnections), None)),
            Some(HttpSettings(WrittenInt(cfg.http1MaxPendingRequests), WrittenInt(cfg.maxRequestsPerConnection))))),
          Some(OutlierDetection(
            WrittenInt(cfg.consecutive5xxErrors),
            WrittenText(cfg.interval),
            WrittenText(cfg.baseEjectionTime),
            WrittenInt(cfg.maxEjectionPercent))))))))
  }
}
