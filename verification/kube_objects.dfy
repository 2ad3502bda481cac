/** The Kubernetes and Istio objects the refactoring engine reads and writes,
    reduced to the manifest fields the core touches. A manifest key that may be
    absent is an `Option`; a list that may be absent is an empty `seq`
    (the source reads every list with `.get(key, [])`). */
module KubeObjects {
  import opened Wrappers
  import opened Strings

  /** One entry of a container's `ports` list. `hostPort` is the manifest key the
      generators read; `snakeHostPort` is a separate key spelled `host_port`,
      which only the container worker reads. */
  datatype Port = Port(
    containerPort: int,
    hostPort: Option<int>,
    snakeHostPort: Option<int>,
    name: Option<string>,
    protocol: Option<string>,
    targetPort: Option<int>)

  /** A container. Its three names are computed by code outside this model and
      are carried as data. */
  datatype Container = Container(
    name: string,
    fullname: string,
    typedFullname: string,
    image: string,
    ports: seq<Port>)

  /** An entry of a Service's `spec.ports`, with the keys the generators write
      (`node_port` and `target_port` in snake case, as the source spells them). */
  datatype ServicePort = ServicePort(
    name: string,
    port: int,
    nodePort: Option<int>,
    protocol: Option<string>,
    targetPort: Option<int>)

  datatype RouteDestination = RouteDestination(destinationHost: Option<string>)
  datatype HttpRoute = HttpRoute(timeout: Option<string>, route: seq<RouteDestination>)
  datatype VirtualServiceSpec = VirtualServiceSpec(
    hosts: seq<string>,
    http: seq<HttpRoute>,
    gateways: seq<string>)

  datatype TcpSettings = TcpSettings(maxConnections: Option<int>, connectionTimeout: Option<string>)
  datatype HttpSettings = HttpSettings(
    http1MaxPendingRequests: Option<int>,
    maxRequestsPerConnection: Option<int>)
  datatype ConnectionPool = ConnectionPool(tcp: Option<TcpSettings>, http: Option<HttpSettings>)
  datatype OutlierDetection = OutlierDetection(
    consecutive5xxErrors: Option<int>,
    interval: Option<string>,
    baseEjectionTime: Option<string>,
    maxEjectionPercent: Option<int>)
  datatype TrafficPolicy = TrafficPolicy(
    connectionPool: Option<ConnectionPool>,
    outlierDetection: Option<OutlierDetection>)
  datatype DestinationRuleSpec = DestinationRuleSpec(host: string, trafficPolicy: Option<TrafficPolicy>)

  datatype Server = Server(hosts: seq<string>)
  datatype GatewaySpec = GatewaySpec(servers: seq<Server>, selector: map<string, string>)

  datatype ServiceSpec = ServiceSpec(
    serviceType: Option<string>,
    ports: seq<ServicePort>,
    selector: map<string, string>)

  /** The kind-specific part of an object. A workload's `labels` are the labels
      its pods carry (the pod's own labels, or a controller's pod-template labels). */
  datatype Body =
    | Workload(containers: seq<Container>, hostNetwork: bool, labels: map<string, string>)
    | Service(service: ServiceSpec)
    | Ingress
    | VirtualService(virtualService: VirtualServiceSpec)
    | DestinationRule(rule: DestinationRuleSpec)
    | IstioGateway(gateway: GatewaySpec)
    | OtherKind

  /** A cluster object: `metadata.name`, `metadata.namespace`, the kind's short
      name and the kind-specific body. */
  datatype KubeObject = KubeObject(name: string, namespace: string, shortname: string, body: Body)

  /** Short names of the kinds the generators create. */
  const SHORT_SERVICE := "svc"
  const SHORT_VIRTUAL_SERVICE := "vs"
  const SHORT_DESTINATION_RULE := "dr"

  /** `<name>.<namespace>`. */
  function FullName(o: KubeObject): string {
    o.name + "." + o.namespace
  }

  /** `<name>.<namespace>.<shortname>`. */
  function TypedFullName(o: KubeObject): string {
    FullName(o) + "." + o.shortname
  }

  /** The three dot-separated parts of a typed fullname are the name, the
      namespace and the short name, when none of them contains a dot. */
  lemma TypedFullNameParts(o: KubeObject)
    requires '.' !in o.name && '.' !in o.namespace && '.' !in o.shortname
    ensures Split(TypedFullName(o), '.') == [o.name, o.namespace, o.shortname]
  {
    var parts := [o.name, o.namespace, o.shortname];
    assert Join(parts, '.') == TypedFullName(o) by {
      assert Join(parts[1..], '.') == o.namespace + "." + o.shortname by {
        assert parts[1..][1..] == [o.shortname];
      }
    }
    SplitJoin(parts, '.');
  }

  /** Python truthiness of an optional number (`None` and `0` are false). */
  predicate TruthyInt(v: Option<int>) {
    v.Some? && v.value != 0
  }

  /** Python truthiness of an optional string (`None` and `""` are false). */
  predicate TruthyText(v: Option<string>) {
    v.Some? && v.value != ""
  }

  /** The ports of a Service object (`KubeService.ports`); empty for other kinds. */
  function ServicePorts(o: KubeObject): seq<ServicePort> {
    if o.body.Service? then o.body.service.ports else []
  }

  /** Behaviour of helpers the core calls but whose code is not part of this
      model, supplied by the caller: `name_is_FQDN` and `name_has_namespace`. */
  datatype NameRules = NameRules(isFqdn: string -> bool, hasNamespace: string -> bool)

  /** `KubeService.does_expose_workload`, `KubeService.can_expose_workload` and
      `KubeService.is_reachable_from_outside`, supplied by the caller. */
  datatype ExposureRules = ExposureRules(
    doesExpose: (KubeObject, KubeObject) -> bool,
    canExpose: (KubeObject, KubeObject, seq<Port>) -> bool,
    reachableFromOutside: KubeObject -> bool)

  /** `host if name_has_namespace(host) else f"{host}.{namespace}"`. */
  function Qualify(rules: NameRules, host: string, namespace: string): (r: string)
    ensures rules.hasNamespace(host) ==> r == host
    ensures !rules.hasNamespace(host) ==> r == host + "." + namespace
  {
    if rules.hasNamespace(host) then host else host + "." + namespace
  }

  /** Qualifying `host` once more changes nothing: the namespace rules
      recognise the qualified form as qualified. */
  predicate QualifyStable(rules: NameRules, host: string, namespace: string) {
    rules.hasNamespace(host) || rules.hasNamespace(host + "." + namespace)
  }
}
