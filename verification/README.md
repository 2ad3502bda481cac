# microkure core, modelled in Dafny

microkure reads the Kubernetes objects of a deployment into a *cluster*. It
refines a MicroTOSCA architecture graph from them with a chain of extension
*workers*. It then resolves architectural smells with *refactorings* that
change the graph and add generated Kubernetes objects to the cluster. This
project models the deterministic core of that pipeline as pure functions over
immutable values.

The model covers these layers:

- **Cluster store** (`KubeCluster`): the object list, the export records, the
  kind views, adding and removing objects, and the name lookup
  `get_object_by_name`. The lookup handles FQDNs, containers, the
  single-container shorthand and the error on an ambiguous name.
- **Istio accessors** (`KubeIstio`): virtual-service timeouts, destinations,
  gateways and hosts; destination-rule circuit breaker, host and timeout; and
  gateway hosts and selectors.
- **Resource generators** (`Generators`): Service ports for a container,
  ClusterIP and NodePort Services, node-port conversion and its scan guard,
  the port mapping, random labels, the timeout VirtualService and the
  circuit-breaker DestinationRule.
- **Workers**: the shared worker base (`KubeWorker`), the Compute-node worker,
  the database worker (which promotes Services to Datastores), the Istio
  worker (gateways, circuit breakers and timeouts) and the container worker
  (the edge group).
- **Refactorings**: Add API Gateway, Use Timeout and Add Circuit Breaker
  (`AddApiGateway`, `UseTimeout`, `AddCircuitBreaker`, with shared parts in
  `Refactoring`).

The MicroTOSCA graph (`ArchModel`) holds:

- a sequence of uniquely named nodes;
- the interactions, as a map from ids to source, target and flags;
- the deployed-on relationships;
- the edge group.

The microfreshener library that provides this graph is not part of this
model. `ArchModel` states the behaviour the workers and refactorings rely on.
Every operation that can raise returns a `Result` whose failure says which
error was raised.

## Model

| member | source | states |
|---|---|---|
| KubeCluster.Workloads | microkure/kmodel/kube_cluster.py:19-21 | exactly the workload objects of the cluster, and nothing else |
| KubeCluster.Networkings | microkure/kmodel/kube_cluster.py:23-25 | exactly the Service and Ingress objects |
| KubeCluster.Services | microkure/kmodel/kube_cluster.py:27-29 | exactly the Service objects |
| KubeCluster.IngressObjects | microkure/kmodel/kube_cluster.py:35-37 | exactly the Ingress objects |
| KubeCluster.VirtualServices | microkure/kmodel/kube_cluster.py:39-41 | exactly the VirtualService objects |
| KubeCluster.DestinationRules | microkure/kmodel/kube_cluster.py:43-45 | exactly the DestinationRule objects |
| KubeCluster.IstioGateways | microkure/kmodel/kube_cluster.py:47-49 | exactly the Istio Gateway objects |
| KubeCluster.KindViewsPreserveOrder | microkure/kmodel/kube_cluster.py:19-49 | every kind view of a concatenated object list is the concatenation of the two views, so the views keep the cluster's order |
| KubeCluster.Containers | microkure/kmodel/kube_cluster.py:31-33 | one valid reference per container, owned by a workload of the cluster, in workload-then-container order |
| KubeCluster.AddObject | microkure/kmodel/kube_cluster.py:51-53 | the object is present afterwards; adding a present object changes nothing; otherwise it is appended and duplicates are never introduced |
| KubeCluster.AddObjectIdempotent | microkure/kmodel/kube_cluster.py:51-53 | adding the same object twice is the same as adding it once |
| KubeCluster.RemoveObject | microkure/kmodel/kube_cluster.py:55-61 | one occurrence of the object is dropped; other objects and other objects' export records keep their order; when no two of the object's records are adjacent, all of them are dropped |
| KubeCluster.RemoveObjectSkipsAdjacentRecord | microkure/kmodel/kube_cluster.py:58-61 | when two export records of the removed object are adjacent, the loop skips the second one and it survives removal |
| KubeCluster.AddExportObject | microkure/kmodel/kube_cluster.py:63-64 | the objects are unchanged and the record is appended to the export list |
| KubeCluster.GetExpObject | microkure/kmodel/kube_cluster.py:108-111 | None exactly when no export record is for the object; otherwise the first such record |
| KubeCluster.FindWorkloadExposedBySvc | microkure/kmodel/kube_cluster.py:66-67 | exactly the workloads of the cluster that the Service exposes |
| KubeCluster.FindSvcExposingWorkload | microkure/kmodel/kube_cluster.py:69-70 | exactly the Services of the cluster that expose the workload |
| KubeCluster.StripFqdnDropsLastTwo | microkure/kmodel/kube_cluster.py:73-74 | stripping an FQDN removes exactly its two trailing dot-free labels |
| KubeCluster.StripFqdnOfServiceDomain | microkure/kmodel/kube_cluster.py:73-74 | a `<typed fullname>.cluster.local` name strips back to the typed fullname |
| KubeCluster.CollectMatches | microkure/kmodel/kube_cluster.py:77-92 | the result is what was found so far plus every matching element of the search space, with no duplicates introduced |
| KubeCluster.Candidates | microkure/kmodel/kube_cluster.py:77-94 | a duplicate-free list of exactly the objects and containers that answer to the queried name and have the requested type |
| KubeCluster.SingleContainerFallback | microkure/kmodel/kube_cluster.py:97-101 | None exactly when no workload answers to the name with exactly one container; otherwise that workload's sole container |
| KubeCluster.GetObjectByName | microkure/kmodel/kube_cluster.py:72-106 | fails exactly when two or more candidates exist; with one candidate, returns it; with none, uses the single-container fallback for containers and returns None otherwise |
| KubeCluster.FoundObjectInCluster | microkure/kmodel/kube_cluster.py:72-106 | for any type but containers, a found object is one of the cluster's objects, answers to the queried name and has the requested type |
| KubeCluster.LookupFindsUniqueMatch | microkure/kmodel/kube_cluster.py:72-106 | whatever name form the query uses, a unique candidate of the requested type is what the lookup returns |
| KubeCluster.LookupRejectsAmbiguousName | microkure/kmodel/kube_cluster.py:103-104 | two distinct objects of the requested type answering to the same name make the lookup raise |
| KubeIstio.Timeouts | microkure/kmodel/kube_istio.py:19-33 | one entry per host of the virtual service and per timed route that names a destination host |
| KubeIstio.TimeoutsMatchReference | microkure/kmodel/kube_istio.py:19-33 | when qualifying a host twice is harmless, overwriting the loop variable has no effect: the output equals a reference that qualifies each host once, per host and route in order |
| KubeIstio.Destinations | microkure/kmodel/kube_istio.py:35-43 | one entry per route destination host, each namespace-qualified, in order |
| KubeIstio.TimeoutDestinationsAreDestinations | microkure/kmodel/kube_istio.py:19-43 | every destination reported by the timeouts is also among the destinations |
| KubeIstio.Gateways | microkure/kmodel/kube_istio.py:45-50 | the spec gateways, each namespace-qualified, one per entry |
| KubeIstio.IsCircuitBreaker | microkure/kmodel/kube_istio.py:67-70 | true exactly when the rule's traffic policy has a connection pool |
| KubeIstio.RuleHost | microkure/kmodel/kube_istio.py:72-75 | the rule's host, namespace-qualified unless the naming rules say it already names a namespace |
| KubeIstio.RuleTimeout | microkure/kmodel/kube_istio.py:77-80 | the TCP connection timeout when the whole path is present, None otherwise |
| KubeIstio.HostsExposed | microkure/kmodel/kube_istio.py:88-94 | as many hosts as the servers list between them (their contents are stated by `HostsExposedMember`) |
| KubeIstio.HostsExposedMember | microkure/kmodel/kube_istio.py:88-94 | a host is exposed exactly when some server lists it |
| KubeObjects.TypedFullNameParts | microkure/kmodel/kube_cluster.py:73-74 | a typed fullname splits on dots into exactly its name, namespace and short name when none of them has a dot |
| Generators.SelectPortsForNodePort | microkure/template/kobject_generators.py:52-53 | all ports under host networking; otherwise exactly the ports with a truthy host port, in order |
| Generators.GenerateSvcPortsForContainer | microkure/template/kobject_generators.py:19-49 | one Service port per selected container port, in order; the port number and name come from the container port, and the node port is the host port only in node-port mode |
| Generators.ConvertPortToNodePort | microkure/template/kobject_generators.py:79-95 | a node port already in range gives None; any other gives 30000, or 30001 when 30000 is taken, and a result is always inside the NodePort range |
| Generators.ConvertPortCanCollide | microkure/template/kobject_generators.py:89 | the scan guard advances at most once: with 30000 and 30001 both in use, the conversion hands out the used 30001 again |
| Generators.GenerateRandomLabel | microkure/template/kobject_generators.py:130-132 | a one-entry label map whose key is derived from the given key and whose value is the supplied random value |
| Generators.LabelWorkload | microkure/template/kobject_generators.py:73-76 | the workload keeps its name, namespace, containers and host-network setting, and its labels gain the selector labels |
| Generators.GenerateSvcClusterIpForContainer | microkure/template/kobject_generators.py:56-77 | a Service named after the workload in its namespace, with one port per container port and a one-key random selector that the relabelled workload satisfies; the workload keeps its containers and every label the selector does not overwrite |
| Generators.ConvertPorts | microkure/template/kobject_generators.py:115-119 | ports keep everything but the node port; each node port equals the conversion of its old value against the Service's ports at that step, the earlier ones converted and the later ones not yet |
| Generators.ConvertTwoOutOfRangePorts | microkure/template/kobject_generators.py:115-119 | two node ports outside the range are handed 30000 and 30001, in port order |
| Generators.PortMapping | microkure/template/kobject_generators.py:115-119 | every new node port is a key; every key came from some port or was there before; a key maps to the old node port of the last port converted to it; a key no port converts to keeps its value |
| Generators.GenerateSvcNodePortForContainer | microkure/template/kobject_generators.py:99-127 | a NodePort Service whose ports are the selected container ports, each node port converted against the ports before it; the mapping sends each new node port to the old node port of the last port converted to it; the relabelled workload keeps its identity, containers and host network, and its labels are merged with the selector |
| Generators.NodePortInRangeIsDropped | microkure/template/kobject_generators.py:89-95 | a host port already inside the NodePort range leaves its generated Service port with no node port |
| Generators.GenerateTimeoutVirtualSvc | microkure/template/kobject_generators.py:135-143 | a VirtualService named after the Service, in its namespace, whose only host is the Service's fullname |
| Generators.TimeoutVirtualSvcRoundTrip | microkure/template/kobject_generators.py:135-143 | read back through the VirtualService accessors, the object routes the Service's fullname to itself with timeout `"<n>s"`, and `n` parses back from that string |
| Generators.GenerateCircuitBreakerForSvc | microkure/template/kobject_generators.py:146-170 | a DestinationRule for the Service's fullname that reads back as a circuit breaker with no connection timeout; each pool and outlier setting is written exactly when the configured value is truthy, and then equals it |
| KubeWorker.NewWorker | microkure/extender/kubeworker.py:13-15 | a worker with the given name that runs after no other worker |
| KubeWorker.NodesNotIgnored | microkure/extender/kubeworker.py:21-25 | an order-preserving subsequence holding exactly the nodes the policy does not ignore for this worker; a missing policy keeps every node |
| KubeWorker.NewDatabaseWorker | microkure/extender/impl/database_worker.py:15-17 | the database worker runs only after the name worker |
| KubeWorker.NewIstioWorker | project/extender/workerimpl/istio_worker.py:27-31 | the Istio worker runs only after the service worker |
| ComputeNodeWorker.GetOrCreateCompute | microkure/extender/impl/compute_node_worker.py:31-38 | afterwards a Compute node of that name exists; an existing one is reused with the graph unchanged; no other node, interaction, relationship or edge member changes |
| ComputeNodeWorker.DeployContainers | microkure/extender/impl/compute_node_worker.py:25-29 | only deployed-on relationships are added, each from a container whose node is in the snapshot to the Compute node |
| ComputeNodeWorker.ComputeStep | microkure/extender/impl/compute_node_worker.py:20-29 | the workload gets its Compute node; relationships are added only when that node was not in the snapshot, one per container with a snapshot node |
| ComputeNodeWorker.AddComputeNodesCreates | microkure/extender/impl/compute_node_worker.py:20-21 | every visited workload ends with its Compute node |
| ComputeNodeWorker.AddComputeNodesKeepsComputes | microkure/extender/impl/compute_node_worker.py:31-38 | no Compute node disappears |
| ComputeNodeWorker.AddComputeNodesKeepsNames | microkure/extender/impl/compute_node_worker.py:17-29 | no node name disappears |
| ComputeNodeWorker.AddComputeNodesFrame | microkure/extender/impl/compute_node_worker.py:17-29 | nodes not named after a visited workload are left alone |
| ComputeNodeWorker.AddComputeNodesKeepsNodes | microkure/extender/impl/compute_node_worker.py:31-38 | when every workload already has its Compute node, no node is created |
| ComputeNodeWorker.AddComputeNodesOrigin | microkure/extender/impl/compute_node_worker.py:23-29 | each added relationship runs from a snapshot node to the Compute node of a visited workload that was not in the snapshot |
| ComputeNodeWorker.AddComputeNodesDeploys | microkure/extender/impl/compute_node_worker.py:23-29 | a container whose node exists and is in the snapshot is deployed on its workload's Compute node, provided that Compute node was not in the snapshot and no workload visited from the current one on has a typed fullname equal to the container's |
| ComputeNodeWorker.Refine | microkure/extender/impl/compute_node_worker.py:13-15 | every workload has a Compute node afterwards; interactions and the edge group are unchanged; no relationship or name is lost |
| ComputeNodeWorker.RefineAddsOnlyFromSnapshot | microkure/extender/impl/compute_node_worker.py:18-29 | every added relationship runs from a non-ignored node to the Compute node of a workload that is not itself a non-ignored node |
| ComputeNodeWorker.RefineDeploysContainers | microkure/extender/impl/compute_node_worker.py:25-29 | a container whose node exists and is not ignored is deployed on its workload's Compute node, provided that Compute node was not among the non-ignored nodes before the run (the source's inverted check at line 23) and no workload's typed fullname equals the container's |
| ComputeNodeWorker.RefineTwiceAddsNoNodes | microkure/extender/impl/compute_node_worker.py:31-38 | running the worker a second time creates no node |
| ComputeNodeWorker.RefineWellFormed | microkure/extender/impl/compute_node_worker.py:13-38 | the worker keeps the graph well formed |
| DatabaseWorker.HasDatabasePort | microkure/extender/impl/database_worker.py:54 | true exactly when some container port is one of the listed database ports |
| DatabaseWorker.HasKeyword | microkure/extender/impl/database_worker.py:55-56 | true exactly when some keyword, upper-cased, occurs in the upper-cased text |
| DatabaseWorker.IsDatabase | microkure/extender/impl/database_worker.py:53-58 | true exactly when there is a database port, or a keyword in the name or in the image |
| DatabaseWorker.MariadbIsNotDetected | microkure/extender/impl/database_worker.py:12-13 | because `"mariadb"` and `"snowflake"` are fused into one keyword, a container named and imaged with the letters of `mariadb` and no database port is not taken for a database |
| DatabaseWorker.MoveIncomingIds | microkure/extender/impl/database_worker.py:42-51 | moving hands out only fresh ids, and keeps exactly the unlisted old interactions with their values |
| DatabaseWorker.MoveIncomingMoved | microkure/extender/impl/database_worker.py:43-50 | every listed interaction reappears redirected to the new target, with the same source and flags |
| DatabaseWorker.MoveIncomingOrigin | microkure/extender/impl/database_worker.py:42-51 | every interaction after moving is an old one or a listed one redirected |
| DatabaseWorker.CopyDeployedOn | microkure/extender/impl/database_worker.py:36-37 | the new node is deployed on exactly the old node's targets, in addition to what was there |
| DatabaseWorker.PromoteWellFormed | microkure/extender/impl/database_worker.py:30-40 | promotion keeps the graph well formed and its set of node names unchanged |
| DatabaseWorker.PromoteKeepsInteractions | microkure/extender/impl/database_worker.py:33-40 | interactions not into the promoted node keep their id and value |
| DatabaseWorker.PromoteRestoresIncoming | microkure/extender/impl/database_worker.py:33-40 | every interaction into the promoted node reappears, under some id, with the same source, target and flags |
| DatabaseWorker.PromoteAddsNoInteraction | microkure/extender/impl/database_worker.py:33-40 | every interaction after promotion equals one that was there before |
| DatabaseWorker.PromoteDeployedOn | microkure/extender/impl/database_worker.py:36-39 | the deployed-on relationships afterwards are exactly those before that do not point at the promoted node; the Datastore keeps the old node's targets |
| DatabaseWorker.PromoteEdge | microkure/extender/impl/database_worker.py:39-40 | the promoted node leaves the edge group and no other member changes |
| DatabaseWorker.DatastoreCandidates | microkure/extender/impl/database_worker.py:24-26 | exactly the Services not ignored by the worker and without outgoing interactions |
| DatabaseWorker.RefineFails | microkure/extender/impl/database_worker.py:27 | the worker raises exactly when the container lookup of some visited Service is ambiguous |
| DatabaseWorker.RefinePromotes | microkure/extender/impl/database_worker.py:19-40 | on success the graph stays well formed with the same names, exactly the visited Services whose container looks like a database become Datastores, and every other node is unchanged |
| DatabaseWorker.RefineKeepsInteractions | microkure/extender/impl/database_worker.py:19-51 | interactions into unpromoted nodes keep their id and value |
| DatabaseWorker.RefineInteractionValues | microkure/extender/impl/database_worker.py:42-51 | on success no interaction is lost or invented: each one before reappears with the same value, and each one after was there before |
| DatabaseWorker.RefineDeployedOn | microkure/extender/impl/database_worker.py:36-40 | on success the deployed-on relationships are those that do not point at a promoted node, and the edge group loses exactly the promoted nodes |
| IstioWorker.GatewayMatches | project/extender/workerimpl/istio_worker.py:14-21 | true exactly when the gateway's fullname is among the virtual service's qualified gateways and some exposed host is a host of the virtual service |
| IstioWorker.HasPodExposed | project/extender/workerimpl/istio_worker.py:110-115 | true exactly when a workload behind the Service has a label key the gateway selects on |
| IstioWorker.GatewayTargetsExactly | project/extender/workerimpl/istio_worker.py:82-93 | the service node names the gateway search visits are exactly those of Services some gateway exposes through a matching virtual service with a selected pod |
| IstioWorker.GatewayIsNotTarget | project/extender/workerimpl/istio_worker.py:92-93 | the generic gateway name is never one of the service node names visited |
| IstioWorker.FindOrCreateGateway | project/extender/workerimpl/istio_worker.py:102-108 | afterwards a node of the generic name exists; an existing one is reused with the graph unchanged; otherwise a message router of that name is added and joins the edge group; nothing else changes and well-formedness is kept |
| IstioWorker.GatewaysKeepInteractions | project/extender/workerimpl/istio_worker.py:79-100 | every interaction of the input survives the gateway search unchanged |
| IstioWorker.GatewaysAddOnlyGatewayInteractions | project/extender/workerimpl/istio_worker.py:95-97 | each added interaction leads from the gateway, with no flag, to the existing node of an exposed Service |
| IstioWorker.GatewaysKeepsGatewayIff | project/extender/workerimpl/istio_worker.py:99-100 | the gateway node survives exactly when it already took part in an interaction or some exposed Service has a node |
| IstioWorker.GatewaysNodes | project/extender/workerimpl/istio_worker.py:79-108 | every node other than the gateway is unchanged, and a surviving gateway node is the one found or created |
| IstioWorker.GatewaysEdge | project/extender/workerimpl/istio_worker.py:96-106 | a node other than the gateway is in the edge group afterwards exactly when it was and is not an existing visited service node; the gateway is in it exactly when it survives and was in it or was created |
| IstioWorker.GatewaysWellFormed | project/extender/workerimpl/istio_worker.py:79-108 | the gateway search keeps the graph well formed |
| IstioWorker.GatewaysConnectExposed | project/extender/workerimpl/istio_worker.py:92-97 | every exposed Service that has a node gets an interaction from the gateway and leaves the edge group |
| IstioWorker.CircuitBreakerOf | project/extender/workerimpl/istio_worker.py:70-77 | an interaction ends with its circuit breaker on exactly when it already had it on or a circuit-breaking rule names its target; nothing else changes |
| IstioWorker.VirtualServiceTimeoutOf | project/extender/workerimpl/istio_worker.py:45-61 | an interaction ends timed exactly when it was timed already or a timed route covers it: a self-route covers every interaction into that node, any other route the interactions between its two nodes |
| IstioWorker.DestinationRuleTimeoutsFail | project/extender/workerimpl/istio_worker.py:63-68 | the stage fails exactly when a rule with a connection timeout names a host that has no node |
| IstioWorker.DestinationRuleTimeoutOf | project/extender/workerimpl/istio_worker.py:63-68 | on success, an interaction ends timed exactly when it already was or a timed rule names its target |
| IstioWorker.RefineFails | project/extender/workerimpl/istio_worker.py:33-43 | the worker fails exactly when, after the gateway stage, a timed rule names a host that has no node |
| IstioWorker.RefineWellFormed | project/extender/workerimpl/istio_worker.py:33-43 | a successful run keeps the graph well formed |
| IstioWorker.RefineFlagsOf | project/extender/workerimpl/istio_worker.py:37-43 | after the gateway stage, each interaction keeps its endpoints and dynamic-discovery flag, and gains a circuit breaker or timeout exactly when a rule or route calls for it |
| IstioWorker.RefineExtends | project/extender/workerimpl/istio_worker.py:33-43 | a successful run loses no interaction and switches no flag off |
| ContainerWorker.FirstMatch | project/extender/workerimpl/container_worker.py:24-28 | None exactly when no node matches; otherwise the first matching node |
| ContainerWorker.ContainerEdgeAdds | project/extender/workerimpl/container_worker.py:24-34 | one container puts its service node in the edge group exactly when the container is reachable and some service node matches it |
| ContainerWorker.RefineEdge | project/extender/workerimpl/container_worker.py:21-34 | a node is in the edge group afterwards exactly when it was before, or it is the first service node matching a reachable container of some workload |
| ContainerWorker.RefineAddsServiceNodes | project/extender/workerimpl/container_worker.py:21-34 | the edge group only grows, each added member names a service node, and well-formedness is kept |
| Refactoring.AddToCluster | microkure/solver/impl/use_timeout_refactoring.py:40-41 | the generated object is in the cluster with every old object, at most one object is added, and one export record with no file is appended |
| UseTimeout.TimeoutLink | microkure/solver/impl/use_timeout_refactoring.py:29-50 | an already-timed link, or one not into a message router, changes nothing; an untimed router link times every interaction into its target; it fails exactly when the lookup of the router's name raises, finds nothing or finds a container, and otherwise adds the timeout VirtualService generated for the object found under that name, with one export record; only timeout flags change |
| UseTimeout.TimeoutLinks | microkure/solver/impl/use_timeout_refactoring.py:29-50 | on success only timeout flags change, the pending operations are untouched, every object added is a timeout VirtualService generated for some object of the cluster (of any kind), and at most one object per link is added |
| UseTimeout.TimeoutLinksTimes | microkure/solver/impl/use_timeout_refactoring.py:29-50 | after the loop, an interaction is timed exactly when it was before or some smell link leads through a message router to it |
| UseTimeout.TimeoutLinksReports | microkure/solver/impl/use_timeout_refactoring.py:44-52 | the loop reports a change exactly when some link was untimed and led to a message router |
| UseTimeout.Apply | microkure/solver/impl/use_timeout_refactoring.py:21-57 | other smells raise; on success it applies exactly when the node is not ignored and is a Service; an unapplied refactoring changes nothing and reports no status if ignored, NOT_APPLIED otherwise; an applied one reports no status or PARTIALLY_APPLIED; only timeout flags change and only timeout VirtualServices are added |
| UseTimeout.ApplyTimesRouters | microkure/solver/impl/use_timeout_refactoring.py:29-52 | a successful application times exactly the interactions into the message routers the smell links lead to, and reports PARTIALLY_APPLIED exactly when some such link was untimed |
| AddCircuitBreaker.FirstRouterLink | project/solver/impl/add_circuit_breaker_refactoring.py:22-28 | the index of the first link whose target is a message router, or the link count when there is none |
| AddCircuitBreaker.BreakFound | project/solver/impl/add_circuit_breaker_refactoring.py:30-41 | reports success exactly when a Service was found; then its DestinationRule is added and exported, and exactly the interactions into the target gain a circuit breaker; otherwise nothing changes |
| AddCircuitBreaker.BreakFirstRouter | project/solver/impl/add_circuit_breaker_refactoring.py:22-43 | without a router link nothing changes and the result is false; otherwise it is the effect of breaking at the first router link |
| AddCircuitBreaker.Apply | project/solver/impl/add_circuit_breaker_refactoring.py:17-43 | other smells raise; a non-Service node is not applied; no status is ever reported; an unapplied refactoring changes nothing; an applied one only switches circuit breakers on |
| AddCircuitBreaker.ApplyBreaksFirstRouter | project/solver/impl/add_circuit_breaker_refactoring.py:21-41 | a successful application means a Service node whose first router link names a cluster Service, whose DestinationRule was added, and the interactions into that router gained a circuit breaker |
| AddApiGateway.SearchForExistingSvc | microkure/solver/impl/add_api_gateway_refactoring.py:114-125 | None exactly when no Service of the cluster can expose the workload on the ports; otherwise such a Service |
| AddApiGateway.AppendConverted | microkure/template/kobject_generators.py:115-119 | each appended port is the generated one with its node port converted against the ports before it; the prefix is kept |
| AddApiGateway.RefactorModel | microkure/solver/impl/add_api_gateway_refactoring.py:103-112 | for an existing Service whose router node is missing, nothing changes; otherwise an interaction from the router to the node is added under the next id, the node leaves the edge group, and a newly created router is added as a node and joins the edge group; the graph only grows and stays well formed |
| AddApiGateway.StripHostPorts | microkure/solver/impl/add_api_gateway_refactoring.py:97-101 | every port is kept with its other fields; a truthy host port is cleared and a falsy one is left as it was, so no truthy host port remains |
| AddApiGateway.RemoveExposingAttributes | microkure/solver/impl/add_api_gateway_refactoring.py:92-101 | under host networking, queues the host-network removal once when a queue exists; otherwise replaces the workload with one whose container has no truthy host port |
| AddApiGateway.ExtendService | microkure/solver/impl/add_api_gateway_refactoring.py:46-57 | the Service keeps its identity and every other field; its ports are the old ones followed by one per generated port |
| AddApiGateway.ReuseService | microkure/solver/impl/add_api_gateway_refactoring.py:46-57 | fails exactly when the extended Service has no export record (the `out_fullname` dereference); otherwise the Service is replaced by its extension and the model gains an interaction from the existing router |
| AddApiGateway.CreateService | microkure/solver/impl/add_api_gateway_refactoring.py:60-72 | the workload is replaced by its relabelled version, the generated NodePort Service is added and exported, and the model gains a new router for it |
| AddApiGateway.Expose | microkure/solver/impl/add_api_gateway_refactoring.py:41-78 | the status is successfully applied exactly when an existing Service was reused; a failure happens only on the reuse path |
| AddApiGateway.Apply | microkure/solver/impl/add_api_gateway_refactoring.py:26-90 | an ignored smell changes nothing and reports no status; other smells raise; other node kinds are NOT_APPLIED; a name that finds nothing is NOT_APPLIED (the evidently intended behaviour, see Findings), a non-container raises at `defining_workload`, an ambiguous name with the lookup's error; an applied refactoring reports SUCCESSFULLY_APPLIED or PARTIALLY_APPLIED |
| AddApiGateway.ApplyAsWritten | microkure/solver/impl/add_api_gateway_refactoring.py:79-82 | as written, a name that finds nothing raises at `workload_typed_fullname`; NOT_APPLIED is then reported only for other node kinds; elsewhere it agrees with `Apply` |
| AddApiGateway.NotFoundBranchCrashes | microkure/solver/impl/add_api_gateway_refactoring.py:79-82 | on a cluster with no objects, a gateway smell on a Service node raises as written, while `Apply` reports NOT_APPLIED |
| AddApiGateway.ApplyExposes | microkure/solver/impl/add_api_gateway_refactoring.py:36-78 | when the lookup finds a container, its workload is in the cluster and the outcome of `apply` is exactly that of exposing the container |
| AddApiGateway.CreateBranchUnexposes | microkure/solver/impl/add_api_gateway_refactoring.py:60-78 | without host networking, creating a Service and removing the exposing attributes leaves a copy of the workload in the cluster with none of the container's host ports |
| AddApiGateway.ReuseBranchUnexposes | microkure/solver/impl/add_api_gateway_refactoring.py:46-78 | without host networking, a successful reuse followed by removing the exposing attributes leaves a copy of the workload in the cluster with none of the container's host ports |
| AddApiGateway.ApplyExtends | microkure/solver/impl/add_api_gateway_refactoring.py:26-90 | a successful application on a node of a well-formed graph only grows the graph and keeps it well formed |
| ArchModel.SetTimeoutIncoming | microkure/solver/impl/use_timeout_refactoring.py:44-45 | exactly the interactions into the named node become timed; nothing else changes |
| ArchModel.SetCircuitBreakerIncoming | project/solver/impl/add_circuit_breaker_refactoring.py:45-47 | exactly the interactions into the named node gain a circuit breaker; nothing else changes |
| ArchModel.RemoveFromEdge | project/extender/workerimpl/istio_worker.py:96 | the edge group loses the name and nothing else changes |

## Left out

- File and terminal I/O, the report and messages, `run.py`, and the exporters. The exporters' file layout is not part of this model; export records are kept as values.
- The MicroTOSCA graph library (microfreshener) is not part of this model. `ArchModel` reconstructs the behaviour the core relies on: unique node names, interactions with identity, the deployed-on relationships and the edge group.
- Python object identity (`in`, `==` on objects) is modelled as value equality. The one exception is removing an export record, which removes the visited record by position.
- Helpers the core calls whose code is outside this model become oracle parameters:
  - `name_is_FQDN` and `name_has_namespace`;
  - `does_expose_workload` and `can_expose_workload`;
  - `is_reachable_from_outside`;
  - `check_kobject_node_name_match`;
  - the sort key of `_search_for_existing_svc`, an index oracle `pick`.
- The uuid of `generate_random_label` is a parameter.
- Worker and refactoring names stand in as fixed strings, because their values are configuration. The short names of Service, VirtualService and DestinationRule are taken to be `svc`, `vs` and `dr`.
- `Refactoring._add_to_cluster` is not part of this model. `AddToCluster` takes it to be `add_object` followed by an export record with no file name.
- `set_labels` and `add_pod_labels` are not part of this model. Both are taken to merge into the one label map the pods carry.
- `ServicePort.nodePort` stands for the `node_port` key. How `KubeService.ports` presents ports loaded from files is not part of this model.
- The `project.kmodel` package (its `KubeCluster`, `kube_istio` and `kube_networking.KubeService`), imported by the Istio worker, the container worker and Add Circuit Breaker, is not part of this model. It is taken to behave as microkure's `kube_cluster.py` and `kube_istio.py`, which these members use instead; `isinstance(kube_service, KubeService)` is modelled as the object being a Service.
- Each worker is modelled from its own source; the orchestration that orders workers by `executed_only_after_workers` is not modelled.
- KubeWorker.NewIstioWorker: the project's `KubeWorker.__init__` is not part of this model. The worker is given the name `istio-worker`, and the service worker is represented by its name rather than by its class.
- DatabaseWorker.Refine: requires that no node is already called `TEMPORARY_DATASTORE_NAME`. The source does not guard against this name clash.
- IstioWorker.RefineOnlySetsFlags: states only that the flag stages change nothing but interaction flags. RefineFlagsOf states which flags change.
- Refactoring.OnlyFlagsOnTransitive and Refactoring.OnlyFlagsOnWellFormed: composition facts Dafny closes without proof work. They only serve the refactoring contracts.
- The container worker's `refine` returns None and changes the graph in place. The Istio worker does the same. The model returns the refined graph instead.
- DatabaseWorker.HasKeyword: upper-cases ASCII letters only, whereas Python's `str.upper()` also maps other letters and can change the length (`'ß'` becomes `"SS"`). Kubernetes names and image references are ASCII, so the keyword check is the same on them.
- `kube_container.py` is not part of this model. `get_object_by_name`'s default type `KubeObject` is taken to let containers through too (`TypeFilter.AnyObject`), as it does if `KubeContainer` subclasses `KubeObject`. `UseTimeout.TimeoutLink` and `AddApiGateway.Apply` rely on this.
- The edge group is modelled as a set of names, so removing a node that is not a member is a no-op.
- UseTimeout.TimeoutLink: when the target lookup finds a container, the source reads Kubernetes-object attributes off it. The model reports this as a `ContainerTarget` error.
- AddCircuitBreaker.Apply: the project's `Refactoring.__init__` takes two arguments, but the subclass passes three. That constructor mismatch is not modelled; `apply` is modelled as if construction succeeded.
- Add Circuit Breaker imports `generate_circuit_breaker_for_svc` from `k8s_template.kobject_generators`, which is not part of this model. It is taken to be the generator of `microkure/template/kobject_generators.py`, with the circuit-breaker configuration passed in as `cfg`.
- `_refactor_model` of Add Circuit Breaker is modelled by its only effect on the graph: it switches on the circuit breakers of the router's incoming interactions.

## Findings

| source | as written | input that shows it | evidently intended | confidence | as-written member | corrected member |
|---|---|---|---|---|---|---|
| microkure/solver/impl/add_api_gateway_refactoring.py:79-82 | the not-found branch builds its message from `container.workload_typed_fullname` while `container` is None, so it raises AttributeError | a gateway smell on a Service node whose name matches nothing in the cluster, e.g. a cluster with no objects | report NOT_APPLIED and return False, as the branch's own status line does | high; not executed | AddApiGateway.ApplyAsWritten, AddApiGateway.NotFoundBranchCrashes | AddApiGateway.Apply |
