/** `AddAPIGatewayRefactoring` (`add_api_gateway_refactoring.py`): a Service
    or MessageBroker node that the outside world reaches directly is put
    behind a NodePort Kubernetes Service, either one that already exposes its
    workload or a new one, and the architecture graph gets a MessageRouter
    in the edge group in front of the node. */
module AddApiGateway {
  import opened Wrappers
  import opened Seqs
  import opened Errors
  import opened KubeObjects
  import opened KubeCluster
  import opened Generators
  import opened ArchModel
  import opened KubeWorker
  import opened Refactoring

  /** The refactoring's name; the value of `REFACTORING_ADD_API_GATEWAY` is configuration. */
  const NAME := "add-api-gateway"

  // ------------------------------------------------------- existing Service

  /** `_search_for_existing_svc`: a Service of the cluster that can expose the
      workload on the considered ports. With several, the source sorts them
      by a key this model does not compute; `pick` stands for that order and
      chooses among them. */
  function SearchForExistingSvc(c: Cluster, x: ExposureRules, w: KubeObject, considered: seq<Port>,
                                pick: seq<KubeObject> -> nat): (r: Option<KubeObject>)
    ensures r.None? <==> forall svc :: svc in Services(c) ==> !x.canExpose(svc, w, considered)
    ensures r.Some? ==> r.value in Services(c) && x.canExpose(r.value, w, considered)
    ensures r.Some? ==> r.value in c.objects && r.value.body.Service?
  {
    var services := Filter(Services(c), svc => x.canExpose(svc, w, considered));
    if |services| == 0 then None
    else if |services| == 1 then Some(services[0])
    else Some(services[pick(services) % |services|])
  }

  /** `port["node_port"] = convert_port_to_nodeport(expose_svc, port["node_port"])`. */
  function ConvertOne(ports: seq<ServicePort>, p: ServicePort): ServicePort
    requires p.nodePort.Some?
  {
    p.(nodePort := ConvertPortToNodePort(ports, p.nodePort.value))
  }

  /** The loop that appends the generated ports to an existing Service. Each
      port's node port is converted against the Service's ports as they stand
      when it is appended, earlier appended ports included. */
  function AppendConverted(ports: seq<ServicePort>, gen: seq<ServicePort>): (r: seq<ServicePort>)
    requires forall k :: 0 <= k < |gen| ==> gen[k].nodePort.Some?
    ensures |r| == |ports| + |gen|
    ensures r[..|ports|] == ports
    ensures forall k :: 0 <= k < |gen| ==>
      && r[|ports| + k] == gen[k].(nodePort := r[|ports| + k].nodePort)
      && r[|ports| + k].nodePort == ConvertPortToNodePort(r[..|ports| + k], gen[k].nodePort.value)
      && (r[|ports| + k].nodePort.None? <==> InNodePortRange(gen[k].nodePort.value))
      && (r[|ports| + k].nodePort.Some? ==> InNodePortRange(r[|ports| + k].nodePort.value))
    decreases |gen|
  {
    if |gen| == 0 then ports
    else
      var ports1 := ports + [ConvertOne(ports, gen[0])];
      var r := AppendConverted(ports1, gen[1..]);
      assert r[..|ports1|] == ports1;
      assert r[..|ports|] == ports1[..|ports|];
      forall k | 1 <= k < |gen|
        ensures r[|ports| + k] == gen[k].(nodePort := r[|ports| + k].nodePort)
        ensures r[|ports| + k].nodePort == ConvertPortToNodePort(r[..|ports| + k], gen[k].nodePort.value)
        ensures r[|ports| + k].nodePort.None? <==> InNodePortRange(gen[k].nodePort.value)
        ensures r[|ports| + k].nodePort.Some? ==> InNodePortRange(r[|ports| + k].nodePort.value)
      {
        assert gen[1..][k - 1] == gen[k];
        assert |ports1| + (k - 1) == |ports| + k;
      }
      r
  }

  // ------------------------------------------------------------- the graph

  /** `_refactor_model`. With an existing Service, the router is the graph's
      node named after it, and nothing happens when there is none; with a new
      Service, a MessageRouter node is added and joins the edge group. Then
      the smell's node leaves the edge group and the router gets an
      interaction into it. */
  function RefactorModel(m: Model, mrName: string, node: Node, serviceExists: bool): (r: Model)
    ensures serviceExists && mrName !in Names(m) ==> r == m
    ensures !serviceExists || mrName in Names(m) ==>
      && r.interactions.Keys == m.interactions.Keys + {m.nextId}
      && r.interactions[m.nextId] == Interaction(mrName, node.name, false, false, false)
      && r.nextId == m.nextId + 1 && r.deployedOn == m.deployedOn
      && r.edge == (m.edge + (if serviceExists then {} else {mrName})) - {node.name}
    ensures serviceExists ==> r.nodes == m.nodes
    ensures !serviceExists ==>
      && GetNode(r, mrName) == Some(Node(mrName, MessageRouterNode))
      && Names(r) == Names(m) + {mrName}
      && forall y :: y != mrName ==> GetNode(r, y) == GetNode(m, y)
    ensures (forall id :: id in m.interactions ==> id < m.nextId) ==> Extends(m, r)
    ensures WellFormed(m) && node.name in Names(m) ==> WellFormed(r)
  {
    if serviceExists then
      if mrName in Names(m) then ConnectRouter(m, mrName, node.name)
      else m
    else CreateRouter(m, mrName, node.name)
  }

  /** A MessageRouter node is added to the edge group and connected to the target. */
  function CreateRouter(m: Model, mrName: string, target: string): (r: Model)
    ensures r.interactions.Keys == m.interactions.Keys + {m.nextId}
    ensures r.interactions[m.nextId] == Interaction(mrName, target, false, false, false)
    ensures r.nextId == m.nextId + 1 && r.deployedOn == m.deployedOn
    ensures r.edge == (m.edge + {mrName}) - {target}
    ensures GetNode(r, mrName) == Some(Node(mrName, MessageRouterNode))
    ensures Names(r) == Names(m) + {mrName}
    ensures forall y :: y != mrName ==> GetNode(r, y) == GetNode(m, y)
    ensures (forall id :: id in m.interactions ==> id < m.nextId) ==> Extends(m, r)
    ensures WellFormed(m) && target in Names(m) ==> WellFormed(r)
  {
    var m0 := AddNode(m, Node(mrName, MessageRouterNode));
    var m1 := AddToEdge(m0, mrName);
    assert WellFormed(m) ==> WellFormed(m1) by {
      if WellFormed(m) {
        AddNodeWellFormed(m, Node(mrName, MessageRouterNode));
      }
    }
    SameNodesSameLookup(m0, m1);
    var r := ConnectRouter(m1, mrName, target);
    SameNodesSameLookup(m0, r);
    assert (forall id :: id in m.interactions ==> id < m.nextId) ==> Extends(m, r) by {
      assert m1.interactions == m.interactions && m1.nextId == m.nextId;
    }
    r
  }

  lemma SameNodesSameLookup(a: Model, b: Model)
    requires a.nodes == b.nodes
    ensures Names(a) == Names(b)
    ensures forall y :: GetNode(a, y) == GetNode(b, y)
  {
  }

  /** The target leaves the edge group and the router gets an interaction into it. */
  function ConnectRouter(m: Model, mrName: string, target: string): (r: Model)
    ensures r.interactions.Keys == m.interactions.Keys + {m.nextId}
    ensures r.interactions[m.nextId] == Interaction(mrName, target, false, false, false)
    ensures r.nextId == m.nextId + 1 && r.deployedOn == m.deployedOn && r.nodes == m.nodes
    ensures r.edge == m.edge - {target}
    ensures (forall id :: id in m.interactions ==> id < m.nextId) ==> Extends(m, r)
    ensures WellFormed(m) && mrName in Names(m) && target in Names(m) ==> WellFormed(r)
  {
    var m1 := RemoveFromEdge(m, target);
    assert Names(m1) == Names(m);
    AddInteraction(m1, mrName, target, false, false, false)
  }

  // ------------------------------------------------------ exposing attributes

  /** `del port["hostPort"]` for every port with a truthy `hostPort`. */
  function StripHostPorts(ports: seq<Port>): (r: seq<Port>)
    ensures |r| == |ports|
    ensures forall k :: 0 <= k < |ports| ==>
      && !TruthyInt(r[k].hostPort)
      && r[k] == ports[k].(hostPort := r[k].hostPort)
      && (!TruthyInt(ports[k].hostPort) ==> r[k] == ports[k])
  {
    seq(|ports|, k requires 0 <= k < |ports| =>
      if TruthyInt(ports[k].hostPort) then ports[k].(hostPort := None) else ports[k])
  }

  /** `w2` is workload `w` with only the truthy host ports of container `i`
      removed. */
  predicate HostPortsCleared(w: KubeObject, w2: KubeObject, i: nat)
    requires w.body.Workload? && i < |w.body.containers|
  {
    && w2.name == w.name && w2.namespace == w.namespace && w2.shortname == w.shortname
    && w2.body.Workload? && w2.body.hostNetwork == w.body.hostNetwork && w2.body.labels == w.body.labels
    && |w2.body.containers| == |w.body.containers|
    && (forall j :: 0 <= j < |w.body.containers| && j != i ==> w2.body.containers[j] == w.body.containers[j])
    && var before, after := w.body.containers[i], w2.body.containers[i];
    && after == before.(ports := after.ports)
    && |after.ports| == |before.ports|
    && forall k :: 0 <= k < |before.ports| ==>
         && !TruthyInt(after.ports[k].hostPort)
         && after.ports[k] == before.ports[k].(hostPort := after.ports[k].hostPort)
         && (!TruthyInt(before.ports[k].hostPort) ==> after.ports[k] == before.ports[k])
  }

  /** `_remove_exposing_attributes(workload, container)`: a host-network
      workload gets a pending operation to drop its host network, queued once
      and only when the solver keeps a queue; otherwise the container's host
      ports are removed from the workload in the cluster. */
  function RemoveExposingAttributes(s: State, w: KubeObject, i: nat): (r: State)
    requires w.body.Workload? && i < |w.body.containers|
    ensures r.model == s.model
    ensures w.body.hostNetwork ==> r.cluster == s.cluster
    ensures w.body.hostNetwork ==> (r.pendingOps.Some? <==> s.pendingOps.Some?)
    ensures w.body.hostNetwork && s.pendingOps.Some? ==>
      && RemoveWorkloadHostNetwork(w) in r.pendingOps.value
      && (forall op :: op in r.pendingOps.value <==> op in s.pendingOps.value || op == RemoveWorkloadHostNetwork(w))
      && (NoDup(s.pendingOps.value) ==> NoDup(r.pendingOps.value))
    ensures !w.body.hostNetwork ==> r.pendingOps == s.pendingOps
    ensures !w.body.hostNetwork ==>
      && |r.cluster.objects| == |s.cluster.objects| && |r.cluster.exports| == |s.cluster.exports|
      && forall j :: 0 <= j < |s.cluster.objects| ==>
           if s.cluster.objects[j] == w then HostPortsCleared(w, r.cluster.objects[j], i)
           else r.cluster.objects[j] == s.cluster.objects[j]
  {
    if w.body.hostNetwork then
      var op := RemoveWorkloadHostNetwork(w);
      if s.pendingOps.Some? && op !in s.pendingOps.value then
        var ops := s.pendingOps.value + [op];
        s.(pendingOps := Some(ops))
      else s
    else
      var c := w.body.containers[i];
      var w2 := w.(body := w.body.(containers := w.body.containers[i := c.(ports := StripHostPorts(c.ports))]));
      assert HostPortsCleared(w, w2, i);
      s.(cluster := ReplaceObject(s.cluster, w, w2))
  }

  // ------------------------------------------------------------ the branches

  /** `ports_to_expose`: the container's ports as NodePort Service ports. */
  function PortsToExpose(ref: ContainerRef): (r: seq<ServicePort>)
    requires ValidRef(ref)
    ensures forall k :: 0 <= k < |r| ==> r[k].nodePort.Some?
  {
    GenerateSvcPortsForContainer(ContainerOf(ref), ref.owner.body.hostNetwork, true)
  }

  /** `svc` with the generated ports appended, their node ports converted. */
  function ExtendService(svc: KubeObject, gen: seq<ServicePort>): (r: KubeObject)
    requires svc.body.Service?
    requires forall k :: 0 <= k < |gen| ==> gen[k].nodePort.Some?
    ensures r.name == svc.name && r.namespace == svc.namespace && r.shortname == svc.shortname
    ensures r.body.Service? && r.body.service == svc.body.service.(ports := r.body.service.ports)
    ensures |r.body.service.ports| == |svc.body.service.ports| + |gen|
    ensures r.body.service.ports[..|svc.body.service.ports|] == svc.body.service.ports
  {
    svc.(body := Service(svc.body.service.(ports := AppendConverted(svc.body.service.ports, gen))))
  }

  /** The existing-Service branch: the Service gains the ports, the graph is
      refactored around the node named after it, and the Service's export
      record is read (which fails when it has none). */
  function ReuseService(s: State, node: Node, svc: KubeObject, gen: seq<ServicePort>): (r: Result<State, Error>)
    requires svc.body.Service?
    requires forall k :: 0 <= k < |gen| ==> gen[k].nodePort.Some?
    ensures r.Failure? <==> GetExpObject(ReplaceObject(s.cluster, svc, ExtendService(svc, gen)), ExtendService(svc, gen)).None?
    ensures r.Success? ==> r.value.cluster == ReplaceObject(s.cluster, svc, ExtendService(svc, gen))
    ensures r.Success? ==> r.value.model == RefactorModel(s.model, TypedFullName(svc), node, true)
    ensures r.Success? ==> r.value.pendingOps == s.pendingOps
  {
    var svc2 := ExtendService(svc, gen);
    var c := ReplaceObject(s.cluster, svc, svc2);
    if GetExpObject(c, svc2).None? then Failure(NoneDereference("out_fullname"))
    else Success(State(c, RefactorModel(s.model, TypedFullName(svc2), node, true), s.pendingOps))
  }

  /** The new-Service branch: a NodePort Service for the container is
      generated, the workload is relabelled in place, the Service joins the
      cluster and a new router fronts the node. Also returns the relabelled
      workload. */
  function CreateService(s: State, node: Node, ref: ContainerRef, labelValue: string): (r: (State, KubeObject))
    requires ValidRef(ref)
    ensures var w := ref.owner;
      var (svc, mapping, w2) := GenerateSvcNodePortForContainer(w, ContainerOf(ref), w.body.hostNetwork, labelValue);
      && r.1 == w2
      && r.0.cluster == AddToCluster(ReplaceObject(s.cluster, w, w2), svc)
      && r.0.model == RefactorModel(s.model, TypedFullName(svc), node, false)
      && r.0.pendingOps == s.pendingOps
  {
    var w := ref.owner;
    var (svc, mapping, w2) := GenerateSvcNodePortForContainer(w, ContainerOf(ref), w.body.hostNetwork, labelValue);
    (State(AddToCluster(ReplaceObject(s.cluster, w, w2), svc), RefactorModel(s.model, TypedFullName(svc), node, false), s.pendingOps), w2)
  }

  /** The new-Service branch followed by `_remove_exposing_attributes` on
      the relabelled workload. */
  function CreateBranch(s: State, node: Node, ref: ContainerRef, labelValue: string): State
    requires ValidRef(ref)
  {
    var (s1, w2) := CreateService(s, node, ref, labelValue);
    RemoveExposingAttributes(s1, w2, ref.index)
  }

  /** The existing-Service branch followed by `_remove_exposing_attributes`. */
  function ReuseBranch(s: State, node: Node, ref: ContainerRef, svc: KubeObject): Result<State, Error>
    requires ValidRef(ref) && svc.body.Service?
  {
    var s1 :- ReuseService(s, node, svc, PortsToExpose(ref));
    Success(RemoveExposingAttributes(s1, ref.owner, ref.index))
  }

  /** The Service `_search_for_existing_svc` returns for the container, if any. */
  function ExistingSvc(c: Cluster, ref: ContainerRef, x: ExposureRules, pick: seq<KubeObject> -> nat): Option<KubeObject>
    requires ValidRef(ref)
  {
    SearchForExistingSvc(c, x, ref.owner, SelectPortsForNodePort(ContainerOf(ref), ref.owner.body.hostNetwork), pick)
  }

  /** The body of the `if container:` branch for the container `ref`. */
  function Expose(s: State, node: Node, ref: ContainerRef, x: ExposureRules, pick: seq<KubeObject> -> nat,
                  labelValue: string): (r: Result<(State, Status), Error>)
    requires ValidRef(ref)
    ensures var existing := ExistingSvc(s.cluster, ref, x, pick);
      var reuse := existing.Some? && x.reachableFromOutside(existing.value);
      && (r.Failure? ==> reuse)
      && (r.Success? ==> r.value.1 == (if reuse then SuccessfullyApplied else PartiallyApplied))
  {
    var existing := ExistingSvc(s.cluster, ref, x, pick);
    if existing.Some? && x.reachableFromOutside(existing.value) then
      var s1 :- ReuseBranch(s, node, ref, existing.value);
      Success((s1, SuccessfullyApplied))
    else
      Success((CreateBranch(s, node, ref, labelValue), PartiallyApplied))
  }

  /** `apply`: the ignore policy is consulted before the smell kind is
      checked. A lookup that finds nothing ends with `NOT_APPLIED` (the
      intended behaviour; `ApplyAsWritten` has the crash of the code); one that
      finds an object that is not a container fails when its defining
      workload is read. */
  function Apply(s: State, smell: Smell, ignore: Ignorer, x: ExposureRules, rules: NameRules,
                 pick: seq<KubeObject> -> nat, labelValue: string): (r: Result<Outcome, Error>)
    ensures ignore(smell.node, RefactoringIgnore, NAME) ==> r == Success(Outcome(s, false, None))
    ensures !ignore(smell.node, RefactoringIgnore, NAME) && smell.kind != NoApiGateway ==>
      r == Failure(RefactoringNotSupported(NAME))
    ensures r.Success? && !r.value.applied ==> r.value.state == s
    ensures r.Success? && r.value.applied ==>
      && smell.node.kind in {ServiceNode, MessageBrokerNode}
      && r.value.status in {Some(SuccessfullyApplied), Some(PartiallyApplied)}
    ensures r.Success? && !r.value.applied && !ignore(smell.node, RefactoringIgnore, NAME) ==>
      r.value.status == Some(NotApplied)
    ensures !ignore(smell.node, RefactoringIgnore, NAME) && smell.kind == NoApiGateway ==>
      (smell.node.kind !in {ServiceNode, MessageBrokerNode} ==> r == Success(Outcome(s, false, Some(NotApplied))))
    ensures (!ignore(smell.node, RefactoringIgnore, NAME) && smell.kind == NoApiGateway
             && smell.node.kind in {ServiceNode, MessageBrokerNode}) ==>
      var found := GetObjectByName(s.cluster, rules, smell.node.name, AnyObject);
      && (found.Failure? ==> r == Failure(found.error))
      && (found == Success(None) ==> r == Success(Outcome(s, false, Some(NotApplied))))
      && (found.Success? && found.value.Some? && found.value.value.Obj? ==> r == Failure(NoneDereference("defining_workload")))
  {
    if ignore(smell.node, RefactoringIgnore, NAME) then Success(Outcome(s, false, None))
    else if smell.kind != NoApiGateway then Failure(RefactoringNotSupported(NAME))
    else if smell.node.kind !in {ServiceNode, MessageBrokerNode} then Success(Outcome(s, false, Some(NotApplied)))
    else
      var found :- GetObjectByName(s.cluster, rules, smell.node.name, AnyObject);
      if found.None? then Success(Outcome(s, false, Some(NotApplied)))
      else if found.value.Obj? then Failure(NoneDereference("defining_workload"))
      else
        var e :- Expose(s, smell.node, found.value.ref, x, pick, labelValue);
        Success(Outcome(e.0, true, Some(e.1)))
  }

  /** The smell reaches the not-found branch of `apply`: it is not ignored,
      it is the gateway smell on a Service or MessageBroker node, and the
      name lookup finds nothing. */
  predicate NotFoundBranch(s: State, smell: Smell, ignore: Ignorer, rules: NameRules) {
    && !ignore(smell.node, RefactoringIgnore, NAME) && smell.kind == NoApiGateway
    && smell.node.kind in {ServiceNode, MessageBrokerNode}
    && GetObjectByName(s.cluster, rules, smell.node.name, AnyObject) == Success(None)
  }

  /** `apply` as written: the not-found branch builds its report message from
      `container.workload_typed_fullname` while `container` is None, so it
      raises there. Every other branch is the one of `Apply`. */
  function ApplyAsWritten(s: State, smell: Smell, ignore: Ignorer, x: ExposureRules, rules: NameRules,
                          pick: seq<KubeObject> -> nat, labelValue: string): (r: Result<Outcome, Error>)
    ensures NotFoundBranch(s, smell, ignore, rules) ==> r == Failure(NoneDereference("workload_typed_fullname"))
    ensures r.Success? && r.value.status == Some(NotApplied) ==> smell.node.kind !in {ServiceNode, MessageBrokerNode}
    ensures !NotFoundBranch(s, smell, ignore, rules) ==> r == Apply(s, smell, ignore, x, rules, pick, labelValue)
  {
    if NotFoundBranch(s, smell, ignore, rules) then Failure(NoneDereference("workload_typed_fullname"))
    else Apply(s, smell, ignore, x, rules, pick, labelValue)
  }

  // ---------------------------------------------------------------- lemmas

  /** A container found by the lookup belongs to a workload of the cluster. */
  lemma FoundContainerInCluster(c: Cluster, rules: NameRules, name: string, ref: ContainerRef)
    requires GetObjectByName(c, rules, name, AnyObject) == Success(Some(Cont(ref)))
    ensures ValidRef(ref) && ref.owner in c.objects
  {
    assert IsCandidate(c, QueryName(rules, name), AnyObject, Cont(ref));
  }

  /** The container's workload has none of the container's host ports left:
      `w3` is the workload, as stored in the cluster after the refactoring. */
  predicate WorkloadUnexposed(w: KubeObject, w3: KubeObject, i: nat)
    requires w.body.Workload? && i < |w.body.containers|
  {
    && w3.name == w.name && w3.namespace == w.namespace && w3.body.Workload?
    && |w3.body.containers| == |w.body.containers|
    && forall k :: 0 <= k < |w3.body.containers[i].ports| ==> !TruthyInt(w3.body.containers[i].ports[k].hostPort)
  }

  /** Removing the exposing attributes of a workload stored in the cluster
      leaves no host port of the container in it (without host network) or
      queues the removal of its host network (when the solver keeps a queue). */
  lemma RemoveExposingAttributesUnexposes(s: State, w: KubeObject, i: nat)
    requires w.body.Workload? && i < |w.body.containers| && w in s.cluster.objects
    ensures var r := RemoveExposingAttributes(s, w, i);
      && (!w.body.hostNetwork ==> exists w3 :: w3 in r.cluster.objects && WorkloadUnexposed(w, w3, i))
      && (w.body.hostNetwork && s.pendingOps.Some? ==> RemoveWorkloadHostNetwork(w) in r.pendingOps.value)
  {
    var r := RemoveExposingAttributes(s, w, i);
    if !w.body.hostNetwork {
      var j :| 0 <= j < |s.cluster.objects| && s.cluster.objects[j] == w;
      assert HostPortsCleared(w, r.cluster.objects[j], i);
      assert WorkloadUnexposed(w, r.cluster.objects[j], i);
    }
  }

  /** On a cluster with no objects every lookup finds nothing, so the
      gateway smell on a Service node crashes as written, where `Apply`
      reports NOT_APPLIED. */
  lemma NotFoundBranchCrashes(s: State, smell: Smell, ignore: Ignorer, x: ExposureRules, rules: NameRules,
                              pick: seq<KubeObject> -> nat, labelValue: string)
    requires s.cluster.objects == []
    requires !ignore(smell.node, RefactoringIgnore, NAME) && smell.kind == NoApiGateway
    requires smell.node.kind == ServiceNode
    ensures ApplyAsWritten(s, smell, ignore, x, rules, pick, labelValue) == Failure(NoneDereference("workload_typed_fullname"))
    ensures Apply(s, smell, ignore, x, rules, pick, labelValue) == Success(Outcome(s, false, Some(NotApplied)))
  {
    var q := QueryName(rules, smell.node.name);
    forall n ensures !IsCandidate(s.cluster, q, AnyObject, n) {
    }
    assert GetObjectByName(s.cluster, rules, smell.node.name, AnyObject) == Success(None);
  }

  /** When the lookup finds a container, `apply` is the `Expose` of it. */
  lemma ApplyExposes(s: State, smell: Smell, ignore: Ignorer, x: ExposureRules, rules: NameRules,
                     pick: seq<KubeObject> -> nat, labelValue: string, ref: ContainerRef)
    requires !ignore(smell.node, RefactoringIgnore, NAME) && smell.kind == NoApiGateway
    requires smell.node.kind in {ServiceNode, MessageBrokerNode}
    requires GetObjectByName(s.cluster, rules, smell.node.name, AnyObject) == Success(Some(Cont(ref)))
    ensures ValidRef(ref) && ref.owner in s.cluster.objects
    ensures var e := Expose(s, smell.node, ref, x, pick, labelValue);
      && (e.Failure? ==> Apply(s, smell, ignore, x, rules, pick, labelValue) == Failure(e.error))
      && (e.Success? ==> Apply(s, smell, ignore, x, rules, pick, labelValue) == Success(Outcome(e.value.0, true, Some(e.value.1))))
  {
    FoundContainerInCluster(s.cluster, rules, smell.node.name, ref);
    var e := Expose(s, smell.node, ref, x, pick, labelValue);
    var found := GetObjectByName(s.cluster, rules, smell.node.name, AnyObject);
    assert found.Success? && found.value.Some? && !found.value.value.Obj? && found.value.value.ref == ref;
    if e.Failure? {
      assert Apply(s, smell, ignore, x, rules, pick, labelValue) == Failure(e.error);
    } else {
      assert Apply(s, smell, ignore, x, rules, pick, labelValue) == Success(Outcome(e.value.0, true, Some(e.value.1)));
    }
  }

  /** The new Service's router: a MessageRouter node named after the
      Service, in the edge group, with a fresh interaction into the smell's
      node, which leaves the edge group. */
  lemma CreateBranchModel(s: State, node: Node, ref: ContainerRef, labelValue: string)
    requires ValidRef(ref)
    ensures var r := CreateBranch(s, node, ref, labelValue).model;
      var w := ref.owner;
      var mr := TypedFullName(GenerateSvcNodePortForContainer(w, ContainerOf(ref), w.body.hostNetwork, labelValue).0);
      && GetNode(r, mr) == Some(Node(mr, MessageRouterNode))
      && r.interactions[s.model.nextId] == Interaction(mr, node.name, false, false, false)
      && node.name !in r.edge
      && (mr != node.name ==> mr in r.edge)
  {
    var w := ref.owner;
    var svc := GenerateSvcNodePortForContainer(w, ContainerOf(ref), w.body.hostNetwork, labelValue).0;
    assert CreateBranch(s, node, ref, labelValue).model == RefactorModel(s.model, TypedFullName(svc), node, false);
  }

  /** The cluster gains the NodePort Service and one export record. */
  lemma CreateBranchCluster(s: State, node: Node, ref: ContainerRef, labelValue: string)
    requires ValidRef(ref)
    ensures var r := CreateBranch(s, node, ref, labelValue).cluster;
      var w := ref.owner;
      var svc := GenerateSvcNodePortForContainer(w, ContainerOf(ref), w.body.hostNetwork, labelValue).0;
      && svc in r.objects && svc.body.Service? && svc.body.service.serviceType == Some("NodePort")
      && |r.exports| == |s.cluster.exports| + 1
  {
    var w := ref.owner;
    var g := GenerateSvcNodePortForContainer(w, ContainerOf(ref), w.body.hostNetwork, labelValue);
    var svc, w2 := g.0, g.2;
    var s1 := CreateService(s, node, ref, labelValue).0;
    var r := RemoveExposingAttributes(s1, w2, ref.index);
    assert CreateBranch(s, node, ref, labelValue) == r;
    var k :| 0 <= k < |s1.cluster.objects| && s1.cluster.objects[k] == svc;
    assert svc != w2;
    assert !w2.body.hostNetwork ==> r.cluster.objects[k] == svc;
  }

  /** Removing the exposing attributes of a stored relabelling `w2` of
      workload `w` leaves `w` unexposed. */
  lemma RelabelledUnexposed(s1: State, w: KubeObject, w2: KubeObject, i: nat)
    requires w.body.Workload? && i < |w.body.containers|
    requires w2.body.Workload? && w2.name == w.name && w2.namespace == w.namespace
    requires w2.body.containers == w.body.containers && w2.body.hostNetwork == w.body.hostNetwork
    requires w2 in s1.cluster.objects
    ensures !w.body.hostNetwork ==>
      exists w3 :: w3 in RemoveExposingAttributes(s1, w2, i).cluster.objects && WorkloadUnexposed(w, w3, i)
  {
    RemoveExposingAttributesUnexposes(s1, w2, i);
    if !w.body.hostNetwork {
      var w3 :| w3 in RemoveExposingAttributes(s1, w2, i).cluster.objects && WorkloadUnexposed(w2, w3, i);
      assert WorkloadUnexposed(w, w3, i);
    }
  }

  /** The relabelled workload is left without the container's host ports. */
  lemma CreateBranchUnexposes(s: State, node: Node, ref: ContainerRef, labelValue: string)
    requires ValidRef(ref) && ref.owner in s.cluster.objects
    ensures var r := CreateBranch(s, node, ref, labelValue);
      !ref.owner.body.hostNetwork ==> exists w3 :: w3 in r.cluster.objects && WorkloadUnexposed(ref.owner, w3, ref.index)
  {
    var w := ref.owner;
    var w2 := GenerateSvcNodePortForContainer(w, ContainerOf(ref), w.body.hostNetwork, labelValue).2;
    var cs := CreateService(s, node, ref, labelValue);
    assert cs.1 == w2;
    var c1 := ReplaceObject(s.cluster, w, w2);
    var j :| 0 <= j < |s.cluster.objects| && s.cluster.objects[j] == w;
    assert c1.objects[j] == w2;
    assert w2 in cs.0.cluster.objects;
    RelabelledUnexposed(cs.0, w, w2, ref.index);
  }

  /** The existing Service is extended in place: the cluster keeps its size
      and its export records, and the graph changes only when it has a node
      named after the Service. */
  lemma ReuseBranchFacts(s: State, node: Node, ref: ContainerRef, svc: KubeObject)
    requires ValidRef(ref) && svc.body.Service? && svc in s.cluster.objects
    requires ReuseBranch(s, node, ref, svc).Success?
    ensures var r := ReuseBranch(s, node, ref, svc).value;
      && ExtendService(svc, PortsToExpose(ref)) in r.cluster.objects
      && |r.cluster.objects| == |s.cluster.objects| && |r.cluster.exports| == |s.cluster.exports|
      && (TypedFullName(svc) in Names(s.model) ==>
            && r.model.interactions[s.model.nextId] == Interaction(TypedFullName(svc), node.name, false, false, false)
            && node.name !in r.model.edge)
      && (TypedFullName(svc) !in Names(s.model) ==> r.model == s.model)
  {
    var svc2 := ExtendService(svc, PortsToExpose(ref));
    var s1 := ReuseService(s, node, svc, PortsToExpose(ref)).value;
    var r := RemoveExposingAttributes(s1, ref.owner, ref.index);
    assert ReuseBranch(s, node, ref, svc).value == r;
    var j :| 0 <= j < |s.cluster.objects| && s.cluster.objects[j] == svc;
    assert s1.cluster.objects[j] == svc2;
    assert svc2 != ref.owner;
    assert r.cluster.objects[j] == svc2;
  }

  /** The workload, untouched by the extended Service, is left without the
      container's host ports. */
  lemma ReuseBranchUnexposes(s: State, node: Node, ref: ContainerRef, svc: KubeObject)
    requires ValidRef(ref) && svc.body.Service? && ref.owner in s.cluster.objects
    requires ReuseBranch(s, node, ref, svc).Success?
    ensures var r := ReuseBranch(s, node, ref, svc).value;
      !ref.owner.body.hostNetwork ==> exists w3 :: w3 in r.cluster.objects && WorkloadUnexposed(ref.owner, w3, ref.index)
  {
    var w := ref.owner;
    var s1 := ReuseService(s, node, svc, PortsToExpose(ref)).value;
    var j :| 0 <= j < |s.cluster.objects| && s.cluster.objects[j] == w;
    assert w != svc;
    assert s1.cluster.objects[j] == w;
    RelabelledUnexposed(s1, w, w, ref.index);
  }

  /** Either branch extends the graph and keeps it well-formed. */
  lemma ExposeExtends(s: State, node: Node, ref: ContainerRef, x: ExposureRules,
                      pick: seq<KubeObject> -> nat, labelValue: string)
    requires ValidRef(ref) && WellFormed(s.model) && node.name in Names(s.model)
    requires Expose(s, node, ref, x, pick, labelValue).Success?
    ensures var r := Expose(s, node, ref, x, pick, labelValue).value.0.model;
      Extends(s.model, r) && WellFormed(r)
  {
    var existing := ExistingSvc(s.cluster, ref, x, pick);
    if existing.Some? && x.reachableFromOutside(existing.value) {
      var s1 := ReuseService(s, node, existing.value, PortsToExpose(ref)).value;
      assert ReuseBranch(s, node, ref, existing.value).value.model == s1.model;
    } else {
      assert CreateBranch(s, node, ref, labelValue).model == CreateService(s, node, ref, labelValue).0.model;
    }
  }

  /** Whatever branch `apply` takes, no interaction is lost or has a flag
      switched off, and a well-formed graph whose node the smell is on stays
      well-formed. */
  lemma ApplyExtends(s: State, smell: Smell, ignore: Ignorer, x: ExposureRules, rules: NameRules,
                     pick: seq<KubeObject> -> nat, labelValue: string)
    requires WellFormed(s.model) && smell.node.name in Names(s.model)
    requires Apply(s, smell, ignore, x, rules, pick, labelValue).Success?
    ensures var r := Apply(s, smell, ignore, x, rules, pick, labelValue).value.state.model;
      Extends(s.model, r) && WellFormed(r)
  {
    var found := GetObjectByName(s.cluster, rules, smell.node.name, AnyObject);
    if !ignore(smell.node, RefactoringIgnore, NAME) && smell.kind == NoApiGateway
       && smell.node.kind in {ServiceNode, MessageBrokerNode}
       && found.Success? && found.value.Some? && found.value.value.Cont? {
      var ref := found.value.value.ref;
      ApplyExposes(s, smell, ignore, x, rules, pick, labelValue, ref);
      ExposeExtends(s, smell.node, ref, x, pick, labelValue);
    }
  }
}
