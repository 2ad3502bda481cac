/** What the refactorings share (`solver/refactoring.py` and the base class
    the refactorings extend): the smell they are handed, the state they
    change, and the outcome they report. */
module Refactoring {
  import opened Wrappers
  import opened KubeObjects
  import opened KubeCluster
  import opened ArchModel

  /** The smells the refactorings below distinguish. */
  datatype SmellKind = NoApiGateway | WobblyServiceInteraction | OtherSmell(name: string)

  /** A smell: its kind, the node it is on and the interactions that cause it,
      as ids of the architecture graph. */
  datatype Smell = Smell(kind: SmellKind, node: Node, links: seq<nat>)

  /** `RefactoringStatus`, as written on the report row. */
  datatype Status = SuccessfullyApplied | PartiallyApplied | NotApplied

  /** `(PENDING_OPS.REMOVE_WORKLOAD_HOST_NETWORK, workload)`. */
  datatype PendingOp = RemoveWorkloadHostNetwork(workload: KubeObject)

  /** What a refactoring reads and changes: the cluster, the architecture
      graph and the solver's list of pending operations (absent when the
      solver keeps none). */
  datatype State = State(cluster: Cluster, model: Model, pendingOps: Option<seq<PendingOp>>)

  /** The result of `apply` together with the status its report row ends
      with (`None` when no status is written). */
  datatype Outcome = Outcome(state: State, applied: bool, status: Option<Status>)

  /** The smell's links are interactions of the graph. */
  predicate LinksIn(m: Model, links: seq<nat>) {
    forall k :: 0 <= k < |links| ==> links[k] in m.interactions
  }

  /** The target of interaction `id` is a MessageRouter node. */
  predicate TargetsRouter(m: Model, id: nat)
    requires id in m.interactions
  {
    GetNodeOfKind(m, m.interactions[id].target, MessageRouterNode).Some?
  }

  /** `_add_to_cluster`: the object joins the cluster and gets an export
      record with no file name. */
  function AddToCluster(c: Cluster, o: KubeObject): (r: Cluster)
    ensures o in r.objects
    ensures forall x :: x in c.objects ==> x in r.objects
    ensures forall x :: x in r.objects ==> x in c.objects || x == o
    ensures |r.objects| <= |c.objects| + 1
    ensures r.exports == c.exports + [ExportObject(o, None)]
  {
    AddExportObject(AddObject(c, o), ExportObject(o, None))
  }

  /** The graph changes only in interaction flags, and only by switching on
      the flags that `timeouts` and `breakers` allow. */
  predicate OnlyFlagsOn(m: Model, r: Model, timeouts: bool, breakers: bool) {
    && r.nodes == m.nodes && r.nextId == m.nextId && r.deployedOn == m.deployedOn && r.edge == m.edge
    && r.interactions.Keys == m.interactions.Keys
    && (forall id :: id in m.interactions ==>
          && FlagsExtend(m.interactions[id], r.interactions[id])
          && (!timeouts ==> r.interactions[id].timeout == m.interactions[id].timeout)
          && (!breakers ==> r.interactions[id].circuitBreaker == m.interactions[id].circuitBreaker))
  }

  lemma OnlyFlagsOnTransitive(a: Model, b: Model, c: Model, timeouts: bool, breakers: bool)
    requires OnlyFlagsOn(a, b, timeouts, breakers) && OnlyFlagsOn(b, c, timeouts, breakers)
    ensures OnlyFlagsOn(a, c, timeouts, breakers)
  {
  }

  lemma OnlyFlagsOnWellFormed(m: Model, r: Model, timeouts: bool, breakers: bool)
    requires WellFormed(m) && OnlyFlagsOn(m, r, timeouts, breakers)
    ensures WellFormed(r) && Extends(m, r)
  {
  }
}
