/** The compute-node worker (`compute_node_worker.py`): every workload gets a
    Compute node named after its typed fullname, and the nodes of its
    containers are deployed on it. */
module ComputeNodeWorker {
  import opened Wrappers
  import opened KubeObjects
  import opened KubeCluster
  import opened ArchModel
  import opened KubeWorker

  /** The Compute node every workload is given. */
  function ComputeFor(w: KubeObject): Node {
    Node(TypedFullName(w), ComputeNode)
  }

  /** `_get_or_create_compute`: the Compute node called `name`, added when the
      graph has no Compute node of that name. */
  function GetOrCreateCompute(m: Model, name: string): (r: (Model, Node))
    ensures r.1 == Node(name, ComputeNode)
    ensures GetNodeOfKind(r.0, name, ComputeNode) == Some(r.1)
    ensures GetNodeOfKind(m, name, ComputeNode).Some? ==> r.0 == m
    ensures Names(r.0) == Names(m) + {name}
    ensures forall x :: x != name ==> GetNode(r.0, x) == GetNode(m, x)
    ensures r.0.interactions == m.interactions && r.0.nextId == m.nextId
    ensures r.0.deployedOn == m.deployedOn && r.0.edge == m.edge
    ensures UniqueNames(m.nodes) ==> UniqueNames(r.0.nodes)
  {
    var found := GetNodeOfKind(m, name, ComputeNode);
    if found.Some? then (m, found.value)
    else (AddNode(m, Node(name, ComputeNode)), Node(name, ComputeNode))
  }

  /** A container's node is deployed on a compute node when a node of the
      container's typed fullname exists and is in the snapshot. */
  predicate Deployable(m: Model, c: Container, snapshot: seq<Node>) {
    GetNode(m, c.typedFullname).Some? && GetNode(m, c.typedFullname).value in snapshot
  }

  /** The inner loop of `_add_compute_nodes`, from container `i` on. */
  function DeployContainers(m: Model, cs: seq<Container>, i: nat, compute: Node, snapshot: seq<Node>): (r: Model)
    requires i <= |cs|
    ensures r.nodes == m.nodes && r.interactions == m.interactions && r.nextId == m.nextId && r.edge == m.edge
    ensures forall e :: e in r.deployedOn <==> (e in m.deployedOn ||
      exists k :: i <= k < |cs| && Deployable(m, cs[k], snapshot) && e == DeployedOn(cs[k].typedFullname, compute.name))
    decreases |cs| - i
  {
    if i == |cs| then m
    else
      var m' := if Deployable(m, cs[i], snapshot) then AddDeployedOn(m, cs[i].typedFullname, compute.name) else m;
      DeployContainers(m', cs, i + 1, compute, snapshot)
  }

  /** Container `k` of `w` yields relationship `e` (a container sharing the
      workload's own typed fullname finds the Compute node under that name,
      which is not in the snapshot). */
  predicate DeploysFrom(m: Model, w: KubeObject, k: int, snapshot: seq<Node>, e: DeployedOn)
    requires w.body.Workload?
  {
    && 0 <= k < |w.body.containers|
    && Deployable(m, w.body.containers[k], snapshot)
    && w.body.containers[k].typedFullname != TypedFullName(w)
    && e == DeployedOn(w.body.containers[k].typedFullname, TypedFullName(w))
  }

  /** One workload's turn in `_add_compute_nodes`. The deployed-on
      relationships are added only when the compute node is NOT among the
      snapshot's non-ignored nodes: a freshly created one never is, an existing
      one is skipped unless ignored. */
  function ComputeStep(m: Model, w: KubeObject, snapshot: seq<Node>): (r: Model)
    requires w.body.Workload?
    ensures GetNodeOfKind(r, TypedFullName(w), ComputeNode).Some?
    ensures forall x :: x != TypedFullName(w) ==> GetNode(r, x) == GetNode(m, x)
    ensures Names(r) == Names(m) + {TypedFullName(w)}
    ensures r.interactions == m.interactions && r.nextId == m.nextId && r.edge == m.edge
    ensures UniqueNames(m.nodes) ==> UniqueNames(r.nodes)
    ensures GetNodeOfKind(m, TypedFullName(w), ComputeNode).Some? ==> r.nodes == m.nodes
    ensures forall e :: e in r.deployedOn <==> (e in m.deployedOn ||
      (ComputeFor(w) !in snapshot && exists k :: DeploysFrom(m, w, k, snapshot, e)))
  {
    var (m1, compute) := GetOrCreateCompute(m, TypedFullName(w));
    var cs := w.body.containers;
    if compute !in snapshot then
      var r := DeployContainers(m1, cs, 0, compute, snapshot);
      assert forall k :: 0 <= k < |cs| ==>
          (Deployable(m1, cs[k], snapshot) <==> Deployable(m, cs[k], snapshot) && cs[k].typedFullname != TypedFullName(w)) by {
        forall k | 0 <= k < |cs|
          ensures Deployable(m1, cs[k], snapshot) <==> Deployable(m, cs[k], snapshot) && cs[k].typedFullname != TypedFullName(w)
        {
          if cs[k].typedFullname == TypedFullName(w) {
            assert GetNode(m1, cs[k].typedFullname).value == compute;
          }
        }
      }
      forall e | e in r.deployedOn && e !in m.deployedOn ensures exists k :: DeploysFrom(m, w, k, snapshot, e) {
        var k :| 0 <= k < |cs| && Deployable(m1, cs[k], snapshot) && e == DeployedOn(cs[k].typedFullname, compute.name);
        assert DeploysFrom(m, w, k, snapshot, e);
      }
      r
    else m1
  }

  /** The outer loop of `_add_compute_nodes`, from workload `i` on. */
  function AddComputeNodes(m: Model, ws: seq<KubeObject>, i: nat, snapshot: seq<Node>): (r: Model)
    requires i <= |ws| && forall k :: 0 <= k < |ws| ==> ws[k].body.Workload?
    ensures r.interactions == m.interactions && r.nextId == m.nextId && r.edge == m.edge
    ensures m.deployedOn <= r.deployedOn
    ensures UniqueNames(m.nodes) ==> UniqueNames(r.nodes)
    decreases |ws| - i
  {
    if i == |ws| then m else AddComputeNodes(ComputeStep(m, ws[i], snapshot), ws, i + 1, snapshot)
  }

  /** Each visited workload ends with its Compute node. */
  lemma {:induction false} AddComputeNodesCreates(m: Model, ws: seq<KubeObject>, i: nat, snapshot: seq<Node>, k: nat)
    requires i <= k < |ws| && forall l :: 0 <= l < |ws| ==> ws[l].body.Workload?
    ensures GetNodeOfKind(AddComputeNodes(m, ws, i, snapshot), TypedFullName(ws[k]), ComputeNode).Some?
    decreases |ws| - i
  {
    var m1 := ComputeStep(m, ws[i], snapshot);
    if k == i {
      AddComputeNodesKeepsComputes(m1, ws, i + 1, snapshot, TypedFullName(ws[i]));
    } else {
      AddComputeNodesCreates(m1, ws, i + 1, snapshot, k);
    }
  }

  /** No Compute node goes away. */
  lemma {:induction false} AddComputeNodesKeepsComputes(m: Model, ws: seq<KubeObject>, i: nat, snapshot: seq<Node>, x: string)
    requires i <= |ws| && forall k :: 0 <= k < |ws| ==> ws[k].body.Workload?
    requires GetNodeOfKind(m, x, ComputeNode).Some?
    ensures GetNodeOfKind(AddComputeNodes(m, ws, i, snapshot), x, ComputeNode).Some?
    decreases |ws| - i
  {
    if i < |ws| {
      AddComputeNodesKeepsComputes(ComputeStep(m, ws[i], snapshot), ws, i + 1, snapshot, x);
    }
  }

  /** No node name goes away. */
  lemma {:induction false} AddComputeNodesKeepsNames(m: Model, ws: seq<KubeObject>, i: nat, snapshot: seq<Node>)
    requires i <= |ws| && forall k :: 0 <= k < |ws| ==> ws[k].body.Workload?
    ensures Names(m) <= Names(AddComputeNodes(m, ws, i, snapshot))
    decreases |ws| - i
  {
    if i < |ws| {
      AddComputeNodesKeepsNames(ComputeStep(m, ws[i], snapshot), ws, i + 1, snapshot);
    }
  }

  /** Nodes whose name is no visited workload's typed fullname are left alone. */
  lemma {:induction false} AddComputeNodesFrame(m: Model, ws: seq<KubeObject>, i: nat, snapshot: seq<Node>, x: string)
    requires i <= |ws| && forall k :: 0 <= k < |ws| ==> ws[k].body.Workload?
    requires forall k :: i <= k < |ws| ==> TypedFullName(ws[k]) != x
    ensures GetNode(AddComputeNodes(m, ws, i, snapshot), x) == GetNode(m, x)
    decreases |ws| - i
  {
    if i < |ws| {
      AddComputeNodesFrame(ComputeStep(m, ws[i], snapshot), ws, i + 1, snapshot, x);
    }
  }

  /** When every visited workload already has its Compute node, no node is created. */
  lemma {:induction false} AddComputeNodesKeepsNodes(m: Model, ws: seq<KubeObject>, i: nat, snapshot: seq<Node>)
    requires i <= |ws| && forall k :: 0 <= k < |ws| ==> ws[k].body.Workload?
    requires forall k :: i <= k < |ws| ==> GetNodeOfKind(m, TypedFullName(ws[k]), ComputeNode).Some?
    ensures AddComputeNodes(m, ws, i, snapshot).nodes == m.nodes
    decreases |ws| - i
  {
    if i < |ws| {
      var m1 := ComputeStep(m, ws[i], snapshot);
      assert m1.nodes == m.nodes;
      forall k | i + 1 <= k < |ws| ensures GetNodeOfKind(m1, TypedFullName(ws[k]), ComputeNode).Some? {
        assert GetNode(m1, TypedFullName(ws[k])) == GetNode(m, TypedFullName(ws[k])) by {
          IndexOfIsFirst(m1.nodes, TypedFullName(ws[k]), IndexOf(m.nodes, TypedFullName(ws[k])));
        }
      }
      AddComputeNodesKeepsNodes(m1, ws, i + 1, snapshot);
    }
  }

  /** Every added relationship runs from a snapshot node to the Compute node of
      a visited workload that is not in the snapshot. */
  lemma {:induction false} AddComputeNodesOrigin(m: Model, ws: seq<KubeObject>, i: nat, snapshot: seq<Node>, e: DeployedOn)
    requires i <= |ws| && forall k :: 0 <= k < |ws| ==> ws[k].body.Workload?
    requires e in AddComputeNodes(m, ws, i, snapshot).deployedOn && e !in m.deployedOn
    ensures Node(e.target, ComputeNode) !in snapshot
    ensures exists n :: n in snapshot && n.name == e.source
    ensures exists k :: i <= k < |ws| && TypedFullName(ws[k]) == e.target
    decreases |ws| - i
  {
    var m1 := ComputeStep(m, ws[i], snapshot);
    if e in m1.deployedOn {
      var k :| DeploysFrom(m, ws[i], k, snapshot, e);
      assert GetNode(m, e.source).value in snapshot;
    } else {
      AddComputeNodesOrigin(m1, ws, i + 1, snapshot, e);
    }
  }

  /** A container whose node is in the snapshot is deployed on its workload's
      Compute node when that node is not in the snapshot, provided no visited
      workload's Compute node takes the container's name first. */
  lemma {:induction false} AddComputeNodesDeploys(m: Model, ws: seq<KubeObject>, i: nat, snapshot: seq<Node>, k: nat, j: nat)
    requires i <= k < |ws| && forall l :: 0 <= l < |ws| ==> ws[l].body.Workload?
    requires j < |ws[k].body.containers|
    requires ComputeFor(ws[k]) !in snapshot
    requires Deployable(m, ws[k].body.containers[j], snapshot)
    requires forall l :: i <= l < |ws| ==> TypedFullName(ws[l]) != ws[k].body.containers[j].typedFullname
    ensures DeployedOn(ws[k].body.containers[j].typedFullname, TypedFullName(ws[k])) in AddComputeNodes(m, ws, i, snapshot).deployedOn
    decreases |ws| - i
  {
    var m1 := ComputeStep(m, ws[i], snapshot);
    var c := ws[k].body.containers[j];
    if k == i {
      assert DeploysFrom(m, ws[i], j, snapshot, DeployedOn(c.typedFullname, TypedFullName(ws[k])));
    } else {
      assert GetNode(m1, c.typedFullname) == GetNode(m, c.typedFullname);
      AddComputeNodesDeploys(m1, ws, i + 1, snapshot, k, j);
    }
  }

  /** `ComputeNodeWorker.refine`: the snapshot of non-ignored nodes is taken
      once, before any Compute node is created. */
  function Refine(m: Model, c: Cluster, ignore: Option<Ignorer>): (r: Model)
    ensures forall w :: w in Workloads(c) ==> GetNodeOfKind(r, TypedFullName(w), ComputeNode).Some?
    ensures r.interactions == m.interactions && r.edge == m.edge && m.deployedOn <= r.deployedOn
    ensures Names(m) <= Names(r)
  {
    var ws := Workloads(c);
    var r := AddComputeNodes(m, ws, 0, NodesNotIgnored(m.nodes, ignore, COMPUTE_NODE_WORKER));
    AddComputeNodesKeepsNames(m, ws, 0, NodesNotIgnored(m.nodes, ignore, COMPUTE_NODE_WORKER));
    forall w | w in ws ensures GetNodeOfKind(r, TypedFullName(w), ComputeNode).Some? {
      var k :| 0 <= k < |ws| && ws[k] == w;
      AddComputeNodesCreates(m, ws, 0, NodesNotIgnored(m.nodes, ignore, COMPUTE_NODE_WORKER), k);
    }
    r
  }

  /** Every relationship the worker adds runs from a non-ignored node to the
      Compute node of a workload that is not in the non-ignored snapshot. */
  lemma RefineAddsOnlyFromSnapshot(m: Model, c: Cluster, ignore: Option<Ignorer>, e: DeployedOn)
    requires e in Refine(m, c, ignore).deployedOn && e !in m.deployedOn
    ensures var snapshot := NodesNotIgnored(m.nodes, ignore, COMPUTE_NODE_WORKER);
      && Node(e.target, ComputeNode) !in snapshot
      && (exists n :: n in snapshot && n.name == e.source)
      && (exists w :: w in Workloads(c) && TypedFullName(w) == e.target)
  {
    var ws := Workloads(c);
    var snapshot := NodesNotIgnored(m.nodes, ignore, COMPUTE_NODE_WORKER);
    AddComputeNodesOrigin(m, ws, 0, snapshot, e);
    var k :| 0 <= k < |ws| && TypedFullName(ws[k]) == e.target;
    assert ws[k] in ws;
  }

  /** A container whose node exists and is not ignored is deployed on the
      Compute node of its workload, when that Compute node is not in the
      snapshot and no workload shares the container's typed fullname. */
  lemma RefineDeploysContainers(m: Model, c: Cluster, ignore: Option<Ignorer>, k: nat, j: nat)
    requires k < |Workloads(c)| && j < |Workloads(c)[k].body.containers|
    requires ComputeFor(Workloads(c)[k]) !in NodesNotIgnored(m.nodes, ignore, COMPUTE_NODE_WORKER)
    requires Deployable(m, Workloads(c)[k].body.containers[j], NodesNotIgnored(m.nodes, ignore, COMPUTE_NODE_WORKER))
    requires forall w :: w in Workloads(c) ==> TypedFullName(w) != Workloads(c)[k].body.containers[j].typedFullname
    ensures DeployedOn(Workloads(c)[k].body.containers[j].typedFullname, TypedFullName(Workloads(c)[k])) in Refine(m, c, ignore).deployedOn
  {
    var ws := Workloads(c);
    assert forall l :: 0 <= l < |ws| ==> TypedFullName(ws[l]) != ws[k].body.containers[j].typedFullname by {
      forall l | 0 <= l < |ws| ensures TypedFullName(ws[l]) != ws[k].body.containers[j].typedFullname {
        assert ws[l] in ws;
      }
    }
    AddComputeNodesDeploys(m, ws, 0, NodesNotIgnored(m.nodes, ignore, COMPUTE_NODE_WORKER), k, j);
  }

  /** Running the worker again creates no node: every workload already has its
      Compute node. */
  lemma RefineTwiceAddsNoNodes(m: Model, c: Cluster, ignore: Option<Ignorer>, ignore2: Option<Ignorer>)
    ensures Refine(Refine(m, c, ignore), c, ignore2).nodes == Refine(m, c, ignore).nodes
  {
    var r := Refine(m, c, ignore);
    var ws := Workloads(c);
    assert forall k :: 0 <= k < |ws| ==> GetNodeOfKind(r, TypedFullName(ws[k]), ComputeNode).Some? by {
      forall k | 0 <= k < |ws| ensures GetNodeOfKind(r, TypedFullName(ws[k]), ComputeNode).Some? {
        assert ws[k] in ws;
      }
    }
    AddComputeNodesKeepsNodes(r, ws, 0, NodesNotIgnored(r.nodes, ignore2, COMPUTE_NODE_WORKER));
  }

  /** The graph stays well formed. */
  lemma RefineWellFormed(m: Model, c: Cluster, ignore: Option<Ignorer>)
    requires WellFormed(m)
    ensures WellFormed(Refine(m, c, ignore))
  {
    var ws := Workloads(c);
    var snapshot := NodesNotIgnored(m.nodes, ignore, COMPUTE_NODE_WORKER);
    var r := Refine(m, c, ignore);
    forall e | e in r.deployedOn ensures e.source in Names(r) && e.target in Names(r) {
      if e !in m.deployedOn {
        RefineAddsOnlyFromSnapshot(m, c, ignore, e);
        var n :| n in snapshot && n.name == e.source;
        assert n in m.nodes;
        var w :| w in ws && TypedFullName(w) == e.target;
        assert GetNodeOfKind(r, TypedFullName(w), ComputeNode).Some?;
      }
    }
  }
}
