/** The container worker (`ContainerWorker`): a service whose container is
    reachable from the host network, or publishes a host port, belongs to the
    edge group. */
module ContainerWorker {
  import opened Wrappers
  import opened KubeObjects
  import opened KubeCluster
  import opened ArchModel

  /** `check_kobject_node_name_match(container, node)`; its code is not part
      of this model, so the caller supplies it. */
  type NameMatch = (Container, Node) -> bool

  /** The first node of `nodes` the container's name matches. */
  function FirstMatch(nodes: seq<Node>, nameMatch: NameMatch, c: Container): (r: Option<Node>)
    ensures r.None? <==> forall i :: 0 <= i < |nodes| ==> !nameMatch(c, nodes[i])
    ensures r.Some? ==> exists i :: (0 <= i < |nodes| && nodes[i] == r.value && nameMatch(c, nodes[i])
      && forall j :: 0 <= j < i ==> !nameMatch(c, nodes[j]))
  {
    if |nodes| == 0 then None
    else if nameMatch(c, nodes[0]) then Some(nodes[0])
    else
      var rest := FirstMatch(nodes[1..], nameMatch, c);
      assert rest.None? <==> forall i :: 1 <= i < |nodes| ==> !nameMatch(c, nodes[i]) by {
        assert forall i :: 1 <= i < |nodes| ==> nodes[i] == nodes[1..][i - 1];
      }
      assert rest.Some? ==> exists i :: (0 <= i < |nodes| && nodes[i] == rest.value && nameMatch(c, nodes[i])
        && forall j :: 0 <= j < i ==> !nameMatch(c, nodes[j])) by {
        if rest.Some? {
          var i :| 0 <= i < |nodes[1..]| && nodes[1..][i] == rest.value && nameMatch(c, nodes[1..][i])
            && forall j :: 0 <= j < i ==> !nameMatch(c, nodes[1..][j]);
          assert forall j :: 1 <= j < i + 1 ==> nodes[j] == nodes[1..][j - 1];
          assert nodes[i + 1] == rest.value;
        }
      }
      rest
  }

  /** The service node the worker settles on for a container: the first
      service node whose name matches. */
  function ServiceNodeFor(nodes: seq<Node>, nameMatch: NameMatch, c: Container): Option<Node> {
    FirstMatch(OfKind(nodes, ServiceNode), nameMatch, c)
  }

  /** Some port of the container carries a truthy `host_port` value. */
  predicate PublishesHostPort(c: Container) {
    exists k :: 0 <= k < |c.ports| && TruthyInt(c.ports[k].snakeHostPort)
  }

  /** The container is reachable from outside the cluster: its workload uses
      the host network, or else one of its ports sets `host_port`. */
  predicate Reachable(w: KubeObject, c: Container)
    requires w.body.Workload?
  {
    w.body.hostNetwork || PublishesHostPort(c)
  }

  /** The loop over the ports: every port with a truthy `host_port` adds the
      node to the edge group again. */
  function HostPortsEdge(m: Model, ports: seq<Port>, name: string): (r: Model)
    ensures r.nodes == m.nodes && r.interactions == m.interactions && r.nextId == m.nextId && r.deployedOn == m.deployedOn
    decreases |ports|
  {
    if |ports| == 0 then m
    else HostPortsEdge(if TruthyInt(ports[0].snakeHostPort) then AddToEdge(m, name) else m, ports[1..], name)
  }

  lemma {:induction false} HostPortsEdgeAddsOnce(m: Model, ports: seq<Port>, name: string)
    ensures HostPortsEdge(m, ports, name).edge ==
      if exists k :: 0 <= k < |ports| && TruthyInt(ports[k].snakeHostPort) then m.edge + {name} else m.edge
    decreases |ports|
  {
    if |ports| > 0 {
      var m1 := if TruthyInt(ports[0].snakeHostPort) then AddToEdge(m, name) else m;
      HostPortsEdgeAddsOnce(m1, ports[1..], name);
      if exists k :: 0 <= k < |ports[1..]| && TruthyInt(ports[1..][k].snakeHostPort) {
        var k :| 0 <= k < |ports[1..]| && TruthyInt(ports[1..][k].snakeHostPort);
        assert ports[k + 1] == ports[1..][k];
      }
      if exists k :: 0 <= k < |ports| && TruthyInt(ports[k].snakeHostPort) {
        var k :| 0 <= k < |ports| && TruthyInt(ports[k].snakeHostPort);
        if k > 0 {
          assert ports[1..][k - 1] == ports[k];
        }
      }
    }
  }

  /** The body of the loop over one workload's containers. */
  function ContainerEdge(m: Model, nameMatch: NameMatch, w: KubeObject, c: Container): (r: Model)
    requires w.body.Workload?
    ensures r.nodes == m.nodes && r.interactions == m.interactions && r.nextId == m.nextId && r.deployedOn == m.deployedOn
  {
    var found := ServiceNodeFor(m.nodes, nameMatch, c);
    if found.None? then m
    else if w.body.hostNetwork then AddToEdge(m, found.value.name)
    else HostPortsEdge(m, c.ports, found.value.name)
  }

  /** One container adds its service node to the edge group exactly when it
      is reachable and some service node matches it. */
  lemma ContainerEdgeAdds(m: Model, nameMatch: NameMatch, w: KubeObject, c: Container)
    requires w.body.Workload?
    ensures var found := ServiceNodeFor(m.nodes, nameMatch, c);
      ContainerEdge(m, nameMatch, w, c).edge == if found.Some? && Reachable(w, c) then m.edge + {found.value.name} else m.edge
  {
    var found := ServiceNodeFor(m.nodes, nameMatch, c);
    if found.Some? && !w.body.hostNetwork {
      HostPortsEdgeAddsOnce(m, c.ports, found.value.name);
    }
  }

  /** The name of the node container `c` of `w` puts in the edge group. */
  predicate Promotes(nodes: seq<Node>, nameMatch: NameMatch, w: KubeObject, c: Container, y: string)
    requires w.body.Workload?
  {
    Reachable(w, c) && ServiceNodeFor(nodes, nameMatch, c).Some? && ServiceNodeFor(nodes, nameMatch, c).value.name == y
  }

  /** The loop over one workload's containers. */
  function ContainersEdge(m: Model, nameMatch: NameMatch, w: KubeObject, cs: seq<Container>): (r: Model)
    requires w.body.Workload?
    ensures r.nodes == m.nodes && r.interactions == m.interactions && r.nextId == m.nextId && r.deployedOn == m.deployedOn
    decreases |cs|
  {
    if |cs| == 0 then m else ContainersEdge(ContainerEdge(m, nameMatch, w, cs[0]), nameMatch, w, cs[1..])
  }

  lemma {:induction false} ContainersEdgeMember(m: Model, nameMatch: NameMatch, w: KubeObject, cs: seq<Container>, y: string)
    requires w.body.Workload?
    ensures y in ContainersEdge(m, nameMatch, w, cs).edge <==>
      y in m.edge || exists k :: 0 <= k < |cs| && Promotes(m.nodes, nameMatch, w, cs[k], y)
  {
    if y in ContainersEdge(m, nameMatch, w, cs).edge && y !in m.edge {
      var k := ContainersEdgeWitness(m, nameMatch, w, cs, y);
    }
    if y in m.edge {
      ContainersEdgeGrows(m, nameMatch, w, cs);
    }
    if exists k :: 0 <= k < |cs| && Promotes(m.nodes, nameMatch, w, cs[k], y) {
      var k :| 0 <= k < |cs| && Promotes(m.nodes, nameMatch, w, cs[k], y);
      ContainersEdgeComplete(m, nameMatch, w, cs, y, k);
    }
  }

  /** The loop over the containers never removes a member of the edge group. */
  lemma {:induction false} ContainersEdgeGrows(m: Model, nameMatch: NameMatch, w: KubeObject, cs: seq<Container>)
    requires w.body.Workload?
    ensures m.edge <= ContainersEdge(m, nameMatch, w, cs).edge
    decreases |cs|
  {
    if |cs| > 0 {
      var m1 := ContainerEdge(m, nameMatch, w, cs[0]);
      ContainerEdgeAdds(m, nameMatch, w, cs[0]);
      ContainersEdgeGrows(m1, nameMatch, w, cs[1..]);
    }
  }

  /** A name the loop adds comes from one of the containers. */
  lemma {:induction false} ContainersEdgeWitness(m: Model, nameMatch: NameMatch, w: KubeObject, cs: seq<Container>, y: string)
    returns (k: nat)
    requires w.body.Workload?
    requires y in ContainersEdge(m, nameMatch, w, cs).edge && y !in m.edge
    ensures k < |cs| && Promotes(m.nodes, nameMatch, w, cs[k], y)
    decreases |cs|
  {
    var m1 := ContainerEdge(m, nameMatch, w, cs[0]);
    ContainerEdgeAdds(m, nameMatch, w, cs[0]);
    if y in m1.edge {
      k := 0;
    } else {
      var tail := cs[1..];
      var k' := ContainersEdgeWitness(m1, nameMatch, w, tail, y);
      k := k' + 1;
      assert cs[k] == tail[k'];
    }
  }

  /** The name container `cs[k]` promotes ends up in the edge group. */
  lemma {:induction false} ContainersEdgeComplete(m: Model, nameMatch: NameMatch, w: KubeObject, cs: seq<Container>,
                                                  y: string, k: nat)
    requires w.body.Workload?
    requires k < |cs| && Promotes(m.nodes, nameMatch, w, cs[k], y)
    ensures y in ContainersEdge(m, nameMatch, w, cs).edge
    decreases |cs|
  {
    var m1 := ContainerEdge(m, nameMatch, w, cs[0]);
    ContainerEdgeAdds(m, nameMatch, w, cs[0]);
    var tail := cs[1..];
    if k == 0 {
      ContainersEdgeGrows(m1, nameMatch, w, tail);
    } else {
      assert tail[k - 1] == cs[k];
      ContainersEdgeComplete(m1, nameMatch, w, tail, y, k - 1);
    }
  }

  /** A container of workload `w` puts `y` in the edge group. */
  predicate WorkloadPromotes(nodes: seq<Node>, nameMatch: NameMatch, w: KubeObject, y: string) {
    w.body.Workload? &&
      exists k :: 0 <= k < |w.body.containers| && Promotes(nodes, nameMatch, w, w.body.containers[k], y)
  }

  /** A container of some workload in `ws` puts `y` in the edge group. */
  predicate SomeWorkloadPromotes(nodes: seq<Node>, nameMatch: NameMatch, ws: seq<KubeObject>, y: string) {
    exists i :: 0 <= i < |ws| && WorkloadPromotes(nodes, nameMatch, ws[i], y)
  }

  /** The loop over the workloads. */
  function WorkloadsEdge(m: Model, nameMatch: NameMatch, ws: seq<KubeObject>): (r: Model)
    requires forall i :: 0 <= i < |ws| ==> ws[i].body.Workload?
    ensures r.nodes == m.nodes && r.interactions == m.interactions && r.nextId == m.nextId && r.deployedOn == m.deployedOn
    decreases |ws|
  {
    if |ws| == 0 then m else WorkloadsEdge(ContainersEdge(m, nameMatch, ws[0], ws[0].body.containers), nameMatch, ws[1..])
  }

  lemma {:induction false} WorkloadsEdgeMember(m: Model, nameMatch: NameMatch, ws: seq<KubeObject>, y: string)
    requires forall i :: 0 <= i < |ws| ==> ws[i].body.Workload?
    ensures y in WorkloadsEdge(m, nameMatch, ws).edge <==> y in m.edge || SomeWorkloadPromotes(m.nodes, nameMatch, ws, y)
  {
    if y in WorkloadsEdge(m, nameMatch, ws).edge && y !in m.edge {
      var i := WorkloadsEdgeWitness(m, nameMatch, ws, y);
    }
    if y in m.edge {
      WorkloadsEdgeGrows(m, nameMatch, ws);
    }
    if SomeWorkloadPromotes(m.nodes, nameMatch, ws, y) {
      var i :| 0 <= i < |ws| && WorkloadPromotes(m.nodes, nameMatch, ws[i], y);
      var k :| 0 <= k < |ws[i].body.containers| && Promotes(m.nodes, nameMatch, ws[i], ws[i].body.containers[k], y);
      WorkloadsEdgeComplete(m, nameMatch, ws, y, i, k);
    }
  }

  /** The loop over the workloads never removes a member of the edge group. */
  lemma {:induction false} WorkloadsEdgeGrows(m: Model, nameMatch: NameMatch, ws: seq<KubeObject>)
    requires forall i :: 0 <= i < |ws| ==> ws[i].body.Workload?
    ensures m.edge <= WorkloadsEdge(m, nameMatch, ws).edge
    decreases |ws|
  {
    if |ws| > 0 {
      var m1 := ContainersEdge(m, nameMatch, ws[0], ws[0].body.containers);
      ContainersEdgeGrows(m, nameMatch, ws[0], ws[0].body.containers);
      WorkloadsEdgeGrows(m1, nameMatch, ws[1..]);
    }
  }

  /** A name the loop adds comes from one of the workloads. */
  lemma {:induction false} WorkloadsEdgeWitness(m: Model, nameMatch: NameMatch, ws: seq<KubeObject>, y: string)
    returns (i: nat)
    requires forall i :: 0 <= i < |ws| ==> ws[i].body.Workload?
    requires y in WorkloadsEdge(m, nameMatch, ws).edge && y !in m.edge
    ensures i < |ws| && WorkloadPromotes(m.nodes, nameMatch, ws[i], y)
    decreases |ws|
  {
    var m1 := ContainersEdge(m, nameMatch, ws[0], ws[0].body.containers);
    if y in m1.edge {
      var k := ContainersEdgeWitness(m, nameMatch, ws[0], ws[0].body.containers, y);
      i := 0;
    } else {
      var tail := ws[1..];
      var i' := WorkloadsEdgeWitness(m1, nameMatch, tail, y);
      i := i' + 1;
      assert ws[i] == tail[i'];
    }
  }

  /** The name container `k` of `ws[i]` promotes ends up in the edge group. */
  lemma {:induction false} WorkloadsEdgeComplete(m: Model, nameMatch: NameMatch, ws: seq<KubeObject>, y: string,
                                                 i: nat, k: nat)
    requires forall i :: 0 <= i < |ws| ==> ws[i].body.Workload?
    requires i < |ws| && k < |ws[i].body.containers| && Promotes(m.nodes, nameMatch, ws[i], ws[i].body.containers[k], y)
    ensures y in WorkloadsEdge(m, nameMatch, ws).edge
    decreases |ws|
  {
    var m1 := ContainersEdge(m, nameMatch, ws[0], ws[0].body.containers);
    var tail := ws[1..];
    assert forall j :: 0 <= j < |tail| ==> tail[j].body.Workload?;
    assert WorkloadsEdge(m, nameMatch, ws) == WorkloadsEdge(m1, nameMatch, tail);
    if i == 0 {
      ContainersEdgeComplete(m, nameMatch, ws[0], ws[0].body.containers, y, k);
      WorkloadsEdgeGrows(m1, nameMatch, tail);
    } else {
      var w := ws[i];
      assert tail[i - 1] == w;
      assert m1.nodes == m.nodes;
      WorkloadsEdgeComplete(m1, nameMatch, tail, y, i - 1, k);
    }
  }

  /** `refine` / `_check_for_edge_services`. */
  function Refine(m: Model, c: Cluster, nameMatch: NameMatch): (r: Model)
    ensures r.nodes == m.nodes && r.interactions == m.interactions && r.nextId == m.nextId && r.deployedOn == m.deployedOn
  {
    WorkloadsEdge(m, nameMatch, Workloads(c))
  }

  /** A node is in the edge group afterwards exactly when it was before, or
      it is the first service node matching a reachable container of some
      workload. */
  lemma RefineEdge(m: Model, c: Cluster, nameMatch: NameMatch, y: string)
    ensures y in Refine(m, c, nameMatch).edge <==> y in m.edge || SomeWorkloadPromotes(m.nodes, nameMatch, Workloads(c), y)
  {
    WorkloadsEdgeMember(m, nameMatch, Workloads(c), y);
  }

  /** The worker only ever adds service nodes to the edge group, and so keeps
      the graph well formed. */
  lemma RefineAddsServiceNodes(m: Model, c: Cluster, nameMatch: NameMatch)
    ensures var r := Refine(m, c, nameMatch);
      && m.edge <= r.edge
      && (forall y :: y in r.edge && y !in m.edge ==> exists n :: n in m.nodes && n.name == y && n.kind == ServiceNode)
      && (WellFormed(m) ==> WellFormed(r))
  {
    var r := Refine(m, c, nameMatch);
    var ws := Workloads(c);
    forall y | y in r.edge && y !in m.edge ensures exists n :: n in m.nodes && n.name == y && n.kind == ServiceNode {
      RefineEdge(m, c, nameMatch, y);
      var i :| 0 <= i < |ws| && WorkloadPromotes(m.nodes, nameMatch, ws[i], y);
      var k :| 0 <= k < |ws[i].body.containers| && Promotes(m.nodes, nameMatch, ws[i], ws[i].body.containers[k], y);
      var n := ServiceNodeFor(m.nodes, nameMatch, ws[i].body.containers[k]).value;
      assert n in OfKind(m.nodes, ServiceNode);
    }
    forall y | y in m.edge ensures y in r.edge {
      RefineEdge(m, c, nameMatch, y);
    }
    if WellFormed(m) {
      forall y | y in r.edge ensures y in Names(m) {
        if y !in m.edge {
          var n :| n in m.nodes && n.name == y && n.kind == ServiceNode;
          var j :| 0 <= j < |m.nodes| && m.nodes[j] == n;
        }
      }
    }
  }
}
