/** The architecture graph the workers and refactorings edit: named nodes of
    five kinds, interactions carrying the timeout, circuit-breaker and
    dynamic-discovery flags, deployed-on relationships, and the "edge" group of
    externally reachable nodes. Nodes are referred to by name, interactions by
    an id handed out at creation, so that a smell can keep pointing at an
    interaction whose flags change. */
module ArchModel {
  import opened Wrappers

  datatype NodeKind = ServiceNode | MessageRouterNode | MessageBrokerNode | DatastoreNode | ComputeNode

  datatype Node = Node(name: string, kind: NodeKind)

  datatype Interaction = Interaction(
    source: string,
    target: string,
    timeout: bool,
    circuitBreaker: bool,
    dynamicDiscovery: bool)

  datatype DeployedOn = DeployedOn(source: string, target: string)

  datatype Model = Model(
    nodes: seq<Node>,
    interactions: map<nat, Interaction>,
    nextId: nat,
    deployedOn: set<DeployedOn>,
    edge: set<string>)

  function EmptyModel(): (m: Model)
    ensures WellFormed(m) && |m.nodes| == 0 && |m.interactions| == 0
  {
    Model([], map[], 0, {}, {})
  }

  function Names(m: Model): set<string> {
    set i | 0 <= i < |m.nodes| :: m.nodes[i].name
  }

  predicate UniqueNames(nodes: seq<Node>) {
    forall i, j :: 0 <= i < j < |nodes| ==> nodes[i].name != nodes[j].name
  }

  predicate Touches(x: Interaction, name: string) {
    x.source == name || x.target == name
  }

  /** Names are unique, every id is below the next one to hand out, and every
      relationship and group member refers to a node of the graph. */
  predicate WellFormed(m: Model) {
    && UniqueNames(m.nodes)
    && (forall id :: id in m.interactions ==> id < m.nextId)
    && (forall id :: id in m.interactions ==>
          m.interactions[id].source in Names(m) && m.interactions[id].target in Names(m))
    && (forall d :: d in m.deployedOn ==> d.source in Names(m) && d.target in Names(m))
    && m.edge <= Names(m)
  }

  /** Position of the first node called `name`, or the length when none is. */
  function IndexOf(nodes: seq<Node>, name: string): (r: nat)
    ensures r <= |nodes|
    ensures r < |nodes| ==> nodes[r].name == name
    ensures forall j :: 0 <= j < r ==> nodes[j].name != name
  {
    if |nodes| == 0 then 0
    else if nodes[0].name == name then 0
    else 1 + IndexOf(nodes[1..], name)
  }

  lemma IndexOfIsFirst(nodes: seq<Node>, name: string, k: nat)
    requires k <= |nodes| && (k < |nodes| ==> nodes[k].name == name)
    requires forall j :: 0 <= j < k ==> nodes[j].name != name
    ensures IndexOf(nodes, name) == k
  {
    var i := IndexOf(nodes, name);
    assert i < |nodes| ==> nodes[i].name == name;
    assert k < |nodes| ==> nodes[k].name == name;
  }

  /** `get_node_by_name(name)`. */
  function GetNode(m: Model, name: string): (r: Option<Node>)
    ensures r.Some? <==> name in Names(m)
    ensures r.Some? ==> r.value.name == name && r.value in m.nodes
  {
    var i := IndexOf(m.nodes, name);
    if i < |m.nodes| then Some(m.nodes[i])
    else
      assert forall j :: 0 <= j < |m.nodes| ==> m.nodes[j].name != name;
      None
  }

  /** `get_node_by_name(name, kind)`: the node called `name`, only when it has that kind. */
  function GetNodeOfKind(m: Model, name: string, kind: NodeKind): (r: Option<Node>)
    ensures r.Some? <==> name in Names(m) && GetNode(m, name).value.kind == kind
    ensures r.Some? ==> r.value in m.nodes && r.value == Node(name, kind)
  {
    var n := GetNode(m, name);
    if n.Some? && n.value.kind == kind then n else None
  }

  lemma GetNodeOfUnique(m: Model, k: nat)
    requires UniqueNames(m.nodes) && k < |m.nodes|
    ensures GetNode(m, m.nodes[k].name) == Some(m.nodes[k])
  {
    IndexOfIsFirst(m.nodes, m.nodes[k].name, k);
  }

  /** A node of a graph with unique names is what lookup by its name finds. */
  lemma NodeInUnique(m: Model, n: Node)
    requires UniqueNames(m.nodes) && n in m.nodes
    ensures GetNode(m, n.name) == Some(n)
  {
    var k :| 0 <= k < |m.nodes| && m.nodes[k] == n;
    GetNodeOfUnique(m, k);
  }

  /** `model.services`: the Service nodes, in order. */
  function ServiceNodes(m: Model): (r: seq<Node>)
    ensures forall i :: 0 <= i < |r| ==> r[i].kind == ServiceNode && r[i] in m.nodes
    ensures forall i :: 0 <= i < |m.nodes| && m.nodes[i].kind == ServiceNode ==> m.nodes[i] in r
  {
    OfKind(m.nodes, ServiceNode)
  }

  function OfKind(nodes: seq<Node>, kind: NodeKind): (r: seq<Node>)
    ensures forall i :: 0 <= i < |r| ==> r[i].kind == kind && r[i] in nodes
    ensures forall i :: 0 <= i < |nodes| && nodes[i].kind == kind ==> nodes[i] in r
  {
    if |nodes| == 0 then []
    else if nodes[0].kind == kind then [nodes[0]] + OfKind(nodes[1..], kind)
    else OfKind(nodes[1..], kind)
  }

  /** `add_node`: nodes are keyed by name, so a node whose name is taken
      replaces the one holding it, in place; otherwise it is appended. */
  function AddNode(m: Model, n: Node): (r: Model)
    ensures GetNode(r, n.name) == Some(n)
    ensures forall x :: x != n.name ==> GetNode(r, x) == GetNode(m, x)
    ensures Names(r) == Names(m) + {n.name}
    ensures r.interactions == m.interactions && r.nextId == m.nextId
    ensures r.deployedOn == m.deployedOn && r.edge == m.edge
    ensures UniqueNames(m.nodes) ==> UniqueNames(r.nodes)
    ensures forall i :: 0 <= i < |r.nodes| ==> r.nodes[i] == n || r.nodes[i] in m.nodes
  {
    var r := m.(nodes := PutNode(m.nodes, n));
    PutNodeFinds(m, n);
    forall x | x != n.name ensures GetNode(r, x) == GetNode(m, x) {
      PutNodeFrame(m, n, x);
    }
    PutNodeNames(m, n);
    PutNodeUnique(m.nodes, n);
    r
  }

  /** The node list after `add_node`. */
  function PutNode(nodes: seq<Node>, n: Node): (r: seq<Node>)
    ensures forall i :: 0 <= i < |r| ==> r[i] == n || r[i] in nodes
  {
    var i := IndexOf(nodes, n.name);
    if i < |nodes| then nodes[i := n] else nodes + [n]
  }

  lemma PutNodeFinds(m: Model, n: Node)
    ensures GetNode(m.(nodes := PutNode(m.nodes, n)), n.name) == Some(n)
  {
    var i := IndexOf(m.nodes, n.name);
    IndexOfIsFirst(PutNode(m.nodes, n), n.name, i);
  }

  lemma PutNodeFrame(m: Model, n: Node, x: string)
    requires x != n.name
    ensures GetNode(m.(nodes := PutNode(m.nodes, n)), x) == GetNode(m, x)
  {
    var r := PutNode(m.nodes, n);
    var j := IndexOf(m.nodes, x);
    IndexOfIsFirst(r, x, if j < |m.nodes| then j else |r|);
  }

  lemma PutNodeNames(m: Model, n: Node)
    ensures Names(m.(nodes := PutNode(m.nodes, n))) == Names(m) + {n.name}
  {
    var r := m.(nodes := PutNode(m.nodes, n));
    var i := IndexOf(m.nodes, n.name);
    forall x | x in Names(m) + {n.name} ensures x in Names(r) {
      if x != n.name {
        var k :| 0 <= k < |m.nodes| && m.nodes[k].name == x;
        assert r.nodes[k].name == x;
      } else {
        assert r.nodes[i].name == x;
      }
    }
  }

  lemma PutNodeUnique(nodes: seq<Node>, n: Node)
    ensures UniqueNames(nodes) ==> UniqueNames(PutNode(nodes, n))
  {
  }

  lemma AddNodeWellFormed(m: Model, n: Node)
    requires WellFormed(m)
    ensures WellFormed(AddNode(m, n))
  {
  }

  /** Every node but those called `name`, in order. */
  function WithoutNode(nodes: seq<Node>, name: string): (r: seq<Node>)
    ensures forall i :: 0 <= i < |r| ==> r[i].name != name && r[i] in nodes
    ensures forall i :: 0 <= i < |nodes| && nodes[i].name != name ==> nodes[i] in r
    ensures UniqueNames(nodes) ==> UniqueNames(r)
  {
    if |nodes| == 0 then []
    else
      var tail := nodes[1..];
      var rest := WithoutNode(tail, name);
      assert forall i :: 1 <= i < |nodes| ==> nodes[i] == tail[i - 1];
      assert UniqueNames(nodes) ==> UniqueNames(tail);
      if nodes[0].name == name then rest
      else
        assert UniqueNames(nodes) ==> forall k :: 0 <= k < |rest| ==> rest[k].name != nodes[0].name;
        [nodes[0]] + rest
  }

  /** `delete_node`: the node goes, and with it every interaction and
      deployed-on relationship that touches it and its membership of the edge
      group. */
  function DeleteNode(m: Model, name: string): (r: Model)
    ensures Names(r) == Names(m) - {name}
    ensures forall i :: 0 <= i < |r.nodes| ==> r.nodes[i] in m.nodes
    ensures forall id :: id in r.interactions <==> id in m.interactions && !Touches(m.interactions[id], name)
    ensures forall id :: id in r.interactions ==> r.interactions[id] == m.interactions[id]
    ensures forall d :: d in r.deployedOn <==> d in m.deployedOn && d.source != name && d.target != name
    ensures r.edge == m.edge - {name} && r.nextId == m.nextId
  {
    var r := Model(
      WithoutNode(m.nodes, name),
      (map id | id in m.interactions && !Touches(m.interactions[id], name) :: m.interactions[id]),
      m.nextId,
      (set d | d in m.deployedOn && d.source != name && d.target != name),
      m.edge - {name});
    assert Names(r) == Names(m) - {name} by {
      forall x | x in Names(m) - {name} ensures x in Names(r) {
        var k :| 0 <= k < |m.nodes| && m.nodes[k].name == x;
        assert m.nodes[k] in r.nodes;
      }
    }
    r
  }

  lemma DeleteNodeWellFormed(m: Model, name: string)
    requires WellFormed(m)
    ensures WellFormed(DeleteNode(m, name))
  {
    var r := DeleteNode(m, name);
    forall id | id in r.interactions
      ensures r.interactions[id].source in Names(r) && r.interactions[id].target in Names(r)
    {
      assert m.interactions[id] == r.interactions[id];
    }
  }

  /** Renames one endpoint of a relationship. */
  function Renamed(s: string, from: string, to: string): string {
    if s == from then to else s
  }

  function RenameInteraction(x: Interaction, from: string, to: string): Interaction {
    x.(source := Renamed(x.source, from, to), target := Renamed(x.target, from, to))
  }

  function RenameNodes(nodes: seq<Node>, from: string, to: string): (r: seq<Node>)
    ensures |r| == |nodes|
    ensures forall i :: 0 <= i < |nodes| ==> r[i] == nodes[i].(name := Renamed(nodes[i].name, from, to))
  {
    if |nodes| == 0 then [] else [nodes[0].(name := Renamed(nodes[0].name, from, to))] + RenameNodes(nodes[1..], from, to)
  }

  /** Every reference to `from` made a reference to `to`. */
  function RenameRefs(m: Model, from: string, to: string): (r: Model)
    ensures |r.nodes| == |m.nodes|
    ensures forall i :: 0 <= i < |m.nodes| ==> r.nodes[i] == m.nodes[i].(name := Renamed(m.nodes[i].name, from, to))
    ensures Names(r) == set x | x in Names(m) :: Renamed(x, from, to)
    ensures r.interactions.Keys == m.interactions.Keys
    ensures forall id :: id in r.interactions ==> r.interactions[id] == RenameInteraction(m.interactions[id], from, to)
    ensures r.deployedOn == set e | e in m.deployedOn :: DeployedOn(Renamed(e.source, from, to), Renamed(e.target, from, to))
    ensures r.edge == set x | x in m.edge :: Renamed(x, from, to)
    ensures r.nextId == m.nextId
  {
    var r := Model(
      RenameNodes(m.nodes, from, to),
      (map id | id in m.interactions :: RenameInteraction(m.interactions[id], from, to)),
      m.nextId,
      (set e | e in m.deployedOn :: DeployedOn(Renamed(e.source, from, to), Renamed(e.target, from, to))),
      (set x | x in m.edge :: Renamed(x, from, to)));
    assert Names(r) == set x | x in Names(m) :: Renamed(x, from, to) by {
      forall x | x in Names(r) ensures x in set y | y in Names(m) :: Renamed(y, from, to) {
        var k :| 0 <= k < |r.nodes| && r.nodes[k].name == x;
        assert m.nodes[k].name in Names(m);
      }
      forall y | y in Names(m) ensures Renamed(y, from, to) in Names(r) {
        var k :| 0 <= k < |m.nodes| && m.nodes[k].name == y;
        assert r.nodes[k].name == Renamed(y, from, to);
      }
    }
    r
  }

  /** `rename_node`: a node called `to` is displaced (names are keys), then
      the node called `from` and every reference to it take the new name. */
  function RenameNode(m: Model, from: string, to: string): (r: Model)
    ensures from !in Names(m) || from == to ==> r == m
    ensures from in Names(m) && from != to ==>
      && Names(r) == Names(m) - {from} + {to}
      && (forall id :: id in r.interactions <==> id in m.interactions && !Touches(m.interactions[id], to))
      && (forall id :: id in r.interactions ==> r.interactions[id] == RenameInteraction(m.interactions[id], from, to))
      && (forall e :: e in m.deployedOn && e.source != to && e.target != to ==>
            DeployedOn(Renamed(e.source, from, to), Renamed(e.target, from, to)) in r.deployedOn)
      && (forall e :: e in r.deployedOn ==> exists d :: d in m.deployedOn && e == DeployedOn(Renamed(d.source, from, to), Renamed(d.target, from, to)))
      && r.nextId == m.nextId
  {
    if from !in Names(m) || from == to then m
    else
      RenameNodeNames(m, from, to);
      RenameNodeInteractions(m, from, to);
      RenameNodeDeployedOn(m, from, to);
      RenameRefs(DeleteNode(m, to), from, to)
  }

  lemma RenameNodeNames(m: Model, from: string, to: string)
    requires from in Names(m) && from != to
    ensures Names(RenameRefs(DeleteNode(m, to), from, to)) == Names(m) - {from} + {to}
  {
    var d := DeleteNode(m, to);
    var renamed := set x | x in Names(d) :: Renamed(x, from, to);
    assert Names(RenameRefs(d, from, to)) == renamed;
    assert Names(d) == Names(m) - {to};
    forall y | y in renamed ensures y in Names(m) - {from} + {to} {
      var x :| x in Names(d) && y == Renamed(x, from, to);
    }
    forall y | y in Names(m) - {from} + {to} ensures y in renamed {
      if y == to {
        assert Renamed(from, from, to) == y;
      } else {
        assert Renamed(y, from, to) == y;
      }
    }
  }

  lemma RenameNodeInteractions(m: Model, from: string, to: string)
    ensures var r := RenameRefs(DeleteNode(m, to), from, to);
      && (forall id :: id in r.interactions <==> id in m.interactions && !Touches(m.interactions[id], to))
      && (forall id :: id in r.interactions ==> r.interactions[id] == RenameInteraction(m.interactions[id], from, to))
  {
  }

  lemma RenameNodeDeployedOn(m: Model, from: string, to: string)
    ensures var r := RenameRefs(DeleteNode(m, to), from, to);
      && (forall e :: e in m.deployedOn && e.source != to && e.target != to ==>
            DeployedOn(Renamed(e.source, from, to), Renamed(e.target, from, to)) in r.deployedOn)
      && (forall e :: e in r.deployedOn ==> exists d :: d in m.deployedOn && e == DeployedOn(Renamed(d.source, from, to), Renamed(d.target, from, to)))
  {
    var d := DeleteNode(m, to);
    var r := RenameRefs(d, from, to);
    forall e | e in m.deployedOn && e.source != to && e.target != to
      ensures DeployedOn(Renamed(e.source, from, to), Renamed(e.target, from, to)) in r.deployedOn
    {
      assert e in d.deployedOn;
    }
  }

  lemma RenameRefsUnique(d: Model, from: string, to: string)
    requires UniqueNames(d.nodes) && to !in Names(d)
    ensures UniqueNames(RenameRefs(d, from, to).nodes)
  {
    var r := RenameRefs(d, from, to);
    forall i, j | 0 <= i < j < |r.nodes| ensures r.nodes[i].name != r.nodes[j].name {
      assert d.nodes[i].name != d.nodes[j].name;
      assert d.nodes[i].name in Names(d) && d.nodes[j].name in Names(d);
    }
  }

  lemma RenameRefsClosed(d: Model, from: string, to: string)
    requires WellFormed(d)
    ensures var r := RenameRefs(d, from, to);
      && (forall id :: id in r.interactions ==> r.interactions[id].source in Names(r) && r.interactions[id].target in Names(r))
      && (forall e :: e in r.deployedOn ==> e.source in Names(r) && e.target in Names(r))
      && r.edge <= Names(r)
  {
    var r := RenameRefs(d, from, to);
    forall id | id in r.interactions
      ensures r.interactions[id].source in Names(r) && r.interactions[id].target in Names(r)
    {
      assert d.interactions[id].source in Names(d) && d.interactions[id].target in Names(d);
    }
    forall e | e in r.deployedOn ensures e.source in Names(r) && e.target in Names(r) {
      var x :| x in d.deployedOn && e == DeployedOn(Renamed(x.source, from, to), Renamed(x.target, from, to));
    }
    forall x | x in r.edge ensures x in Names(r) {
      var y :| y in d.edge && x == Renamed(y, from, to);
    }
  }

  /** Renaming keeps the graph well formed. */
  lemma RenameNodeWellFormed(m: Model, from: string, to: string)
    requires WellFormed(m)
    ensures WellFormed(RenameNode(m, from, to))
  {
    if from in Names(m) && from != to {
      var d := DeleteNode(m, to);
      DeleteNodeWellFormed(m, to);
      assert RenameNode(m, from, to) == RenameRefs(d, from, to);
      RenameRefsUnique(d, from, to);
      RenameRefsClosed(d, from, to);
    }
  }

  /** The renamed node keeps its kind. */
  lemma RenameNodeKeepsKind(m: Model, from: string, to: string)
    requires WellFormed(m) && from in Names(m)
    ensures GetNode(RenameNode(m, from, to), to) == Some(Node(to, GetNode(m, from).value.kind))
  {
    var j :| 0 <= j < |m.nodes| && m.nodes[j].name == from;
    GetNodeOfUnique(m, j);
    if from != to {
      RenamedNodeKind(m, from, to, j);
    }
  }

  /** Renaming a node that is not an edge node leaves the edge nodes as they
      were, less the overwritten name. */
  lemma RenameNodeEdge(m: Model, from: string, to: string)
    requires from in Names(m) && from != to && from !in m.edge
    ensures RenameNode(m, from, to).edge == m.edge - {to}
  {
    var d := DeleteNode(m, to);
    assert RenameNode(m, from, to) == RenameRefs(d, from, to);
    var renamed := set x | x in d.edge :: Renamed(x, from, to);
    assert RenameRefs(d, from, to).edge == renamed;
    forall y | y in renamed ensures y in d.edge {
      var x :| x in d.edge && y == Renamed(x, from, to);
    }
    forall y | y in d.edge ensures y in renamed {
      assert Renamed(y, from, to) == y;
    }
  }

  /** Renaming leaves the lookup of every other name as it was. */
  lemma RenameNodeKeepsOthers(m: Model, from: string, to: string, x: string)
    requires WellFormed(m) && from != to && x != from && x != to
    ensures GetNode(RenameNode(m, from, to), x) == GetNode(m, x)
  {
    if from in Names(m) {
      if x in Names(m) {
        RenameNodeKeepsPresent(m, from, to, x);
      } else {
        assert x !in Names(RenameNode(m, from, to));
      }
    }
  }

  lemma RenameNodeKeepsPresent(m: Model, from: string, to: string, x: string)
    requires WellFormed(m) && from in Names(m) && from != to && x != from && x != to && x in Names(m)
    ensures GetNode(RenameNode(m, from, to), x) == GetNode(m, x)
  {
    var d := DeleteNode(m, to);
    DeleteNodeWellFormed(m, to);
    RenameRefsUnique(d, from, to);
    var r := RenameRefs(d, from, to);
    assert x in Names(d);
    var k :| 0 <= k < |d.nodes| && d.nodes[k].name == x;
    NodeInUnique(m, d.nodes[k]);
    assert r.nodes[k] == d.nodes[k];
    GetNodeOfUnique(r, k);
    assert RenameNode(m, from, to) == r;
  }

  lemma RenamedNodeKind(m: Model, from: string, to: string, j: nat)
    requires WellFormed(m) && from != to && j < |m.nodes| && m.nodes[j].name == from
    ensures GetNode(RenameNode(m, from, to), to) == Some(Node(to, m.nodes[j].kind))
  {
    var d := DeleteNode(m, to);
    DeleteNodeWellFormed(m, to);
    var r := RenameRefs(d, from, to);
    assert from in Names(m);
    assert RenameNode(m, from, to) == r;
    RenameRefsUnique(d, from, to);
    assert m.nodes[j] in d.nodes;
    var k :| 0 <= k < |d.nodes| && d.nodes[k] == m.nodes[j];
    assert r.nodes[k] == Node(to, m.nodes[j].kind);
    GetNodeOfUnique(r, k);
  }

  /** `add_interaction(source, target, timeout, circuit_breaker, dynamic_discovery)`
      under a fresh id. */
  function AddInteraction(m: Model, source: string, target: string, timeout: bool, circuitBreaker: bool, dynamicDiscovery: bool)
    : (r: Model)
    ensures m.nextId !in m.interactions ==> m.interactions.Keys < r.interactions.Keys
    ensures r.interactions.Keys == m.interactions.Keys + {m.nextId}
    ensures r.interactions[m.nextId] == Interaction(source, target, timeout, circuitBreaker, dynamicDiscovery)
    ensures (forall id :: id in m.interactions ==> id < m.nextId) ==>
      forall id :: id in m.interactions ==> r.interactions[id] == m.interactions[id]
    ensures r.nextId == m.nextId + 1 && r.nodes == m.nodes && r.deployedOn == m.deployedOn && r.edge == m.edge
    ensures WellFormed(m) && source in Names(m) && target in Names(m) ==> WellFormed(r)
  {
    m.(interactions := m.interactions[m.nextId := Interaction(source, target, timeout, circuitBreaker, dynamicDiscovery)],
       nextId := m.nextId + 1)
  }

  /** `delete_relationship` for an interaction. */
  function DeleteInteraction(m: Model, id: nat): (r: Model)
    ensures r.interactions.Keys == m.interactions.Keys - {id}
    ensures forall k :: k in r.interactions ==> r.interactions[k] == m.interactions[k]
    ensures r.nodes == m.nodes && r.nextId == m.nextId && r.deployedOn == m.deployedOn && r.edge == m.edge
    ensures WellFormed(m) ==> WellFormed(r)
  {
    m.(interactions := m.interactions - {id})
  }

  /** `add_deployed_on` / `node.add_deployed_on(target)`. */
  function AddDeployedOn(m: Model, source: string, target: string): (r: Model)
    ensures r.deployedOn == m.deployedOn + {DeployedOn(source, target)}
    ensures r.nodes == m.nodes && r.interactions == m.interactions && r.nextId == m.nextId && r.edge == m.edge
    ensures WellFormed(m) && source in Names(m) && target in Names(m) ==> WellFormed(r)
  {
    m.(deployedOn := m.deployedOn + {DeployedOn(source, target)})
  }

  /** `edge.add_member` / `edge.remove_member`; the group is a set. */
  function AddToEdge(m: Model, name: string): (r: Model)
    ensures r.edge == m.edge + {name}
    ensures r.nodes == m.nodes && r.interactions == m.interactions && r.nextId == m.nextId && r.deployedOn == m.deployedOn
  {
    m.(edge := m.edge + {name})
  }

  function RemoveFromEdge(m: Model, name: string): (r: Model)
    ensures r.edge == m.edge - {name}
    ensures r.nodes == m.nodes && r.interactions == m.interactions && r.nextId == m.nextId && r.deployedOn == m.deployedOn
  {
    m.(edge := m.edge - {name})
  }

  /** `set_timeout(True)` on every interaction whose target is `name`. */
  function SetTimeoutIncoming(m: Model, name: string): (r: Model)
    ensures r.interactions.Keys == m.interactions.Keys
    ensures forall id :: id in m.interactions ==>
      r.interactions[id] == m.interactions[id].(timeout := m.interactions[id].timeout || m.interactions[id].target == name)
    ensures r.nodes == m.nodes && r.nextId == m.nextId && r.deployedOn == m.deployedOn && r.edge == m.edge
  {
    m.(interactions := map id | id in m.interactions ::
      if m.interactions[id].target == name then m.interactions[id].(timeout := true) else m.interactions[id])
  }

  /** `set_timeout(True)` on every interaction from `source` to `target`. */
  function SetTimeoutBetween(m: Model, source: string, target: string): (r: Model)
    ensures r.interactions.Keys == m.interactions.Keys
    ensures forall id :: id in m.interactions ==>
      r.interactions[id] == m.interactions[id].(timeout := m.interactions[id].timeout ||
        (m.interactions[id].source == source && m.interactions[id].target == target))
    ensures r.nodes == m.nodes && r.nextId == m.nextId && r.deployedOn == m.deployedOn && r.edge == m.edge
  {
    m.(interactions := map id | id in m.interactions ::
      if m.interactions[id].source == source && m.interactions[id].target == target
      then m.interactions[id].(timeout := true) else m.interactions[id])
  }

  /** `set_circuit_breaker(True)` on every interaction whose target is `name`. */
  function SetCircuitBreakerIncoming(m: Model, name: string): (r: Model)
    ensures r.interactions.Keys == m.interactions.Keys
    ensures forall id :: id in m.interactions ==>
      r.interactions[id] == m.interactions[id].(circuitBreaker := m.interactions[id].circuitBreaker || m.interactions[id].target == name)
    ensures r.nodes == m.nodes && r.nextId == m.nextId && r.deployedOn == m.deployedOn && r.edge == m.edge
  {
    m.(interactions := map id | id in m.interactions ::
      if m.interactions[id].target == name then m.interactions[id].(circuitBreaker := true) else m.interactions[id])
  }

  predicate HasOutgoing(m: Model, name: string) {
    exists id :: id in m.interactions && m.interactions[id].source == name
  }

  predicate HasIncoming(m: Model, name: string) {
    exists id :: id in m.interactions && m.interactions[id].target == name
  }

  /** The ids below `bound` of the interactions into `name`, ascending: the
      order in which the graph lists a node's incoming interactions. */
  function IncomingBelow(m: Model, name: string, bound: nat): (r: seq<nat>)
    ensures forall k :: 0 <= k < |r| ==> r[k] < bound && r[k] in m.interactions && m.interactions[r[k]].target == name
    ensures forall id :: id < bound && id in m.interactions && m.interactions[id].target == name ==> id in r
    ensures forall j, k :: 0 <= j < k < |r| ==> r[j] < r[k]
  {
    if bound == 0 then []
    else
      var rest := IncomingBelow(m, name, bound - 1);
      if bound - 1 in m.interactions && m.interactions[bound - 1].target == name then rest + [bound - 1] else rest
  }

  function IncomingIds(m: Model, name: string): (r: seq<nat>)
    requires forall id :: id in m.interactions ==> id < m.nextId
    ensures forall k :: 0 <= k < |r| ==> r[k] in m.interactions && m.interactions[r[k]].target == name
    ensures forall id :: id in m.interactions && m.interactions[id].target == name ==> id in r
    ensures forall j, k :: 0 <= j < k < |r| ==> r[j] < r[k]
  {
    IncomingBelow(m, name, m.nextId)
  }

  /** An interaction keeps its endpoints and dynamic-discovery flag, and its
      timeout and circuit-breaker flags are only ever switched on. */
  predicate FlagsExtend(x: Interaction, y: Interaction) {
    && x.source == y.source && x.target == y.target && x.dynamicDiscovery == y.dynamicDiscovery
    && (x.timeout ==> y.timeout) && (x.circuitBreaker ==> y.circuitBreaker)
  }

  /** No interaction of `m` is lost in `r`, and none has a flag switched off. */
  predicate Extends(m: Model, r: Model) {
    forall id :: id in m.interactions ==> id in r.interactions && FlagsExtend(m.interactions[id], r.interactions[id])
  }

  lemma ExtendsTransitive(a: Model, b: Model, c: Model)
    requires Extends(a, b) && Extends(b, c)
    ensures Extends(a, c)
  {
  }

  /** Setting flags and adding interactions extend the graph. */
  lemma FlagSettersExtend(m: Model, name: string, source: string, target: string, t: bool, cb: bool, dd: bool)
    requires forall id :: id in m.interactions ==> id < m.nextId
    ensures Extends(m, SetTimeoutIncoming(m, name))
    ensures Extends(m, SetTimeoutBetween(m, source, target))
    ensures Extends(m, SetCircuitBreakerIncoming(m, name))
    ensures Extends(m, AddInteraction(m, source, target, t, cb, dd))
  {
    TimeoutIncomingExtends(m, name);
    TimeoutBetweenExtends(m, source, target);
    CircuitBreakerIncomingExtends(m, name);
  }

  lemma TimeoutIncomingExtends(m: Model, name: string)
    ensures Extends(m, SetTimeoutIncoming(m, name))
  {
  }

  lemma TimeoutBetweenExtends(m: Model, source: string, target: string)
    ensures Extends(m, SetTimeoutBetween(m, source, target))
  {
  }

  lemma CircuitBreakerIncomingExtends(m: Model, name: string)
    ensures Extends(m, SetCircuitBreakerIncoming(m, name))
  {
  }
}
