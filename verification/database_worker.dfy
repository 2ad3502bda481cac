/** The database worker (`database_worker.py`): a Service node with no
    outgoing interaction whose container looks like a database is promoted to
    a Datastore under the same name, keeping its incoming interactions and its
    deployed-on targets. */
module DatabaseWorker {
  import opened Wrappers
  import opened Seqs
  import opened Strings
  import opened Errors
  import opened KubeObjects
  import opened KubeCluster
  import opened ArchModel
  import opened KubeWorker

  const DATABASE_PORTS: seq<int> :=
    [1433, 1434, 1521, 3306, 33060, 3050, 5432, 8001, 8080, 27017, 7199, 8089, 443, 10000, 8086, 7474, 7473]

  /** The keyword list as Python reads it: the adjacent literals `"mariadb"`
      and `"snowflake"` have no comma between them and form a single entry. */
  const DATABASE_NAMES: seq<string> :=
    ["mysql", "sql", "oracle", "redis", "mongodb", "mongo-db", "database", "mariadb" + "snowflake",
     "cassandra", "splunk", "dynamodb", "hive", "influxdb", "neo4j"]

  const TEMPORARY_DATASTORE_NAME := "TEMPORARY_DATASTORE_NAME"

  predicate IsDatabasePort(p: int) {
    p in DATABASE_PORTS
  }

  /** `get_container_ports()`, taken to be the container port numbers. */
  function PortNumbers(ports: seq<Port>): (r: seq<int>)
    ensures |r| == |ports|
    ensures forall i :: 0 <= i < |ports| ==> r[i] == ports[i].containerPort
  {
    if |ports| == 0 then [] else [ports[0].containerPort] + PortNumbers(ports[1..])
  }

  /** The port test of `_is_database`: some container port is a database port. */
  function HasDatabasePort(ports: seq<Port>): (b: bool)
    ensures b <==> exists i :: 0 <= i < |ports| && ports[i].containerPort in DATABASE_PORTS
  {
    var numbers := PortNumbers(ports);
    var hits := Filter(numbers, IsDatabasePort);
    assert (exists i :: 0 <= i < |ports| && ports[i].containerPort in DATABASE_PORTS) ==> |hits| > 0 by {
      if exists i :: 0 <= i < |ports| && ports[i].containerPort in DATABASE_PORTS {
        var i :| 0 <= i < |ports| && ports[i].containerPort in DATABASE_PORTS;
        assert numbers[i] in hits;
      }
    }
    assert |hits| > 0 ==> exists i :: 0 <= i < |ports| && ports[i].containerPort in DATABASE_PORTS by {
      if |hits| > 0 {
        assert hits[0] in numbers;
        var i :| 0 <= i < |numbers| && numbers[i] == hits[0];
        assert ports[i].containerPort in DATABASE_PORTS;
      }
    }
    |hits| > 0
  }

  /** Some keyword, upper-cased, occurs in `s` upper-cased. */
  predicate Mentions(s: string, keywords: seq<string>) {
    exists k :: 0 <= k < |keywords| && Contains(Upper(s), Upper(keywords[k]))
  }

  /** The image and name tests of `_is_database`: the keywords found in `s`,
      upper-cased on both sides. */
  function HasKeyword(s: string, keywords: seq<string>): (b: bool)
    ensures b <==> Mentions(s, keywords)
  {
    var hits := Filter(keywords, (n: string) => Contains(Upper(s), Upper(n)));
    assert Mentions(s, keywords) ==> |hits| > 0 by {
      if Mentions(s, keywords) {
        var k :| 0 <= k < |keywords| && Contains(Upper(s), Upper(keywords[k]));
        assert keywords[k] in hits;
      }
    }
    assert |hits| > 0 ==> Mentions(s, keywords) by {
      if |hits| > 0 {
        assert hits[0] in keywords && Contains(Upper(s), Upper(hits[0]));
        var k :| 0 <= k < |keywords| && keywords[k] == hits[0];
      }
    }
    |hits| > 0
  }

  /** `_is_database`: a database port, or a keyword in the image or the name. */
  function IsDatabase(c: Container): (b: bool)
    ensures b <==> ((exists i :: 0 <= i < |c.ports| && c.ports[i].containerPort in DATABASE_PORTS)
      || Mentions(c.image, DATABASE_NAMES) || Mentions(c.name, DATABASE_NAMES))
  {
    MatchesDatabase(c, DATABASE_NAMES)
  }

  /** The tests of `_is_database` against a given keyword list. */
  function MatchesDatabase(c: Container, keywords: seq<string>): (b: bool)
    ensures b <==> ((exists i :: 0 <= i < |c.ports| && c.ports[i].containerPort in DATABASE_PORTS)
      || Mentions(c.image, keywords) || Mentions(c.name, keywords))
  {
    HasDatabasePort(c.ports) || HasKeyword(c.name, keywords) || HasKeyword(c.image, keywords)
  }

  /** A needle with a character the haystack lacks does not occur in it. */
  lemma MissingCharNotContained(hay: string, needle: string, j: nat)
    requires j < |needle| && needle[j] !in hay
    ensures !Contains(hay, needle)
  {
    forall k: nat ensures !OccursAt(hay, needle, k) {
      if k + |needle| <= |hay| {
        assert hay[k..k + |needle|][j] == hay[k + j];
      }
    }
  }

  /** `keyword` has a letter whose upper case is not a letter of `MARIADB`. */
  predicate HasForeignLetter(keyword: string) {
    exists j :: 0 <= j < |keyword| && UpperChar(keyword[j]) !in "MARIADB"
  }

  /** A keyword with such a letter is not found in a text spelt with the
      letters of `MARIADB`. */
  lemma ForeignKeywordAbsent(hay: string, keyword: string)
    requires HasForeignLetter(keyword)
    requires forall i :: 0 <= i < |hay| ==> hay[i] in "MARIADB"
    ensures !Contains(hay, Upper(keyword))
  {
    var j :| 0 <= j < |keyword| && UpperChar(keyword[j]) !in "MARIADB";
    MissingCharNotContained(hay, Upper(keyword), j);
  }

  /** Every keyword has such a letter; the one that would not, `mariadb`, is
      fused with `snowflake`. */
  lemma KeywordsHaveForeignLetters(k: nat)
    requires k < |DATABASE_NAMES|
    ensures HasForeignLetter(DATABASE_NAMES[k])
  {
    var kw := DATABASE_NAMES[k];
    var j := if k == 6 then 2 else if k == 7 then 7 else if k in {0, 3, 4, 5, 10, 12} then 1 else 0;
    assert UpperChar(kw[j]) !in "MARIADB";
  }

  /** A text spelt with the letters of `mariadb` names no database. */
  lemma MariadbLettersNotMentioned(s: string)
    requires forall i :: 0 <= i < |s| ==> s[i] in "mariadb"
    ensures !Mentions(s, DATABASE_NAMES)
  {
    var hay := Upper(s);
    forall i | 0 <= i < |hay| ensures hay[i] in "MARIADB" {
      assert hay[i] == UpperChar(s[i]);
    }
    forall k | 0 <= k < |DATABASE_NAMES| ensures !Contains(hay, Upper(DATABASE_NAMES[k])) {
      KeywordsHaveForeignLetters(k);
      ForeignKeywordAbsent(hay, DATABASE_NAMES[k]);
    }
  }

  /** The fused keyword in action: a container whose name and image are
      spelt with the letters of `mariadb` (so `mariadb` itself) and which
      exposes no database port is not taken for a database. */
  lemma MariadbIsNotDetected(c: Container)
    requires forall i :: 0 <= i < |c.name| ==> c.name[i] in "mariadb"
    requires forall i :: 0 <= i < |c.image| ==> c.image[i] in "mariadb"
    requires forall i :: 0 <= i < |c.ports| ==> c.ports[i].containerPort !in DATABASE_PORTS
    ensures !IsDatabase(c)
  {
    MariadbLettersNotMentioned(c.name);
    MariadbLettersNotMentioned(c.image);
  }

  // ---------------------------------------------------------------- promotion

  /** Interaction `x`, redirected to `to`, is among the interactions of `r`. */
  predicate MovedTo(r: Model, x: Interaction, to: string) {
    exists id :: id in r.interactions && r.interactions[id] == x.(target := to)
  }

  /** One step of `_update_datastore_incoming_interactions`: interaction `id`
      re-created onto `to` with the same source and flags, then deleted. */
  function MoveOne(m: Model, to: string, id: nat): (r: Model)
    ensures r.nodes == m.nodes && r.deployedOn == m.deployedOn && r.edge == m.edge
    ensures id !in m.interactions ==> r == m
    ensures id in m.interactions && id < m.nextId ==>
      && r.nextId == m.nextId + 1
      && r.interactions.Keys == m.interactions.Keys - {id} + {m.nextId}
      && r.interactions[m.nextId] == m.interactions[id].(target := to)
      && (forall j :: j in r.interactions && j != m.nextId ==> r.interactions[j] == m.interactions[j])
  {
    if id in m.interactions then
      var x := m.interactions[id];
      DeleteInteraction(AddInteraction(m, x.source, to, x.timeout, x.circuitBreaker, x.dynamicDiscovery), id)
    else m
  }

  /** The loop of `_update_datastore_incoming_interactions` over the listed
      interactions from position `i` on. */
  function MoveIncoming(m: Model, to: string, ids: seq<nat>, i: nat): (r: Model)
    requires i <= |ids|
    ensures r.nodes == m.nodes && r.deployedOn == m.deployedOn && r.edge == m.edge
    decreases |ids| - i
  {
    if i == |ids| then m else MoveIncoming(MoveOne(m, to, ids[i]), to, ids, i + 1)
  }

  /** `id` is not among the ids listed from position `i` on. */
  predicate Unlisted(ids: seq<nat>, i: nat, id: nat) {
    forall k :: i <= k < |ids| ==> ids[k] != id
  }

  /** The preconditions the moving loop keeps: every id, present or listed,
      is below the next fresh one, and the listed ids ascend. */
  predicate MoveReady(m: Model, ids: seq<nat>, i: nat) {
    && i <= |ids|
    && (forall id :: id in m.interactions ==> id < m.nextId)
    && (forall k :: i <= k < |ids| ==> ids[k] < m.nextId)
  }

  /** Moving only hands out fresh ids, and of the old ids it keeps exactly the
      unlisted ones, with their values. */
  lemma {:induction false} MoveIncomingIds(m: Model, to: string, ids: seq<nat>, i: nat)
    requires MoveReady(m, ids, i)
    ensures var r := MoveIncoming(m, to, ids, i);
      && r.nextId >= m.nextId
      && (forall id :: id in r.interactions ==> id < r.nextId)
      && (forall id :: id < m.nextId ==> (id in r.interactions <==> id in m.interactions && Unlisted(ids, i, id)))
      && (forall id :: id in r.interactions && id < m.nextId ==> r.interactions[id] == m.interactions[id])
    decreases |ids| - i
  {
    if i < |ids| {
      var m' := MoveOne(m, to, ids[i]);
      MoveIncomingIds(m', to, ids, i + 1);
    }
  }

  /** Every listed interaction reappears redirected to `to`. */
  lemma {:induction false} MoveIncomingMoved(m: Model, to: string, ids: seq<nat>, i: nat)
    requires MoveReady(m, ids, i)
    requires forall j, k :: i <= j < k < |ids| ==> ids[j] < ids[k]
    ensures var r := MoveIncoming(m, to, ids, i);
      forall k :: i <= k < |ids| && ids[k] in m.interactions ==> MovedTo(r, m.interactions[ids[k]], to)
    decreases |ids| - i
  {
    if i < |ids| {
      var r := MoveIncoming(m, to, ids, i);
      var m' := MoveOne(m, to, ids[i]);
      MoveIncomingMoved(m', to, ids, i + 1);
      MoveIncomingIds(m', to, ids, i + 1);
      if ids[i] in m.interactions {
        assert Unlisted(ids, i + 1, m.nextId);
        assert r.interactions[m.nextId] == m.interactions[ids[i]].(target := to);
        forall k | i < k < |ids| && ids[k] in m.interactions ensures MovedTo(r, m.interactions[ids[k]], to) {
          assert m'.interactions[ids[k]] == m.interactions[ids[k]];
        }
      }
    }
  }

  /** Every interaction after moving is an old one or a listed one redirected. */
  lemma {:induction false} MoveIncomingOrigin(m: Model, to: string, ids: seq<nat>, i: nat)
    requires MoveReady(m, ids, i)
    ensures var r := MoveIncoming(m, to, ids, i);
      forall id :: id in r.interactions ==>
        (id in m.interactions && r.interactions[id] == m.interactions[id]) ||
        (exists k :: i <= k < |ids| && ids[k] in m.interactions && r.interactions[id] == m.interactions[ids[k]].(target := to))
    decreases |ids| - i
  {
    if i < |ids| {
      var r := MoveIncoming(m, to, ids, i);
      var m' := MoveOne(m, to, ids[i]);
      MoveIncomingOrigin(m', to, ids, i + 1);
      if ids[i] in m.interactions {
        forall j | j in r.interactions
          ensures (j in m.interactions && r.interactions[j] == m.interactions[j]) ||
            (exists k :: i <= k < |ids| && ids[k] in m.interactions && r.interactions[j] == m.interactions[ids[k]].(target := to))
        {
          if j in m'.interactions && r.interactions[j] == m'.interactions[j] {
            if j == m.nextId {
              assert r.interactions[j] == m.interactions[ids[i]].(target := to);
            } else {
              assert j in m.interactions && m'.interactions[j] == m.interactions[j];
            }
          } else {
            var k :| i + 1 <= k < |ids| && ids[k] in m'.interactions && r.interactions[j] == m'.interactions[ids[k]].(target := to);
            assert m'.interactions[ids[k]] == m.interactions[ids[k]];
          }
        }
      }
    }
  }

  /** `for dep in service_node.deployed_on: datastore_node.add_deployed_on(dep.target)`. */
  function CopyDeployedOn(m: Model, from: string, to: string): (r: Model)
    ensures r.deployedOn == m.deployedOn + set d | d in m.deployedOn && d.source == from :: DeployedOn(to, d.target)
    ensures r.nodes == m.nodes && r.interactions == m.interactions && r.nextId == m.nextId && r.edge == m.edge
  {
    m.(deployedOn := m.deployedOn + set d | d in m.deployedOn && d.source == from :: DeployedOn(to, d.target))
  }

  /** The node the worker creates before renaming it. */
  const TEMPORARY_DATASTORE := Node(TEMPORARY_DATASTORE_NAME, DatastoreNode)

  /** The situation the worker promotes in: a well-formed graph holding the
      node, no node under the temporary name, and no outgoing interaction. */
  predicate Promotable(m: Model, name: string) {
    && WellFormed(m)
    && name in Names(m)
    && TEMPORARY_DATASTORE_NAME !in Names(m)
    && name != TEMPORARY_DATASTORE_NAME
    && !HasOutgoing(m, name)
  }

  /** Interaction `x` of the graph being built comes from `m`: either an
      interaction not into `name`, or one into `name` redirected to the
      temporary Datastore. */
  predicate FromOriginal(m: Model, name: string, x: Interaction) {
    || (exists id :: id in m.interactions && m.interactions[id].target != name && x == m.interactions[id])
    || (exists id :: id in m.interactions && m.interactions[id].target == name &&
          x == m.interactions[id].(target := TEMPORARY_DATASTORE_NAME))
  }

  /** The temporary Datastore added and the incoming interactions moved onto it. */
  function Gather(m: Model, name: string): Model
    requires WellFormed(m)
  {
    MoveIncoming(AddNode(m, TEMPORARY_DATASTORE), TEMPORARY_DATASTORE_NAME, IncomingToMove(m, name), 0)
  }

  /** The interactions into `name` once the temporary node is added. */
  function IncomingToMove(m: Model, name: string): (r: seq<nat>)
    requires WellFormed(m)
    ensures forall k :: 0 <= k < |r| ==> r[k] in m.interactions && m.interactions[r[k]].target == name
    ensures forall id :: id in m.interactions && m.interactions[id].target == name ==> id in r
    ensures forall j, k :: 0 <= j < k < |r| ==> r[j] < r[k]
    ensures MoveReady(AddNode(m, TEMPORARY_DATASTORE), r, 0)
  {
    IncomingIds(AddNode(m, TEMPORARY_DATASTORE), name)
  }

  lemma GatherKeeps(m: Model, name: string)
    requires WellFormed(m)
    ensures var g := Gather(m, name);
      && g.nodes == AddNode(m, TEMPORARY_DATASTORE).nodes && g.deployedOn == m.deployedOn && g.edge == m.edge
      && (forall id :: id in g.interactions ==> id < g.nextId)
      && (forall id :: id in m.interactions && m.interactions[id].target != name ==>
            id in g.interactions && g.interactions[id] == m.interactions[id])
  {
    var m1 := AddNode(m, TEMPORARY_DATASTORE);
    var ids := IncomingToMove(m, name);
    var g := Gather(m, name);
    assert g == MoveIncoming(m1, TEMPORARY_DATASTORE_NAME, ids, 0);
    MoveIncomingIds(m1, TEMPORARY_DATASTORE_NAME, ids, 0);
    forall id | id in m.interactions && m.interactions[id].target != name
      ensures id in g.interactions && g.interactions[id] == m.interactions[id]
    {
      assert id in m1.interactions && id < m1.nextId;
      assert Unlisted(ids, 0, id);
    }
  }

  /** The old ids that survive are exactly the interactions not into `name`. */
  lemma GatherDropsIncoming(m: Model, name: string)
    requires WellFormed(m)
    ensures var g := Gather(m, name);
      forall id :: id in g.interactions && id < m.nextId ==>
        id in m.interactions && g.interactions[id] == m.interactions[id] && m.interactions[id].target != name
  {
    var m1 := AddNode(m, TEMPORARY_DATASTORE);
    var ids := IncomingToMove(m, name);
    var g := Gather(m, name);
    MoveIncomingIds(m1, TEMPORARY_DATASTORE_NAME, ids, 0);
    forall id | id in g.interactions && id < m.nextId
      ensures id in m.interactions && g.interactions[id] == m.interactions[id] && m.interactions[id].target != name
    {
      assert id in m1.interactions && Unlisted(ids, 0, id);
    }
  }

  lemma GatherMoves(m: Model, name: string)
    requires WellFormed(m)
    ensures forall id :: id in m.interactions && m.interactions[id].target == name ==>
      MovedTo(Gather(m, name), m.interactions[id], TEMPORARY_DATASTORE_NAME)
  {
    var m1 := AddNode(m, TEMPORARY_DATASTORE);
    var ids := IncomingToMove(m, name);
    MoveIncomingMoved(m1, TEMPORARY_DATASTORE_NAME, ids, 0);
    forall id | id in m.interactions && m.interactions[id].target == name
      ensures MovedTo(Gather(m, name), m.interactions[id], TEMPORARY_DATASTORE_NAME)
    {
      var k :| 0 <= k < |ids| && ids[k] == id;
    }
  }

  lemma GatherOrigin(m: Model, name: string)
    requires WellFormed(m)
    ensures forall id :: id in Gather(m, name).interactions ==> FromOriginal(m, name, Gather(m, name).interactions[id])
  {
    var m1 := AddNode(m, TEMPORARY_DATASTORE);
    var ids := IncomingToMove(m, name);
    var g := Gather(m, name);
    MoveIncomingOrigin(m1, TEMPORARY_DATASTORE_NAME, ids, 0);
    GatherDropsIncoming(m, name);
    forall id | id in g.interactions ensures FromOriginal(m, name, g.interactions[id]) {
      if id in m1.interactions && g.interactions[id] == m1.interactions[id] {
        assert id < m.nextId;
      } else {
        var k :| 0 <= k < |ids| && ids[k] in m1.interactions && g.interactions[id] == m1.interactions[ids[k]].(target := TEMPORARY_DATASTORE_NAME);
        assert m.interactions[ids[k]].target == name;
      }
    }
  }

  lemma GatherInteractions(m: Model, name: string)
    requires WellFormed(m)
    ensures var g := Gather(m, name);
      && g.nodes == AddNode(m, TEMPORARY_DATASTORE).nodes && g.deployedOn == m.deployedOn && g.edge == m.edge
      && (forall id :: id in g.interactions ==> id < g.nextId)
      && (forall id :: id in m.interactions && m.interactions[id].target != name ==>
            id in g.interactions && g.interactions[id] == m.interactions[id])
      && (forall id :: id in m.interactions && m.interactions[id].target == name ==>
            MovedTo(g, m.interactions[id], TEMPORARY_DATASTORE_NAME))
      && (forall id :: id in g.interactions ==> FromOriginal(m, name, g.interactions[id]))
  {
    GatherKeeps(m, name);
    GatherMoves(m, name);
    GatherOrigin(m, name);
  }

  /** An interaction the promotion builds touches neither the promoted name
      nor anything outside the graph with the temporary node. */
  lemma FromOriginalEndpoints(m: Model, name: string, x: Interaction)
    requires Promotable(m, name) && FromOriginal(m, name, x)
    ensures !Touches(x, name)
    ensures x.source in Names(m) && x.source != TEMPORARY_DATASTORE_NAME
    ensures x.target in Names(m) + {TEMPORARY_DATASTORE_NAME}
  {
  }

  /** `Gather` with the deployed-on relationships copied, then the old node deleted. */
  function Absorb(m: Model, name: string): Model
    requires WellFormed(m)
  {
    DeleteNode(CopyDeployedOn(Gather(m, name), name, TEMPORARY_DATASTORE_NAME), name)
  }

  /** After the copy of the deployed-on relationships, the graph is well
      formed and no interaction touches the old node any more. */
  lemma CopiedWellFormed(m: Model, name: string)
    requires Promotable(m, name)
    ensures var m3 := CopyDeployedOn(Gather(m, name), name, TEMPORARY_DATASTORE_NAME);
      && WellFormed(m3)
      && Names(m3) == Names(m) + {TEMPORARY_DATASTORE_NAME}
      && (forall id :: id in m3.interactions ==> !Touches(m3.interactions[id], name))
  {
    var T := TEMPORARY_DATASTORE_NAME;
    var g := Gather(m, name);
    var m1 := AddNode(m, TEMPORARY_DATASTORE);
    GatherInteractions(m, name);
    var m3 := CopyDeployedOn(g, name, T);
    assert Names(m3) == Names(m1);
    assert UniqueNames(m3.nodes);
    forall id | id in m3.interactions
      ensures m3.interactions[id].source in Names(m3) && m3.interactions[id].target in Names(m3)
      ensures !Touches(m3.interactions[id], name)
    {
      FromOriginalEndpoints(m, name, g.interactions[id]);
    }
    forall d | d in m3.deployedOn ensures d.source in Names(m3) && d.target in Names(m3) {
      if d !in m.deployedOn {
        var d0 :| d0 in m.deployedOn && d0.source == name && d == DeployedOn(T, d0.target);
      }
    }
  }

  lemma AbsorbIsWellFormed(m: Model, name: string)
    requires Promotable(m, name)
    ensures WellFormed(Absorb(m, name))
  {
    var m3 := CopyDeployedOn(Gather(m, name), name, TEMPORARY_DATASTORE_NAME);
    CopiedWellFormed(m, name);
    DeleteNodeWellFormed(m3, name);
  }

  lemma AbsorbNames(m: Model, name: string)
    requires Promotable(m, name)
    ensures Names(Absorb(m, name)) == Names(m) - {name} + {TEMPORARY_DATASTORE_NAME}
  {
    CopiedWellFormed(m, name);
  }

  lemma AbsorbKeepsInteractions(m: Model, name: string)
    requires Promotable(m, name)
    ensures Absorb(m, name).interactions == Gather(m, name).interactions
  {
    CopiedWellFormed(m, name);
  }

  lemma AbsorbEdge(m: Model, name: string)
    requires Promotable(m, name)
    ensures Absorb(m, name).edge == m.edge - {name}
  {
    GatherKeeps(m, name);
  }

  lemma AbsorbWellFormed(m: Model, name: string)
    requires Promotable(m, name)
    ensures var a := Absorb(m, name);
      && WellFormed(a)
      && Names(a) == Names(m) - {name} + {TEMPORARY_DATASTORE_NAME}
      && a.interactions == Gather(m, name).interactions
      && a.edge == m.edge - {name}
  {
    AbsorbIsWellFormed(m, name);
    AbsorbNames(m, name);
    AbsorbKeepsInteractions(m, name);
    AbsorbEdge(m, name);
  }

  lemma AbsorbNodes(m: Model, name: string)
    requires Promotable(m, name)
    ensures var a := Absorb(m, name);
      && GetNode(a, TEMPORARY_DATASTORE_NAME) == Some(TEMPORARY_DATASTORE)
      && (forall x :: x != name && x != TEMPORARY_DATASTORE_NAME ==> GetNode(a, x) == GetNode(m, x))
  {
    var a := Absorb(m, name);
    var m1 := AddNode(m, TEMPORARY_DATASTORE);
    GatherInteractions(m, name);
    AbsorbWellFormed(m, name);
    assert forall i :: 0 <= i < |a.nodes| ==> a.nodes[i] in m1.nodes;
    forall x | x in Names(a) ensures GetNode(a, x) == GetNode(m1, x) {
      var n := GetNode(a, x).value;
      NodeInUnique(m1, n);
    }
  }

  lemma AbsorbDeployedOn(m: Model, name: string)
    requires Promotable(m, name)
    ensures forall e :: e in Absorb(m, name).deployedOn <==>
      || (e in m.deployedOn && e.source != name && e.target != name)
      || (e.source == TEMPORARY_DATASTORE_NAME && e.target != name && DeployedOn(name, e.target) in m.deployedOn)
  {
    GatherInteractions(m, name);
  }

  /** The promotion of the node called `name`: a temporary Datastore takes
      over the incoming interactions and the deployed-on targets, the old node
      is deleted and the Datastore is renamed to the old name. */
  function Promote(m: Model, name: string): Model
    requires WellFormed(m)
  {
    RenameNode(Absorb(m, name), TEMPORARY_DATASTORE_NAME, name)
  }

  /** The promoted node keeps its name and becomes a Datastore; every other
      node is untouched and the graph stays well formed. */
  lemma PromoteWellFormed(m: Model, name: string)
    requires Promotable(m, name)
    ensures WellFormed(Promote(m, name))
    ensures Names(Promote(m, name)) == Names(m)
  {
    AbsorbWellFormed(m, name);
    RenameNodeWellFormed(Absorb(m, name), TEMPORARY_DATASTORE_NAME, name);
  }

  /** The promoted node keeps its name and becomes a Datastore. */
  lemma PromoteMakesDatastore(m: Model, name: string)
    requires Promotable(m, name)
    ensures GetNode(Promote(m, name), name) == Some(Node(name, DatastoreNode))
  {
    AbsorbWellFormed(m, name);
    AbsorbNodes(m, name);
    RenameNodeKeepsKind(Absorb(m, name), TEMPORARY_DATASTORE_NAME, name);
  }

  /** Every other node is untouched. */
  lemma PromoteKeepsOtherNodes(m: Model, name: string)
    requires Promotable(m, name)
    ensures forall x :: x != name && x != TEMPORARY_DATASTORE_NAME ==> GetNode(Promote(m, name), x) == GetNode(m, x)
  {
    var a := Absorb(m, name);
    AbsorbWellFormed(m, name);
    AbsorbNodes(m, name);
    forall x | x != name && x != TEMPORARY_DATASTORE_NAME ensures GetNode(Promote(m, name), x) == GetNode(m, x) {
      RenameNodeKeepsOthers(a, TEMPORARY_DATASTORE_NAME, name, x);
    }
  }

  /** Renaming the temporary node to a name no longer in use keeps every
      interaction id, renaming the endpoints. */
  lemma RenameTemporaryInteractions(a: Model, name: string)
    requires WellFormed(a) && TEMPORARY_DATASTORE_NAME in Names(a) && name !in Names(a)
    ensures var r := RenameNode(a, TEMPORARY_DATASTORE_NAME, name);
      && r.interactions.Keys == a.interactions.Keys
      && (forall id :: id in r.interactions ==>
            r.interactions[id] == RenameInteraction(a.interactions[id], TEMPORARY_DATASTORE_NAME, name))
  {
  }

  lemma PromoteKeepsInteraction(m: Model, name: string, id: nat)
    requires Promotable(m, name)
    requires id in m.interactions && m.interactions[id].target != name
    ensures id in Promote(m, name).interactions && Promote(m, name).interactions[id] == m.interactions[id]
  {
    var a := Absorb(m, name);
    var x := m.interactions[id];
    GatherKeeps(m, name);
    assert id in Gather(m, name).interactions && Gather(m, name).interactions[id] == x;
    AbsorbKeepsInteractions(m, name);
    assert id in a.interactions && a.interactions[id] == x;
    AbsorbIsWellFormed(m, name);
    AbsorbNames(m, name);
    RenameTemporaryInteractions(a, name);
    assert x.source != TEMPORARY_DATASTORE_NAME && x.target != TEMPORARY_DATASTORE_NAME;
    assert RenameInteraction(x, TEMPORARY_DATASTORE_NAME, name) == x;
  }

  /** Interactions not into the node keep their id and value. */
  lemma PromoteKeepsInteractions(m: Model, name: string)
    requires Promotable(m, name)
    ensures var r := Promote(m, name);
      forall id :: id in m.interactions && m.interactions[id].target != name ==>
        id in r.interactions && r.interactions[id] == m.interactions[id]
  {
    forall id | id in m.interactions && m.interactions[id].target != name
      ensures id in Promote(m, name).interactions && Promote(m, name).interactions[id] == m.interactions[id]
    {
      PromoteKeepsInteraction(m, name, id);
    }
  }

  /** An interaction the temporary node received is renamed back onto the node. */
  lemma PromoteCarriesMoved(m: Model, name: string, id: nat, j: nat)
    requires Promotable(m, name)
    requires id in m.interactions && m.interactions[id].target == name
    requires j in Gather(m, name).interactions
    requires Gather(m, name).interactions[j] == m.interactions[id].(target := TEMPORARY_DATASTORE_NAME)
    ensures j in Promote(m, name).interactions && Promote(m, name).interactions[j] == m.interactions[id]
  {
    var a := Absorb(m, name);
    var x := m.interactions[id];
    var y := Gather(m, name).interactions[j];
    AbsorbKeepsInteractions(m, name);
    assert j in a.interactions && a.interactions[j] == y;
    AbsorbIsWellFormed(m, name);
    AbsorbNames(m, name);
    RenameTemporaryInteractions(a, name);
    assert x.source in Names(m) && x.source != TEMPORARY_DATASTORE_NAME;
    assert RenameInteraction(y, TEMPORARY_DATASTORE_NAME, name) == x;
  }

  lemma PromoteCarriesKept(m: Model, name: string, id: nat, j: nat)
    requires Promotable(m, name)
    requires id in m.interactions && m.interactions[id].target != name
    requires j in Gather(m, name).interactions && Gather(m, name).interactions[j] == m.interactions[id]
    ensures j in Promote(m, name).interactions && Promote(m, name).interactions[j] == m.interactions[id]
  {
    var a := Absorb(m, name);
    var x := m.interactions[id];
    AbsorbIsWellFormed(m, name);
    AbsorbNames(m, name);
    AbsorbKeepsInteractions(m, name);
    RenameTemporaryInteractions(a, name);
    assert x.source != TEMPORARY_DATASTORE_NAME && x.target != TEMPORARY_DATASTORE_NAME;
    assert RenameInteraction(x, TEMPORARY_DATASTORE_NAME, name) == x;
  }

  /** The promotion keeps the interaction ids of the gathered graph. */
  lemma PromoteInteractionKeys(m: Model, name: string)
    requires Promotable(m, name)
    ensures Promote(m, name).interactions.Keys == Gather(m, name).interactions.Keys
  {
    var a := Absorb(m, name);
    AbsorbIsWellFormed(m, name);
    AbsorbNames(m, name);
    AbsorbKeepsInteractions(m, name);
    RenameTemporaryInteractions(a, name);
  }

  lemma PromoteRestoresOne(m: Model, name: string, id: nat)
    requires Promotable(m, name)
    requires id in m.interactions && m.interactions[id].target == name
    ensures exists j :: j in Promote(m, name).interactions && Promote(m, name).interactions[j] == m.interactions[id]
  {
    var g := Gather(m, name);
    GatherMoves(m, name);
    var j :| j in g.interactions && g.interactions[j] == m.interactions[id].(target := TEMPORARY_DATASTORE_NAME);
    PromoteCarriesMoved(m, name, id, j);
  }

  /** Every interaction into the node reappears with the same source and flags. */
  lemma PromoteRestoresIncoming(m: Model, name: string)
    requires Promotable(m, name)
    ensures var r := Promote(m, name);
      forall id :: id in m.interactions && m.interactions[id].target == name ==>
        exists j :: j in r.interactions && r.interactions[j] == m.interactions[id]
  {
    forall id | id in m.interactions && m.interactions[id].target == name
      ensures exists j :: j in Promote(m, name).interactions && Promote(m, name).interactions[j] == m.interactions[id]
    {
      PromoteRestoresOne(m, name, id);
    }
  }

  lemma PromoteAddsNone(m: Model, name: string, j: nat)
    requires Promotable(m, name)
    requires j in Promote(m, name).interactions
    ensures exists id :: id in m.interactions && Promote(m, name).interactions[j] == m.interactions[id]
  {
    var g := Gather(m, name);
    PromoteInteractionKeys(m, name);
    GatherOrigin(m, name);
    assert FromOriginal(m, name, g.interactions[j]);
    if id :| id in m.interactions && m.interactions[id].target != name && g.interactions[j] == m.interactions[id] {
      PromoteCarriesKept(m, name, id, j);
    } else {
      var id :| id in m.interactions && m.interactions[id].target == name &&
        g.interactions[j] == m.interactions[id].(target := TEMPORARY_DATASTORE_NAME);
      PromoteCarriesMoved(m, name, id, j);
    }
  }

  /** No interaction appears that was not in the graph before. */
  lemma PromoteAddsNoInteraction(m: Model, name: string)
    requires Promotable(m, name)
    ensures var r := Promote(m, name);
      forall j :: j in r.interactions ==> exists id :: id in m.interactions && r.interactions[j] == m.interactions[id]
  {
    forall j | j in Promote(m, name).interactions
      ensures exists id :: id in m.interactions && Promote(m, name).interactions[j] == m.interactions[id]
    {
      PromoteAddsNone(m, name, j);
    }
  }

  /** The Datastore is deployed on everything the old node was deployed on;
      only relationships pointing at the old node are lost. */
  lemma PromoteDeployedOn(m: Model, name: string)
    requires Promotable(m, name)
    ensures forall e :: e in Promote(m, name).deployedOn <==> e in m.deployedOn && e.target != name
  {
    var T := TEMPORARY_DATASTORE_NAME;
    var a := Absorb(m, name);
    AbsorbWellFormed(m, name);
    AbsorbDeployedOn(m, name);
    var r := RenameNode(a, T, name);
    forall d | d in m.deployedOn && d.target != name ensures d in r.deployedOn {
      assert d.source != T && d.target != T;
      if d.source == name {
        assert DeployedOn(T, d.target) in a.deployedOn;
      } else {
        assert d in a.deployedOn;
      }
    }
    forall e | e in r.deployedOn ensures e in m.deployedOn && e.target != name {
      var d :| d in a.deployedOn && e == DeployedOn(Renamed(d.source, T, name), Renamed(d.target, T, name));
      if d.source == T {
        assert d.target != T;
      } else {
        assert d.source != T && d.target != T;
      }
    }
  }

  /** The promoted node leaves the edge group; no other member changes. */
  lemma PromoteEdge(m: Model, name: string)
    requires Promotable(m, name)
    ensures Promote(m, name).edge == m.edge - {name}
  {
    var a := Absorb(m, name);
    AbsorbWellFormed(m, name);
    RenameNodeEdge(a, TEMPORARY_DATASTORE_NAME, name);
  }

  // ------------------------------------------------------------------- worker

  /** The lookup of the worker finds exactly one container, and it looks
      like a database. */
  predicate Detected(c: Cluster, rules: NameRules, name: string) {
    var f := GetObjectByName(c, rules, name, ContainerType);
    f.Success? && f.value.Some? && f.value.value.Cont? && ValidRef(f.value.value.ref)
      && IsDatabase(ContainerOf(f.value.value.ref))
  }

  /** What every remaining candidate of the loop needs: a well-formed graph
      without the temporary name, in which the candidate is a node with no
      outgoing interaction. */
  predicate SearchReady(m: Model, cands: seq<Node>, i: nat) {
    && WellFormed(m)
    && TEMPORARY_DATASTORE_NAME !in Names(m)
    && (forall k :: i <= k < |cands| ==> cands[k].name in Names(m) && !HasOutgoing(m, cands[k].name))
  }

  /** A promotion leaves every other candidate promotable. */
  lemma PromoteKeepsReady(m: Model, cands: seq<Node>, i: nat)
    requires i < |cands| && SearchReady(m, cands, i)
    ensures Promotable(m, cands[i].name)
    ensures SearchReady(Promote(m, cands[i].name), cands, i + 1)
  {
    var x := cands[i].name;
    var r := Promote(m, x);
    PromoteWellFormed(m, x);
    PromoteAddsNoInteraction(m, x);
    forall k, j | i + 1 <= k < |cands| && j in r.interactions ensures r.interactions[j].source != cands[k].name {
      var id :| id in m.interactions && r.interactions[j] == m.interactions[id];
    }
  }

  /** The loop of `_search_datastores` from candidate `i` on; a lookup that
      raises ends the loop with its error. */
  function SearchDatastores(m: Model, c: Cluster, rules: NameRules, cands: seq<Node>, i: nat): (r: Result<Model, Error>)
    requires i <= |cands| && SearchReady(m, cands, i)
    decreases |cands| - i
  {
    if i == |cands| then Success(m)
    else
      var found :- GetObjectByName(c, rules, cands[i].name, ContainerType);
      PromoteKeepsReady(m, cands, i);
      var m' := if Detected(c, rules, cands[i].name) then Promote(m, cands[i].name) else m;
      SearchDatastores(m', c, rules, cands, i + 1)
  }

  /** Candidate `x` from position `i` on is promoted. */
  predicate PromotedFrom(c: Cluster, rules: NameRules, cands: seq<Node>, i: nat, x: string) {
    Detected(c, rules, x) && exists k :: i <= k < |cands| && cands[k].name == x
  }

  /** The step of the loop as a graph: promoted or unchanged. */
  function SearchStep(m: Model, c: Cluster, rules: NameRules, cands: seq<Node>, i: nat): (r: Model)
    requires i < |cands| && SearchReady(m, cands, i)
    ensures SearchReady(r, cands, i + 1)
  {
    PromoteKeepsReady(m, cands, i);
    if Detected(c, rules, cands[i].name) then Promote(m, cands[i].name) else m
  }

  lemma SearchUnfold(m: Model, c: Cluster, rules: NameRules, cands: seq<Node>, i: nat)
    requires i < |cands| && SearchReady(m, cands, i)
    ensures GetObjectByName(c, rules, cands[i].name, ContainerType).Failure? ==>
      SearchDatastores(m, c, rules, cands, i).Failure?
    ensures GetObjectByName(c, rules, cands[i].name, ContainerType).Success? ==>
      SearchDatastores(m, c, rules, cands, i) == SearchDatastores(SearchStep(m, c, rules, cands, i), c, rules, cands, i + 1)
  {
  }

  /** The loop raises exactly when the lookup of some candidate does; the
      graph plays no part in the lookups. */
  lemma {:induction false} SearchFails(m: Model, c: Cluster, rules: NameRules, cands: seq<Node>, i: nat)
    requires i <= |cands| && SearchReady(m, cands, i)
    ensures SearchDatastores(m, c, rules, cands, i).Failure? <==>
      exists k :: i <= k < |cands| && GetObjectByName(c, rules, cands[k].name, ContainerType).Failure?
    decreases |cands| - i
  {
    if i < |cands| {
      SearchUnfold(m, c, rules, cands, i);
      if GetObjectByName(c, rules, cands[i].name, ContainerType).Success? {
        SearchFails(SearchStep(m, c, rules, cands, i), c, rules, cands, i + 1);
        if exists k :: i <= k < |cands| && GetObjectByName(c, rules, cands[k].name, ContainerType).Failure? {
          var k :| i <= k < |cands| && GetObjectByName(c, rules, cands[k].name, ContainerType).Failure?;
          assert k != i;
        }
      }
    }
  }

  /** The loop keeps the graph well formed and its node names unchanged. */
  lemma {:induction false} SearchWellFormed(m: Model, c: Cluster, rules: NameRules, cands: seq<Node>, i: nat)
    requires i <= |cands| && SearchReady(m, cands, i)
    ensures var r := SearchDatastores(m, c, rules, cands, i);
      r.Success? ==> WellFormed(r.value) && Names(r.value) == Names(m)
    decreases |cands| - i
  {
    if i < |cands| {
      SearchUnfold(m, c, rules, cands, i);
      if GetObjectByName(c, rules, cands[i].name, ContainerType).Success? {
        var m' := SearchStep(m, c, rules, cands, i);
        SearchWellFormed(m', c, rules, cands, i + 1);
        if Detected(c, rules, cands[i].name) {
          PromoteWellFormed(m, cands[i].name);
        }
      }
    }
  }

  /** The node under `x` once the loop from candidate `i` on has run. */
  function NodeAfterSearch(m: Model, c: Cluster, rules: NameRules, cands: seq<Node>, i: nat, x: string): Option<Node> {
    if PromotedFrom(c, rules, cands, i, x) then Some(Node(x, DatastoreNode)) else GetNode(m, x)
  }

  /** Exactly the detected candidates become Datastores; every other node is
      left as it was. */
  lemma {:induction false} SearchNodes(m: Model, c: Cluster, rules: NameRules, cands: seq<Node>, i: nat)
    requires i <= |cands| && SearchReady(m, cands, i)
    ensures var r := SearchDatastores(m, c, rules, cands, i);
      r.Success? ==> forall x :: GetNode(r.value, x) == NodeAfterSearch(m, c, rules, cands, i, x)
    decreases |cands| - i
  {
    if i < |cands| {
      SearchUnfold(m, c, rules, cands, i);
      if GetObjectByName(c, rules, cands[i].name, ContainerType).Success? {
        var y := cands[i].name;
        var m' := SearchStep(m, c, rules, cands, i);
        SearchNodes(m', c, rules, cands, i + 1);
        SearchWellFormed(m', c, rules, cands, i + 1);
        var r := SearchDatastores(m', c, rules, cands, i + 1);
        if r.Success? {
          if Detected(c, rules, y) {
            PromoteMakesDatastore(m, y);
            PromoteKeepsOtherNodes(m, y);
            PromoteWellFormed(m, y);
          }
          forall x ensures GetNode(r.value, x) == NodeAfterSearch(m, c, rules, cands, i, x) {
            if x == TEMPORARY_DATASTORE_NAME {
              assert !PromotedFrom(c, rules, cands, i, x);
              assert !PromotedFrom(c, rules, cands, i + 1, x);
            } else if PromotedFrom(c, rules, cands, i + 1, x) {
              assert PromotedFrom(c, rules, cands, i, x);
            } else if x == y && Detected(c, rules, y) {
              assert PromotedFrom(c, rules, cands, i, x);
            } else {
              assert !PromotedFrom(c, rules, cands, i, x);
            }
          }
        }
      }
    }
  }

  /** Interactions whose target is not promoted keep their id and value. */
  lemma {:induction false} SearchKeepsInteractions(m: Model, c: Cluster, rules: NameRules, cands: seq<Node>, i: nat)
    requires i <= |cands| && SearchReady(m, cands, i)
    ensures var r := SearchDatastores(m, c, rules, cands, i);
      r.Success? ==>
        forall id :: id in m.interactions && !PromotedFrom(c, rules, cands, i, m.interactions[id].target) ==>
          id in r.value.interactions && r.value.interactions[id] == m.interactions[id]
    decreases |cands| - i
  {
    if i < |cands| {
      SearchUnfold(m, c, rules, cands, i);
      if GetObjectByName(c, rules, cands[i].name, ContainerType).Success? {
        var y := cands[i].name;
        var m' := SearchStep(m, c, rules, cands, i);
        SearchKeepsInteractions(m', c, rules, cands, i + 1);
        var r := SearchDatastores(m', c, rules, cands, i + 1);
        if Detected(c, rules, y) {
          PromoteKeepsInteractions(m, y);
        }
        if r.Success? {
          forall id | id in m.interactions && !PromotedFrom(c, rules, cands, i, m.interactions[id].target)
            ensures id in r.value.interactions && r.value.interactions[id] == m.interactions[id]
          {
            assert !(Detected(c, rules, y) && m.interactions[id].target == y);
            assert !PromotedFrom(c, rules, cands, i + 1, m.interactions[id].target);
          }
        }
      }
    }
  }

  /** Every interaction before reappears after, with the same value. */
  lemma {:induction false} SearchRestoresInteractions(m: Model, c: Cluster, rules: NameRules, cands: seq<Node>, i: nat)
    requires i <= |cands| && SearchReady(m, cands, i)
    ensures var r := SearchDatastores(m, c, rules, cands, i);
      r.Success? ==>
        forall id :: id in m.interactions ==>
          exists j :: j in r.value.interactions && r.value.interactions[j] == m.interactions[id]
    decreases |cands| - i
  {
    if i < |cands| {
      SearchUnfold(m, c, rules, cands, i);
      if GetObjectByName(c, rules, cands[i].name, ContainerType).Success? {
        var y := cands[i].name;
        var m' := SearchStep(m, c, rules, cands, i);
        SearchRestoresInteractions(m', c, rules, cands, i + 1);
        var r := SearchDatastores(m', c, rules, cands, i + 1);
        if r.Success? && Detected(c, rules, y) {
          PromoteKeepsInteractions(m, y);
          PromoteRestoresIncoming(m, y);
          forall id | id in m.interactions
            ensures exists j :: j in r.value.interactions && r.value.interactions[j] == m.interactions[id]
          {
            var j' :| j' in m'.interactions && m'.interactions[j'] == m.interactions[id];
          }
        }
      }
    }
  }

  /** No interaction appears that was not there before. */
  lemma {:induction false} SearchAddsNoInteraction(m: Model, c: Cluster, rules: NameRules, cands: seq<Node>, i: nat)
    requires i <= |cands| && SearchReady(m, cands, i)
    ensures var r := SearchDatastores(m, c, rules, cands, i);
      r.Success? ==>
        forall j :: j in r.value.interactions ==>
          exists id :: id in m.interactions && r.value.interactions[j] == m.interactions[id]
    decreases |cands| - i
  {
    if i < |cands| {
      SearchUnfold(m, c, rules, cands, i);
      if GetObjectByName(c, rules, cands[i].name, ContainerType).Success? {
        var y := cands[i].name;
        var m' := SearchStep(m, c, rules, cands, i);
        SearchAddsNoInteraction(m', c, rules, cands, i + 1);
        var r := SearchDatastores(m', c, rules, cands, i + 1);
        if r.Success? && Detected(c, rules, y) {
          PromoteAddsNoInteraction(m, y);
          forall j | j in r.value.interactions
            ensures exists id :: id in m.interactions && r.value.interactions[j] == m.interactions[id]
          {
            var j' :| j' in m'.interactions && r.value.interactions[j] == m'.interactions[j'];
          }
        }
      }
    }
  }

  /** Deployed-on relationships survive unless they point at a promoted node;
      promoted nodes leave the edge group. */
  lemma {:induction false} SearchDeployedOn(m: Model, c: Cluster, rules: NameRules, cands: seq<Node>, i: nat)
    requires i <= |cands| && SearchReady(m, cands, i)
    ensures var r := SearchDatastores(m, c, rules, cands, i);
      r.Success? ==>
        && (forall d :: d in r.value.deployedOn <==> d in m.deployedOn && !PromotedFrom(c, rules, cands, i, d.target))
        && (forall x :: x in r.value.edge <==> x in m.edge && !PromotedFrom(c, rules, cands, i, x))
    decreases |cands| - i
  {
    if i < |cands| {
      SearchUnfold(m, c, rules, cands, i);
      if GetObjectByName(c, rules, cands[i].name, ContainerType).Success? {
        var y := cands[i].name;
        var m' := SearchStep(m, c, rules, cands, i);
        SearchDeployedOn(m', c, rules, cands, i + 1);
        var r := SearchDatastores(m', c, rules, cands, i + 1);
        if r.Success? {
          if Detected(c, rules, y) {
            PromoteDeployedOn(m, y);
            PromoteEdge(m, y);
          }
          forall d ensures d in r.value.deployedOn <==> d in m.deployedOn && !PromotedFrom(c, rules, cands, i, d.target) {
            if d.target == y && Detected(c, rules, y) {
              assert PromotedFrom(c, rules, cands, i, d.target);
            } else {
              assert PromotedFrom(c, rules, cands, i, d.target) <==> PromotedFrom(c, rules, cands, i + 1, d.target);
            }
          }
          forall x ensures x in r.value.edge <==> x in m.edge && !PromotedFrom(c, rules, cands, i, x) {
            if x == y && Detected(c, rules, y) {
              assert PromotedFrom(c, rules, cands, i, x);
            } else {
              assert PromotedFrom(c, rules, cands, i, x) <==> PromotedFrom(c, rules, cands, i + 1, x);
            }
          }
        }
      }
    }
  }

  /** A Service not ignored by the worker and without outgoing interactions. */
  predicate Visited(m: Model, ignore: Option<Ignorer>, n: Node) {
    n.kind == ServiceNode && !Policy(ignore)(n, WorkerIgnore, DATABASE_WORKER) && !HasOutgoing(m, n.name)
  }

  /** The services `_search_datastores` visits, in model order: not ignored
      by the worker and without outgoing interactions. */
  function DatastoreCandidates(m: Model, ignore: Option<Ignorer>): (r: seq<Node>)
    ensures forall k :: 0 <= k < |r| ==> r[k] in m.nodes && Visited(m, ignore, r[k])
    ensures forall n :: n in m.nodes && Visited(m, ignore, n) ==> n in r
  {
    var services := NodesNotIgnored(ServiceNodes(m), ignore, DATABASE_WORKER);
    var r := Filter(services, (n: Node) => !HasOutgoing(m, n.name));
    assert forall n :: n in m.nodes && Visited(m, ignore, n) ==> n in r by {
      forall n | n in m.nodes && Visited(m, ignore, n) ensures n in r {
        var k :| 0 <= k < |m.nodes| && m.nodes[k] == n;
        assert n in ServiceNodes(m);
        var j :| 0 <= j < |ServiceNodes(m)| && ServiceNodes(m)[j] == n;
        assert n in services;
        var l :| 0 <= l < |services| && services[l] == n;
      }
    }
    r
  }

  /** Node `x` is one the worker visits. */
  predicate DatastoreCandidate(m: Model, ignore: Option<Ignorer>, x: string) {
    GetNode(m, x).Some? && Visited(m, ignore, GetNode(m, x).value)
  }

  /** Node `x` is visited and its container is taken for a database. */
  predicate Promoted(m: Model, c: Cluster, rules: NameRules, ignore: Option<Ignorer>, x: string) {
    DatastoreCandidate(m, ignore, x) && Detected(c, rules, x)
  }

  lemma CandidatesExactly(m: Model, ignore: Option<Ignorer>, x: string)
    requires WellFormed(m)
    ensures (exists k :: 0 <= k < |DatastoreCandidates(m, ignore)| && DatastoreCandidates(m, ignore)[k].name == x)
      <==> DatastoreCandidate(m, ignore, x)
  {
    var cands := DatastoreCandidates(m, ignore);
    if k :| 0 <= k < |cands| && cands[k].name == x {
      NodeInUnique(m, cands[k]);
    }
    if DatastoreCandidate(m, ignore, x) {
      var n := GetNode(m, x).value;
      assert n in cands;
      var k :| 0 <= k < |cands| && cands[k] == n;
    }
  }

  lemma PromotedExactly(m: Model, c: Cluster, rules: NameRules, ignore: Option<Ignorer>)
    requires WellFormed(m)
    ensures forall x :: PromotedFrom(c, rules, DatastoreCandidates(m, ignore), 0, x) <==> Promoted(m, c, rules, ignore, x)
  {
    forall x ensures PromotedFrom(c, rules, DatastoreCandidates(m, ignore), 0, x) <==> Promoted(m, c, rules, ignore, x) {
      CandidatesExactly(m, ignore, x);
    }
  }

  /** `refine` of the database worker; the graph must not already hold a
      node under the temporary name. */
  function Refine(m: Model, c: Cluster, rules: NameRules, ignore: Option<Ignorer>): (r: Result<Model, Error>)
    requires WellFormed(m) && TEMPORARY_DATASTORE_NAME !in Names(m)
  {
    var cands := DatastoreCandidates(m, ignore);
    assert SearchReady(m, cands, 0);
    SearchDatastores(m, c, rules, cands, 0)
  }

  /** The worker raises exactly when the lookup of a visited service is ambiguous. */
  lemma RefineFails(m: Model, c: Cluster, rules: NameRules, ignore: Option<Ignorer>)
    requires WellFormed(m) && TEMPORARY_DATASTORE_NAME !in Names(m)
    ensures Refine(m, c, rules, ignore).Failure? <==>
      exists x :: DatastoreCandidate(m, ignore, x) && GetObjectByName(c, rules, x, ContainerType).Failure?
  {
    if Refine(m, c, rules, ignore).Failure? {
      RefineFailureWitness(m, c, rules, ignore);
    } else {
      RefineSuccessLookups(m, c, rules, ignore);
    }
  }

  lemma RefineFailureWitness(m: Model, c: Cluster, rules: NameRules, ignore: Option<Ignorer>)
    requires WellFormed(m) && TEMPORARY_DATASTORE_NAME !in Names(m)
    requires Refine(m, c, rules, ignore).Failure?
    ensures exists x :: DatastoreCandidate(m, ignore, x) && GetObjectByName(c, rules, x, ContainerType).Failure?
  {
    var cands := DatastoreCandidates(m, ignore);
    SearchFails(m, c, rules, cands, 0);
    assert Refine(m, c, rules, ignore) == SearchDatastores(m, c, rules, cands, 0);
    var k :| 0 <= k < |cands| && GetObjectByName(c, rules, cands[k].name, ContainerType).Failure?;
    var x := cands[k].name;
    CandidatesExactly(m, ignore, x);
    assert DatastoreCandidate(m, ignore, x);
  }

  lemma RefineSuccessLookups(m: Model, c: Cluster, rules: NameRules, ignore: Option<Ignorer>)
    requires WellFormed(m) && TEMPORARY_DATASTORE_NAME !in Names(m)
    requires Refine(m, c, rules, ignore).Success?
    ensures forall x :: DatastoreCandidate(m, ignore, x) ==> GetObjectByName(c, rules, x, ContainerType).Success?
  {
    var cands := DatastoreCandidates(m, ignore);
    SearchFails(m, c, rules, cands, 0);
    forall x | DatastoreCandidate(m, ignore, x) ensures GetObjectByName(c, rules, x, ContainerType).Success? {
      CandidatesExactly(m, ignore, x);
    }
  }

  /** Exactly the visited services whose container is taken for a database
      become Datastores under the same name; the graph stays well formed. */
  lemma RefinePromotes(m: Model, c: Cluster, rules: NameRules, ignore: Option<Ignorer>)
    requires WellFormed(m) && TEMPORARY_DATASTORE_NAME !in Names(m)
    ensures var r := Refine(m, c, rules, ignore);
      r.Success? ==>
        && WellFormed(r.value)
        && Names(r.value) == Names(m)
        && (forall x :: Promoted(m, c, rules, ignore, x) ==> GetNode(r.value, x) == Some(Node(x, DatastoreNode)))
        && (forall x :: !Promoted(m, c, rules, ignore, x) ==> GetNode(r.value, x) == GetNode(m, x))
  {
    var cands := DatastoreCandidates(m, ignore);
    SearchWellFormed(m, c, rules, cands, 0);
    SearchNodes(m, c, rules, cands, 0);
    PromotedExactly(m, c, rules, ignore);
  }

  /** Interactions into unpromoted nodes keep their id and value. */
  lemma RefineKeepsInteractions(m: Model, c: Cluster, rules: NameRules, ignore: Option<Ignorer>)
    requires WellFormed(m) && TEMPORARY_DATASTORE_NAME !in Names(m)
    ensures var r := Refine(m, c, rules, ignore);
      r.Success? ==>
        forall id :: id in m.interactions && !Promoted(m, c, rules, ignore, m.interactions[id].target) ==>
          id in r.value.interactions && r.value.interactions[id] == m.interactions[id]
  {
    var cands := DatastoreCandidates(m, ignore);
    SearchKeepsInteractions(m, c, rules, cands, 0);
    PromotedExactly(m, c, rules, ignore);
  }

  /** No interaction is lost or invented: every one before reappears with
      the same source, target name and flags, and every one after was there. */
  lemma RefineInteractionValues(m: Model, c: Cluster, rules: NameRules, ignore: Option<Ignorer>)
    requires WellFormed(m) && TEMPORARY_DATASTORE_NAME !in Names(m)
    ensures var r := Refine(m, c, rules, ignore);
      r.Success? ==>
        && (forall id :: id in m.interactions ==>
              exists j :: j in r.value.interactions && r.value.interactions[j] == m.interactions[id])
        && (forall j :: j in r.value.interactions ==>
              exists id :: id in m.interactions && r.value.interactions[j] == m.interactions[id])
  {
    var cands := DatastoreCandidates(m, ignore);
    SearchRestoresInteractions(m, c, rules, cands, 0);
    SearchAddsNoInteraction(m, c, rules, cands, 0);
  }

  /** Deployed-on relationships survive unless they point at a promoted
      node, and promoted nodes leave the edge group. */
  lemma RefineDeployedOn(m: Model, c: Cluster, rules: NameRules, ignore: Option<Ignorer>)
    requires WellFormed(m) && TEMPORARY_DATASTORE_NAME !in Names(m)
    ensures var r := Refine(m, c, rules, ignore);
      r.Success? ==>
        && (forall d :: d in r.value.deployedOn <==> d in m.deployedOn && !Promoted(m, c, rules, ignore, d.target))
        && (forall x :: x in r.value.edge <==> x in m.edge && !Promoted(m, c, rules, ignore, x))
  {
    var cands := DatastoreCandidates(m, ignore);
    SearchDeployedOn(m, c, rules, cands, 0);
    PromotedExactly(m, c, rules, ignore);
  }
}
