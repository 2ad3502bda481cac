/** `KubeCluster`: the in-memory set of cluster objects with its export
    records, the per-kind views and the layered name lookup. */
module KubeCluster {
  import opened Wrappers
  import opened Seqs
  import opened Strings
  import opened Errors
  import opened KubeObjects

  /** An export record: which object goes to which output file. */
  datatype ExportObject = ExportObject(obj: KubeObject, filename: Option<string>)

  datatype Cluster = Cluster(objects: seq<KubeObject>, exports: seq<ExportObject>)

  function EmptyCluster(): (c: Cluster)
    ensures |c.objects| == 0 && |c.exports| == 0
  {
    Cluster([], [])
  }

  // ---------------------------------------------------------------- kind views

  predicate IsWorkload(o: KubeObject) { o.body.Workload? }
  predicate IsService(o: KubeObject) { o.body.Service? }
  predicate IsNetworking(o: KubeObject) { o.body.Service? || o.body.Ingress? }
  predicate IsIngress(o: KubeObject) { o.body.Ingress? }
  predicate IsVirtualService(o: KubeObject) { o.body.VirtualService? }
  predicate IsDestinationRule(o: KubeObject) { o.body.DestinationRule? }
  predicate IsIstioGateway(o: KubeObject) { o.body.IstioGateway? }

  function Workloads(c: Cluster): (r: seq<KubeObject>)
    ensures forall i :: 0 <= i < |r| ==> r[i].body.Workload? && r[i] in c.objects
    ensures forall o :: o in c.objects && o.body.Workload? ==> o in r
  {
    Filter(c.objects, IsWorkload)
  }

  function Networkings(c: Cluster): (r: seq<KubeObject>)
    ensures forall i :: 0 <= i < |r| ==> (r[i].body.Service? || r[i].body.Ingress?) && r[i] in c.objects
    ensures forall o :: o in c.objects && (o.body.Service? || o.body.Ingress?) ==> o in r
  {
    Filter(c.objects, IsNetworking)
  }

  function Services(c: Cluster): (r: seq<KubeObject>)
    ensures forall i :: 0 <= i < |r| ==> r[i].body.Service? && r[i] in c.objects
    ensures forall o :: o in c.objects && o.body.Service? ==> o in r
  {
    Filter(c.objects, IsService)
  }

  function IngressObjects(c: Cluster): (r: seq<KubeObject>)
    ensures forall i :: 0 <= i < |r| ==> r[i].body.Ingress? && r[i] in c.objects
    ensures forall o :: o in c.objects && o.body.Ingress? ==> o in r
  {
    Filter(c.objects, IsIngress)
  }

  function VirtualServices(c: Cluster): (r: seq<KubeObject>)
    ensures forall i :: 0 <= i < |r| ==> r[i].body.VirtualService? && r[i] in c.objects
    ensures forall o :: o in c.objects && o.body.VirtualService? ==> o in r
  {
    Filter(c.objects, IsVirtualService)
  }

  function DestinationRules(c: Cluster): (r: seq<KubeObject>)
    ensures forall i :: 0 <= i < |r| ==> r[i].body.DestinationRule? && r[i] in c.objects
    ensures forall o :: o in c.objects && o.body.DestinationRule? ==> o in r
  {
    Filter(c.objects, IsDestinationRule)
  }

  function IstioGateways(c: Cluster): (r: seq<KubeObject>)
    ensures forall i :: 0 <= i < |r| ==> r[i].body.IstioGateway? && r[i] in c.objects
    ensures forall o :: o in c.objects && o.body.IstioGateway? ==> o in r
  {
    Filter(c.objects, IsIstioGateway)
  }

  /** The kind views keep the order of `cluster_objects`: the view of a
      concatenation is the concatenation of the views. */
  lemma KindViewsPreserveOrder(a: seq<KubeObject>, b: seq<KubeObject>, e: seq<ExportObject>)
    ensures Workloads(Cluster(a + b, e)) == Workloads(Cluster(a, e)) + Workloads(Cluster(b, e))
    ensures Services(Cluster(a + b, e)) == Services(Cluster(a, e)) + Services(Cluster(b, e))
    ensures Networkings(Cluster(a + b, e)) == Networkings(Cluster(a, e)) + Networkings(Cluster(b, e))
    ensures VirtualServices(Cluster(a + b, e)) == VirtualServices(Cluster(a, e)) + VirtualServices(Cluster(b, e))
    ensures DestinationRules(Cluster(a + b, e)) == DestinationRules(Cluster(a, e)) + DestinationRules(Cluster(b, e))
    ensures IstioGateways(Cluster(a + b, e)) == IstioGateways(Cluster(a, e)) + IstioGateways(Cluster(b, e))
    ensures IngressObjects(Cluster(a + b, e)) == IngressObjects(Cluster(a, e)) + IngressObjects(Cluster(b, e))
  {
    FilterAppend(a, b, IsWorkload);
    FilterAppend(a, b, IsService);
    FilterAppend(a, b, IsNetworking);
    FilterAppend(a, b, IsVirtualService);
    FilterAppend(a, b, IsDestinationRule);
    FilterAppend(a, b, IsIstioGateway);
    FilterAppend(a, b, IsIngress);
  }

  // ---------------------------------------------------------------- containers

  /** A container, identified by its owning workload and its position in it. */
  datatype ContainerRef = ContainerRef(owner: KubeObject, index: nat)

  predicate ValidRef(r: ContainerRef) {
    r.owner.body.Workload? && r.index < |r.owner.body.containers|
  }

  function ContainerOf(r: ContainerRef): Container
    requires ValidRef(r)
  {
    r.owner.body.containers[r.index]
  }

  function RefsFrom(w: KubeObject, i: nat): (r: seq<ContainerRef>)
    requires w.body.Workload? && i <= |w.body.containers|
    ensures |r| == |w.body.containers| - i
    ensures forall k :: 0 <= k < |r| ==> r[k] == ContainerRef(w, i + k)
    decreases |w.body.containers| - i
  {
    if i == |w.body.containers| then [] else [ContainerRef(w, i)] + RefsFrom(w, i + 1)
  }

  function AllContainers(ws: seq<KubeObject>): seq<Container>
    requires forall i :: 0 <= i < |ws| ==> ws[i].body.Workload?
  {
    if |ws| == 0 then [] else ws[0].body.containers + AllContainers(ws[1..])
  }

  function ContainerRefs(ws: seq<KubeObject>): (r: seq<ContainerRef>)
    requires forall i :: 0 <= i < |ws| ==> ws[i].body.Workload?
    ensures forall k :: 0 <= k < |r| ==> ValidRef(r[k]) && r[k].owner in ws
    ensures |r| == |AllContainers(ws)|
    ensures forall k :: 0 <= k < |r| ==> ContainerOf(r[k]) == AllContainers(ws)[k]
  {
    if |ws| == 0 then []
    else
      var head := RefsFrom(ws[0], 0);
      var rest := ContainerRefs(ws[1..]);
      assert forall k :: 0 <= k < |rest| ==> rest[k].owner in ws by {
        forall k | 0 <= k < |rest| ensures rest[k].owner in ws {
          assert rest[k].owner in ws[1..];
        }
      }
      head + rest
  }

  /** `KubeCluster.containers`: the containers of every workload, workload by
      workload, in workload order. */
  function Containers(c: Cluster): (r: seq<ContainerRef>)
    ensures forall k :: 0 <= k < |r| ==> ValidRef(r[k]) && r[k].owner in Workloads(c)
    ensures |r| == |AllContainers(Workloads(c))|
    ensures forall k :: 0 <= k < |r| ==> ContainerOf(r[k]) == AllContainers(Workloads(c))[k]
  {
    ContainerRefs(Workloads(c))
  }

  // ---------------------------------------------------------------- mutation

  /** `add_object`: appends the object unless it is already present. */
  function AddObject(c: Cluster, o: KubeObject): (r: Cluster)
    ensures o in r.objects
    ensures o in c.objects ==> r == c
    ensures o !in c.objects ==> r.objects == c.objects + [o] && r.exports == c.exports
    ensures NoDup(c.objects) ==> NoDup(r.objects)
  {
    if o in c.objects then c else Cluster(c.objects + [o], c.exports)
  }

  /** Adding the same object twice is adding it once. */
  lemma AddObjectIdempotent(c: Cluster, o: KubeObject)
    ensures AddObject(AddObject(c, o), o) == AddObject(c, o)
  {
  }

  function RemoveFirst<T(==)>(xs: seq<T>, x: T): (r: seq<T>)
    ensures x !in xs ==> r == xs
    ensures x in xs ==> |r| == |xs| - 1
    ensures forall y :: y in r ==> y in xs
    ensures NoDup(xs) ==> x !in r && NoDup(r)
  {
    if |xs| == 0 then []
    else if xs[0] == x then xs[1..]
    else
      var rest := RemoveFirst(xs[1..], x);
      assert NoDup(xs) ==> NoDup(xs[1..]) && xs[0] !in rest;
      [xs[0]] + rest
  }

  /** The elements of `xs` other than `x`, in order. */
  function Others<T(==)>(xs: seq<T>, x: T): seq<T> {
    Filter(xs, y => y != x)
  }

  /** The export records of `e` for objects other than `o`, in order. */
  function OtherRecords(e: seq<ExportObject>, o: KubeObject): seq<ExportObject> {
    Filter(e, (x: ExportObject) => x.obj != o)
  }

  lemma {:induction false} RemoveFirstKeepsOthers<T>(xs: seq<T>, x: T)
    ensures Others(RemoveFirst(xs, x), x) == Others(xs, x)
  {
    if |xs| > 0 && xs[0] != x {
      RemoveFirstKeepsOthers(xs[1..], x);
      assert RemoveFirst(xs, x)[1..] == RemoveFirst(xs[1..], x);
    }
  }

  predicate RecordFor(e: seq<ExportObject>, o: KubeObject, j: nat) {
    j < |e| && e[j].obj == o
  }

  /** Two consecutive export records at `j` and `j + 1` are both for `o`. */
  predicate AdjacentRecords(e: seq<ExportObject>, o: KubeObject, j: nat) {
    j + 1 < |e| && e[j].obj == o && e[j + 1].obj == o
  }

  /** The loop of `remove_object` over `cluster_export_info` from position `i`:
      removing the visited record shifts the rest left, and the iterator then
      moves on, so the record right after a removed one is never visited. */
  function RemoveExportsFrom(e: seq<ExportObject>, o: KubeObject, i: nat): seq<ExportObject>
    decreases |e| - i
  {
    if i >= |e| then e
    else if e[i].obj == o then RemoveExportsFrom(e[..i] + e[i + 1..], o, i + 1)
    else RemoveExportsFrom(e, o, i + 1)
  }

  lemma {:induction false} RemoveExportsKeepsOthers(e: seq<ExportObject>, o: KubeObject, i: nat)
    ensures OtherRecords(RemoveExportsFrom(e, o, i), o) == OtherRecords(e, o)
    decreases |e| - i
  {
    var p := (x: ExportObject) => x.obj != o;
    if i < |e| {
      if e[i].obj == o {
        var e' := e[..i] + e[i + 1..];
        RemoveExportsKeepsOthers(e', o, i + 1);
        assert e == e[..i] + ([e[i]] + e[i + 1..]);
        FilterAppend(e[..i], [e[i]] + e[i + 1..], p);
        FilterAppend([e[i]], e[i + 1..], p);
        FilterAppend(e[..i], e[i + 1..], p);
      } else {
        RemoveExportsKeepsOthers(e, o, i + 1);
      }
    }
  }

  lemma {:induction false} RemoveExportsClears(e: seq<ExportObject>, o: KubeObject, i: nat)
    requires forall j: nat :: j < i ==> !RecordFor(e, o, j)
    requires forall j: nat :: i <= j ==> !AdjacentRecords(e, o, j)
    ensures forall j: nat :: !RecordFor(RemoveExportsFrom(e, o, i), o, j)
    decreases |e| - i
  {
    if i < |e| {
      if e[i].obj == o {
        var e' := e[..i] + e[i + 1..];
        forall j: nat | j < i + 1 ensures !RecordFor(e', o, j) {
          if j == i {
            assert !AdjacentRecords(e, o, i);
          } else {
            assert !RecordFor(e, o, j);
          }
        }
        forall j: nat | i + 1 <= j ensures !AdjacentRecords(e', o, j) {
          assert !AdjacentRecords(e, o, j + 1);
        }
        RemoveExportsClears(e', o, i + 1);
      } else {
        RemoveExportsClears(e, o, i + 1);
      }
    }
  }

  lemma RemoveExportsClearsFromStart(e: seq<ExportObject>, o: KubeObject)
    ensures (forall j: nat :: !AdjacentRecords(e, o, j)) ==>
      forall j: nat :: !RecordFor(RemoveExportsFrom(e, o, 0), o, j)
  {
    if forall j: nat :: !AdjacentRecords(e, o, j) {
      RemoveExportsClears(e, o, 0);
    }
  }

  /** `remove_object`: drops the first occurrence of the object and walks the
      export records as the source does. Every record for another object
      stays, in order; the records for this object are all dropped when no
      two of them are consecutive. */
  function RemoveObject(c: Cluster, o: KubeObject): (r: Cluster)
    ensures |r.objects| == |c.objects| - (if o in c.objects then 1 else 0)
    ensures NoDup(c.objects) ==> o !in r.objects && NoDup(r.objects)
    ensures Others(r.objects, o) == Others(c.objects, o)
    ensures OtherRecords(r.exports, o) == OtherRecords(c.exports, o)
    ensures (forall j: nat :: !AdjacentRecords(c.exports, o, j)) ==>
      forall j: nat :: !RecordFor(r.exports, o, j)
  {
    RemoveFirstKeepsOthers(c.objects, o);
    RemoveExportsKeepsOthers(c.exports, o, 0);
    RemoveExportsClearsFromStart(c.exports, o);
    Cluster(RemoveFirst(c.objects, o), RemoveExportsFrom(c.exports, o, 0))
  }

  /** With two consecutive export records for the removed object, the second
      survives `remove_object`. */
  lemma RemoveObjectSkipsAdjacentRecord(o: KubeObject, f1: Option<string>, f2: Option<string>)
    ensures RemoveObject(Cluster([o], [ExportObject(o, f1), ExportObject(o, f2)]), o).exports
         == [ExportObject(o, f2)]
  {
    var e := [ExportObject(o, f1), ExportObject(o, f2)];
    assert e[..0] + e[0 + 1..] == [ExportObject(o, f2)];
    assert RemoveExportsFrom(e, o, 0) == RemoveExportsFrom([ExportObject(o, f2)], o, 1);
  }

  /** `add_export_object`. */
  function AddExportObject(c: Cluster, x: ExportObject): (r: Cluster)
    ensures r.objects == c.objects && r.exports == c.exports + [x]
  {
    Cluster(c.objects, c.exports + [x])
  }

  /** `get_exp_object`: the first export record for the object, if any. */
  function GetExpObject(c: Cluster, o: KubeObject): (r: Option<ExportObject>)
    ensures r.None? <==> forall j: nat :: !RecordFor(c.exports, o, j)
    ensures r.Some? ==> exists j: nat ::
      && RecordFor(c.exports, o, j) && c.exports[j] == r.value
      && forall k: nat :: k < j ==> !RecordFor(c.exports, o, k)
  {
    var j := FirstIndex(c.exports, (x: ExportObject) => x.obj == o);
    assert forall k: nat :: k < j ==> !RecordFor(c.exports, o, k);
    if j < |c.exports| then
      assert RecordFor(c.exports, o, j);
      Some(c.exports[j])
    else None
  }

  /** Replaces an object by its updated version, in the object list and in its
      export records: the value-level counterpart of mutating the object in place. */
  function ReplaceObject(c: Cluster, before: KubeObject, after: KubeObject): (r: Cluster)
    ensures |r.objects| == |c.objects| && |r.exports| == |c.exports|
    ensures forall i :: 0 <= i < |c.objects| ==>
      r.objects[i] == (if c.objects[i] == before then after else c.objects[i])
    ensures forall i :: 0 <= i < |c.exports| ==>
      r.exports[i] == (if c.exports[i].obj == before then c.exports[i].(obj := after) else c.exports[i])
  {
    Cluster(
      seq(|c.objects|, i requires 0 <= i < |c.objects| => if c.objects[i] == before then after else c.objects[i]),
      seq(|c.exports|, i requires 0 <= i < |c.exports| =>
        if c.exports[i].obj == before then c.exports[i].(obj := after) else c.exports[i]))
  }

  /** `find_workload_exposed_by_svc`. */
  function FindWorkloadExposedBySvc(c: Cluster, x: ExposureRules, service: KubeObject): (r: seq<KubeObject>)
    ensures forall i :: 0 <= i < |r| ==> r[i] in Workloads(c) && x.doesExpose(service, r[i])
    ensures forall w :: w in Workloads(c) && x.doesExpose(service, w) ==> w in r
  {
    Filter(Workloads(c), w => x.doesExpose(service, w))
  }

  /** `find_svc_exposing_workload`. */
  function FindSvcExposingWorkload(c: Cluster, x: ExposureRules, workload: KubeObject): (r: seq<KubeObject>)
    ensures forall i :: 0 <= i < |r| ==> r[i] in Services(c) && x.doesExpose(r[i], workload)
    ensures forall s :: s in Services(c) && x.doesExpose(s, workload) ==> s in r
  {
    Filter(Services(c), s => x.doesExpose(s, workload))
  }

  // ---------------------------------------------------------------- lookup

  /** A lookup result: a cluster object or a container of a workload. */
  datatype Named = Obj(obj: KubeObject) | Cont(ref: ContainerRef)

  function NameOf(n: Named): string {
    match n
    case Obj(o) => o.name
    case Cont(r) => if ValidRef(r) then ContainerOf(r).name else ""
  }

  function FullNameOf(n: Named): string {
    match n
    case Obj(o) => FullName(o)
    case Cont(r) => if ValidRef(r) then ContainerOf(r).fullname else ""
  }

  function TypedFullNameOf(n: Named): string {
    match n
    case Obj(o) => TypedFullName(o)
    case Cont(r) => if ValidRef(r) then ContainerOf(r).typedFullname else ""
  }

  /** The `type` argument of `get_object_by_name`. `AnyObject` (the default,
      `KubeObject`) admits containers too. */
  datatype TypeFilter =
    | AnyObject | WorkloadType | ServiceType | NetworkingType | IngressType
    | VirtualServiceType | DestinationRuleType | IstioGatewayType | ContainerType

  predicate HasType(n: Named, t: TypeFilter) {
    match t
    case AnyObject => true
    case ContainerType => n.Cont?
    case WorkloadType => n.Obj? && n.obj.body.Workload?
    case ServiceType => n.Obj? && n.obj.body.Service?
    case NetworkingType => n.Obj? && (n.obj.body.Service? || n.obj.body.Ingress?)
    case IngressType => n.Obj? && n.obj.body.Ingress?
    case VirtualServiceType => n.Obj? && n.obj.body.VirtualService?
    case DestinationRuleType => n.Obj? && n.obj.body.DestinationRule?
    case IstioGatewayType => n.Obj? && n.obj.body.IstioGateway?
  }

  function AsNamed(os: seq<KubeObject>): (r: seq<Named>)
    ensures |r| == |os|
    ensures forall i :: 0 <= i < |os| ==> r[i] == Obj(os[i])
  {
    if |os| == 0 then [] else [Obj(os[0])] + AsNamed(os[1..])
  }

  function AsNamedRefs(rs: seq<ContainerRef>): (r: seq<Named>)
    ensures |r| == |rs|
    ensures forall i :: 0 <= i < |rs| ==> r[i] == Cont(rs[i])
  {
    if |rs| == 0 then [] else [Cont(rs[0])] + AsNamedRefs(rs[1..])
  }

  /** `self.cluster_objects + self.containers`. */
  function SearchSpace(c: Cluster): (r: seq<Named>)
    ensures forall n :: n in r && n.Cont? ==> ValidRef(n.ref) && n.ref.owner in Workloads(c)
  {
    AsNamed(c.objects) + AsNamedRefs(Containers(c))
  }

  /** `'.'.join(name.split('.')[:-2])`: drops the last two dot-separated parts. */
  function StripFqdn(s: string): string {
    var parts := Split(s, '.');
    Join(parts[..if |parts| >= 2 then |parts| - 2 else 0], '.')
  }

  /** Stripping drops exactly the two trailing dot-free parts. */
  lemma StripFqdnDropsLastTwo(parts: seq<string>, a: string, b: string)
    requires |parts| >= 1
    requires forall i :: 0 <= i < |parts| ==> '.' !in parts[i]
    requires '.' !in a && '.' !in b
    ensures StripFqdn(Join(parts + [a, b], '.')) == Join(parts, '.')
  {
    var all := parts + [a, b];
    SplitJoin(all, '.');
    assert all[..|all| - 2] == parts;
  }

  /** The FQDN of a Service, `<typed fullname>.cluster.local`, strips back to
      its typed fullname. */
  lemma StripFqdnOfServiceDomain(o: KubeObject)
    requires '.' !in o.name && '.' !in o.namespace && '.' !in o.shortname
    ensures StripFqdn(TypedFullName(o) + ".cluster.local") == TypedFullName(o)
  {
    var parts := [o.name, o.namespace, o.shortname];
    assert Join(parts, '.') == TypedFullName(o) by {
      assert Join(parts[1..], '.') == o.namespace + "." + o.shortname by {
        assert parts[1..][1..] == [o.shortname];
      }
    }
    JoinSnoc(parts, "cluster", '.');
    JoinSnoc(parts + ["cluster"], "local", '.');
    assert parts + ["cluster"] + ["local"] == parts + ["cluster", "local"];
    assert Join(parts + ["cluster", "local"], '.') == TypedFullName(o) + ".cluster.local";
    StripFqdnDropsLastTwo(parts, "cluster", "local");
  }

  /** The name actually searched for. */
  function QueryName(rules: NameRules, name: string): string {
    if rules.isFqdn(name) then StripFqdn(name) else name
  }

  predicate Matches(n: Named, q: string) {
    TypedFullNameOf(n) == q || FullNameOf(n) == q || NameOf(n) == q
  }

  /** The search loop of `get_object_by_name`: appends every matching element
      not already found. */
  function CollectMatches(xs: seq<Named>, q: string, found: seq<Named>): (r: seq<Named>)
    ensures NoDup(found) ==> NoDup(r)
    ensures forall n :: n in r <==> n in found || (n in xs && Matches(n, q))
    decreases |xs|
  {
    if |xs| == 0 then found
    else if Matches(xs[0], q) && xs[0] !in found then CollectMatches(xs[1..], q, found + [xs[0]])
    else CollectMatches(xs[1..], q, found)
  }

  predicate IsCandidate(c: Cluster, q: string, t: TypeFilter, n: Named) {
    n in SearchSpace(c) && Matches(n, q) && HasType(n, t)
  }

  /** `objects_found` after the type filter: distinct, and exactly the candidates. */
  function Candidates(c: Cluster, q: string, t: TypeFilter): (r: seq<Named>)
    ensures NoDup(r)
    ensures forall n :: n in r <==> IsCandidate(c, q, t, n)
  {
    var found := CollectMatches(SearchSpace(c), q, []);
    FilterNoDup(found, n => HasType(n, t));
    Filter(found, n => HasType(n, t))
  }

  /** A workload reachable by the single-container shorthand for query `q`. */
  predicate FallbackWorkload(w: KubeObject, q: string) {
    w.body.Workload? && (FullName(w) == q || TypedFullName(w) == q) && |w.body.containers| == 1
  }

  /** The loop over workloads that returns the sole container of the first
      workload whose fullname or typed fullname is `q` and that has exactly one container. */
  function SingleContainerFallback(ws: seq<KubeObject>, q: string): (r: Option<Named>)
    ensures r.None? <==> forall i :: 0 <= i < |ws| ==> !FallbackWorkload(ws[i], q)
    ensures r.Some? ==> exists i ::
      && 0 <= i < |ws| && FallbackWorkload(ws[i], q)
      && r.value == Cont(ContainerRef(ws[i], 0))
      && forall j :: 0 <= j < i ==> !FallbackWorkload(ws[j], q)
  {
    var i := FirstIndex(ws, w => FallbackWorkload(w, q));
    if i < |ws| then Some(Cont(ContainerRef(ws[i], 0))) else None
  }

  /** `get_object_by_name(name, type)`. */
  function GetObjectByName(c: Cluster, rules: NameRules, name: string, t: TypeFilter)
    : (r: Result<Option<Named>, Error>)
    ensures var q := QueryName(rules, name);
      && (r.Failure? <==> exists m, n :: IsCandidate(c, q, t, m) && IsCandidate(c, q, t, n) && m != n)
      && (r.Failure? ==> r.error == AmbiguousName(q))
      && (r.Success? && r.value.Some? ==>
           IsCandidate(c, q, t, r.value.value)
           || (t == ContainerType && (forall n :: !IsCandidate(c, q, t, n))
               && SingleContainerFallback(Workloads(c), q) == r.value))
      && (r.Success? && r.value.Some? && r.value.value.Cont? ==> ValidRef(r.value.value.ref))
      && (r == Success(None) <==>
           (forall n :: !IsCandidate(c, q, t, n))
           && (t == ContainerType ==> SingleContainerFallback(Workloads(c), q).None?))
  {
    var q := QueryName(rules, name);
    var found := Candidates(c, q, t);
    if |found| == 0 && t == ContainerType && SingleContainerFallback(Workloads(c), q).Some? then
      assert forall n :: !IsCandidate(c, q, t, n) by {
        forall n ensures !IsCandidate(c, q, t, n) {
          assert n !in found;
        }
      }
      Success(SingleContainerFallback(Workloads(c), q))
    else if |found| > 1 then
      assert found[0] != found[1];
      Failure(AmbiguousName(q))
    else if |found| == 1 then
      assert forall m, n :: IsCandidate(c, q, t, m) && IsCandidate(c, q, t, n) ==> m == n by {
        forall m, n | IsCandidate(c, q, t, m) && IsCandidate(c, q, t, n) ensures m == n {
          assert m in found && n in found;
        }
      }
      Success(Some(found[0]))
    else
      assert forall n :: !IsCandidate(c, q, t, n) by {
        forall n ensures !IsCandidate(c, q, t, n) {
          assert n !in found;
        }
      }
      Success(None)
  }

  /** An object (not a container) that `get_object_by_name` returns for
      any type but `ContainerType` is one of the cluster's objects and answers
      to the queried name. */
  lemma FoundObjectInCluster(c: Cluster, rules: NameRules, name: string, t: TypeFilter)
    requires t != ContainerType
    requires var r := GetObjectByName(c, rules, name, t);
      r.Success? && r.value.Some? && r.value.value.Obj?
    ensures var o := GetObjectByName(c, rules, name, t).value.value.obj;
      o in c.objects && Matches(Obj(o), QueryName(rules, name)) && HasType(Obj(o), t)
  {
    var o := GetObjectByName(c, rules, name, t).value.value.obj;
    var space := SearchSpace(c);
    assert Obj(o) in space;
    var i :| 0 <= i < |space| && space[i] == Obj(o);
    assert i < |c.objects| && c.objects[i] == o;
  }

  /** Whatever form of its names the query uses, a lookup that has exactly one
      candidate of the requested kind returns it. */
  lemma LookupFindsUniqueMatch(c: Cluster, rules: NameRules, name: string, t: TypeFilter, x: Named)
    requires IsCandidate(c, QueryName(rules, name), t, x)
    requires forall n :: IsCandidate(c, QueryName(rules, name), t, n) ==> n == x
    ensures GetObjectByName(c, rules, name, t) == Success(Some(x))
  {
  }

  /** Two objects of the requested kind answering to the same name make the lookup fail. */
  lemma LookupRejectsAmbiguousName(c: Cluster, rules: NameRules, name: string, t: TypeFilter, x: Named, y: Named)
    requires x != y
    requires IsCandidate(c, QueryName(rules, name), t, x) && IsCandidate(c, QueryName(rules, name), t, y)
    ensures GetObjectByName(c, rules, name, t) == Failure(AmbiguousName(QueryName(rules, name)))
  {
  }
}
