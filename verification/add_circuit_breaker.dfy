/** `AddCircuitBreakerRefactoring` (`add_circuit_breaker_refactoring.py`): for
    a wobbly interaction out of a Service, the first link into a
    MessageRouter gets an Istio DestinationRule with a circuit breaker on the
    router's Kubernetes Service, and every interaction into that router is
    marked as circuit-broken. */
module AddCircuitBreaker {
  import opened Wrappers
  import opened Errors
  import opened KubeObjects
  import opened KubeIstio
  import opened KubeCluster
  import opened Generators
  import opened ArchModel
  import opened Refactoring

  /** The refactoring's name; the value of `REFACTORING_ADD_CIRCUIT_BREAKER` is configuration. */
  const NAME := "add-circuit-breaker"

  /** The position of the first link into a MessageRouter, or `|links|`. */
  function FirstRouterLink(m: Model, links: seq<nat>): (k: nat)
    requires LinksIn(m, links)
    ensures k <= |links|
    ensures k < |links| ==> TargetsRouter(m, links[k])
    ensures forall j :: 0 <= j < k ==> !TargetsRouter(m, links[j])
  {
    if |links| == 0 then 0
    else if TargetsRouter(m, links[0]) then 0
    else 1 + FirstRouterLink(m, links[1..])
  }

  /** `o` is a Kubernetes Service of `c` found under the router name `target`. */
  predicate RouterService(c: Cluster, rules: NameRules, target: string, o: KubeObject) {
    o in c.objects && o.body.Service? && Matches(Obj(o), QueryName(rules, target))
  }

  /** The cluster after adding circuit breaker `dr`: one more export record
      for it with no file name, and the object itself unless an equal one is
      already there. */
  predicate AddsDestinationRule(c: Cluster, r: Cluster, dr: KubeObject) {
    && r.exports == c.exports + [ExportObject(dr, None)]
    && dr in r.objects
    && (r.objects == c.objects || r.objects == c.objects + [dr])
  }

  /** What the lookup result `found` for router `target` leads to: a circuit
      breaker when it is a Kubernetes Service, nothing otherwise. */
  function BreakFound(s: State, cfg: CircuitBreakerConfig, target: string, found: Option<Named>)
    : (r: (State, bool))
    ensures r.1 <==> found.Some? && found.value.Obj? && found.value.obj.body.Service?
    ensures !r.1 ==> r.0 == s
    ensures r.1 ==> AddsDestinationRule(s.cluster, r.0.cluster, GenerateCircuitBreakerForSvc(found.value.obj, cfg))
    ensures r.0.pendingOps == s.pendingOps
    ensures r.1 ==> OnlyFlagsOn(s.model, r.0.model, false, true)
    ensures r.1 ==> forall id :: id in s.model.interactions ==>
      r.0.model.interactions[id].circuitBreaker ==
        (s.model.interactions[id].circuitBreaker || s.model.interactions[id].target == target)
  {
    if !(found.Some? && found.value.Obj? && found.value.obj.body.Service?) then (s, false)
    else
      var dr := GenerateCircuitBreakerForSvc(found.value.obj, cfg);
      var c := AddExportObject(AddObject(s.cluster, dr), ExportObject(dr, None));
      assert AddsDestinationRule(s.cluster, c, dr);
      (State(c, SetCircuitBreakerIncoming(s.model, target), s.pendingOps), true)
  }

  /** The handling of one link into a router: the lookup of the router's
      Kubernetes object (which may raise on an ambiguous name), then `BreakFound`. */
  function BreakRouter(s: State, rules: NameRules, cfg: CircuitBreakerConfig, target: string)
    : (r: Result<(State, bool), Error>)
    ensures var found := GetObjectByName(s.cluster, rules, target, AnyObject);
      && (r.Failure? <==> found.Failure?)
      && (r.Success? ==> r.value == BreakFound(s, cfg, target, found.value))
  {
    var found :- GetObjectByName(s.cluster, rules, target, AnyObject);
    Success(BreakFound(s, cfg, target, found))
  }

  /** The loop over `smell.links_cause`: links into anything but a router are
      passed over, and the first link into a router ends the loop whatever
      its lookup finds. */
  function BreakFirstRouter(s: State, rules: NameRules, cfg: CircuitBreakerConfig, links: seq<nat>)
    : (r: Result<(State, bool), Error>)
    requires LinksIn(s.model, links)
    ensures var k := FirstRouterLink(s.model, links);
      && (k == |links| ==> r == Success((s, false)))
      && (k < |links| ==> r == BreakRouter(s, rules, cfg, s.model.interactions[links[k]].target))
    decreases |links|
  {
    if |links| == 0 then Success((s, false))
    else if TargetsRouter(s.model, links[0]) then
      BreakRouter(s, rules, cfg, s.model.interactions[links[0]].target)
    else
      BreakFirstRouter(s, rules, cfg, links[1..])
  }

  /** `apply`. Only the smell kind and the node kind are checked; no ignore
      policy is consulted and no report row is written. */
  function Apply(s: State, smell: Smell, rules: NameRules, cfg: CircuitBreakerConfig): (r: Result<Outcome, Error>)
    requires LinksIn(s.model, smell.links)
    ensures smell.kind != WobblyServiceInteraction ==> r == Failure(RefactoringNotSupported(NAME))
    ensures smell.kind == WobblyServiceInteraction && smell.node.kind != ServiceNode ==> r == Success(Outcome(s, false, None))
    ensures r.Success? ==> r.value.status.None? && r.value.state.pendingOps == s.pendingOps
    ensures r.Success? && !r.value.applied ==> r.value.state == s
    ensures r.Success? && r.value.applied ==> OnlyFlagsOn(s.model, r.value.state.model, false, true)
  {
    if smell.kind != WobblyServiceInteraction then Failure(RefactoringNotSupported(NAME))
    else if smell.node.kind != ServiceNode then Success(Outcome(s, false, None))
    else
      var t :- BreakFirstRouter(s, rules, cfg, smell.links);
      Success(Outcome(t.0, t.1, None))
  }

  /** When the refactoring applies, the first link of the smell that goes
      into a router names a router whose Kubernetes object is a Service; the
      cluster gains that Service's circuit breaker and exactly the
      interactions into that router become circuit-broken. */
  lemma ApplyBreaksFirstRouter(s: State, smell: Smell, rules: NameRules, cfg: CircuitBreakerConfig)
    requires LinksIn(s.model, smell.links)
    requires var r := Apply(s, smell, rules, cfg); r.Success? && r.value.applied
    ensures var r := Apply(s, smell, rules, cfg).value.state;
      var k := FirstRouterLink(s.model, smell.links);
      && smell.node.kind == ServiceNode && k < |smell.links|
      && var target := s.model.interactions[smell.links[k]].target;
      && (exists svc ::
            && GetObjectByName(s.cluster, rules, target, AnyObject) == Success(Some(Obj(svc)))
            && RouterService(s.cluster, rules, target, svc)
            && AddsDestinationRule(s.cluster, r.cluster, GenerateCircuitBreakerForSvc(svc, cfg)))
      && (forall id :: id in s.model.interactions ==>
            r.model.interactions[id].circuitBreaker ==
              (s.model.interactions[id].circuitBreaker || s.model.interactions[id].target == target))
  {
    var t := BreakFirstRouter(s, rules, cfg, smell.links);
    assert smell.kind == WobblyServiceInteraction && smell.node.kind == ServiceNode;
    assert t.Success? && Apply(s, smell, rules, cfg) == Success(Outcome(t.value.0, t.value.1, None));
    var k := FirstRouterLink(s.model, smell.links);
    assert k < |smell.links|;
    var target := s.model.interactions[smell.links[k]].target;
    var found := GetObjectByName(s.cluster, rules, target, AnyObject);
    assert t == BreakRouter(s, rules, cfg, target);
    assert found.Success? && t.value == BreakFound(s, cfg, target, found.value);
    assert found.value.Some? && found.value.value.Obj?;
    FoundObjectInCluster(s.cluster, rules, target, AnyObject);
    var svc := found.value.value.obj;
    assert RouterService(s.cluster, rules, target, svc);
  }
}
