/** `UseTimeoutRefactoring` (`use_timeout_refactoring.py`): for a wobbly
    interaction out of a Service, every untimed link into a MessageRouter gets
    a VirtualService with a timeout on the router's Kubernetes object, and
    every interaction into that router is marked as timed. */
module UseTimeout {
  import opened Wrappers
  import opened Errors
  import opened KubeObjects
  import opened KubeCluster
  import opened Generators
  import opened ArchModel
  import opened KubeWorker
  import opened Refactoring

  /** The refactoring's name; the value of `REFACTORING_USE_TIMEOUT` is configuration. */
  const NAME := "use-timeout"

  const DEFAULT_TIMEOUT_SEC: nat := 2

  /** The link is handled: it has no timeout yet and goes into a MessageRouter. */
  predicate Untimed(m: Model, id: nat)
    requires id in m.interactions
  {
    !m.interactions[id].timeout && TargetsRouter(m, id)
  }

  /** `o` is the timeout VirtualService generated for an object of `c`. */
  predicate TimeoutVirtualServiceIn(o: KubeObject, c: Cluster) {
    exists svc :: svc in c.objects && o == GenerateTimeoutVirtualSvc(svc, DEFAULT_TIMEOUT_SEC)
  }

  /** Some link of `links` that is untimed in `m` goes into the router that
      interaction `j` goes into. */
  predicate RoutedThrough(m: Model, links: seq<nat>, j: nat)
    requires LinksIn(m, links) && j in m.interactions
  {
    exists k :: 0 <= k < |links| && Untimed(m, links[k]) && m.interactions[links[k]].target == m.interactions[j].target
  }

  /** The cluster only grows, and each object it gains is a timeout
      VirtualService generated for one of its objects. */
  predicate GainsTimeoutServices(c: Cluster, r: Cluster) {
    && (forall o :: o in c.objects ==> o in r.objects)
    && (forall o :: o in r.objects ==> o in c.objects || TimeoutVirtualServiceIn(o, r))
  }

  /** One pass of the loop over the smell's links: an untimed link into a
      router adds the router's timeout VirtualService and times every
      interaction into the router; any other link changes nothing. */
  function TimeoutLink(s: State, rules: NameRules, id: nat): (r: Result<State, Error>)
    requires id in s.model.interactions
    ensures !Untimed(s.model, id) ==> r == Success(s)
    ensures r.Success? ==> r.value.pendingOps == s.pendingOps
    ensures r.Success? ==> OnlyFlagsOn(s.model, r.value.model, true, false)
    ensures r.Success? && Untimed(s.model, id) ==>
      forall j :: j in s.model.interactions ==>
        r.value.model.interactions[j].timeout ==
          (s.model.interactions[j].timeout || s.model.interactions[j].target == s.model.interactions[id].target)
    ensures r.Success? ==> GainsTimeoutServices(s.cluster, r.value.cluster)
    ensures r.Success? ==> |r.value.cluster.objects| <= |s.cluster.objects| + 1
    ensures r.Success? && Untimed(s.model, id) ==> |r.value.cluster.exports| == |s.cluster.exports| + 1
    ensures !r.Success? ==> Untimed(s.model, id)
    ensures Untimed(s.model, id) ==>
      var found := GetObjectByName(s.cluster, rules, s.model.interactions[id].target, AnyObject);
      && (r.Failure? <==> found.Failure? || found.value.None? || found.value.value.Cont?)
      && (found.Failure? ==> r == Failure(found.error))
      && (r.Success? ==>
            r.value.cluster == AddToCluster(s.cluster, GenerateTimeoutVirtualSvc(found.value.value.obj, DEFAULT_TIMEOUT_SEC)))
  {
    if !Untimed(s.model, id) then Success(s)
    else
      var target := s.model.interactions[id].target;
      var found :- GetObjectByName(s.cluster, rules, target, AnyObject);
      if found.None? then Failure(NoneDereference(target))
      else if found.value.Cont? then Failure(ContainerTarget(target))
      else
        var svc := found.value.obj;
        FoundObjectInCluster(s.cluster, rules, target, AnyObject);
        var vs := GenerateTimeoutVirtualSvc(svc, DEFAULT_TIMEOUT_SEC);
        var c := AddToCluster(s.cluster, vs);
        assert TimeoutVirtualServiceIn(vs, c);
        Success(State(c, SetTimeoutIncoming(s.model, target), s.pendingOps))
  }

  /** The loop over `smell.links_cause`. Each link is read against the graph
      as the earlier links left it, so a link into a router an earlier link
      already timed is skipped. The flag says whether a VirtualService was added. */
  function TimeoutLinks(s: State, rules: NameRules, links: seq<nat>): (r: Result<(State, bool), Error>)
    requires LinksIn(s.model, links)
    ensures r.Success? ==> r.value.0.pendingOps == s.pendingOps
    ensures r.Success? ==> OnlyFlagsOn(s.model, r.value.0.model, true, false)
    ensures r.Success? ==> GainsTimeoutServices(s.cluster, r.value.0.cluster)
    ensures r.Success? ==> |r.value.0.cluster.objects| <= |s.cluster.objects| + |links|
    decreases |links|
  {
    if |links| == 0 then Success((s, false))
    else
      var s1 :- TimeoutLink(s, rules, links[0]);
      assert LinksIn(s1.model, links[1..]);
      var rest :- TimeoutLinks(s1, rules, links[1..]);
      OnlyFlagsOnTransitive(s.model, s1.model, rest.0.model, true, false);
      GainsTimeoutServicesTransitive(s.cluster, s1.cluster, rest.0.cluster);
      Success((rest.0, rest.1 || Untimed(s.model, links[0])))
  }

  lemma GainsTimeoutServicesTransitive(a: Cluster, b: Cluster, c: Cluster)
    requires GainsTimeoutServices(a, b) && GainsTimeoutServices(b, c)
    ensures GainsTimeoutServices(a, c)
  {
    forall o | o in c.objects && o !in a.objects ensures TimeoutVirtualServiceIn(o, c) {
      if o in b.objects {
        assert TimeoutVirtualServiceIn(o, b);
        var svc :| svc in b.objects && o == GenerateTimeoutVirtualSvc(svc, DEFAULT_TIMEOUT_SEC);
        assert svc in c.objects;
      }
    }
  }

  /** `apply`: the smell kind is checked before the ignore policy. A Service
      node always reports success, even when no link could be handled. */
  function Apply(s: State, smell: Smell, ignore: Ignorer, rules: NameRules): (r: Result<Outcome, Error>)
    requires LinksIn(s.model, smell.links)
    ensures smell.kind != WobblyServiceInteraction ==> r == Failure(RefactoringNotSupported(NAME))
    ensures r.Success? ==> (r.value.applied <==> !ignore(smell.node, RefactoringIgnore, NAME) && smell.node.kind == ServiceNode)
    ensures r.Success? && !r.value.applied ==> r.value.state == s
    ensures r.Success? && !r.value.applied ==>
      r.value.status == (if ignore(smell.node, RefactoringIgnore, NAME) then None else Some(NotApplied))
    ensures r.Success? && r.value.applied ==> r.value.status in {None, Some(PartiallyApplied)}
    ensures r.Success? ==> r.value.state.pendingOps == s.pendingOps
    ensures r.Success? ==> OnlyFlagsOn(s.model, r.value.state.model, true, false)
    ensures r.Success? ==> GainsTimeoutServices(s.cluster, r.value.state.cluster)
  {
    if smell.kind != WobblyServiceInteraction then Failure(RefactoringNotSupported(NAME))
    else if ignore(smell.node, RefactoringIgnore, NAME) then Success(Outcome(s, false, None))
    else if smell.node.kind == ServiceNode then
      var t :- TimeoutLinks(s, rules, smell.links);
      Success(Outcome(t.0, true, if t.1 then Some(PartiallyApplied) else None))
    else Success(Outcome(s, false, Some(NotApplied)))
  }

  /** After the loop, interaction `j` is timed exactly when it was timed
      before or it goes into a router that some link of the smell, untimed
      at the start, goes into. */
  lemma {:induction false} TimeoutLinksTimes(s: State, rules: NameRules, links: seq<nat>, j: nat)
    requires LinksIn(s.model, links) && j in s.model.interactions
    requires TimeoutLinks(s, rules, links).Success?
    ensures TimeoutLinks(s, rules, links).value.0.model.interactions[j].timeout ==
      (s.model.interactions[j].timeout || RoutedThrough(s.model, links, j))
    decreases |links|
  {
    if |links| > 0 {
      var s1 := TimeoutLink(s, rules, links[0]).value;
      assert LinksIn(s1.model, links[1..]);
      assert TimeoutLinks(s1, rules, links[1..]).Success?;
      TimeoutLinksTimes(s1, rules, links[1..], j);
      TimeoutLinkTimes(s.model, s1.model, links, j);
    }
  }

  /** How one pass combines with the passes after it, for interaction `j`:
      `m1` is the graph after the first link of `links` is handled. */
  lemma TimeoutLinkTimes(m: Model, m1: Model, links: seq<nat>, j: nat)
    requires |links| > 0 && LinksIn(m, links) && j in m.interactions
    requires OnlyFlagsOn(m, m1, true, false)
    requires !Untimed(m, links[0]) ==> m1 == m
    requires Untimed(m, links[0]) ==>
      forall i :: i in m.interactions ==>
        m1.interactions[i].timeout == (m.interactions[i].timeout || m.interactions[i].target == m.interactions[links[0]].target)
    ensures LinksIn(m1, links[1..]) && j in m1.interactions
    ensures (m1.interactions[j].timeout || RoutedThrough(m1, links[1..], j)) ==
      (m.interactions[j].timeout || RoutedThrough(m, links, j))
  {
    var tj := m.interactions[j].target;
    var first := Untimed(m, links[0]) && m.interactions[links[0]].target == tj;
    assert m1.interactions[j].timeout == (m.interactions[j].timeout || first);
    if first {
      assert RoutedThrough(m, links, j);
    } else if !m.interactions[j].timeout {
      RoutedThroughTail(m, m1, links, j);
    }
  }

  /** When neither `j` nor the first link's router are timed by the first
      pass, the later links reach `j`'s router in `m1` exactly when they do in `m`. */
  lemma RoutedThroughTail(m: Model, m1: Model, links: seq<nat>, j: nat)
    requires |links| > 0 && LinksIn(m, links) && j in m.interactions
    requires OnlyFlagsOn(m, m1, true, false)
    requires !(Untimed(m, links[0]) && m.interactions[links[0]].target == m.interactions[j].target)
    requires !Untimed(m, links[0]) ==> m1 == m
    requires Untimed(m, links[0]) ==>
      forall i :: i in m.interactions ==>
        m1.interactions[i].timeout == (m.interactions[i].timeout || m.interactions[i].target == m.interactions[links[0]].target)
    ensures LinksIn(m1, links[1..]) && j in m1.interactions
    ensures RoutedThrough(m1, links[1..], j) == RoutedThrough(m, links, j)
  {
    var tj := m.interactions[j].target;
    var tail := links[1..];
    assert m1.interactions[j].target == tj;
    forall k | 0 <= k < |tail| && m.interactions[tail[k]].target == tj
      ensures Untimed(m1, tail[k]) == Untimed(m, tail[k])
    {
      assert tail[k] == links[k + 1];
      assert m1.interactions[tail[k]].timeout == m.interactions[tail[k]].timeout;
      assert m1.interactions[tail[k]].target == tj;
    }
    if RoutedThrough(m1, tail, j) {
      var k :| 0 <= k < |tail| && Untimed(m1, tail[k]) && m1.interactions[tail[k]].target == tj;
      assert links[k + 1] == tail[k];
    }
    if RoutedThrough(m, links, j) {
      var k :| 0 <= k < |links| && Untimed(m, links[k]) && m.interactions[links[k]].target == tj;
      assert k != 0;
      assert tail[k - 1] == links[k];
    }
  }

  /** The loop reports an added VirtualService exactly when some link of the
      smell was untimed and went into a router at the start. */
  lemma {:induction false} TimeoutLinksReports(s: State, rules: NameRules, links: seq<nat>)
    requires LinksIn(s.model, links)
    requires TimeoutLinks(s, rules, links).Success?
    ensures TimeoutLinks(s, rules, links).value.1 <==> exists k :: 0 <= k < |links| && Untimed(s.model, links[k])
    decreases |links|
  {
    if |links| > 0 {
      var s1 := TimeoutLink(s, rules, links[0]).value;
      assert TimeoutLinks(s1, rules, links[1..]).Success?;
      TimeoutLinksReports(s1, rules, links[1..]);
      if !Untimed(s.model, links[0]) {
        assert s1 == s;
        if exists k :: 0 <= k < |links| && Untimed(s.model, links[k]) {
          var k :| 0 <= k < |links| && Untimed(s.model, links[k]);
          assert links[1..][k - 1] == links[k];
        }
      }
    }
  }

  /** When the refactoring applies, the graph's timeouts are exactly the old
      ones plus every interaction into a router reached by an untimed link of
      the smell, and the report says a VirtualService was added exactly when
      such a link existed. */
  lemma ApplyTimesRouters(s: State, smell: Smell, ignore: Ignorer, rules: NameRules, j: nat)
    requires LinksIn(s.model, smell.links) && j in s.model.interactions
    requires var r := Apply(s, smell, ignore, rules); r.Success? && r.value.applied
    ensures var r := Apply(s, smell, ignore, rules).value;
      && r.state.model.interactions[j].timeout == (s.model.interactions[j].timeout || RoutedThrough(s.model, smell.links, j))
      && (r.status == Some(PartiallyApplied) <==> exists k :: 0 <= k < |smell.links| && Untimed(s.model, smell.links[k]))
  {
    TimeoutLinksTimes(s, rules, smell.links, j);
    TimeoutLinksReports(s, rules, smell.links);
  }
}
