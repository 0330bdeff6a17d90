/** Webhook requests: a proxy serves them itself or hands them to the pods of the owning subset. */
module WebhookRouting {
  import opened Text
  import opened Selectors
  import opened Routes
  import opened RouteCompiler

  datatype Pod = Pod(name: string, ip: string, labels: Labels, ready: bool)

  // ----- which subset a pod belongs to

  /** Indexing a Go map: a missing key reads as the empty string. */
  function LabelValue(l: Labels, k: string): string { if k in l then l[k] else "" }

  predicate InSubset(s: Subset, pod: Pod) {
    forall k :: k in s.labels ==> LabelValue(pod.labels, k) == s.labels[k]
  }

  function PodSubset(subsets: seq<Subset>, pod: Pod): string {
    if subsets == [] then "" else if InSubset(subsets[0], pod) then subsets[0].name else PodSubset(subsets[1..], pod)
  }

  /** A pod belongs to the first subset all of whose labels it carries, and to the default subset without one. */
  ghost predicate BelongsTo(subsets: seq<Subset>, pod: Pod, subset: string) {
    || (subset == "" && forall i :: 0 <= i < |subsets| ==> LacksLabel(subsets[i], pod))
    || (exists i :: 0 <= i < |subsets| && FirstWithLabels(subsets, pod, i) && subset == subsets[i].name)
  }

  predicate FirstWithLabels(subsets: seq<Subset>, pod: Pod, i: nat)
    requires i < |subsets|
  {
    && (forall k :: k in subsets[i].labels ==> LabelValue(pod.labels, k) == subsets[i].labels[k])
    && forall j :: 0 <= j < i ==> LacksLabel(subsets[j], pod)
  }

  predicate LacksLabel(s: Subset, pod: Pod) {
    exists k :: k in s.labels && LabelValue(pod.labels, k) != s.labels[k]
  }

  lemma {:induction false} PodSubsetExactly(subsets: seq<Subset>, pod: Pod, n: nat)
    requires n <= |subsets| && forall j :: 0 <= j < n ==> LacksLabel(subsets[j], pod)
    ensures BelongsTo(subsets, pod, PodSubset(subsets[n..], pod))
    decreases |subsets| - n
  {
    if n == |subsets| {
    } else {
      assert subsets[n..][0] == subsets[n] && subsets[n..][1..] == subsets[n + 1..];
      if InSubset(subsets[n], pod) {
        assert FirstWithLabels(subsets, pod, n);
      } else {
        assert LacksLabel(subsets[n], pod);
        PodSubsetExactly(subsets, pod, n + 1);
      }
    }
  }

  method DeterminePodSubset(app: VirtualApp, pod: Pod) returns (subset: string)
    ensures subset == PodSubset(app.subsets, pod)
    ensures BelongsTo(app.subsets, pod, subset)
  {
    PodSubsetExactly(app.subsets, pod, 0);
    assert app.subsets[0..] == app.subsets;
    for i := 0 to |app.subsets|
      invariant PodSubset(app.subsets, pod) == PodSubset(app.subsets[i..], pod)
    {
      var s := app.subsets[i];
      assert app.subsets[i..][0] == s && app.subsets[i..][1..] == app.subsets[i + 1..];
      var matched := true;
      var keys := s.labels.Keys;
      while keys != {} && matched
        invariant keys <= s.labels.Keys
        invariant forall k :: k in s.labels && k !in keys ==> LabelValue(pod.labels, k) == s.labels[k]
        invariant !matched ==> !InSubset(s, pod)
        decreases keys, matched
      {
        var k :| k in keys;
        if LabelValue(pod.labels, k) != s.labels[k] { matched := false; }
        else { keys := keys - {k}; }
      }
      if matched { return s.name; }
    }
    return "";
  }

  // ----- endpoints

  function EndpointName(e: Endpoint): string { e.name }

  function EndpointOf(app: VirtualApp, pod: Pod): Endpoint { Endpoint(pod.name, PodSubset(app.subsets, pod), pod.ip) }

  function ReadyEndpoints(app: VirtualApp, pods: seq<Pod>): seq<Endpoint> {
    if pods == [] then []
    else
      var last := pods[|pods| - 1];
      ReadyEndpoints(app, pods[..|pods| - 1]) + if last.ready then [EndpointOf(app, last)] else []
  }

  method GenerateProtoEndpoints(app: VirtualApp, pods: seq<Pod>) returns (endpoints: seq<Endpoint>)
    ensures endpoints == StableSort(ReadyEndpoints(app, pods), EndpointName)
  {
    endpoints := [];
    for i := 0 to |pods|
      invariant endpoints == ReadyEndpoints(app, pods[..i])
    {
      assert pods[..i + 1][..i] == pods[..i];
      if pods[i].ready {
        var subset := DeterminePodSubset(app, pods[i]);
        endpoints := endpoints + [Endpoint(pods[i].name, subset, pods[i].ip)];
      }
    }
    assert pods[..|pods|] == pods;
    if |endpoints| > 0 { endpoints := StableSort(endpoints, EndpointName); }
  }

  lemma {:induction false} ReadyEndpointMember(app: VirtualApp, pods: seq<Pod>, e: Endpoint)
    ensures e in ReadyEndpoints(app, pods) <==>
      exists i :: 0 <= i < |pods| && pods[i].ready && EndpointOf(app, pods[i]) == e
  {
    if pods == [] {
    } else {
      var n := |pods| - 1;
      ReadyEndpointMember(app, pods[..n], e);
      assert forall i :: 0 <= i < n ==> pods[..n][i] == pods[i];
    }
  }

  // ----- the decision

  datatype Decision = Accept | Redirect(hosts: seq<string>) | Ignore | NoEndpoint

  function Owned(endpoints: seq<Endpoint>, subset: string): seq<Endpoint> {
    if endpoints == [] then []
    else
      var e := endpoints[|endpoints| - 1];
      Owned(endpoints[..|endpoints| - 1], subset) + if e.subset == subset then [e] else []
  }

  function Hosts(endpoints: seq<Endpoint>): seq<string> {
    seq(|endpoints|, i requires 0 <= i < |endpoints| => endpoints[i].ip)
  }

  method GetMatchedSubsetEndpoint(
    spec: Spec, ns: string, gr: GroupResource) returns (ignored: bool, self: bool, hosts: seq<string>)
    ensures ignored <==> Determine(spec.body, ns, gr).None?
    ensures self <==> NamespaceMatch(spec, ns, gr)
    ensures hosts == if ignored || self then [] else Hosts(Owned(spec.endpoints, Determine(spec.body, ns, gr).value))
  {
    var owner := DetermineNamespaceSubset(spec.body, ns, gr);
    if owner.None? { return true, false, []; }
    if owner.value == ALL_SUBSET_PUBLIC || owner.value == spec.subset { return false, true, []; }
    ignored, self, hosts := false, false, [];
    for i := 0 to |spec.endpoints|
      invariant hosts == Hosts(Owned(spec.endpoints[..i], owner.value))
    {
      assert spec.endpoints[..i + 1][..i] == spec.endpoints[..i];
      if spec.endpoints[i].subset == owner.value { hosts := hosts + [spec.endpoints[i].ip]; }
    }
    assert spec.endpoints[..|spec.endpoints|] == spec.endpoints;
  }

  function Decide(spec: Spec, ns: string, gr: GroupResource): Decision {
    var owner := Determine(spec.body, ns, gr);
    if owner.None? then Ignore
    else if NamespaceMatch(spec, ns, gr) then Accept
    else if Owned(spec.endpoints, owner.value) == [] then NoEndpoint
    else Redirect(Hosts(Owned(spec.endpoints, owner.value)))
  }

  /** Another subset than the proxy's own owns the namespace. */
  predicate OwnedByOther(spec: Spec, ns: string, gr: GroupResource) {
    Determine(spec.body, ns, gr) !in {None, Some(ALL_SUBSET_PUBLIC), Some(spec.subset)}
  }

  predicate HasEndpoint(spec: Spec, owner: Option<string>) {
    exists e :: e in spec.endpoints && Some(e.subset) == owner
  }

  lemma DecideExactly(spec: Spec, ns: string, gr: GroupResource)
    ensures
      var d, owner := Decide(spec, ns, gr), Determine(spec.body, ns, gr);
      && (d == Ignore <==> owner == None)
      && (d == Accept <==> owner in {Some(ALL_SUBSET_PUBLIC), Some(spec.subset)})
      && (d == NoEndpoint <==> OwnedByOther(spec, ns, gr) && !HasEndpoint(spec, owner))
      && (d.Redirect? <==> OwnedByOther(spec, ns, gr) && HasEndpoint(spec, owner))
  {
    var owner := Determine(spec.body, ns, gr);
    if owner.Some? {
      var owned := Owned(spec.endpoints, owner.value);
      forall e ensures e in owned <==> e in spec.endpoints && e.subset == owner.value {
        OwnedMember(spec.endpoints, owner.value, e);
      }
      if owned != [] { assert owned[0] in owned; }
    }
  }

  method Route(spec: Spec, ns: string, gr: GroupResource) returns (d: Decision)
    ensures d == Decide(spec, ns, gr)
    ensures d == Ignore <==> Determine(spec.body, ns, gr) == None
    ensures d == Accept <==> Determine(spec.body, ns, gr) in {Some(ALL_SUBSET_PUBLIC), Some(spec.subset)}
    ensures d == NoEndpoint <==> OwnedByOther(spec, ns, gr) && !HasEndpoint(spec, Determine(spec.body, ns, gr))
    ensures d.Redirect? <==> OwnedByOther(spec, ns, gr) && HasEndpoint(spec, Determine(spec.body, ns, gr))
  {
    DecideExactly(spec, ns, gr);
    var ignored, self, hosts := GetMatchedSubsetEndpoint(spec, ns, gr);
    if ignored { return Ignore; }
    if self { return Accept; }
    if |hosts| == 0 { return NoEndpoint; }
    return Redirect(hosts);
  }

  /** Proxies of one route ignore a request together. */
  lemma IgnoredByAll(a: Spec, b: Spec, ns: string, gr: GroupResource)
    requires a.body == b.body
    ensures Decide(a, ns, gr) == Ignore <==> Decide(b, ns, gr) == Ignore
  {
    DecideExactly(a, ns, gr);
    DecideExactly(b, ns, gr);
  }

  /** Two of different subsets both accept if and only if the resource is public, unnamed, and no global limit bars. */
  lemma AcceptedByBoth(a: Spec, b: Spec, ns: string, gr: GroupResource)
    requires a.body == b.body && a.subset != b.subset && NoSubsetNamedPublic(a.body)
    ensures Decide(a, ns, gr) == Accept && Decide(b, ns, gr) == Accept <==>
      && ns != "" && GloballyAllowed(a.body, ns, gr)
      && GRMatched(gr, a.body.publicResources) && !NamedBySome(a.body.subsetLimits, gr)
  {
    DecideExactly(a, ns, gr);
    DecideExactly(b, ns, gr);
    var public := GRMatched(gr, a.body.publicResources);
    FirstClaimIsDeclared(a.body.subsetLimits, ns, gr, public);
    if public && !NamedBySome(a.body.subsetLimits, gr) { UnnamedUnclaimed(a.body.subsetLimits, ns, gr); }
  }

  /** Nobody claims a public resource that nobody names. */
  lemma {:induction false} UnnamedUnclaimed(sls: seq<SubsetLimit>, ns: string, gr: GroupResource)
    requires !NamedBySome(sls, gr)
    ensures FirstClaim(sls, ns, gr, true).None?
  {
    if sls == [] {
    } else {
      assert !NamesResource(sls[0].limits, gr);
      assert forall i :: 0 <= i < |sls| - 1 ==> sls[1..][i] == sls[i + 1];
      UnnamedUnclaimed(sls[1..], ns, gr);
    }
  }

  /** If a request is redirected anywhere, some proxy of the owning subset accepts it, and all of them do. */
  lemma OwnerAccepts(a: Spec, b: Spec, ns: string, gr: GroupResource)
    requires a.body == b.body && OwnedByOther(a, ns, gr)
    ensures Decide(b, ns, gr) == Accept <==> Some(b.subset) == Determine(a.body, ns, gr)
  {
    DecideExactly(b, ns, gr);
  }

  // ----- one hop

  /** The spec one Reconcile makes for one of its active pods. */
  function SpecFor(name: string, hash: string, app: VirtualApp, body: RouteBody, pods: seq<Pod>, pod: Pod): Spec {
    Spec(name, hash, PodSubset(app.subsets, pod), body, StableSort(ReadyEndpoints(app, pods), EndpointName))
  }

  lemma {:induction false} OwnedMember(endpoints: seq<Endpoint>, subset: string, e: Endpoint)
    ensures e in Owned(endpoints, subset) <==> e in endpoints && e.subset == subset
  {
    if endpoints == [] {
    } else {
      var n := |endpoints| - 1;
      OwnedMember(endpoints[..n], subset, e);
      assert endpoints == endpoints[..n] + [endpoints[n]];
    }
  }

  lemma {:induction false} OwnedSorted(endpoints: seq<Endpoint>, subset: string)
    requires SortedBy(endpoints, EndpointName)
    ensures SortedBy(Owned(endpoints, subset), EndpointName)
  {
    if endpoints == [] {
    } else {
      var n := |endpoints| - 1;
      OwnedSorted(endpoints[..n], subset);
      forall i | 0 <= i < |Owned(endpoints[..n], subset)| ensures Owned(endpoints[..n], subset)[i] in endpoints[..n] {
        OwnedMember(endpoints[..n], subset, Owned(endpoints[..n], subset)[i]);
      }
    }
  }

  /** Owned endpoints are those of the ready pods of the owning subset, in name order, and no others. */
  predicate ReadyIn(app: VirtualApp, pod: Pod, subset: string) {
    pod.ready && PodSubset(app.subsets, pod) == subset
  }

  lemma RedirectNamesReadyPods(
    name: string, hash: string, app: VirtualApp, body: RouteBody, pods: seq<Pod>, sender: Pod, subset: string,
    e: Endpoint)
    ensures var owned := Owned(SpecFor(name, hash, app, body, pods, sender).endpoints, subset);
      && SortedBy(owned, EndpointName)
      && (e in owned <==> exists i :: 0 <= i < |pods| && ReadyIn(app, pods[i], subset) && EndpointOf(app, pods[i]) == e)
  {
    var ready := ReadyEndpoints(app, pods);
    var sorted := StableSort(ready, EndpointName);
    StableSortSorted(ready, EndpointName);
    OwnedSorted(sorted, subset);
    OwnedMember(sorted, subset, e);
    ReadyEndpointMember(app, pods, e);
    assert e in sorted <==> e in multiset(sorted);
    assert e in ready <==> e in multiset(ready);
  }

  /** A redirect goes to at least one pod, and every pod it names accepts: no request is forwarded twice. */
  lemma OneHop(
    name: string, hash: string, app: VirtualApp, body: RouteBody, pods: seq<Pod>, sender: Pod, ns: string,
    gr: GroupResource, i: nat)
    requires var d := Decide(SpecFor(name, hash, app, body, pods, sender), ns, gr); d.Redirect? && i < |d.hosts|
    ensures var host := Decide(SpecFor(name, hash, app, body, pods, sender), ns, gr).hosts[i];
      exists q ::
        && 0 <= q < |pods| && pods[q].ready && pods[q].ip == host
        && Decide(SpecFor(name, hash, app, body, pods, pods[q]), ns, gr) == Accept
  {
    var spec := SpecFor(name, hash, app, body, pods, sender);
    var owner := Determine(body, ns, gr).value;
    var e := Owned(spec.endpoints, owner)[i];
    RedirectNamesReadyPods(name, hash, app, body, pods, sender, owner, e);
    assert e in Owned(spec.endpoints, owner);
    var q :| 0 <= q < |pods| && ReadyIn(app, pods[q], owner) && EndpointOf(app, pods[q]) == e;
    assert NamespaceMatch(SpecFor(name, hash, app, body, pods, pods[q]), ns, gr);
  }
}
