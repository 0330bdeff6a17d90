/** The route a proxy holds and how it answers: which subset owns a namespace, which objects a subset may see. */
module Routes {
  import opened Text
  import opened Selectors

  const ALL_SUBSET_PUBLIC := "AllSubsetPublic"
  const RESOURCE_ALL := "*"

  datatype GroupResource = GroupResource(group: string, resource: string) {
    predicate Empty() { group == "" && resource == "" }

    /** The text form that keys the request history. */
    function Key(): string { if group == "" then resource else resource + "." + group }
  }

  datatype APIResources = APIResources(apiGroups: seq<string>, resources: seq<string>)

  /** A limit carries namespaces, or an object selector, never both. */
  datatype Limit = Limit(namespaces: set<string>, objectSelector: Option<LabelSelector>, resources: seq<APIResources>)

  datatype SubsetLimit = SubsetLimit(subset: string, limits: seq<Limit>)

  /** The part of a route that the spec hash covers: everything but the pod's own subset. */
  datatype RouteBody = RouteBody(
    globalLimits: seq<Limit>, subsetLimits: seq<SubsetLimit>,
    publicResources: seq<APIResources>, defaultOnlyUserAgents: set<string>)

  datatype Endpoint = Endpoint(name: string, subset: string, ip: string)

  datatype Spec = Spec(vApp: string, hash: string, subset: string, body: RouteBody, endpoints: seq<Endpoint>)

  predicate ContainsString(x: string, list: seq<string>) {
    (|list| == 1 && list[0] == RESOURCE_ALL) || x in list
  }

  lemma {:induction false} SomeStringMissing(list: seq<string>) returns (x: string)
    ensures x !in list && forall y :: y in list ==> |y| < |x|
  {
    if list == [] {
      x := "";
    } else {
      var rest := SomeStringMissing(list[1..]);
      x := rest + list[0] + "a";
      forall y | y in list ensures |y| < |x| { assert y == list[0] || y in list[1..]; }
    }
  }

  /** A list stands for everything if and only if it is the wildcard alone; any other stands for its members. */
  lemma WildcardExactly(list: seq<string>)
    ensures (forall x :: ContainsString(x, list)) <==> list == [RESOURCE_ALL]
    ensures list != [RESOURCE_ALL] ==> forall x :: ContainsString(x, list) <==> x in list
  {
    if list != [RESOURCE_ALL] {
      var x := SomeStringMissing(list);
      assert !ContainsString(x, list);
    }
  }

  predicate GRMatched(gr: GroupResource, rs: seq<APIResources>) {
    exists i ::
      0 <= i < |rs| && ContainsString(gr.group, rs[i].apiGroups) && ContainsString(gr.resource, rs[i].resources)
  }

  predicate Unrestricted(limit: Limit, gr: GroupResource) {
    |limit.resources| == 0 || GRMatched(gr, limit.resources)
  }

  // ----- namespaces

  predicate GlobalApplies(limit: Limit, gr: GroupResource) {
    limit.objectSelector.None? && Unrestricted(limit, gr)
  }

  /** A limit that names no resources leaves the public ones alone. */
  predicate SubsetApplies(limit: Limit, gr: GroupResource, public: bool) {
    limit.objectSelector.None? && (if |limit.resources| > 0 then GRMatched(gr, limit.resources) else !public)
  }

  predicate Claims(limits: seq<Limit>, ns: string, gr: GroupResource, public: bool) {
    exists i :: 0 <= i < |limits| && SubsetApplies(limits[i], gr, public) && ns in limits[i].namespaces
  }

  predicate NamesResource(limits: seq<Limit>, gr: GroupResource) {
    exists i ::
      0 <= i < |limits| && limits[i].objectSelector.None? && |limits[i].resources| > 0 &&
      GRMatched(gr, limits[i].resources)
  }

  predicate GloballyAllowed(body: RouteBody, ns: string, gr: GroupResource) {
    forall i :: 0 <= i < |body.globalLimits| ==>
      GlobalApplies(body.globalLimits[i], gr) ==> ns in body.globalLimits[i].namespaces
  }

  predicate NamedBySome(sls: seq<SubsetLimit>, gr: GroupResource) {
    exists i :: 0 <= i < |sls| && NamesResource(sls[i].limits, gr)
  }

  function FirstClaim(sls: seq<SubsetLimit>, ns: string, gr: GroupResource, public: bool): Option<string> {
    if sls == [] then None
    else if Claims(sls[0].limits, ns, gr, public) then Some(sls[0].subset)
    else FirstClaim(sls[1..], ns, gr, public)
  }

  /** The subset that owns a namespace for a resource; None when nobody may touch it. */
  function Determine(body: RouteBody, ns: string, gr: GroupResource): Option<string> {
    if ns == "" then Some("")
    else if !GloballyAllowed(body, ns, gr) then None
    else
      var public := GRMatched(gr, body.publicResources);
      var claim := FirstClaim(body.subsetLimits, ns, gr, public);
      if claim.Some? then claim
      else if public && !NamedBySome(body.subsetLimits, gr) then Some(ALL_SUBSET_PUBLIC)
      else None
  }

  method DetermineNamespaceSubset(body: RouteBody, ns: string, gr: GroupResource) returns (r: Option<string>)
    ensures r == Determine(body, ns, gr)
  {
    if ns == "" { return Some(""); }
    for g := 0 to |body.globalLimits|
      invariant forall i :: 0 <= i < g ==> GlobalApplies(body.globalLimits[i], gr) ==>
        ns in body.globalLimits[i].namespaces
    {
      var limit := body.globalLimits[g];
      if |limit.resources| > 0 && !GRMatched(gr, limit.resources) {
        continue;
      } else if limit.objectSelector.Some? {
        continue;
      }
      if ns !in limit.namespaces {
        assert GlobalApplies(body.globalLimits[g], gr);
        return None;
      }
    }
    var public := GRMatched(gr, body.publicResources);
    var matchLimit := false;
    var sls := body.subsetLimits;
    for s := 0 to |sls|
      invariant FirstClaim(sls, ns, gr, public) == FirstClaim(sls[s..], ns, gr, public)
      invariant matchLimit <==> NamedBySome(sls[..s], gr)
    {
      var limits := sls[s].limits;
      ghost var before := matchLimit;
      for i := 0 to |limits|
        invariant !Claims(limits[..i], ns, gr, public)
        invariant matchLimit <==> before || NamesResource(limits[..i], gr)
      {
        assert limits[..i + 1] == limits[..i] + [limits[i]];
        if limits[i].objectSelector.Some? {
          continue;
        }
        if |limits[i].resources| > 0 {
          if !GRMatched(gr, limits[i].resources) {
            continue;
          }
          matchLimit := true;
          assert NamesResource(limits[..i + 1], gr) by { assert limits[..i + 1][i] == limits[i]; }
        } else if public {
          continue;
        }
        if ns in limits[i].namespaces {
          assert SubsetApplies(limits[i], gr, public);
          return Some(sls[s].subset);
        }
      }
      assert limits[..|limits|] == limits;
      assert sls[..s + 1] == sls[..s] + [sls[s]];
      assert sls[s..][0] == sls[s] && sls[s..][1..] == sls[s + 1..];
      assert NamesResource(sls[s].limits, gr) ==> NamedBySome(sls[..s + 1], gr) by { assert sls[..s + 1][s] == sls[s]; }
      assert NamedBySome(sls[..s], gr) ==> NamedBySome(sls[..s + 1], gr) by {
        if NamedBySome(sls[..s], gr) {
          var i :| 0 <= i < s && NamesResource(sls[..s][i].limits, gr);
          assert sls[..s + 1][i] == sls[i];
        }
      }
    }
    assert sls[..|sls|] == sls;
    if public && !matchLimit { return Some(ALL_SUBSET_PUBLIC); }
    return None;
  }

  predicate NamespaceMatch(spec: Spec, ns: string, gr: GroupResource) {
    var owner := Determine(spec.body, ns, gr);
    owner.Some? && (owner.value == ALL_SUBSET_PUBLIC || owner.value == spec.subset)
  }

  predicate UserAgentMatch(spec: Spec, ua: string) {
    ua in spec.body.defaultOnlyUserAgents ==> spec.subset == ""
  }

  predicate NoSubsetNamedPublic(body: RouteBody) {
    forall i :: 0 <= i < |body.subsetLimits| ==> body.subsetLimits[i].subset != ALL_SUBSET_PUBLIC
  }

  lemma {:induction false} FirstClaimIsDeclared(sls: seq<SubsetLimit>, ns: string, gr: GroupResource, public: bool)
    ensures var c := FirstClaim(sls, ns, gr, public); c.Some? ==> exists i :: 0 <= i < |sls| && sls[i].subset == c.value
  {
    if sls != [] && !Claims(sls[0].limits, ns, gr, public) {
      FirstClaimIsDeclared(sls[1..], ns, gr, public);
      var c := FirstClaim(sls[1..], ns, gr, public);
      if c.Some? {
        var i :| 0 <= i < |sls[1..]| && sls[1..][i].subset == c.value;
        assert sls[i + 1].subset == c.value;
      }
    }
  }

  /** Two pods of different subsets under one route never both match, unless the resource is public. */
  lemma SubsetsExclusive(a: Spec, b: Spec, ns: string, gr: GroupResource)
    requires a.body == b.body && a.subset != b.subset && NoSubsetNamedPublic(a.body)
    requires NamespaceMatch(a, ns, gr) && NamespaceMatch(b, ns, gr)
    ensures GRMatched(gr, a.body.publicResources) && !NamedBySome(a.body.subsetLimits, gr) && ns != ""
  {
    FirstClaimIsDeclared(a.body.subsetLimits, ns, gr, GRMatched(gr, a.body.publicResources));
  }

  /** Cluster-scoped objects belong to the default subset. */
  lemma ClusterScopedIsDefault(spec: Spec, gr: GroupResource)
    ensures NamespaceMatch(spec, "", gr) <==> spec.subset == ""
  {
  }

  /** Under one route an agent passes everywhere, or, if it is listed as default-only, at the default subset alone. */
  lemma AgentsExactly(spec: Spec, ua: string)
    ensures (forall subset :: UserAgentMatch(spec.(subset := subset), ua)) <==> ua !in spec.body.defaultOnlyUserAgents
    ensures ua in spec.body.defaultOnlyUserAgents ==>
      forall subset :: UserAgentMatch(spec.(subset := subset), ua) <==> subset == ""
  {
    if ua in spec.body.defaultOnlyUserAgents { assert !UserAgentMatch(spec.(subset := "a"), ua); }
  }

  // ----- object selectors

  predicate ObjectApplies(limit: Limit, gr: GroupResource) {
    limit.objectSelector.Some? && Unrestricted(limit, gr)
  }

  ghost function FoldLimit(
    limit: Limit, gr: GroupResource, self: bool, acc: Option<LabelSelector>): Option<LabelSelector> {
    if !ObjectApplies(limit, gr) then acc
    else if self then Merge(acc, limit.objectSelector)
    else Merge(acc, NegateOpt(limit.objectSelector))
  }

  ghost function FoldLimits(
    limits: seq<Limit>, gr: GroupResource, self: bool, acc: Option<LabelSelector>): Option<LabelSelector> {
    if limits == [] then acc
    else FoldLimit(limits[|limits| - 1], gr, self, FoldLimits(limits[..|limits| - 1], gr, self, acc))
  }

  ghost function FoldSubsets(
    sls: seq<SubsetLimit>, gr: GroupResource, subset: string, acc: Option<LabelSelector>): Option<LabelSelector> {
    if sls == [] then acc
    else
      var self := sls[0].subset == subset;
      var acc' := FoldLimits(sls[0].limits, gr, self, acc);
      if self then acc' else FoldSubsets(sls[1..], gr, subset, acc')
  }

  ghost function ObjectSelector(body: RouteBody, subset: string, gr: GroupResource): Option<LabelSelector> {
    FoldSubsets(body.subsetLimits, gr, subset, FoldLimits(body.globalLimits, gr, true, None))
  }

  method GetObjectSelector(body: RouteBody, subset: string, gr: GroupResource) returns (sel: Option<LabelSelector>)
    ensures sel == ObjectSelector(body, subset, gr)
  {
    sel := None;
    for g := 0 to |body.globalLimits|
      invariant sel == FoldLimits(body.globalLimits[..g], gr, true, None)
    {
      var limit := body.globalLimits[g];
      assert body.globalLimits[..g + 1][..g] == body.globalLimits[..g];
      if limit.objectSelector.None? { continue; }
      if |limit.resources| > 0 && !GRMatched(gr, limit.resources) { continue; }
      sel := MergeLabelSelector(sel, limit.objectSelector);
    }
    assert body.globalLimits[..|body.globalLimits|] == body.globalLimits;
    var sls := body.subsetLimits;
    for s := 0 to |sls|
      invariant ObjectSelector(body, subset, gr) == FoldSubsets(sls[s..], gr, subset, sel)
    {
      var limits := sls[s].limits;
      assert sls[s..][0] == sls[s] && sls[s..][1..] == sls[s + 1..];
      sel := ApplyLimits(limits, gr, sls[s].subset == subset, sel);
      if sls[s].subset == subset { break; }
    }
  }

  /** One pass of the inner loop over a subset's limits. */
  method ApplyLimits(
    limits: seq<Limit>, gr: GroupResource, self: bool, acc: Option<LabelSelector>) returns (sel: Option<LabelSelector>)
    ensures sel == FoldLimits(limits, gr, self, acc)
  {
    sel := acc;
    for i := 0 to |limits|
      invariant sel == FoldLimits(limits[..i], gr, self, acc)
    {
      assert limits[..i + 1][..i] == limits[..i];
      if limits[i].objectSelector.None? { continue; }
      if |limits[i].resources| > 0 && !GRMatched(gr, limits[i].resources) { continue; }
      if !self {
        var negated := NegateLabelSelector(limits[i].objectSelector);
        sel := MergeLabelSelector(sel, negated);
      } else {
        sel := MergeLabelSelector(sel, limits[i].objectSelector);
      }
    }
    assert limits[..|limits|] == limits;
  }
}
