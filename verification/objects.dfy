/** Which objects a subset may see: the computed selector as plain logic, isolation, and the partition of objects. */
module ObjectScopes {
  import opened Text
  import opened Selectors
  import opened Routes

  // ----- the parts of a selector

  function LabelsOf(sel: Option<LabelSelector>): Labels { if sel.None? then map[] else sel.value.matchLabels }

  predicate ExprsHold(sel: Option<LabelSelector>, l: Labels) {
    sel.Some? ==> AllHold(sel.value.matchExpressions, l)
  }

  lemma MergeParts(a: Option<LabelSelector>, b: Option<LabelSelector>, l: Labels)
    ensures LabelsOf(Merge(a, b)) == LabelsOf(a) + LabelsOf(b)
    ensures ExprsHold(Merge(a, b), l) <==> ExprsHold(a, l) && ExprsHold(b, l)
  {
  }

  /** No requirement holds, and all of them are of the four known kinds. */
  predicate Refused(x: LabelSelector, l: Labels) { KnownOps(x.matchExpressions) && NoneHold(x, l) }

  lemma NegationRefuses(x: LabelSelector, l: Labels)
    ensures Matches(Negate(x), l) <==> Refused(x, l)
  {
    NegateMeaning(x, l);
    if !KnownOps(x.matchExpressions) {
      var r :| r in x.matchExpressions && r.op.Other?;
      var i :| 0 <= i < |x.matchExpressions| && x.matchExpressions[i] == r;
      var ns := NegateAll(x.matchExpressions);
      assert !Holds(ns[i], l) && ns[i] in Negate(x).matchExpressions;
    }
  }

  // ----- one list of limits

  ghost predicate AllExprs(limits: seq<Limit>, gr: GroupResource, l: Labels) {
    forall i :: 0 <= i < |limits| && ObjectApplies(limits[i], gr) ==>
      AllHold(limits[i].objectSelector.value.matchExpressions, l)
  }

  ghost predicate AllRefused(limits: seq<Limit>, gr: GroupResource, l: Labels) {
    forall i :: 0 <= i < |limits| && ObjectApplies(limits[i], gr) ==> Refused(limits[i].objectSelector.value, l)
  }

  ghost predicate AllMatch(limits: seq<Limit>, gr: GroupResource, l: Labels) {
    forall i :: 0 <= i < |limits| && ObjectApplies(limits[i], gr) ==> Matches(limits[i].objectSelector.value, l)
  }

  predicate SetsLabel(limit: Limit, gr: GroupResource, key: string) {
    ObjectApplies(limit, gr) && key in limit.objectSelector.value.matchLabels
  }

  /** The last limit of the list that asks for a value of the label. */
  predicate LastSets(limits: seq<Limit>, gr: GroupResource, i: nat, key: string) {
    i < |limits| && SetsLabel(limits[i], gr, key) && forall j :: i < j < |limits| ==> !SetsLabel(limits[j], gr, key)
  }

  ghost predicate SetBySome(limits: seq<Limit>, gr: GroupResource, key: string) {
    exists i: nat :: LastSets(limits, gr, i, key)
  }

  /** Each label has the value that the last limit to mention it asks for. */
  ghost predicate LabelsHeld(limits: seq<Limit>, gr: GroupResource, l: Labels) {
    forall i: nat, key :: LastSets(limits, gr, i, key) ==>
      key in l && l[key] == limits[i].objectSelector.value.matchLabels[key]
  }

  lemma {:induction false} LastSetter(limits: seq<Limit>, gr: GroupResource, i: nat, key: string) returns (j: nat)
    requires i < |limits| && SetsLabel(limits[i], gr, key)
    ensures i <= j && LastSets(limits, gr, j, key)
    decreases |limits| - i
  {
    if k :| i < k < |limits| && SetsLabel(limits[k], gr, key) {
      j := LastSetter(limits, gr, k, key);
    } else {
      j := i;
    }
  }

  lemma {:induction false} OwnParts(limits: seq<Limit>, gr: GroupResource, acc: Option<LabelSelector>, l: Labels)
    ensures LabelsOf(FoldLimits(limits, gr, true, acc))
      == LabelsOf(acc) + LabelsOf(FoldLimits(limits, gr, true, None))
    ensures ExprsHold(FoldLimits(limits, gr, true, acc), l) <==> ExprsHold(acc, l) && AllExprs(limits, gr, l)
  {
    if limits == [] {
      assert LabelsOf(acc) + map[] == LabelsOf(acc);
    } else {
      var n := |limits| - 1;
      OwnParts(limits[..n], gr, acc, l);
      assert forall i :: 0 <= i < n ==> limits[..n][i] == limits[i];
      if ObjectApplies(limits[n], gr) {
        MergeParts(FoldLimits(limits[..n], gr, true, acc), limits[n].objectSelector, l);
        MergeParts(FoldLimits(limits[..n], gr, true, None), limits[n].objectSelector, l);
      }
    }
  }

  lemma {:induction false} OthersParts(limits: seq<Limit>, gr: GroupResource, acc: Option<LabelSelector>, l: Labels)
    ensures LabelsOf(FoldLimits(limits, gr, false, acc)) == LabelsOf(acc)
    ensures ExprsHold(FoldLimits(limits, gr, false, acc), l) <==> ExprsHold(acc, l) && AllRefused(limits, gr, l)
  {
    if limits == [] {
    } else {
      var n := |limits| - 1;
      OthersParts(limits[..n], gr, acc, l);
      RefusedLast(limits, gr, l);
      OthersStep(limits[n], gr, FoldLimits(limits[..n], gr, false, acc), l);
    }
  }

  lemma RefusedLast(limits: seq<Limit>, gr: GroupResource, l: Labels)
    requires limits != []
    ensures
      var n := |limits| - 1;
      AllRefused(limits, gr, l) <==>
        AllRefused(limits[..n], gr, l) && (ObjectApplies(limits[n], gr) ==> Refused(limits[n].objectSelector.value, l))
  {
    assert forall i :: 0 <= i < |limits| - 1 ==> limits[..|limits| - 1][i] == limits[i];
  }

  lemma OthersStep(limit: Limit, gr: GroupResource, acc: Option<LabelSelector>, l: Labels)
    ensures LabelsOf(FoldLimit(limit, gr, false, acc)) == LabelsOf(acc)
    ensures ExprsHold(FoldLimit(limit, gr, false, acc), l) <==>
      ExprsHold(acc, l) && (ObjectApplies(limit, gr) ==> Refused(limit.objectSelector.value, l))
  {
    if ObjectApplies(limit, gr) {
      var x := limit.objectSelector.value;
      MergeParts(acc, Some(Negate(x)), l);
      NegationRefuses(x, l);
    }
  }

  lemma {:induction false} OwnLabels(limits: seq<Limit>, gr: GroupResource)
    ensures
      var labels := LabelsOf(FoldLimits(limits, gr, true, None));
      && (forall key :: key in labels ==> SetBySome(limits, gr, key))
      && (forall i: nat, key :: LastSets(limits, gr, i, key) ==>
            key in labels && labels[key] == limits[i].objectSelector.value.matchLabels[key])
  {
    if limits == [] {
    } else {
      var n := |limits| - 1;
      var front, labels := limits[..n], LabelsOf(FoldLimits(limits, gr, true, None));
      OwnLabels(front, gr);
      assert forall i :: 0 <= i < n ==> front[i] == limits[i];
      if ObjectApplies(limits[n], gr) {
        MergeParts(FoldLimits(front, gr, true, None), limits[n].objectSelector, map[]);
      }
      forall key | key in labels ensures SetBySome(limits, gr, key) {
        if SetsLabel(limits[n], gr, key) {
          assert LastSets(limits, gr, n, key);
        } else {
          assert SetBySome(front, gr, key);
          var i: nat :| LastSets(front, gr, i, key);
          assert LastSets(limits, gr, i, key);
        }
      }
      forall i: nat, key | LastSets(limits, gr, i, key)
        ensures key in labels && labels[key] == limits[i].objectSelector.value.matchLabels[key]
      {
        if i < n { assert LastSets(front, gr, i, key) && !SetsLabel(limits[n], gr, key); }
      }
    }
  }

  lemma LabelsHeldExactly(limits: seq<Limit>, gr: GroupResource, l: Labels)
    ensures LabelsHold(LabelsOf(FoldLimits(limits, gr, true, None)), l) <==> LabelsHeld(limits, gr, l)
  {
    OwnLabels(limits, gr);
    var labels := LabelsOf(FoldLimits(limits, gr, true, None));
    if LabelsHeld(limits, gr, l) {
      forall key | key in labels ensures key in l && l[key] == labels[key] {
        assert SetBySome(limits, gr, key);
        var i: nat :| LastSets(limits, gr, i, key);
      }
    }
  }

  // ----- the whole route

  /** The first entry under the name, or the end of the list. */
  function OwnIndex(sls: seq<SubsetLimit>, subset: string): (n: nat)
    ensures n <= |sls| && (n < |sls| ==> sls[n].subset == subset)
    ensures forall i :: 0 <= i < n ==> sls[i].subset != subset
  {
    if sls == [] || sls[0].subset == subset then 0 else OwnIndex(sls[1..], subset) + 1
  }

  function OwnLimits(sls: seq<SubsetLimit>, subset: string): seq<Limit> {
    var n := OwnIndex(sls, subset);
    if n < |sls| then sls[n].limits else []
  }

  /** What a subset's objects must satisfy: the global limits, and its own after them. */
  function Binding(body: RouteBody, subset: string): seq<Limit> {
    body.globalLimits + OwnLimits(body.subsetLimits, subset)
  }

  ghost predicate EarlierRefused(sls: seq<SubsetLimit>, gr: GroupResource, n: nat, l: Labels)
    requires n <= |sls|
  {
    forall i :: 0 <= i < n ==> AllRefused(sls[i].limits, gr, l)
  }

  lemma {:induction false} SubsetsParts(
    sls: seq<SubsetLimit>, gr: GroupResource, subset: string, acc: Option<LabelSelector>, l: Labels)
    ensures
      var sel, own := FoldSubsets(sls, gr, subset, acc), OwnLimits(sls, subset);
      && LabelsOf(sel) == LabelsOf(acc) + LabelsOf(FoldLimits(own, gr, true, None))
      && (ExprsHold(sel, l) <==>
            ExprsHold(acc, l) && AllExprs(own, gr, l) && EarlierRefused(sls, gr, OwnIndex(sls, subset), l))
  {
    if sls == [] {
      assert LabelsOf(acc) + map[] == LabelsOf(acc);
    } else if sls[0].subset == subset {
      OwnParts(sls[0].limits, gr, acc, l);
    } else {
      OthersParts(sls[0].limits, gr, acc, l);
      SubsetsParts(sls[1..], gr, subset, FoldLimits(sls[0].limits, gr, false, acc), l);
      EarlierTail(sls, gr, OwnIndex(sls[1..], subset), l);
    }
  }

  lemma EarlierTail(sls: seq<SubsetLimit>, gr: GroupResource, n: nat, l: Labels)
    requires sls != [] && n <= |sls| - 1
    ensures EarlierRefused(sls, gr, n + 1, l) <==>
      AllRefused(sls[0].limits, gr, l) && EarlierRefused(sls[1..], gr, n, l)
  {
    assert forall i :: 1 <= i < |sls| ==> sls[1..][i - 1] == sls[i];
    assert forall i :: 0 <= i < |sls| - 1 ==> sls[1..][i] == sls[i + 1];
  }

  lemma {:induction false} FoldConcat(a: seq<Limit>, b: seq<Limit>, gr: GroupResource)
    ensures FoldLimits(a + b, gr, true, None) == FoldLimits(b, gr, true, FoldLimits(a, gr, true, None))
  {
    if b == [] {
      assert a + b == a;
    } else {
      var n := |b| - 1;
      FoldConcat(a, b[..n], gr);
      assert (a + b)[..|a + b| - 1] == a + b[..n];
    }
  }

  lemma AllExprsConcat(a: seq<Limit>, b: seq<Limit>, gr: GroupResource, l: Labels)
    ensures AllExprs(a + b, gr, l) <==> AllExprs(a, gr, l) && AllExprs(b, gr, l)
  {
    assert forall i :: 0 <= i < |a| ==> (a + b)[i] == a[i];
    assert forall i :: 0 <= i < |b| ==> (a + b)[|a| + i] == b[i];
  }

  /**
   * An object is selected if and only if it has each label as the last global or own limit to mention it asks, meets
   * every expression of all of them, and meets nothing at all of the limits of any subset listed before.
   */
  lemma ObjectMeaning(body: RouteBody, subset: string, gr: GroupResource, l: Labels)
    ensures
      var limits, n := Binding(body, subset), OwnIndex(body.subsetLimits, subset);
      Passes(ObjectSelector(body, subset, gr), l) <==>
        LabelsHeld(limits, gr, l) && AllExprs(limits, gr, l) && EarlierRefused(body.subsetLimits, gr, n, l)
  {
    var globals, own := body.globalLimits, OwnLimits(body.subsetLimits, subset);
    var acc := FoldLimits(globals, gr, true, None);
    SubsetsParts(body.subsetLimits, gr, subset, acc, l);
    OwnParts(globals, gr, None, l);
    FoldConcat(globals, own, gr);
    OwnParts(own, gr, acc, l);
    AllExprsConcat(globals, own, gr, l);
    LabelsHeldExactly(globals + own, gr, l);
  }

  /** An object that is selected meets a global or own limit if and only if no later one asks for another value. */
  lemma LimitBindsExactly(body: RouteBody, subset: string, gr: GroupResource, i: nat, l: Labels)
    requires Passes(ObjectSelector(body, subset, gr), l)
    requires i < |Binding(body, subset)| && ObjectApplies(Binding(body, subset)[i], gr)
    ensures Matches(Binding(body, subset)[i].objectSelector.value, l) <==> Unchallenged(Binding(body, subset), gr, i)
    ensures AllHold(Binding(body, subset)[i].objectSelector.value.matchExpressions, l)
  {
    ObjectMeaning(body, subset, gr, l);
    var limits := Binding(body, subset);
    var x := limits[i].objectSelector.value;
    forall key | key in x.matchLabels
      ensures SetBySome(limits, gr, key)
    {
      var j := LastSetter(limits, gr, i, key);
    }
  }

  predicate Unchallenged(limits: seq<Limit>, gr: GroupResource, i: nat)
    requires i < |limits| && limits[i].objectSelector.Some?
  {
    var asked := limits[i].objectSelector.value.matchLabels;
    forall j, key :: 0 <= j < |limits| && LastSets(limits, gr, j, key) && key in asked ==>
      limits[j].objectSelector.value.matchLabels[key] == asked[key]
  }

  const PRODUCTION := LabelSelector(map["tier" := "prod"], [])
  const TRIAL := LabelSelector(map["tier" := "trial"], [])

  /** A subset's own limit overrides a global one on a label that both mention: here nothing of the latter is left. */
  lemma OwnLimitOverridesGlobal(gr: GroupResource)
    ensures
      var own := SubsetLimit("a", [Limit({}, Some(TRIAL), [])]);
      var body, l := RouteBody([Limit({}, Some(PRODUCTION), [])], [own], [], {}), map["tier" := "trial"];
      Passes(ObjectSelector(body, "a", gr), l) && !Matches(PRODUCTION, l)
  {
    var own := SubsetLimit("a", [Limit({}, Some(TRIAL), [])]);
    var body, l := RouteBody([Limit({}, Some(PRODUCTION), [])], [own], [], {}), map["tier" := "trial"];
    var limits := Binding(body, "a");
    assert limits == [Limit({}, Some(PRODUCTION), []), Limit({}, Some(TRIAL), [])];
    assert ObjectApplies(limits[0], gr) && ObjectApplies(limits[1], gr);
    assert SetsLabel(limits[1], gr, "tier");
    ObjectMeaning(body, "a", gr, l);
    assert "tier" in PRODUCTION.matchLabels;
  }

  ghost predicate Agreeing(limits: seq<Limit>, gr: GroupResource) {
    forall i, j :: 0 <= i < j < |limits| && ObjectApplies(limits[i], gr) && ObjectApplies(limits[j], gr) ==>
      AgreeOnShared(limits[i].objectSelector.value, limits[j].objectSelector.value)
  }

  lemma AgreeingLabels(limits: seq<Limit>, gr: GroupResource, l: Labels)
    requires Agreeing(limits, gr)
    ensures LabelsHeld(limits, gr, l) && AllExprs(limits, gr, l) <==> AllMatch(limits, gr, l)
  {
    if LabelsHeld(limits, gr, l) && AllExprs(limits, gr, l) {
      forall i | 0 <= i < |limits| && ObjectApplies(limits[i], gr)
        ensures Matches(limits[i].objectSelector.value, l)
      {
        forall key | key in limits[i].objectSelector.value.matchLabels
          ensures key in l && l[key] == limits[i].objectSelector.value.matchLabels[key]
        {
          var j := LastSetter(limits, gr, i, key);
        }
      }
    }
  }

  /** If they agree on shared labels: all global and own limits are met, and nothing of those of earlier subsets. */
  lemma AgreeingMeaning(body: RouteBody, subset: string, gr: GroupResource, l: Labels)
    requires Agreeing(Binding(body, subset), gr)
    ensures
      var limits, n := Binding(body, subset), OwnIndex(body.subsetLimits, subset);
      Passes(ObjectSelector(body, subset, gr), l) <==>
        AllMatch(limits, gr, l) && EarlierRefused(body.subsetLimits, gr, n, l)
  {
    ObjectMeaning(body, subset, gr, l);
    AgreeingLabels(Binding(body, subset), gr, l);
  }

  // ----- object isolation

  ghost predicate NotAmong(sls: seq<SubsetLimit>, subset: string) {
    forall i :: 0 <= i < |sls| ==> sls[i].subset != subset
  }

  ghost predicate SaysSomething(limits: seq<Limit>, gr: GroupResource) {
    exists i :: 0 <= i < |limits| && ObjectApplies(limits[i], gr) && HasRequirement(limits[i].objectSelector.value)
  }

  /** Labels that meet the limits of a list, after any others, meet something of it, if it says anything. */
  lemma OwnLimitsBind(others: seq<Limit>, limits: seq<Limit>, gr: GroupResource, l: Labels)
    requires LabelsHeld(others + limits, gr, l) && AllExprs(others + limits, gr, l) && SaysSomething(limits, gr)
    ensures !AllRefused(limits, gr, l)
  {
    var all := others + limits;
    assert forall j :: 0 <= j < |limits| ==> all[|others| + j] == limits[j];
    var i :| 0 <= i < |limits| && ObjectApplies(limits[i], gr) && HasRequirement(limits[i].objectSelector.value);
    var x := limits[i].objectSelector.value;
    if x.matchExpressions != [] {
      assert all[|others| + i] == limits[i] && x.matchExpressions[0] in x.matchExpressions;
      assert !Refused(x, l);
    } else {
      var key :| key in x.matchLabels;
      var j := LastSetter(all, gr, |others| + i, key);
      assert all[j] == limits[j - |others|];
      assert !Refused(limits[j - |others|].objectSelector.value, l);
    }
  }

  /**
   * No label set passes the selectors of two subsets when any applicable object limit of the earlier one requires
   * anything.
   */
  lemma ObjectIsolation(body: RouteBody, gr: GroupResource, a: nat, later: string, l: Labels)
    requires a < |body.subsetLimits| && NotAmong(body.subsetLimits[..a], body.subsetLimits[a].subset)
    requires NotAmong(body.subsetLimits[..a + 1], later)
    requires SaysSomething(body.subsetLimits[a].limits, gr)
    ensures !(Passes(ObjectSelector(body, body.subsetLimits[a].subset, gr), l) &&
      Passes(ObjectSelector(body, later, gr), l))
  {
    var sls := body.subsetLimits;
    assert forall i :: 0 <= i < a ==> sls[..a][i] == sls[i];
    assert forall i :: 0 <= i <= a ==> sls[..a + 1][i] == sls[i];
    ObjectMeaning(body, sls[a].subset, gr, l);
    ObjectMeaning(body, later, gr, l);
    if Passes(ObjectSelector(body, sls[a].subset, gr), l) {
      assert OwnIndex(sls, sls[a].subset) == a && a < OwnIndex(sls, later);
      OwnLimitsBind(body.globalLimits, sls[a].limits, gr, l);
    }
  }

  // ----- object partition

  /** The limits hold exactly one object selector for the resource, with exactly one requirement. */
  ghost predicate OneLimit(limits: seq<Limit>, gr: GroupResource, x: LabelSelector) {
    SingleRequirement(x) && exists k :: 0 <= k < |limits| && OnlyAt(limits, gr, x, k)
  }

  predicate OnlyAt(limits: seq<Limit>, gr: GroupResource, x: LabelSelector, k: nat)
    requires k < |limits|
  {
    ObjectApplies(limits[k], gr) && limits[k].objectSelector == Some(x)
    && forall i :: 0 <= i < |limits| && i != k ==> !ObjectApplies(limits[i], gr)
  }

  lemma OneLimitMeans(limits: seq<Limit>, gr: GroupResource, x: LabelSelector, l: Labels)
    requires OneLimit(limits, gr, x)
    ensures AllMatch(limits, gr, l) <==> Matches(x, l)
    ensures AllRefused(limits, gr, l) <==> !Matches(x, l)
  {
    NegationRefuses(x, l);
    NegateSingleComplements(x, l);
  }

  /** Every entry but the last has one single-requirement limit `xs[i]`; the last, the default subset, has none. */
  ghost predicate Layered(sls: seq<SubsetLimit>, gr: GroupResource, xs: seq<LabelSelector>) {
    |sls| == |xs| + 1
    && (forall i :: 0 <= i < |xs| ==> OneLimit(sls[i].limits, gr, xs[i]))
    && (forall i :: 0 <= i < |sls[|xs|].limits| ==> !ObjectApplies(sls[|xs|].limits[i], gr))
    && (forall i, j :: 0 <= i < j < |sls| ==> sls[i].subset != sls[j].subset)
  }

  /** No two applicable global limits ask for different values of a label, nor do one of them and a subset's limit. */
  ghost predicate GlobalsCompatible(globals: seq<Limit>, gr: GroupResource, xs: seq<LabelSelector>) {
    && Agreeing(globals, gr)
    && forall i, k :: 0 <= i < |globals| && ObjectApplies(globals[i], gr) && 0 <= k < |xs| ==>
      AgreeOnShared(globals[i].objectSelector.value, xs[k])
  }

  predicate RefusedBefore(xs: seq<LabelSelector>, k: nat, l: Labels)
    requires k <= |xs|
  {
    forall i :: 0 <= i < k ==> !Matches(xs[i], l)
  }

  lemma LayerAgrees(body: RouteBody, gr: GroupResource, xs: seq<LabelSelector>, k: nat)
    requires Layered(body.subsetLimits, gr, xs) && GlobalsCompatible(body.globalLimits, gr, xs)
    requires k < |body.subsetLimits|
    ensures Agreeing(body.globalLimits + body.subsetLimits[k].limits, gr)
  {
  }

  lemma AllMatchConcat(a: seq<Limit>, b: seq<Limit>, gr: GroupResource, l: Labels)
    ensures AllMatch(a + b, gr, l) <==> AllMatch(a, gr, l) && AllMatch(b, gr, l)
  {
    assert forall i :: 0 <= i < |a| ==> (a + b)[i] == a[i];
    assert forall i :: 0 <= i < |b| ==> (a + b)[|a| + i] == b[i];
  }

  /** Reads the selector as plain logic: all global limits met, everything earlier refused, one's own limit met. */
  lemma LayeredMeaning(body: RouteBody, gr: GroupResource, xs: seq<LabelSelector>, k: nat, l: Labels)
    requires Layered(body.subsetLimits, gr, xs) && GlobalsCompatible(body.globalLimits, gr, xs)
    requires k < |body.subsetLimits|
    ensures SeenBy(body, gr, k, l)
      <==> AllMatch(body.globalLimits, gr, l) && RefusedBefore(xs, k, l) && (k < |xs| ==> Matches(xs[k], l))
  {
    var sls := body.subsetLimits;
    assert OwnIndex(sls, sls[k].subset) == k;
    LayerAgrees(body, gr, xs, k);
    AgreeingMeaning(body, sls[k].subset, gr, l);
    AllMatchConcat(body.globalLimits, sls[k].limits, gr, l);
    forall i | 0 <= i < |xs|
      ensures AllMatch(sls[i].limits, gr, l) <==> Matches(xs[i], l)
      ensures AllRefused(sls[i].limits, gr, l) <==> !Matches(xs[i], l)
    {
      OneLimitMeans(sls[i].limits, gr, xs[i], l);
    }
  }

  ghost predicate SeenBy(body: RouteBody, gr: GroupResource, k: nat, l: Labels)
    requires k < |body.subsetLimits|
  {
    Passes(ObjectSelector(body, body.subsetLimits[k].subset, gr), l)
  }

  ghost predicate SeenOnlyBy(body: RouteBody, gr: GroupResource, k: nat, l: Labels)
    requires k < |body.subsetLimits|
  {
    forall j :: 0 <= j < |body.subsetLimits| ==> (SeenBy(body, gr, j, l) <==> j == k)
  }

  lemma {:induction false} FirstMatch(xs: seq<LabelSelector>, l: Labels) returns (k: nat)
    ensures k <= |xs| && RefusedBefore(xs, k, l) && (k < |xs| ==> Matches(xs[k], l))
  {
    if xs == [] || Matches(xs[0], l) {
      k := 0;
    } else {
      var k' := FirstMatch(xs[1..], l);
      k := k' + 1;
      assert forall i :: 1 <= i < k ==> xs[1..][i - 1] == xs[i];
    }
  }

  lemma OnlyFirst(xs: seq<LabelSelector>, j: nat, k: nat, l: Labels)
    requires j <= |xs| && k <= |xs| && RefusedBefore(xs, k, l) && (k < |xs| ==> Matches(xs[k], l))
    ensures RefusedBefore(xs, j, l) && (j < |xs| ==> Matches(xs[j], l)) <==> j == k
  {
  }

  /** Labels that meet the global limits are seen by exactly one subset, the default included, and others by none. */
  lemma ObjectPartition(body: RouteBody, gr: GroupResource, xs: seq<LabelSelector>, l: Labels)
    requires Layered(body.subsetLimits, gr, xs) && GlobalsCompatible(body.globalLimits, gr, xs)
    ensures if AllMatch(body.globalLimits, gr, l)
      then exists k :: 0 <= k < |body.subsetLimits| && SeenOnlyBy(body, gr, k, l)
      else forall k :: 0 <= k < |body.subsetLimits| ==> !SeenBy(body, gr, k, l)
  {
    var k := FirstMatch(xs, l);
    forall j | 0 <= j < |body.subsetLimits|
      ensures SeenBy(body, gr, j, l) <==> AllMatch(body.globalLimits, gr, l) && j == k
    {
      LayeredMeaning(body, gr, xs, j, l);
      OnlyFirst(xs, j, k, l);
    }
    if AllMatch(body.globalLimits, gr, l) { assert SeenOnlyBy(body, gr, k, l); }
  }
}
