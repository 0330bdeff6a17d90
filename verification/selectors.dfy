/** Label selectors: the merge and negation the proxy combines them with, and the compiled form that is matched. */
module Selectors {
  import opened Text

  type Labels = map<string, string>

  datatype Operator = In | NotIn | Exists | DoesNotExist | Other(name: string)

  datatype Requirement = Requirement(key: string, op: Operator, values: seq<string>)

  datatype LabelSelector = LabelSelector(matchLabels: map<string, string>, matchExpressions: seq<Requirement>)

  function KeyOf(r: Requirement): string { r.key }

  /** One requirement against one label set; an operator outside the four never holds. */
  predicate Holds(r: Requirement, l: Labels) {
    match r.op
    case In => r.key in l && l[r.key] in r.values
    case NotIn => r.key in l ==> l[r.key] !in r.values
    case Exists => r.key in l
    case DoesNotExist => r.key !in l
    case Other(_) => false
  }

  predicate AllHold(rs: seq<Requirement>, l: Labels) {
    forall r :: r in rs ==> Holds(r, l)
  }

  predicate LabelsHold(m: map<string, string>, l: Labels) {
    forall k :: k in m ==> k in l && l[k] == m[k]
  }

  predicate Matches(sel: LabelSelector, l: Labels) {
    LabelsHold(sel.matchLabels, l) && AllHold(sel.matchExpressions, l)
  }

  /** A computed filter: nil filters nothing out. */
  predicate Passes(sel: Option<LabelSelector>, l: Labels) {
    sel.Some? ==> Matches(sel.value, l)
  }

  predicate KnownOps(rs: seq<Requirement>) {
    forall r :: r in rs ==> !r.op.Other?
  }

  predicate HasRequirement(sel: LabelSelector) {
    sel.matchLabels != map[] || sel.matchExpressions != []
  }

  /** The operators, each said with plain labels: which labels with value `v` for the key does the selector match? */
  lemma OperatorsByLabels(key: string, values: seq<string>, l: Labels)
    ensures
      var has := (v: string) => LabelsHold(map[key := v], l);
      && (Holds(Requirement(key, In, values), l) <==> exists v :: v in values && has(v))
      && (Holds(Requirement(key, NotIn, values), l) <==> forall v :: v in values ==> !has(v))
      && (Holds(Requirement(key, Exists, values), l) <==> exists v :: has(v))
      && (Holds(Requirement(key, DoesNotExist, values), l) <==> forall v :: !has(v))
  {
    forall v ensures LabelsHold(map[key := v], l) <==> key in l && l[key] == v {
      assert key in map[key := v];
    }
    if key in l { assert LabelsHold(map[key := l[key]], l); }
  }

  // ----- merging

  function Merge(a: Option<LabelSelector>, b: Option<LabelSelector>): Option<LabelSelector> {
    if b.None? then a
    else if a.None? then b
    else
      Some(LabelSelector(a.value.matchLabels + b.value.matchLabels,
                         a.value.matchExpressions + b.value.matchExpressions))
  }

  method MergeLabelSelector(a: Option<LabelSelector>, b: Option<LabelSelector>) returns (r: Option<LabelSelector>)
    ensures r == Merge(a, b)
  {
    if b.None? { return a; }
    if a.None? { return b; }
    var labels := a.value.matchLabels;
    var keys := b.value.matchLabels.Keys;
    while keys != {}
      invariant keys <= b.value.matchLabels.Keys
      invariant labels == a.value.matchLabels + (b.value.matchLabels - keys)
    {
      var k :| k in keys;
      labels := labels[k := b.value.matchLabels[k]];
      keys := keys - {k};
    }
    assert b.value.matchLabels - keys == b.value.matchLabels;
    r := Some(LabelSelector(labels, a.value.matchExpressions + b.value.matchExpressions));
  }

  predicate AgreeOnShared(a: LabelSelector, b: LabelSelector) {
    forall k :: k in a.matchLabels && k in b.matchLabels ==> a.matchLabels[k] == b.matchLabels[k]
  }

  /** The merge never lets through what its second argument, or any expression of its first, rejects. */
  lemma MergeImplies(a: Option<LabelSelector>, b: Option<LabelSelector>, l: Labels)
    requires Passes(Merge(a, b), l)
    ensures Passes(b, l)
    ensures a.Some? ==> AllHold(a.value.matchExpressions, l)
  {
  }

  lemma BothPassMerge(a: Option<LabelSelector>, b: Option<LabelSelector>, l: Labels)
    requires Passes(a, l) && Passes(b, l)
    ensures Passes(Merge(a, b), l)
  {
  }

  lemma MergeOfAgreeing(a: LabelSelector, b: LabelSelector, l: Labels)
    requires AgreeOnShared(a, b) && Matches(Merge(Some(a), Some(b)).value, l)
    ensures Matches(a, l) && Matches(b, l)
  {
  }

  /** Labels that pass a merge pass both arguments if and only if no shared matchLabels key disagrees. */
  lemma MergeConjunctionExact(a: LabelSelector, b: LabelSelector, l: Labels)
    requires Matches(Merge(Some(a), Some(b)).value, l)
    ensures Matches(a, l) && Matches(b, l) <==> AgreeOnShared(a, b)
  {
    if AgreeOnShared(a, b) {
      MergeOfAgreeing(a, b, l);
    }
  }

  /** Where a shared key disagrees, the second argument wins and the first is forgotten. */
  lemma MergeOverrides()
    ensures
      var one, two := LabelSelector(map["k" := "1"], []), LabelSelector(map["k" := "2"], []);
      var l := map["k" := "2"];
      !AgreeOnShared(one, two) && Matches(Merge(Some(one), Some(two)).value, l) && !Matches(one, l)
  {
    var one, two := LabelSelector(map["k" := "1"], []), LabelSelector(map["k" := "2"], []);
    assert "k" in one.matchLabels && "k" in two.matchLabels;
  }

  // ----- negating

  function NegateOp(op: Operator): Operator {
    match op
    case In => NotIn
    case NotIn => In
    case Exists => DoesNotExist
    case DoesNotExist => Exists
    case Other(_) => Other("")
  }

  function NegateReq(r: Requirement): Requirement { r.(op := NegateOp(r.op)) }

  function NegateAll(rs: seq<Requirement>): (out: seq<Requirement>)
    ensures |out| == |rs| && forall i :: 0 <= i < |rs| ==> out[i] == NegateReq(rs[i])
  {
    if rs == [] then [] else [NegateReq(rs[0])] + NegateAll(rs[1..])
  }

  predicate IsLabelExpr(r: Requirement, m: map<string, string>) {
    r.key in m && r == Requirement(r.key, NotIn, [m[r.key]])
  }

  /** `s` lists the negated matchLabels of `m`, once each, in some order. */
  ghost predicate Enumerates(s: seq<Requirement>, m: map<string, string>) {
    DistinctBy(s, KeyOf) && (forall r :: r in s <==> IsLabelExpr(r, m))
  }

  ghost function AnyOrder(m: map<string, string>): (s: seq<Requirement>)
    ensures Enumerates(s, m)
    decreases |m|
  {
    if m == map[] then [] else
      var k :| k in m;
      assert |m - {k}| < |m| by { assert m.Keys == (m - {k}).Keys + {k}; }
      var rest := AnyOrder(m - {k});
      var x := Requirement(k, NotIn, [m[k]]);
      assert forall r :: IsLabelExpr(r, m) <==> r == x || IsLabelExpr(r, m - {k});
      assert forall j :: 0 <= j < |rest| ==> rest[j] in rest;
      [x] + rest
  }

  ghost function NegatedLabels(m: map<string, string>): seq<Requirement> {
    StableSort(AnyOrder(m), KeyOf)
  }

  ghost function Negate(sel: LabelSelector): LabelSelector {
    LabelSelector(map[], NegatedLabels(sel.matchLabels) + NegateAll(sel.matchExpressions))
  }

  ghost function NegateOpt(sel: Option<LabelSelector>): Option<LabelSelector> {
    if sel.None? then None else Some(Negate(sel.value))
  }

  lemma {:induction false} DistinctBag(s: seq<Requirement>, x: Requirement)
    requires DistinctBy(s, KeyOf)
    ensures multiset(s)[x] == if x in s then 1 else 0
  {
    if s == [] {
    } else {
      assert s == [s[0]] + s[1..];
      DistinctBag(s[1..], x);
    }
  }

  lemma Twice(s: seq<Requirement>, i: nat, j: nat)
    requires i < j < |s| && s[i] == s[j]
    ensures multiset(s)[s[i]] >= 2
  {
    assert s == s[..j] + s[j..] && s[i] in s[..j] && s[j] in s[j..];
  }

  lemma DistinctSorted(s: seq<Requirement>)
    requires DistinctBy(s, KeyOf)
    ensures DistinctBy(StableSort(s, KeyOf), KeyOf)
  {
    var r := StableSort(s, KeyOf);
    forall i, j | 0 <= i < j < |r| ensures KeyOf(r[i]) != KeyOf(r[j]) {
      assert r[i] in multiset(s) && r[j] in multiset(s);
      if r[i] == r[j] {
        Twice(r, i, j);
        DistinctBag(s, r[i]);
        assert false;
      }
    }
  }

  /** The order the map was walked in is gone after the sort. */
  lemma SortForgetsOrder(s: seq<Requirement>, m: map<string, string>)
    requires Enumerates(s, m)
    ensures StableSort(s, KeyOf) == NegatedLabels(m)
  {
    var t := AnyOrder(m);
    forall x ensures multiset(s)[x] == multiset(t)[x] { DistinctBag(s, x); DistinctBag(t, x); }
    assert multiset(s) == multiset(t);
    StableSortSorted(s, KeyOf);
    StableSortSorted(t, KeyOf);
    DistinctSorted(s);
    DistinctSorted(t);
    SortedUnique(StableSort(s, KeyOf), StableSort(t, KeyOf), KeyOf);
  }

  lemma EnumerateOne(s: seq<Requirement>, m: map<string, string>, keys: set<string>, k: string)
    requires k in keys && keys <= m.Keys && Enumerates(s, m - keys)
    ensures Enumerates(s + [Requirement(k, NotIn, [m[k]])], m - (keys - {k}))
  {
    var x := Requirement(k, NotIn, [m[k]]);
    assert forall i :: 0 <= i < |s| ==> s[i] in s;
    forall r ensures r in s + [x] <==> IsLabelExpr(r, m - (keys - {k})) {
      assert r in s <==> IsLabelExpr(r, m - keys);
    }
  }

  /** Whatever order Go walks matchLabels in, the result is the same list. */
  method NegateMatchLabels(m: map<string, string>) returns (exprs: seq<Requirement>)
    ensures exprs == NegatedLabels(m)
  {
    exprs := [];
    var keys := m.Keys;
    while keys != {}
      invariant keys <= m.Keys
      invariant Enumerates(exprs, m - keys)
    {
      var k :| k in keys;
      EnumerateOne(exprs, m, keys, k);
      exprs := exprs + [Requirement(k, NotIn, [m[k]])];
      keys := keys - {k};
    }
    assert m - keys == m;
    SortForgetsOrder(exprs, m);
    exprs := StableSort(exprs, KeyOf);
  }

  method NegateLabelSelector(sel: Option<LabelSelector>) returns (r: Option<LabelSelector>)
    ensures r == NegateOpt(sel)
  {
    if sel.None? { return None; }
    var exprs := NegateMatchLabels(sel.value.matchLabels);
    var es := sel.value.matchExpressions;
    ghost var negated := NegateAll(es);
    for i := 0 to |es|
      invariant exprs == NegatedLabels(sel.value.matchLabels) + negated[..i]
    {
      assert negated[..i + 1] == negated[..i] + [NegateReq(es[i])];
      exprs := exprs + [NegateReq(es[i])];
    }
    assert negated[..|es|] == negated;
    r := Some(LabelSelector(map[], exprs));
  }

  lemma NegatedLabelsMember(m: map<string, string>, r: Requirement)
    ensures r in NegatedLabels(m) <==> IsLabelExpr(r, m)
  {
    assert r in NegatedLabels(m) <==> r in multiset(NegatedLabels(m));
    assert r in AnyOrder(m) <==> r in multiset(AnyOrder(m));
  }

  predicate AllFail(rs: seq<Requirement>, l: Labels) {
    forall r :: r in rs ==> !Holds(r, l)
  }

  predicate LabelsFail(m: map<string, string>, l: Labels) {
    forall k :: k in m ==> !(k in l && l[k] == m[k])
  }

  predicate NoneHold(sel: LabelSelector, l: Labels) {
    LabelsFail(sel.matchLabels, l) && AllFail(sel.matchExpressions, l)
  }

  lemma NegatedLabelsMeaning(m: map<string, string>, l: Labels)
    ensures AllHold(NegatedLabels(m), l) <==> LabelsFail(m, l)
    ensures AllFail(NegatedLabels(m), l) <==> LabelsHold(m, l)
  {
    var ns := NegatedLabels(m);
    forall r | r in ns ensures r.key in m && (Holds(r, l) <==> !(r.key in l && l[r.key] == m[r.key])) {
      NegatedLabelsMember(m, r);
    }
    forall k | k in m ensures Requirement(k, NotIn, [m[k]]) in ns {
      NegatedLabelsMember(m, Requirement(k, NotIn, [m[k]]));
    }
  }

  lemma NegatedHolds(r: Requirement, l: Labels)
    ensures Holds(NegateReq(r), l) ==> !Holds(r, l)
    ensures !r.op.Other? ==> (Holds(NegateReq(r), l) <==> !Holds(r, l))
  {
  }

  lemma NegateAllMeaning(rs: seq<Requirement>, l: Labels)
    ensures AllHold(NegateAll(rs), l) ==> AllFail(rs, l)
    ensures KnownOps(rs) ==>
      (AllHold(NegateAll(rs), l) <==> AllFail(rs, l)) && (AllFail(NegateAll(rs), l) <==> AllHold(rs, l))
  {
    var ns := NegateAll(rs);
    forall i | 0 <= i < |rs| ensures ns[i] in ns && rs[i] in rs && (Holds(ns[i], l) ==> !Holds(rs[i], l))
      && (!rs[i].op.Other? ==> (Holds(ns[i], l) <==> !Holds(rs[i], l))) {
      NegatedHolds(rs[i], l);
    }
  }

  lemma HoldsOverConcat(a: seq<Requirement>, b: seq<Requirement>, l: Labels)
    ensures AllHold(a + b, l) <==> AllHold(a, l) && AllHold(b, l)
    ensures AllFail(a + b, l) <==> AllFail(a, l) && AllFail(b, l)
  {
  }

  /** Negation demands that every single requirement fails: it is "none of", not "not all of". */
  lemma NegateMeaning(sel: LabelSelector, l: Labels)
    ensures Matches(Negate(sel), l) ==> NoneHold(sel, l)
    ensures KnownOps(sel.matchExpressions) ==> (Matches(Negate(sel), l) <==> NoneHold(sel, l))
  {
    NegatedLabelsMeaning(sel.matchLabels, l);
    NegateAllMeaning(sel.matchExpressions, l);
    HoldsOverConcat(NegatedLabels(sel.matchLabels), NegateAll(sel.matchExpressions), l);
  }

  ghost predicate Disjoint(a: LabelSelector, b: LabelSelector) {
    forall l: Labels :: !(Matches(a, l) && Matches(b, l))
  }

  lemma NoneHoldExcludes(sel: LabelSelector, l: Labels)
    requires HasRequirement(sel) && NoneHold(sel, l)
    ensures !Matches(sel, l)
  {
    if sel.matchExpressions != [] {
      assert sel.matchExpressions[0] in sel.matchExpressions;
    } else {
      var k :| k in sel.matchLabels;
    }
  }

  /** A selector and its negation share no label set exactly when the selector says anything at all. */
  lemma NegateDisjointExact(sel: LabelSelector)
    ensures Disjoint(sel, Negate(sel)) <==> HasRequirement(sel)
  {
    if HasRequirement(sel) {
      forall l: Labels ensures !(Matches(sel, l) && Matches(Negate(sel), l)) {
        if Matches(Negate(sel), l) {
          NegateMeaning(sel, l);
          NoneHoldExcludes(sel, l);
        }
      }
    } else {
      var l: Labels := map[];
      NegateMeaning(sel, l);
      assert Matches(sel, l) && Matches(Negate(sel), l);
    }
  }

  predicate SingleRequirement(sel: LabelSelector) {
    KnownOps(sel.matchExpressions) &&
    ((sel.matchExpressions == [] && |sel.matchLabels| == 1) ||
      (sel.matchLabels == map[] && |sel.matchExpressions| == 1))
  }

  lemma SingleKey(m: map<string, string>) returns (k: string)
    requires |m| == 1
    ensures m.Keys == {k}
  {
    assert m.Keys != {};
    k :| k in m.Keys;
    assert |m.Keys - {k}| == 0;
  }

  lemma NegateSingleComplements(sel: LabelSelector, l: Labels)
    requires SingleRequirement(sel)
    ensures Matches(Negate(sel), l) <==> !Matches(sel, l)
  {
    NegateMeaning(sel, l);
    if sel.matchExpressions == [] {
      var k := SingleKey(sel.matchLabels);
      assert k in sel.matchLabels;
    } else {
      var e := sel.matchExpressions[0];
      assert sel.matchExpressions == [e];
      assert AllHold([e], l) <==> Holds(e, l);
      assert AllFail([e], l) <==> !Holds(e, l);
    }
  }

  lemma NegateKnown(sel: LabelSelector)
    requires KnownOps(sel.matchExpressions)
    ensures KnownOps(Negate(sel).matchExpressions)
  {
    var es, ne := sel.matchExpressions, NegateAll(sel.matchExpressions);
    forall r | r in Negate(sel).matchExpressions ensures !r.op.Other? {
      NegatedLabelsMember(sel.matchLabels, r);
      if r in ne {
        var i :| 0 <= i < |es| && ne[i] == r;
        assert es[i] in es;
      }
    }
  }

  /** Negating twice gives back the meaning, though not the text: matchLabels become In expressions. */
  lemma DoubleNegation(sel: LabelSelector, l: Labels)
    requires KnownOps(sel.matchExpressions)
    ensures Matches(Negate(Negate(sel)), l) <==> Matches(sel, l)
  {
    NegateKnown(sel);
    NegateMeaning(Negate(sel), l);
    NegatedLabelsMeaning(sel.matchLabels, l);
    NegateAllMeaning(sel.matchExpressions, l);
    HoldsOverConcat(NegatedLabels(sel.matchLabels), NegateAll(sel.matchExpressions), l);
  }

  // ----- compiling

  datatype Compiled = Nothing | Requirements(list: seq<Requirement>) | BadOperator

  predicate CompiledMatches(c: Compiled, l: Labels) {
    c.Requirements? && AllHold(c.list, l)
  }

  /** Builds the requirement list; nil selects nothing, an unknown operator is an error, and no other input fails. */
  method ValidatedLabelSelectorAsSelector(ps: Option<LabelSelector>) returns (c: Compiled)
    ensures c.BadOperator? <==> ps.Some? && !KnownOps(ps.value.matchExpressions)
    ensures !c.BadOperator? ==> forall l: Labels :: CompiledMatches(c, l) <==> ps.Some? && Matches(ps.value, l)
  {
    if ps.None? { return Nothing; }
    var m := ps.value.matchLabels;
    var es := ps.value.matchExpressions;
    if |m| + |es| == 0 {
      assert m.Keys == {} && m == map[];
      return Requirements([]);
    }
    var list: seq<Requirement> := [];
    var keys := m.Keys;
    assert Means([], m - keys, []);
    while keys != {}
      invariant keys <= m.Keys && Means(list, m - keys, [])
    {
      var k :| k in keys;
      MeansLabel(list, m, keys, k);
      list := list + [Requirement(k, In, [m[k]])];
      keys := keys - {k};
    }
    assert m - keys == m && es[..0] == [];
    for i := 0 to |es|
      invariant KnownOps(es[..i]) && Means(list, m, es[..i])
    {
      if es[i].op.Other? {
        assert es[i] in es;
        return BadOperator;
      }
      MeansExpression(list, m, es[..i], es[i]);
      assert es[..i + 1] == es[..i] + [es[i]];
      list := list + [es[i]];
    }
    assert es[..|es|] == es;
    c := Requirements(list);
  }

  /** The list holds of the same labels as the two halves of a selector. */
  ghost predicate Means(list: seq<Requirement>, m: Labels, es: seq<Requirement>) {
    forall l: Labels :: AllHold(list, l) <==> LabelsHold(m, l) && AllHold(es, l)
  }

  lemma MeansLabel(list: seq<Requirement>, m: Labels, keys: set<string>, k: string)
    requires k in keys && keys <= m.Keys && Means(list, m - keys, [])
    ensures Means(list + [Requirement(k, In, [m[k]])], m - (keys - {k}), [])
  {
    var x := Requirement(k, In, [m[k]]);
    forall l: Labels ensures AllHold(list + [x], l) <==> LabelsHold(m - (keys - {k}), l) {
      assert AllHold(list, l) <==> LabelsHold(m - keys, l);
      AllHoldAppend(list, x, l);
    }
  }

  lemma MeansExpression(list: seq<Requirement>, m: Labels, es: seq<Requirement>, x: Requirement)
    requires Means(list, m, es)
    ensures Means(list + [x], m, es + [x])
  {
    forall l: Labels ensures AllHold(list + [x], l) <==> LabelsHold(m, l) && AllHold(es + [x], l) {
      AllHoldAppend(list, x, l);
      AllHoldAppend(es, x, l);
    }
  }

  lemma AllHoldAppend(rs: seq<Requirement>, x: Requirement, l: Labels)
    ensures AllHold(rs + [x], l) <==> AllHold(rs, l) && Holds(x, l)
  {
  }
}
