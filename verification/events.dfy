/** Namespace updates: which VirtualApps are reconciled again, and why leaving the others alone is sound. */
module NamespaceEvents {
  import opened Text
  import opened Selectors
  import opened RouteCompiler

  predicate Sensitive(app: VirtualApp) {
    app.route.Some? && (app.route.value.globalLimits != [] || app.route.value.subRules != [])
  }

  predicate ListDiffers(lib: Library, ms: seq<MatchLimitSelector>, x: Namespace, y: Namespace) {
    exists i :: 0 <= i < |ms| && NamespaceMatched(lib, ms[i], x) != NamespaceMatched(lib, ms[i], y)
  }

  predicate RulesDiffer(lib: Library, rules: seq<SubRule>, x: Namespace, y: Namespace) {
    exists i :: 0 <= i < |rules| && ListDiffers(lib, rules[i].matches, x, y)
  }

  predicate Differs(lib: Library, app: VirtualApp, x: Namespace, y: Namespace) {
    app.route.Some? &&
      (ListDiffers(lib, app.route.value.globalLimits, x, y) || RulesDiffer(lib, app.route.value.subRules, x, y))
  }

  method AnyDiffers(lib: Library, ms: seq<MatchLimitSelector>, x: Namespace, y: Namespace) returns (diff: bool)
    ensures diff <==> ListDiffers(lib, ms, x, y)
  {
    diff := false;
    for i := 0 to |ms|
      invariant !diff && forall k :: 0 <= k < i ==> NamespaceMatched(lib, ms[k], x) == NamespaceMatched(lib, ms[k], y)
    {
      if NamespaceMatched(lib, ms[i], x) != NamespaceMatched(lib, ms[i], y) {
        diff := true;
        break;
      }
    }
  }

  /** All VirtualApps whose route could depend on namespaces; a failed listing yields none. */
  method GetSensitiveVApps(listing: Option<seq<VirtualApp>>) returns (picked: seq<nat>)
    ensures forall a: nat :: a in picked <==> listing.Some? && a < |listing.value| && Sensitive(listing.value[a])
  {
    picked := [];
    if listing.None? { return; }
    for a := 0 to |listing.value|
      invariant forall k: nat :: k in picked <==> k < a && Sensitive(listing.value[k])
    {
      if Sensitive(listing.value[a]) { picked := picked + [a]; }
    }
  }

  /** The update handler: positions in the listing of the VirtualApps it enqueues. */
  method Update(
    lib: Library, listing: Option<seq<VirtualApp>>, oldNS: Namespace, newNS: Namespace) returns (queue: set<nat>)
    ensures forall a: nat :: a in queue <==>
      listing.Some? && a < |listing.value| && Enqueued(lib, true, listing.value[a], oldNS, newNS)
  {
    queue := {};
    if newNS.labels == oldNS.labels { return; }
    var picked := GetSensitiveVApps(listing);
    for p := 0 to |picked|
      invariant forall a: nat :: a in picked[..p] ==> a in picked
      invariant forall a: nat :: a in queue <==> a in picked[..p] && Differs(lib, listing.value[a], oldNS, newNS)
    {
      assert picked[p] in picked && picked[..p + 1] == picked[..p] + [picked[p]];
      var route := listing.value[picked[p]].route.value;
      var diff := AnyDiffers(lib, route.globalLimits, oldNS, newNS);
      if diff {
        queue := queue + {picked[p]};
        continue;
      }
      for r := 0 to |route.subRules|
        invariant !diff && forall k :: 0 <= k < r ==> !ListDiffers(lib, route.subRules[k].matches, oldNS, newNS)
      {
        diff := AnyDiffers(lib, route.subRules[r].matches, oldNS, newNS);
        if diff { break; }
      }
      if diff { queue := queue + {picked[p]}; }
    }
    assert picked[..|picked|] == picked;
  }

  // ----- namespaces as Reconcile lists them

  function NameOf(ns: Namespace): string { ns.name }

  function Living(all: seq<Namespace>): seq<Namespace> {
    if all == [] then []
    else if all[0].terminating then Living(all[1..])
    else [all[0]] + Living(all[1..])
  }

  function ActiveNamespaces(all: seq<Namespace>): seq<Namespace> { StableSort(Living(all), NameOf) }

  /** Two states of one namespace that no selector of the VirtualApp can tell apart. */
  predicate Alike(lib: Library, app: VirtualApp, x: Namespace, y: Namespace) {
    x.name == y.name && x.terminating == y.terminating && !Differs(lib, app, x, y)
  }

  ghost predicate AllAlike(lib: Library, app: VirtualApp, a: seq<Namespace>, b: seq<Namespace>) {
    |a| == |b| && forall i :: 0 <= i < |a| ==> Alike(lib, app, a[i], b[i])
  }

  lemma {:induction false} LivingAlike(lib: Library, app: VirtualApp, a: seq<Namespace>, b: seq<Namespace>)
    requires AllAlike(lib, app, a, b)
    ensures AllAlike(lib, app, Living(a), Living(b))
  {
    if a == [] {
    } else {
      LivingAlike(lib, app, a[1..], b[1..]);
    }
  }

  lemma {:induction false} InsertAlike(
    lib: Library, app: VirtualApp, x: Namespace, y: Namespace, a: seq<Namespace>, b: seq<Namespace>)
    requires Alike(lib, app, x, y) && AllAlike(lib, app, a, b)
    ensures AllAlike(lib, app, Insert(x, a, NameOf), Insert(y, b, NameOf))
  {
    if a != [] && LexLess(NameOf(a[0]), NameOf(x)) {
      InsertAlike(lib, app, x, y, a[1..], b[1..]);
      ConsAlike(lib, app, a[0], b[0], Insert(x, a[1..], NameOf), Insert(y, b[1..], NameOf));
    } else {
      ConsAlike(lib, app, x, y, a, b);
    }
  }

  lemma ConsAlike(lib: Library, app: VirtualApp, x: Namespace, y: Namespace, a: seq<Namespace>, b: seq<Namespace>)
    requires Alike(lib, app, x, y) && AllAlike(lib, app, a, b)
    ensures AllAlike(lib, app, [x] + a, [y] + b)
  {
  }

  lemma {:induction false} SortAlike(lib: Library, app: VirtualApp, a: seq<Namespace>, b: seq<Namespace>)
    requires AllAlike(lib, app, a, b)
    ensures AllAlike(lib, app, StableSort(a, NameOf), StableSort(b, NameOf))
  {
    if a == [] {
    } else {
      SortAlike(lib, app, a[1..], b[1..]);
      InsertAlike(lib, app, a[0], b[0], StableSort(a[1..], NameOf), StableSort(b[1..], NameOf));
    }
  }

  // ----- alike namespaces compile alike

  predicate Covered(app: VirtualApp, ms: MatchLimitSelector) {
    app.route.Some? && (ms in app.route.value.globalLimits
      || exists i :: 0 <= i < |app.route.value.subRules| && ms in app.route.value.subRules[i].matches)
  }

  ghost predicate AllCovered(app: VirtualApp, list: seq<MatchLimitSelector>) {
    forall i :: 0 <= i < |list| ==> Covered(app, list[i])
  }

  lemma CoveredAgrees(lib: Library, app: VirtualApp, ms: MatchLimitSelector, x: Namespace, y: Namespace)
    requires Covered(app, ms) && Alike(lib, app, x, y)
    ensures NamespaceMatched(lib, ms, x) == NamespaceMatched(lib, ms, y)
  {
  }

  lemma {:induction false} NamesAlike(
    lib: Library, app: VirtualApp, ms: MatchLimitSelector, a: seq<Namespace>, b: seq<Namespace>, want: bool)
    requires AllAlike(lib, app, a, b) && Covered(app, ms)
    ensures NamesWhere(lib, ms, a, want) == NamesWhere(lib, ms, b, want)
  {
    if a == [] {
    } else {
      var n := |a| - 1;
      NamesAlike(lib, app, ms, a[..n], b[..n], want);
      CoveredAgrees(lib, app, ms, a[n], b[n]);
    }
  }

  lemma {:induction false} RulesAlike(
    lib: Library, app: VirtualApp, list: seq<MatchLimitSelector>, a: seq<Namespace>, b: seq<Namespace>)
    requires AllAlike(lib, app, a, b) && AllCovered(app, list)
    ensures IncludeRules(lib, list, a) == IncludeRules(lib, list, b)
    ensures ExcludeRules(lib, list, a) == ExcludeRules(lib, list, b)
  {
    if list == [] {
    } else {
      var n := |list| - 1;
      RulesAlike(lib, app, list[..n], a, b);
      NamesAlike(lib, app, list[n], a, b, true);
      NamesAlike(lib, app, list[n], a, b, false);
    }
  }

  lemma {:induction false} RulesByNameCovered(app: VirtualApp, rules: seq<SubRule>, name: string)
    requires app.route.Some? && rules <= app.route.value.subRules && name in RulesByName(rules)
    ensures AllCovered(app, RulesByName(rules)[name])
  {
    var n := |rules| - 1;
    if name == rules[n].name {
      assert app.route.value.subRules[n] == rules[n];
      forall i | 0 <= i < |rules[n].matches| ensures Covered(app, rules[n].matches[i]) {
        assert rules[n].matches[i] in app.route.value.subRules[n].matches;
      }
    } else {
      RulesByNameCovered(app, rules[..n], name);
    }
  }

  lemma {:induction false} GatherCovered(app: VirtualApp, names: seq<string>)
    ensures AllCovered(app, Gather(AppRules(app), names))
  {
    if names == [] {
    } else {
      var n := |names| - 1;
      GatherCovered(app, names[..n]);
      if names[n] in AppRules(app) { RulesByNameCovered(app, app.route.value.subRules, names[n]); }
    }
  }

  lemma {:induction false} SubsetsAlike(
    lib: Library, app: VirtualApp, subsets: seq<Subset>, a: seq<Namespace>, b: seq<Namespace>)
    requires AllAlike(lib, app, a, b)
    ensures IncludeBySubset(lib, app, subsets, a) == IncludeBySubset(lib, app, subsets, b)
    ensures ExcludeOfAll(lib, app, subsets, a) == ExcludeOfAll(lib, app, subsets, b)
  {
    if subsets == [] {
    } else {
      var n := |subsets| - 1;
      SubsetsAlike(lib, app, subsets[..n], a, b);
      GatherCovered(app, subsets[n].routeRules);
      RulesAlike(lib, app, SelectorsOf(app, subsets[n]), a, b);
    }
  }

  lemma AlikeCompileAlike(lib: Library, app: VirtualApp, a: seq<Namespace>, b: seq<Namespace>)
    requires AllAlike(lib, app, a, b)
    ensures ProtoOf(lib, app, a) == ProtoOf(lib, app, b)
  {
    SubsetsAlike(lib, app, app.subsets, a, b);
    if app.route.Some? {
      assert AllCovered(app, app.route.value.globalLimits);
      RulesAlike(lib, app, app.route.value.globalLimits, a, b);
    }
  }

  /** The event's effect on the cluster: one namespace changes state, its name stays. */
  predicate Replaces(all: seq<Namespace>, k: nat, newNS: Namespace) {
    k < |all| && newNS.name == all[k].name
  }

  /** What the handler decides for one VirtualApp, as `Update` is proved to. */
  predicate Enqueued(lib: Library, listed: bool, app: VirtualApp, oldNS: Namespace, newNS: Namespace) {
    listed && oldNS.labels != newNS.labels && Differs(lib, app, oldNS, newNS)
  }

  /** A skipped VirtualApp compiles to the identical route before and after, be it insensitive or merely unaffected. */
  lemma SkipSound(lib: Library, app: VirtualApp, all: seq<Namespace>, k: nat, newNS: Namespace)
    requires Replaces(all, k, newNS) && newNS.terminating == all[k].terminating
    requires !Enqueued(lib, true, app, all[k], newNS)
    ensures ProtoOf(lib, app, ActiveNamespaces(all)) == ProtoOf(lib, app, ActiveNamespaces(all[k := newNS]))
  {
    var all' := all[k := newNS];
    forall i | 0 <= i < |all| ensures Alike(lib, app, all[i], all'[i]) {
      if i == k && all[k].labels == newNS.labels { assert all[k] == newNS; }
    }
    LivingAlike(lib, app, all, all');
    SortAlike(lib, app, Living(all), Living(all'));
    AlikeCompileAlike(lib, app, ActiveNamespaces(all), ActiveNamespaces(all'));
  }

  predicate UnsoundSkip(lib: Library, listed: bool, app: VirtualApp, all: seq<Namespace>, k: nat, newNS: Namespace) {
    Replaces(all, k, newNS) && !Enqueued(lib, listed, app, all[k], newNS)
    && ProtoOf(lib, app, ActiveNamespaces(all)) != ProtoOf(lib, app, ActiveNamespaces(all[k := newNS]))
  }

  /**
   * Both side conditions are needed: a failed listing skips a changed route, and so does a namespace that starts
   * terminating.
   */
  lemma SkipUnsoundOtherwise(lib: Library)
    returns (app: VirtualApp, all: seq<Namespace>, relabelled: Namespace, dying: Namespace)
    ensures UnsoundSkip(lib, false, app, all, 0, relabelled) && relabelled.terminating == all[0].terminating
    ensures UnsoundSkip(lib, true, app, all, 0, dying) && dying.labels == all[0].labels
  {
    app := VirtualApp(None, None, Some(AppRoute([CANARIES], [], [], [])), []);
    all := [CANARY];
    relabelled, dying := CANARY.(labels := map[]), CANARY.(terminating := true);
    OneNamespace(CANARY);
    GlobalOnly(lib, app, CANARIES, [CANARY], true);
    RelabelledSkipped(lib, app);
    DyingSkipped(lib, app);
  }

  const CANARIES := MatchLimitSelector(Some(LabelSelector(map["tier" := "canary"], [])), None, None, None)
  const CANARY := Namespace("n", map["tier" := "canary"], false)

  lemma RelabelledSkipped(lib: Library, app: VirtualApp)
    requires app == VirtualApp(None, None, Some(AppRoute([CANARIES], [], [], [])), [])
    requires ProtoOf(lib, app, ActiveNamespaces([CANARY])).globalLimits == [ProtoLimit(["n"], None, [])]
    ensures UnsoundSkip(lib, false, app, [CANARY], 0, CANARY.(labels := map[]))
  {
    var relabelled := CANARY.(labels := map[]);
    assert !Matches(CANARIES.namespaceSelector.value, relabelled.labels) by { assert "tier" in CANARY.labels; }
    assert [CANARY][0 := relabelled] == [relabelled];
    OneNamespace(relabelled);
    GlobalOnly(lib, app, CANARIES, [relabelled], false);
  }

  lemma DyingSkipped(lib: Library, app: VirtualApp)
    requires app == VirtualApp(None, None, Some(AppRoute([CANARIES], [], [], [])), [])
    requires ProtoOf(lib, app, ActiveNamespaces([CANARY])).globalLimits == [ProtoLimit(["n"], None, [])]
    ensures UnsoundSkip(lib, true, app, [CANARY], 0, CANARY.(terminating := true))
  {
    var dying := CANARY.(terminating := true);
    assert [CANARY][0 := dying] == [dying];
    OneNamespace(dying);
    assert [CANARIES][..0] == [] && IncludeRules(lib, [CANARIES], []) == [ProtoLimit([], None, [])];
  }

  lemma OneNamespace(ns: Namespace)
    ensures ActiveNamespaces([ns]) == if ns.terminating then [] else [ns]
  {
    assert [ns][1..] == [];
    assert Living([ns]) == if ns.terminating then [] else [ns];
    if !ns.terminating {
      assert StableSort([ns][1..], NameOf) == [];
      assert StableSort([ns], NameOf) == Insert(ns, [], NameOf);
    }
  }

  lemma GlobalOnly(lib: Library, app: VirtualApp, ms: MatchLimitSelector, nss: seq<Namespace>, matched: bool)
    requires app == VirtualApp(None, None, Some(AppRoute([ms], [], [], [])), [])
    requires |nss| == 1 && SelectsNamespaces(ms) && NamespaceMatched(lib, ms, nss[0]) == matched && ms.resources.None?
    ensures ProtoOf(lib, app, nss).globalLimits == [ProtoLimit(if matched then [nss[0].name] else [], None, [])]
  {
    assert nss[..0] == [] && [ms][..0] == [];
    var names := if matched then [nss[0].name] else [];
    assert NamesWhere(lib, ms, nss, true) == NamesWhere(lib, ms, nss[..0], true) + names;
    assert NamesWhere(lib, ms, nss, true) == names;
    assert IncludeRule(lib, ms, nss) == [ProtoLimit(names, None, [])];
    assert IncludeRules(lib, [ms], nss) == IncludeRules(lib, [ms][..0], nss) + IncludeRule(lib, ms, nss);
    assert IncludeRules(lib, [], nss) == [];
  }
}
