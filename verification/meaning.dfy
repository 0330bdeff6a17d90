/** What a VirtualApp says, read off its rules alone, and that compiling and evaluating it says the same. */
module AppMeaning {
  import opened Text
  import opened Selectors
  import opened Routes
  import opened RouteCompiler

  // ----- what the VirtualApp says

  predicate Covers(list: seq<string>, x: string) { list == ["*"] || x in list }

  /** The resource is one of those listed, by group and name. */
  predicate Lists(rs: seq<APIResources>, gr: GroupResource) {
    exists r :: r in rs && Covers(r.apiGroups, gr.group) && Covers(r.resources, gr.resource)
  }

  /** A selector judges a namespace by its labels; without one, a regular expression that compiles, by its name. */
  predicate Accepts(lib: Library, ms: MatchLimitSelector, ns: Namespace) {
    || (ms.namespaceSelector.Some? && Matches(ms.namespaceSelector.value, ns.labels))
    || (ms.namespaceSelector.None? && ms.namespaceRegex.Some?
        && lib.compiles(ms.namespaceRegex.value) && lib.regexMatch(ms.namespaceRegex.value, ns.name))
  }

  predicate AboutNamespaces(ms: MatchLimitSelector) { ms.namespaceSelector.Some? || ms.namespaceRegex.Some? }

  predicate NamesResources(ms: MatchLimitSelector) { ms.resources.Some? && ms.resources.value != [] }

  predicate PublicResource(app: VirtualApp, gr: GroupResource) {
    app.route.Some? && Lists(app.route.value.publicResources, gr)
  }

  /** Of rules with one name the last one counts. */
  predicate InForce(rules: seq<SubRule>, k: nat) {
    k < |rules| && forall j :: k < j < |rules| ==> rules[j].name != rules[k].name
  }

  /** The selector is one of those the subset's rules hold. */
  ghost predicate Governs(app: VirtualApp, s: Subset, ms: MatchLimitSelector) {
    app.route.Some? && exists k: nat :: RuleHolds(app.route.value.subRules, s, ms, k)
  }

  predicate RuleHolds(rules: seq<SubRule>, s: Subset, ms: MatchLimitSelector, k: nat) {
    InForce(rules, k) && rules[k].name in s.routeRules && ms in rules[k].matches
  }

  /** A selector that names resources is about those; one that names none is about all that are not public. */
  predicate Concerns(app: VirtualApp, ms: MatchLimitSelector, gr: GroupResource) {
    AboutNamespaces(ms) && if NamesResources(ms) then Lists(ms.resources.value, gr) else !PublicResource(app, gr)
  }

  /** A global limit that names no resources is about all. */
  predicate Applicable(ms: MatchLimitSelector, gr: GroupResource) {
    AboutNamespaces(ms) && (NamesResources(ms) ==> Lists(ms.resources.value, gr))
  }

  /** A global limit that is about the resource turns the namespace away. */
  predicate Barred(lib: Library, app: VirtualApp, ns: Namespace, gr: GroupResource) {
    app.route.Some? && exists ms :: ms in app.route.value.globalLimits && Applicable(ms, gr) && !Accepts(lib, ms, ns)
  }

  ghost predicate Takes(lib: Library, app: VirtualApp, s: Subset, ns: Namespace, gr: GroupResource) {
    exists ms :: Governs(app, s, ms) && Concerns(app, ms, gr) && Accepts(lib, ms, ns)
  }

  ghost predicate Ruled(app: VirtualApp, s: Subset, gr: GroupResource) {
    exists ms :: Governs(app, s, ms) && Concerns(app, ms, gr)
  }

  ghost predicate FirstToTake(lib: Library, app: VirtualApp, i: nat, ns: Namespace, gr: GroupResource) {
    && i < |app.subsets| && Takes(lib, app, app.subsets[i], ns, gr)
    && forall j :: 0 <= j < i ==> !Takes(lib, app, app.subsets[j], ns, gr)
  }

  /**
   * Who owns an active namespace: nobody if a global limit bars it; the first subset to take it; the default subset if
   * some rule is about the resource but none takes the namespace; everybody if the resource is public; or nobody.
   */
  ghost predicate Owns(lib: Library, app: VirtualApp, ns: Namespace, gr: GroupResource, owner: Option<string>) {
    if Barred(lib, app, ns, gr) then owner == None
    else if exists i: nat :: FirstToTake(lib, app, i, ns, gr) then
      exists i: nat :: FirstToTake(lib, app, i, ns, gr) && owner == Some(app.subsets[i].name)
    else if exists s :: s in app.subsets && Ruled(app, s, gr) then owner == Some("")
    else if PublicResource(app, gr) then owner == Some(ALL_SUBSET_PUBLIC)
    else owner == None
  }

  // ----- the rules of a subset

  lemma {:induction false} RuleMapExactly(rules: seq<SubRule>, name: string)
    ensures name in RulesByName(rules) <==> exists k: nat :: InForce(rules, k) && rules[k].name == name
    ensures forall k: nat :: InForce(rules, k) && rules[k].name == name ==>
      name in RulesByName(rules) && RulesByName(rules)[name] == rules[k].matches
  {
    if rules == [] {
    } else {
      var n := |rules| - 1;
      RuleMapExactly(rules[..n], name);
      if rules[n].name == name {
        assert InForce(rules, n);
      } else {
        forall k: nat | k < n && rules[k].name == name ensures InForce(rules, k) <==> InForce(rules[..n], k) {
          assert forall j :: 0 <= j < n ==> rules[..n][j] == rules[j];
        }
      }
    }
  }

  lemma {:induction false} GatherMember(rm: RuleMap, names: seq<string>, ms: MatchLimitSelector)
    ensures ms in Gather(rm, names) <==> exists n :: n in names && n in rm && ms in rm[n]
  {
    if names == [] {
    } else {
      GatherMember(rm, names[..|names| - 1], ms);
      assert names == names[..|names| - 1] + [names[|names| - 1]];
    }
  }

  /** A subset is compiled from exactly the selectors of the rules it names. */
  lemma SelectorsExactly(app: VirtualApp, s: Subset, ms: MatchLimitSelector)
    ensures ms in SelectorsOf(app, s) <==> Governs(app, s, ms)
  {
    GatherMember(AppRules(app), s.routeRules, ms);
    if app.route.Some? {
      var rules := app.route.value.subRules;
      if k: nat :| RuleHolds(rules, s, ms, k) { RuleMapExactly(rules, rules[k].name); }
      if name :| name in s.routeRules && name in RulesByName(rules) && ms in RulesByName(rules)[name] {
        RuleMapExactly(rules, name);
        var k: nat :| InForce(rules, k) && rules[k].name == name;
        assert RuleHolds(rules, s, ms, k);
      }
    }
  }

  lemma {:induction false} GatherConcat(rm: RuleMap, a: seq<string>, b: seq<string>)
    ensures Gather(rm, a + b) == Gather(rm, a) + Gather(rm, b)
  {
    if b == [] {
      assert a + b == a;
    } else {
      var n := |b| - 1;
      GatherConcat(rm, a, b[..n]);
      assert (a + b)[..|a + b| - 1] == a + b[..n];
    }
  }

  /** And in the order in which it names them. */
  lemma SelectorsInOrder(app: VirtualApp, s: Subset, before: seq<string>, k: nat, after: seq<string>)
    requires app.route.Some? && InForce(app.route.value.subRules, k)
    requires s.routeRules == before + [app.route.value.subRules[k].name] + after
    ensures SelectorsOf(app, s) == SelectorsOf(app, s.(routeRules := before)) + app.route.value.subRules[k].matches
      + SelectorsOf(app, s.(routeRules := after))
  {
    var rm, rules := AppRules(app), app.route.value.subRules;
    var name := rules[k].name;
    RuleMapExactly(rules, name);
    GatherConcat(rm, before + [name], after);
    GatherConcat(rm, before, [name]);
    assert [name][..0] == [];
    assert Gather(rm, [name]) == rules[k].matches;
  }

  // ----- the same, step by step over the lists that are compiled

  predicate AppPublic(app: VirtualApp, gr: GroupResource) {
    app.route.Some? && GRMatched(gr, app.route.value.publicResources)
  }

  predicate GlobalSelectorApplies(ms: MatchLimitSelector, gr: GroupResource) {
    SelectsNamespaces(ms) && (|ResourcesOf(ms)| == 0 || GRMatched(gr, ResourcesOf(ms)))
  }

  predicate SelectorApplies(ms: MatchLimitSelector, gr: GroupResource, public: bool) {
    SelectsNamespaces(ms) && (if |ResourcesOf(ms)| > 0 then GRMatched(gr, ResourcesOf(ms)) else !public)
  }

  predicate AnyGlobalFails(lib: Library, list: seq<MatchLimitSelector>, ns: Namespace, gr: GroupResource) {
    exists i :: 0 <= i < |list| && GlobalSelectorApplies(list[i], gr) && !NamespaceMatched(lib, list[i], ns)
  }

  predicate GlobalFails(lib: Library, app: VirtualApp, ns: Namespace, gr: GroupResource) {
    app.route.Some? && AnyGlobalFails(lib, app.route.value.globalLimits, ns, gr)
  }

  /** Some applicable selector of the list answers `want` for the namespace. */
  predicate Answers(
    lib: Library, list: seq<MatchLimitSelector>, ns: Namespace, gr: GroupResource, public: bool, want: bool) {
    exists i :: 0 <= i < |list| && SelectorApplies(list[i], gr, public) && NamespaceMatched(lib, list[i], ns) == want
  }

  predicate RuleApplies(app: VirtualApp, subsets: seq<Subset>, gr: GroupResource, public: bool) {
    exists i :: 0 <= i < |subsets| && AnyApplies(SelectorsOf(app, subsets[i]), gr, public)
  }

  predicate AnyApplies(list: seq<MatchLimitSelector>, gr: GroupResource, public: bool) {
    exists i :: 0 <= i < |list| && SelectorApplies(list[i], gr, public)
  }

  function FirstSubset(
    lib: Library, app: VirtualApp, subsets: seq<Subset>, ns: Namespace, gr: GroupResource, public: bool)
    : Option<string>
  {
    if subsets == [] then None
    else if Answers(lib, SelectorsOf(app, subsets[0]), ns, gr, public, true) then Some(subsets[0].name)
    else FirstSubset(lib, app, subsets[1..], ns, gr, public)
  }

  /** Who owns an active namespace, by the lists of selectors that are compiled. */
  function OwnerByLists(lib: Library, app: VirtualApp, ns: Namespace, gr: GroupResource): Option<string> {
    var public := AppPublic(app, gr);
    var first := FirstSubset(lib, app, app.subsets, ns, gr, public);
    if GlobalFails(lib, app, ns, gr) then None
    else if first.Some? then first
    else if RuleApplies(app, app.subsets, gr, public) then Some("")
    else if public then Some(ALL_SUBSET_PUBLIC)
    else None
  }

  // ----- the two agree

  ghost predicate DistinctNames(nss: seq<Namespace>) {
    forall i, j :: 0 <= i < j < |nss| ==> nss[i].name != nss[j].name
  }

  lemma {:induction false} IncludeMember(
    lib: Library, limits: seq<MatchLimitSelector>, nss: seq<Namespace>, x: ProtoLimit)
    ensures x in IncludeRules(lib, limits, nss) <==>
      exists i :: 0 <= i < |limits| && x in IncludeRule(lib, limits[i], nss)
  {
    if limits == [] {
    } else {
      var n := |limits| - 1;
      IncludeMember(lib, limits[..n], nss, x);
      assert forall i :: 0 <= i < n ==> limits[..n][i] == limits[i];
    }
  }

  lemma NameListed(lib: Library, ms: MatchLimitSelector, nss: seq<Namespace>, k: nat, want: bool)
    requires k < |nss| && DistinctNames(nss)
    ensures nss[k].name in ToSet(NamesWhere(lib, ms, nss, want)) <==> NamespaceMatched(lib, ms, nss[k]) == want
  {
  }

  lemma ClaimsConcat(a: seq<ProtoLimit>, b: seq<ProtoLimit>, ns: string, gr: GroupResource, public: bool)
    ensures Claims(ConvertLimits(a + b), ns, gr, public) <==>
      Claims(ConvertLimits(a), ns, gr, public) || Claims(ConvertLimits(b), ns, gr, public)
    ensures NamesResource(ConvertLimits(a + b), gr) <==>
      NamesResource(ConvertLimits(a), gr) || NamesResource(ConvertLimits(b), gr)
  {
    var cs, ca, cb := ConvertLimits(a + b), ConvertLimits(a), ConvertLimits(b);
    assert forall i :: 0 <= i < |ca| ==> cs[i] == ca[i];
    assert forall i :: 0 <= i < |cb| ==> cs[|ca| + i] == cb[i];
    assert forall i :: |ca| <= i < |cs| ==> cs[i] == cb[i - |ca|];
  }

  function RuleFor(lib: Library, ms: MatchLimitSelector, nss: seq<Namespace>, want: bool): seq<ProtoLimit> {
    if want then IncludeRule(lib, ms, nss) else ExcludeRule(lib, ms, nss)
  }

  function RulesFor(lib: Library, list: seq<MatchLimitSelector>, nss: seq<Namespace>, want: bool): seq<ProtoLimit> {
    if want then IncludeRules(lib, list, nss) else ExcludeRules(lib, list, nss)
  }

  lemma OneRule(
    lib: Library, ms: MatchLimitSelector, nss: seq<Namespace>, k: nat, gr: GroupResource, public: bool, want: bool)
    requires k < |nss| && DistinctNames(nss)
    ensures Claims(ConvertLimits(RuleFor(lib, ms, nss, want)), nss[k].name, gr, public)
      <==> SelectorApplies(ms, gr, public) && NamespaceMatched(lib, ms, nss[k]) == want
  {
    var cs := ConvertLimits(RuleFor(lib, ms, nss, want));
    NameListed(lib, ms, nss, k, want);
    if SelectsNamespaces(ms) {
      assert SubsetApplies(cs[0], gr, public) <==> SelectorApplies(ms, gr, public);
    }
  }

  lemma AnswersLast(
    lib: Library, list: seq<MatchLimitSelector>, ns: Namespace, gr: GroupResource, public: bool, want: bool)
    requires list != []
    ensures Answers(lib, list, ns, gr, public, want)
      <==> (Answers(lib, list[..|list| - 1], ns, gr, public, want)
            || (SelectorApplies(list[|list| - 1], gr, public) && NamespaceMatched(lib, list[|list| - 1], ns) == want))
  {
  }

  /**
   * The include lists of a subset claim what some applicable selector accepts, the exclude lists what one turns away.
   */
  lemma {:induction false} RulesClaim(
    lib: Library, list: seq<MatchLimitSelector>, nss: seq<Namespace>, k: nat, gr: GroupResource, public: bool,
    want: bool)
    requires k < |nss| && DistinctNames(nss)
    ensures Claims(ConvertLimits(RulesFor(lib, list, nss, want)), nss[k].name, gr, public) <==>
      Answers(lib, list, nss[k], gr, public, want)
  {
    if list == [] {
    } else {
      var n := |list| - 1;
      RulesClaim(lib, list[..n], nss, k, gr, public, want);
      OneRule(lib, list[n], nss, k, gr, public, want);
      ClaimsConcat(RulesFor(lib, list[..n], nss, want), RuleFor(lib, list[n], nss, want), nss[k].name, gr, public);
      AnswersLast(lib, list, nss[k], gr, public, want);
    }
  }

  lemma GlobalAgrees(lib: Library, app: VirtualApp, nss: seq<Namespace>, k: nat, gr: GroupResource)
    requires k < |nss| && DistinctNames(nss)
    ensures GloballyAllowed(CompiledRoute(lib, app, nss), nss[k].name, gr) <==> !GlobalFails(lib, app, nss[k], gr)
  {
    if app.route.Some? {
      var list := app.route.value.globalLimits;
      var ps := IncludeRules(lib, list, nss);
      var cs := ConvertLimits(ps);
      if GlobalFails(lib, app, nss[k], gr) {
        var j :| 0 <= j < |list| && GlobalSelectorApplies(list[j], gr) && !NamespaceMatched(lib, list[j], nss[k]);
        var x := IncludeRule(lib, list[j], nss)[0];
        assert x in IncludeRule(lib, list[j], nss);
        IncludeMember(lib, list, nss, x);
        var i :| 0 <= i < |ps| && ps[i] == x;
        NameListed(lib, list[j], nss, k, true);
        assert GlobalApplies(cs[i], gr) && nss[k].name !in cs[i].namespaces;
      } else {
        forall i | 0 <= i < |cs| && GlobalApplies(cs[i], gr) ensures nss[k].name in cs[i].namespaces {
          assert ps[i] in ps;
          IncludeMember(lib, list, nss, ps[i]);
          var j :| 0 <= j < |list| && ps[i] in IncludeRule(lib, list[j], nss);
          assert GlobalSelectorApplies(list[j], gr);
          NameListed(lib, list[j], nss, k, true);
        }
      }
    }
  }

  predicate SomeTurnedAway(
    lib: Library, app: VirtualApp, subsets: seq<Subset>, ns: Namespace, gr: GroupResource, public: bool) {
    exists s :: 0 <= s < |subsets| && Answers(lib, SelectorsOf(app, subsets[s]), ns, gr, public, false)
  }

  lemma TurnedAwayLast(
    lib: Library, app: VirtualApp, subsets: seq<Subset>, ns: Namespace, gr: GroupResource, public: bool)
    requires subsets != []
    ensures SomeTurnedAway(lib, app, subsets, ns, gr, public)
      <==> (SomeTurnedAway(lib, app, subsets[..|subsets| - 1], ns, gr, public)
            || Answers(lib, SelectorsOf(app, subsets[|subsets| - 1]), ns, gr, public, false))
  {
  }

  /** The default subset's complements claim a namespace exactly when some applicable selector turned it away. */
  lemma {:induction false} DefaultClaims(
    lib: Library, app: VirtualApp, subsets: seq<Subset>, nss: seq<Namespace>, k: nat, gr: GroupResource, public: bool)
    requires k < |nss| && DistinctNames(nss)
    ensures Claims(ConvertLimits(ExcludeOfAll(lib, app, subsets, nss)), nss[k].name, gr, public)
      <==> SomeTurnedAway(lib, app, subsets, nss[k], gr, public)
  {
    if subsets == [] {
    } else {
      var n := |subsets| - 1;
      var list := SelectorsOf(app, subsets[n]);
      DefaultClaims(lib, app, subsets[..n], nss, k, gr, public);
      RulesClaim(lib, list, nss, k, gr, public, false);
      ClaimsConcat(ExcludeOfAll(lib, app, subsets[..n], nss), ExcludeRules(lib, list, nss), nss[k].name, gr, public);
      TurnedAwayLast(lib, app, subsets, nss[k], gr, public);
    }
  }

  function DeclaredPart(lib: Library, app: VirtualApp, subsets: seq<Subset>, nss: seq<Namespace>): seq<SubsetLimit> {
    ConvertSubsets(IncludeBySubset(lib, app, subsets, nss))
  }

  lemma DeclaredHead(lib: Library, app: VirtualApp, subsets: seq<Subset>, tail: SubsetLimit, nss: seq<Namespace>)
    requires subsets != []
    ensures
      var all := DeclaredPart(lib, app, subsets, nss) + [tail];
      && all[0] == SubsetLimit(subsets[0].name, ConvertLimits(IncludeRules(lib, SelectorsOf(app, subsets[0]), nss)))
      && all[1..] == DeclaredPart(lib, app, subsets[1..], nss) + [tail]
  {
    var ps, rest := IncludeBySubset(lib, app, subsets, nss), IncludeBySubset(lib, app, subsets[1..], nss);
    forall i | 0 <= i < |rest| ensures ps[1..][i] == rest[i] {
      assert subsets[1..][i] == subsets[i + 1];
    }
    assert ps[1..] == rest;
    assert ConvertSubsets(ps)[1..] == ConvertSubsets(rest);
  }

  lemma {:induction false} FirstClaimAgrees(
    lib: Library, app: VirtualApp, subsets: seq<Subset>, tail: SubsetLimit, nss: seq<Namespace>, k: nat,
    gr: GroupResource, public: bool)
    requires k < |nss| && DistinctNames(nss)
    ensures FirstClaim(DeclaredPart(lib, app, subsets, nss) + [tail], nss[k].name, gr, public)
      == var first := FirstSubset(lib, app, subsets, nss[k], gr, public);
         if first.Some? then first
         else if Claims(tail.limits, nss[k].name, gr, public) then Some(tail.subset)
         else None
  {
    var all := DeclaredPart(lib, app, subsets, nss) + [tail];
    if subsets == [] {
      assert all == [tail] && all[1..] == [];
    } else {
      RulesClaim(lib, SelectorsOf(app, subsets[0]), nss, k, gr, public, true);
      DeclaredHead(lib, app, subsets, tail, nss);
      FirstClaimAgrees(lib, app, subsets[1..], tail, nss, k, gr, public);
    }
  }

  lemma {:induction false} NoFirstMeansNoAnswer(
    lib: Library, app: VirtualApp, subsets: seq<Subset>, ns: Namespace, gr: GroupResource, public: bool, s: nat)
    requires FirstSubset(lib, app, subsets, ns, gr, public).None? && s < |subsets|
    ensures !Answers(lib, SelectorsOf(app, subsets[s]), ns, gr, public, true)
  {
    if s == 0 {
    } else {
      NoFirstMeansNoAnswer(lib, app, subsets[1..], ns, gr, public, s - 1);
    }
  }

  lemma TurnedAwayMeansApplies(
    lib: Library, list: seq<MatchLimitSelector>, ns: Namespace, gr: GroupResource, public: bool)
    requires !Answers(lib, list, ns, gr, public, true)
    ensures Answers(lib, list, ns, gr, public, false) <==> AnyApplies(list, gr, public)
  {
  }

  lemma {:induction false} RulesName(
    lib: Library, list: seq<MatchLimitSelector>, nss: seq<Namespace>, gr: GroupResource, public: bool, want: bool)
    requires NamesResource(ConvertLimits(RulesFor(lib, list, nss, want)), gr)
    ensures AnyApplies(list, gr, public)
  {
    if list == [] {
    } else {
      var n := |list| - 1;
      ClaimsConcat(RulesFor(lib, list[..n], nss, want), RuleFor(lib, list[n], nss, want), "", gr, public);
      if NamesResource(ConvertLimits(RulesFor(lib, list[..n], nss, want)), gr) {
        RulesName(lib, list[..n], nss, gr, public, want);
        assert forall i :: 0 <= i < n ==> list[..n][i] == list[i];
      } else {
        assert SelectorApplies(list[n], gr, public);
      }
    }
  }

  lemma {:induction false} DefaultNames(
    lib: Library, app: VirtualApp, subsets: seq<Subset>, nss: seq<Namespace>, gr: GroupResource, public: bool)
    requires NamesResource(ConvertLimits(ExcludeOfAll(lib, app, subsets, nss)), gr)
    ensures RuleApplies(app, subsets, gr, public)
  {
    if subsets == [] {
    } else {
      var n := |subsets| - 1;
      var list := SelectorsOf(app, subsets[n]);
      ClaimsConcat(ExcludeOfAll(lib, app, subsets[..n], nss), ExcludeRules(lib, list, nss), "", gr, public);
      if NamesResource(ConvertLimits(ExcludeRules(lib, list, nss)), gr) {
        RulesName(lib, list, nss, gr, public, false);
        assert AnyApplies(SelectorsOf(app, subsets[n]), gr, public);
      } else {
        DefaultNames(lib, app, subsets[..n], nss, gr, public);
        assert forall s :: 0 <= s < n ==> subsets[..n][s] == subsets[s];
      }
    }
  }

  /** Only selectors that name the resource, and so apply to it, count as naming it. */
  lemma NamedImpliesApplies(lib: Library, app: VirtualApp, nss: seq<Namespace>, gr: GroupResource, public: bool)
    requires NamedBySome(CompiledRoute(lib, app, nss).subsetLimits, gr)
    ensures RuleApplies(app, app.subsets, gr, public)
  {
    var sls := CompiledRoute(lib, app, nss).subsetLimits;
    var i :| 0 <= i < |sls| && NamesResource(sls[i].limits, gr);
    if i < |app.subsets| {
      RulesName(lib, SelectorsOf(app, app.subsets[i]), nss, gr, public, true);
      assert AnyApplies(SelectorsOf(app, app.subsets[i]), gr, public);
    } else {
      DefaultNames(lib, app, app.subsets, nss, gr, public);
    }
  }

  lemma CompilationByLists(lib: Library, app: VirtualApp, nss: seq<Namespace>, k: nat, gr: GroupResource)
    requires k < |nss| && DistinctNames(nss) && nss[k].name != ""
    ensures Determine(CompiledRoute(lib, app, nss), nss[k].name, gr) == OwnerByLists(lib, app, nss[k], gr)
  {
    var ns := nss[k];
    var body := CompiledRoute(lib, app, nss);
    var public := AppPublic(app, gr);
    var tail := SubsetLimit("", ConvertLimits(ExcludeOfAll(lib, app, app.subsets, nss)));
    assert body.subsetLimits == DeclaredPart(lib, app, app.subsets, nss) + [tail];
    assert GRMatched(gr, body.publicResources) == public;
    GlobalAgrees(lib, app, nss, k, gr);
    FirstClaimAgrees(lib, app, app.subsets, tail, nss, k, gr, public);
    DefaultClaims(lib, app, app.subsets, nss, k, gr, public);
    if FirstSubset(lib, app, app.subsets, ns, gr, public).None? {
      forall s | 0 <= s < |app.subsets|
        ensures Answers(lib, SelectorsOf(app, app.subsets[s]), ns, gr, public, false) <==>
          AnyApplies(SelectorsOf(app, app.subsets[s]), gr, public)
      {
        NoFirstMeansNoAnswer(lib, app, app.subsets, ns, gr, public, s);
        TurnedAwayMeansApplies(lib, SelectorsOf(app, app.subsets[s]), ns, gr, public);
      }
      if NamedBySome(body.subsetLimits, gr) { NamedImpliesApplies(lib, app, nss, gr, public); }
    }
  }

  // ----- the lists and the rules

  lemma ListsAgree(rs: seq<APIResources>, gr: GroupResource)
    ensures Lists(rs, gr) <==> GRMatched(gr, rs)
  {
    forall list, x ensures Covers(list, x) <==> ContainsString(x, list) { WildcardExactly(list); }
  }

  lemma SelectorAgrees(lib: Library, app: VirtualApp, ms: MatchLimitSelector, ns: Namespace, gr: GroupResource)
    ensures PublicResource(app, gr) == AppPublic(app, gr)
    ensures SelectorApplies(ms, gr, AppPublic(app, gr)) <==> Concerns(app, ms, gr)
    ensures SelectsNamespaces(ms) ==> (NamespaceMatched(lib, ms, ns) <==> Accepts(lib, ms, ns))
    ensures GlobalSelectorApplies(ms, gr) <==> Applicable(ms, gr)
  {
    if app.route.Some? { ListsAgree(app.route.value.publicResources, gr); }
    if ms.resources.Some? { ListsAgree(ms.resources.value, gr); }
  }

  lemma BarredAgrees(lib: Library, app: VirtualApp, ns: Namespace, gr: GroupResource)
    ensures GlobalFails(lib, app, ns, gr) <==> Barred(lib, app, ns, gr)
  {
    forall ms { SelectorAgrees(lib, app, ms, ns, gr); }
  }

  lemma TakesAgrees(lib: Library, app: VirtualApp, s: Subset, ns: Namespace, gr: GroupResource)
    ensures Answers(lib, SelectorsOf(app, s), ns, gr, AppPublic(app, gr), true) <==> Takes(lib, app, s, ns, gr)
    ensures AnyApplies(SelectorsOf(app, s), gr, AppPublic(app, gr)) <==> Ruled(app, s, gr)
  {
    forall ms
      ensures ms in SelectorsOf(app, s) <==> Governs(app, s, ms)
      ensures SelectorApplies(ms, gr, AppPublic(app, gr)) <==> Concerns(app, ms, gr)
      ensures SelectsNamespaces(ms) ==> (NamespaceMatched(lib, ms, ns) <==> Accepts(lib, ms, ns))
    {
      SelectorsExactly(app, s, ms);
      SelectorAgrees(lib, app, ms, ns, gr);
    }
  }

  lemma {:induction false} FirstAgrees(
    lib: Library, app: VirtualApp, n: nat, ns: Namespace, gr: GroupResource)
    requires n <= |app.subsets| && forall j :: 0 <= j < n ==> !Takes(lib, app, app.subsets[j], ns, gr)
    ensures
      var first := FirstSubset(lib, app, app.subsets[n..], ns, gr, AppPublic(app, gr));
      if first.Some? then exists i: nat :: FirstToTake(lib, app, i, ns, gr) && first.value == app.subsets[i].name
      else forall i: nat :: !FirstToTake(lib, app, i, ns, gr)
    decreases |app.subsets| - n
  {
    if n == |app.subsets| {
    } else {
      TakesAgrees(lib, app, app.subsets[n], ns, gr);
      assert app.subsets[n..][0] == app.subsets[n] && app.subsets[n..][1..] == app.subsets[n + 1..];
      if Takes(lib, app, app.subsets[n], ns, gr) {
        assert FirstToTake(lib, app, n, ns, gr);
      } else {
        FirstAgrees(lib, app, n + 1, ns, gr);
      }
    }
  }

  lemma RuledAgrees(app: VirtualApp, gr: GroupResource)
    ensures RuleApplies(app, app.subsets, gr, AppPublic(app, gr)) <==>
      exists s :: s in app.subsets && Ruled(app, s, gr)
  {
    var lib := Library(x => true, x => true, (x, y) => true);
    forall s ensures AnyApplies(SelectorsOf(app, s), gr, AppPublic(app, gr)) <==> Ruled(app, s, gr) {
      TakesAgrees(lib, app, s, Namespace("", map[], false), gr);
    }
  }

  lemma ListsMean(lib: Library, app: VirtualApp, ns: Namespace, gr: GroupResource)
    ensures Owns(lib, app, ns, gr, OwnerByLists(lib, app, ns, gr))
  {
    BarredAgrees(lib, app, ns, gr);
    FirstAgrees(lib, app, 0, ns, gr);
    assert app.subsets[0..] == app.subsets;
    RuledAgrees(app, gr);
    SelectorAgrees(lib, app, MatchLimitSelector(None, None, None, None), ns, gr);
  }

  /** Compiling and then evaluating a route answers what the VirtualApp says, for every active namespace. */
  lemma CompilationPreservesMeaning(lib: Library, app: VirtualApp, nss: seq<Namespace>, k: nat, gr: GroupResource)
    requires k < |nss| && DistinctNames(nss) && nss[k].name != ""
    ensures Owns(lib, app, nss[k], gr, Determine(CompiledRoute(lib, app, nss), nss[k].name, gr))
  {
    CompilationByLists(lib, app, nss, k, gr);
    ListsMean(lib, app, nss[k], gr);
  }

  /** There is only one such owner. */
  lemma OwnerIsUnique(
    lib: Library, app: VirtualApp, ns: Namespace, gr: GroupResource, a: Option<string>, b: Option<string>)
    requires Owns(lib, app, ns, gr, a) && Owns(lib, app, ns, gr, b)
    ensures a == b
  {
    if i: nat, j: nat :| FirstToTake(lib, app, i, ns, gr) && FirstToTake(lib, app, j, ns, gr) && i < j {
      assert false;
    }
  }

  // ----- user agents and objects

  /** Under the compiled route exactly the user agents kept for the default subset are turned away, everywhere else. */
  lemma AgentsPreserved(lib: Library, app: VirtualApp, nss: seq<Namespace>, spec: Spec, ua: string)
    requires spec.body == CompiledRoute(lib, app, nss)
    ensures !UserAgentMatch(spec, ua) <==>
      app.route.Some? && ua in app.route.value.defaultOnlyUserAgents && spec.subset != ""
  {
    AgentsExactly(spec, ua);
  }

  /** The limits hold this object selector for the resource. */
  ghost predicate HoldsObjects(limits: seq<Limit>, gr: GroupResource, x: LabelSelector) {
    exists i :: 0 <= i < |limits| && ObjectApplies(limits[i], gr) && limits[i].objectSelector == Some(x)
  }

  predicate AsksForObjects(ms: MatchLimitSelector, gr: GroupResource, x: LabelSelector) {
    && !AboutNamespaces(ms) && ms.objectSelector == Some(x)
    && (NamesResources(ms) ==> Lists(ms.resources.value, gr))
  }

  lemma ObjectLimitsPreserved(
    lib: Library, list: seq<MatchLimitSelector>, nss: seq<Namespace>, gr: GroupResource, x: LabelSelector)
    ensures HoldsObjects(ConvertLimits(IncludeRules(lib, list, nss)), gr, x) <==>
      exists ms :: ms in list && AsksForObjects(ms, gr, x)
  {
    var ps := IncludeRules(lib, list, nss);
    var cs := ConvertLimits(ps);
    if HoldsObjects(cs, gr, x) {
      var i :| 0 <= i < |cs| && ObjectApplies(cs[i], gr) && cs[i].objectSelector == Some(x);
      IncludeMember(lib, list, nss, ps[i]);
      var j :| 0 <= j < |list| && ps[i] in IncludeRule(lib, list[j], nss);
      if list[j].resources.Some? { ListsAgree(list[j].resources.value, gr); }
      assert list[j] in list && AsksForObjects(list[j], gr, x);
    }
    if ms :| ms in list && AsksForObjects(ms, gr, x) {
      var j :| 0 <= j < |list| && list[j] == ms;
      var p := ProtoLimit([], ms.objectSelector, ResourcesOf(ms));
      assert p in IncludeRule(lib, list[j], nss);
      IncludeMember(lib, list, nss, p);
      var i :| 0 <= i < |ps| && ps[i] == p;
      if ms.resources.Some? { ListsAgree(ms.resources.value, gr); }
      assert ObjectApplies(cs[i], gr);
    }
  }

  /** The compiled route confines each subset to the objects its rules ask for, and everybody to the global ones. */
  lemma ObjectsPreserved(
    lib: Library, app: VirtualApp, nss: seq<Namespace>, gr: GroupResource, i: nat, x: LabelSelector)
    requires i <= |app.subsets|
    ensures
      var sls := CompiledRoute(lib, app, nss).subsetLimits;
      && |sls| == |app.subsets| + 1
      && (HoldsObjects(sls[i].limits, gr, x) <==>
            i < |app.subsets| && exists ms :: Governs(app, app.subsets[i], ms) && AsksForObjects(ms, gr, x))
    ensures HoldsObjects(CompiledRoute(lib, app, nss).globalLimits, gr, x) <==>
      app.route.Some? && exists ms :: ms in app.route.value.globalLimits && AsksForObjects(ms, gr, x)
  {
    if app.route.Some? { ObjectLimitsPreserved(lib, app.route.value.globalLimits, nss, gr, x); }
    if i < |app.subsets| {
      ObjectLimitsPreserved(lib, SelectorsOf(app, app.subsets[i]), nss, gr, x);
      forall ms ensures ms in SelectorsOf(app, app.subsets[i]) <==> Governs(app, app.subsets[i], ms) {
        SelectorsExactly(app, app.subsets[i], ms);
      }
    } else {
      ComplementsHoldNoObjects(lib, app, app.subsets, nss, gr, x);
    }
  }

  lemma {:induction false} ComplementsHoldNoObjects(
    lib: Library, app: VirtualApp, subsets: seq<Subset>, nss: seq<Namespace>, gr: GroupResource, x: LabelSelector)
    ensures forall p :: p in ExcludeOfAll(lib, app, subsets, nss) ==> p.objectSelector.None?
  {
    if subsets == [] {
    } else {
      var n := |subsets| - 1;
      ComplementsHoldNoObjects(lib, app, subsets[..n], nss, gr, x);
      ExcludesHoldNoObjects(lib, SelectorsOf(app, subsets[n]), nss);
    }
  }

  lemma {:induction false} ExcludesHoldNoObjects(lib: Library, list: seq<MatchLimitSelector>, nss: seq<Namespace>)
    ensures forall p :: p in ExcludeRules(lib, list, nss) ==> p.objectSelector.None?
  {
    if list == [] {
    } else {
      ExcludesHoldNoObjects(lib, list[..|list| - 1], nss);
    }
  }
}
