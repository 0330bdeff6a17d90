/** Compiling a VirtualApp and the active namespaces into the route that is sent to proxies. */
module RouteCompiler {
  import opened Text
  import opened Selectors
  import opened Routes

  datatype MatchLimitSelector = MatchLimitSelector(
    namespaceSelector: Option<LabelSelector>, objectSelector: Option<LabelSelector>,
    namespaceRegex: Option<string>, resources: Option<seq<APIResources>>)

  datatype SubRule = SubRule(name: string, matches: seq<MatchLimitSelector>)

  datatype AppRoute = AppRoute(
    globalLimits: seq<MatchLimitSelector>, subRules: seq<SubRule>,
    publicResources: seq<APIResources>, defaultOnlyUserAgents: seq<string>)

  datatype Subset = Subset(name: string, labels: Labels, routeRules: seq<string>)

  datatype Webhook = Webhook(certDir: string, port: int)

  datatype Configuration = Configuration(leaderElectionName: Option<string>, webhook: Option<Webhook>)

  datatype VirtualApp = VirtualApp(
    selector: Option<LabelSelector>, configuration: Option<Configuration>, route: Option<AppRoute>,
    subsets: seq<Subset>)

  datatype Namespace = Namespace(name: string, labels: Labels, terminating: bool)

  /** Library checks the code calls out to: selector syntax, regular expressions. */
  datatype Library = Library(
    parses: LabelSelector -> bool, compiles: string -> bool, regexMatch: (string, string) -> bool)

  // ----- what goes over the wire

  datatype ProtoLimit = ProtoLimit(
    namespaces: seq<string>, objectSelector: Option<LabelSelector>, resources: seq<APIResources>)

  datatype ProtoSubsetLimit = ProtoSubsetLimit(subset: string, limits: seq<ProtoLimit>)

  datatype ProtoRoute = ProtoRoute(
    globalLimits: seq<ProtoLimit>, subsetLimits: seq<ProtoSubsetLimit>,
    publicResources: seq<APIResources>, defaultOnlyUserAgents: seq<string>)

  predicate SelectsNamespaces(ms: MatchLimitSelector) {
    ms.namespaceSelector.Some? || ms.namespaceRegex.Some?
  }

  predicate SelectsObjects(ms: MatchLimitSelector) {
    !SelectsNamespaces(ms) && ms.objectSelector.Some?
  }

  function ResourcesOf(ms: MatchLimitSelector): seq<APIResources> {
    if ms.resources.None? then [] else ms.resources.value
  }

  predicate NamespaceMatched(lib: Library, ms: MatchLimitSelector, ns: Namespace) {
    if ms.namespaceSelector.Some? then Matches(ms.namespaceSelector.value, ns.labels)
    else
      && ms.namespaceRegex.Some? && lib.compiles(ms.namespaceRegex.value)
      && lib.regexMatch(ms.namespaceRegex.value, ns.name)
  }

  function NamesWhere(lib: Library, ms: MatchLimitSelector, nss: seq<Namespace>, want: bool): (names: seq<string>)
    ensures forall x :: x in names <==>
      exists i :: 0 <= i < |nss| && nss[i].name == x && NamespaceMatched(lib, ms, nss[i]) == want
  {
    if nss == [] then []
    else
      var n := |nss| - 1;
      var rest := NamesWhere(lib, ms, nss[..n], want);
      if NamespaceMatched(lib, ms, nss[n]) == want then rest + [nss[n].name] else rest
  }

  function IncludeRule(lib: Library, ms: MatchLimitSelector, nss: seq<Namespace>): seq<ProtoLimit> {
    if SelectsNamespaces(ms) then [ProtoLimit(NamesWhere(lib, ms, nss, true), None, ResourcesOf(ms))]
    else if SelectsObjects(ms) then [ProtoLimit([], ms.objectSelector, ResourcesOf(ms))]
    else []
  }

  function ExcludeRule(lib: Library, ms: MatchLimitSelector, nss: seq<Namespace>): seq<ProtoLimit> {
    if SelectsNamespaces(ms) then [ProtoLimit(NamesWhere(lib, ms, nss, false), None, ResourcesOf(ms))] else []
  }

  function IncludeRules(lib: Library, limits: seq<MatchLimitSelector>, nss: seq<Namespace>): seq<ProtoLimit> {
    if limits == [] then []
    else IncludeRules(lib, limits[..|limits| - 1], nss) + IncludeRule(lib, limits[|limits| - 1], nss)
  }

  function ExcludeRules(lib: Library, limits: seq<MatchLimitSelector>, nss: seq<Namespace>): seq<ProtoLimit> {
    if limits == [] then []
    else ExcludeRules(lib, limits[..|limits| - 1], nss) + ExcludeRule(lib, limits[|limits| - 1], nss)
  }

  method GenerateMatchLimitRules(lib: Library, limits: seq<MatchLimitSelector>, nss: seq<Namespace>)
    returns (included: seq<ProtoLimit>, excluded: seq<ProtoLimit>)
    ensures included == IncludeRules(lib, limits, nss) && excluded == ExcludeRules(lib, limits, nss)
  {
    included, excluded := [], [];
    for k := 0 to |limits|
      invariant included == IncludeRules(lib, limits[..k], nss) && excluded == ExcludeRules(lib, limits[..k], nss)
    {
      var ms := limits[k];
      assert limits[..k + 1][..k] == limits[..k];
      if SelectsNamespaces(ms) {
        var matched: seq<string>, unmatched: seq<string> := [], [];
        for i := 0 to |nss|
          invariant matched == NamesWhere(lib, ms, nss[..i], true) && unmatched == NamesWhere(lib, ms, nss[..i], false)
        {
          assert nss[..i + 1][..i] == nss[..i];
          if NamespaceMatched(lib, ms, nss[i]) { matched := matched + [nss[i].name]; }
          else { unmatched := unmatched + [nss[i].name]; }
        }
        assert nss[..|nss|] == nss;
        included := included + [ProtoLimit(matched, None, ResourcesOf(ms))];
        excluded := excluded + [ProtoLimit(unmatched, None, ResourcesOf(ms))];
      } else if ms.objectSelector.Some? {
        included := included + [ProtoLimit([], ms.objectSelector, ResourcesOf(ms))];
      }
    }
    assert limits[..|limits|] == limits;
  }

  type RuleMap = map<string, seq<MatchLimitSelector>>

  function RulesByName(rules: seq<SubRule>): RuleMap {
    if rules == [] then map[]
    else RulesByName(rules[..|rules| - 1])[rules[|rules| - 1].name := rules[|rules| - 1].matches]
  }

  function Gather(rm: RuleMap, names: seq<string>): seq<MatchLimitSelector> {
    if names == [] then []
    else
      var n := names[|names| - 1];
      Gather(rm, names[..|names| - 1]) + (if n in rm then rm[n] else [])
  }

  function AppRules(app: VirtualApp): RuleMap {
    if app.route.None? then map[] else RulesByName(app.route.value.subRules)
  }

  /** The match selectors a declared subset ends up with. */
  function SelectorsOf(app: VirtualApp, s: Subset): seq<MatchLimitSelector> {
    Gather(AppRules(app), s.routeRules)
  }

  function IncludeBySubset(
    lib: Library, app: VirtualApp, subsets: seq<Subset>, nss: seq<Namespace>): (r: seq<ProtoSubsetLimit>)
    ensures |r| == |subsets|
    ensures forall i :: 0 <= i < |subsets| ==>
      r[i] == ProtoSubsetLimit(subsets[i].name, IncludeRules(lib, SelectorsOf(app, subsets[i]), nss))
  {
    if subsets == [] then []
    else
      var s := subsets[|subsets| - 1];
      IncludeBySubset(lib, app, subsets[..|subsets| - 1], nss) +
        [ProtoSubsetLimit(s.name, IncludeRules(lib, SelectorsOf(app, s), nss))]
  }

  function ExcludeOfAll(lib: Library, app: VirtualApp, subsets: seq<Subset>, nss: seq<Namespace>): seq<ProtoLimit> {
    if subsets == [] then []
    else
      ExcludeOfAll(lib, app, subsets[..|subsets| - 1], nss)
      + ExcludeRules(lib, SelectorsOf(app, subsets[|subsets| - 1]), nss)
  }

  /** The declared subsets in order, then the default subset holding every complement. */
  function ProtoOf(lib: Library, app: VirtualApp, nss: seq<Namespace>): ProtoRoute {
    var r := if app.route.None? then AppRoute([], [], [], []) else app.route.value;
    ProtoRoute(
      IncludeRules(lib, r.globalLimits, nss),
      IncludeBySubset(lib, app, app.subsets, nss) + [ProtoSubsetLimit("", ExcludeOfAll(lib, app, app.subsets, nss))],
      r.publicResources, r.defaultOnlyUserAgents)
  }

  method GenerateProtoRoute(lib: Library, app: VirtualApp, nss: seq<Namespace>) returns (p: ProtoRoute)
    ensures p == ProtoOf(lib, app, nss)
  {
    p := ProtoRoute([], [], [], []);
    if app.route.Some? {
      var limits, _ := GenerateMatchLimitRules(lib, app.route.value.globalLimits, nss);
      p := ProtoRoute(limits, [], app.route.value.publicResources, app.route.value.defaultOnlyUserAgents);
    }
    var rules := if app.route.Some? then app.route.value.subRules else [];
    var rulesMap := IndexRules(rules);
    var sls, excludes := GenerateSubsetLimits(lib, app, rulesMap, nss);
    p := p.(subsetLimits := sls + [ProtoSubsetLimit("", excludes)]);
  }

  method IndexRules(rules: seq<SubRule>) returns (rulesMap: RuleMap)
    ensures rulesMap == RulesByName(rules)
  {
    rulesMap := map[];
    for i := 0 to |rules|
      invariant rulesMap == RulesByName(rules[..i])
    {
      assert rules[..i + 1][..i] == rules[..i];
      rulesMap := rulesMap[rules[i].name := rules[i].matches];
    }
    assert rules[..|rules|] == rules;
  }

  method GenerateSubsetLimits(lib: Library, app: VirtualApp, rulesMap: RuleMap, nss: seq<Namespace>)
    returns (sls: seq<ProtoSubsetLimit>, excludes: seq<ProtoLimit>)
    requires rulesMap == RulesByName(if app.route.Some? then app.route.value.subRules else [])
    ensures sls == IncludeBySubset(lib, app, app.subsets, nss) && excludes == ExcludeOfAll(lib, app, app.subsets, nss)
  {
    excludes, sls := [], [];
    for i := 0 to |app.subsets|
      invariant sls == IncludeBySubset(lib, app, app.subsets[..i], nss)
      invariant excludes == ExcludeOfAll(lib, app, app.subsets[..i], nss)
    {
      var s := app.subsets[i];
      SubsetStep(lib, app, nss, i);
      var gathered := GatherSelectors(rulesMap, s.routeRules);
      var included, excluded := GenerateMatchLimitRules(lib, gathered, nss);
      excludes := excludes + excluded;
      sls := sls + [ProtoSubsetLimit(s.name, included)];
    }
    assert app.subsets[..|app.subsets|] == app.subsets;
  }

  lemma SubsetStep(lib: Library, app: VirtualApp, nss: seq<Namespace>, i: nat)
    requires i < |app.subsets|
    ensures
      var s := app.subsets[i];
      && IncludeBySubset(lib, app, app.subsets[..i + 1], nss)
         == IncludeBySubset(lib, app, app.subsets[..i], nss)
            + [ProtoSubsetLimit(s.name, IncludeRules(lib, SelectorsOf(app, s), nss))]
      && ExcludeOfAll(lib, app, app.subsets[..i + 1], nss)
         == ExcludeOfAll(lib, app, app.subsets[..i], nss) + ExcludeRules(lib, SelectorsOf(app, s), nss)
  {
    assert app.subsets[..i + 1][..i] == app.subsets[..i];
  }

  method GatherSelectors(rm: RuleMap, names: seq<string>) returns (r: seq<MatchLimitSelector>)
    ensures r == Gather(rm, names)
  {
    r := [];
    for i := 0 to |names|
      invariant r == Gather(rm, names[..i])
    {
      assert names[..i + 1][..i] == names[..i];
      r := r + if names[i] in rm then rm[names[i]] else [];
    }
    assert names[..|names|] == names;
  }

  // ----- what the proxy makes of it

  function ToSet(s: seq<string>): set<string> { set x | x in s }

  function ConvertLimit(p: ProtoLimit): Limit {
    if p.objectSelector.Some? then Limit({}, p.objectSelector, p.resources)
    else Limit(ToSet(p.namespaces), None, p.resources)
  }

  function ConvertLimits(ps: seq<ProtoLimit>): seq<Limit> { seq(|ps|, i requires 0 <= i < |ps| => ConvertLimit(ps[i])) }

  function ConvertSubsets(ps: seq<ProtoSubsetLimit>): seq<SubsetLimit> {
    seq(|ps|, i requires 0 <= i < |ps| => SubsetLimit(ps[i].subset, ConvertLimits(ps[i].limits)))
  }

  function Convert(p: ProtoRoute): RouteBody {
    RouteBody(ConvertLimits(p.globalLimits), ConvertSubsets(p.subsetLimits), p.publicResources,
      ToSet(p.defaultOnlyUserAgents))
  }

  method ConvertProtoMatchLimitRules(ps: seq<ProtoLimit>) returns (r: seq<Limit>)
    ensures r == ConvertLimits(ps)
  {
    r := [];
    for i := 0 to |ps|
      invariant |r| == i && forall k :: 0 <= k < i ==> r[k] == ConvertLimit(ps[k])
    {
      if ps[i].objectSelector.Some? { r := r + [Limit({}, ps[i].objectSelector, ps[i].resources)]; }
      else { r := r + [Limit(ToSet(ps[i].namespaces), None, ps[i].resources)]; }
    }
  }

  method ConvertProtoRoute(p: ProtoRoute) returns (body: RouteBody)
    ensures body == Convert(p)
  {
    var globals := ConvertProtoMatchLimitRules(p.globalLimits);
    var sls: seq<SubsetLimit> := [];
    for i := 0 to |p.subsetLimits|
      invariant |sls| == i
      invariant forall k :: 0 <= k < i ==>
        sls[k] == SubsetLimit(p.subsetLimits[k].subset, ConvertLimits(p.subsetLimits[k].limits))
    {
      var limits := ConvertProtoMatchLimitRules(p.subsetLimits[i].limits);
      sls := sls + [SubsetLimit(p.subsetLimits[i].subset, limits)];
    }
    assert sls == ConvertSubsets(p.subsetLimits);
    body := RouteBody(globals, sls, p.publicResources, ToSet(p.defaultOnlyUserAgents));
  }

  function CompiledRoute(lib: Library, app: VirtualApp, nss: seq<Namespace>): RouteBody {
    Convert(ProtoOf(lib, app, nss))
  }
}
