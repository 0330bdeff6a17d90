/** Admission of a VirtualApp, and what an admitted one guarantees about its compiled route. */
module Validation {
  import opened Text
  import opened Selectors
  import opened Routes
  import opened ObjectScopes
  import opened RouteCompiler
  import opened AppMeaning

  /** A nil configuration is dereferenced, which panics. */
  datatype Verdict = Accepted | Rejected | Panicked

  predicate ExactlyOneSelector(m: MatchLimitSelector) {
    (m.namespaceSelector.Some? && m.namespaceRegex.None? && m.objectSelector.None?)
    || (m.namespaceSelector.None? && m.namespaceRegex.Some? && m.objectSelector.None?)
    || (m.namespaceSelector.None? && m.namespaceRegex.None? && m.objectSelector.Some?)
  }

  predicate LimitOK(lib: Library, m: MatchLimitSelector) {
    ExactlyOneSelector(m)
    && (m.namespaceSelector.Some? ==> lib.parses(m.namespaceSelector.value))
    && (m.namespaceRegex.Some? ==> lib.compiles(m.namespaceRegex.value))
    && (m.objectSelector.Some? ==> lib.parses(m.objectSelector.value) && m.resources.Some?)
  }

  method ValidateMatchLimitSelector(lib: Library, m: MatchLimitSelector) returns (ok: bool)
    ensures ok <==> LimitOK(lib, m)
  {
    if m.namespaceSelector.Some? {
      if !lib.parses(m.namespaceSelector.value) { return false; }
    } else if m.namespaceRegex.Some? {
      if !lib.compiles(m.namespaceRegex.value) { return false; }
    } else if m.objectSelector.Some? {
      if !lib.parses(m.objectSelector.value) { return false; }
    } else {
      return false;
    }
    if (m.namespaceSelector.Some? && m.namespaceRegex.Some?) || (m.objectSelector.Some? && m.namespaceRegex.Some?)
       || (m.namespaceSelector.Some? && m.objectSelector.Some?) {
      return false;
    }
    if m.objectSelector.Some? && m.resources.None? { return false; }
    return true;
  }

  predicate LimitsOK(lib: Library, ms: seq<MatchLimitSelector>) {
    forall i :: 0 <= i < |ms| ==> LimitOK(lib, ms[i])
  }

  method ValidateLimits(lib: Library, ms: seq<MatchLimitSelector>) returns (ok: bool)
    ensures ok <==> LimitsOK(lib, ms)
  {
    for i := 0 to |ms|
      invariant forall k :: 0 <= k < i ==> LimitOK(lib, ms[k])
    {
      var good := ValidateMatchLimitSelector(lib, ms[i]);
      if !good { return false; }
    }
    return true;
  }

  predicate NoDuplicates(names: seq<string>) {
    forall i, j :: 0 <= i < j < |names| ==> names[i] != names[j]
  }

  function RuleNames(rules: seq<SubRule>): seq<string> { seq(|rules|, i requires 0 <= i < |rules| => rules[i].name) }

  predicate RulesOK(lib: Library, rules: seq<SubRule>) {
    NoDuplicates(RuleNames(rules))
    && forall i :: 0 <= i < |rules| ==> rules[i].name != "" && rules[i].matches != [] && LimitsOK(lib, rules[i].matches)
  }

  method ValidateRules(lib: Library, rules: seq<SubRule>) returns (ok: bool, names: set<string>)
    ensures ok <==> RulesOK(lib, rules)
    ensures ok ==> names == ToSet(RuleNames(rules))
  {
    names := {};
    for i := 0 to |rules|
      invariant RulesOK(lib, rules[..i]) && names == ToSet(RuleNames(rules[..i]))
    {
      var r := rules[i];
      ghost var before, all := RuleNames(rules[..i]), RuleNames(rules);
      assert forall k :: 0 <= k < i ==> before[k] == all[k];
      assert all[i] == r.name;
      if r.name == "" { return false, names; }
      if r.name in names {
        ghost var k :| 0 <= k < i && before[k] == r.name;
        assert all[k] == all[i];
        return false, names;
      }
      if |r.matches| == 0 { return false, names; }
      var good := ValidateLimits(lib, r.matches);
      if !good { return false, names; }
      assert RuleNames(rules[..i + 1]) == before + [r.name];
      assert forall k :: 0 <= k < i ==> rules[..i + 1][k] == rules[..i][k];
      assert rules[..i + 1][i] == r;
      names := names + {r.name};
    }
    assert rules[..|rules|] == rules;
    ok := true;
  }

  function SubsetNames(subsets: seq<Subset>): seq<string> {
    seq(|subsets|, i requires 0 <= i < |subsets| => subsets[i].name)
  }

  function UsedRules(subsets: seq<Subset>): seq<string> {
    if subsets == [] then [] else UsedRules(subsets[..|subsets| - 1]) + subsets[|subsets| - 1].routeRules
  }

  predicate AllIn(names: seq<string>, known: set<string>) { forall i :: 0 <= i < |names| ==> names[i] in known }

  predicate SubsetOK(s: Subset, rules: set<string>) {
    s.name != "" && s.labels != map[] && s.routeRules != [] && AllIn(s.routeRules, rules)
  }

  predicate SubsetsOK(subsets: seq<Subset>, rules: set<string>) {
    NoDuplicates(SubsetNames(subsets)) && NoDuplicates(UsedRules(subsets))
    && forall i :: 0 <= i < |subsets| ==> SubsetOK(subsets[i], rules)
  }

  lemma DuplicateStays(a: seq<string>, b: seq<string>)
    ensures NoDuplicates(a + b) ==> NoDuplicates(a)
  {
    assert forall i :: 0 <= i < |a| ==> (a + b)[i] == a[i];
  }

  lemma {:induction false} UsedPrefix(subsets: seq<Subset>, n: nat)
    requires n <= |subsets| && NoDuplicates(UsedRules(subsets))
    ensures NoDuplicates(UsedRules(subsets[..n]))
    decreases |subsets|
  {
    if n == |subsets| {
      assert subsets[..n] == subsets;
    } else {
      var m := |subsets| - 1;
      DuplicateStays(UsedRules(subsets[..m]), subsets[m].routeRules);
      UsedPrefix(subsets[..m], n);
      assert subsets[..m][..n] == subsets[..n];
    }
  }

  /** Adds one subset's rules to the used ones; fails on an unknown rule or one already taken. */
  method UseRules(
    names: seq<string>, rules: set<string>, ghost usedList: seq<string>, used: set<string>)
    returns (ok: bool, used': set<string>)
    requires NoDuplicates(usedList) && used == ToSet(usedList)
    ensures ok <==> AllIn(names, rules) && NoDuplicates(usedList + names)
    ensures ok ==> used' == ToSet(usedList + names)
  {
    used' := used;
    assert usedList + names[..0] == usedList;
    for j := 0 to |names|
      invariant AllIn(names[..j], rules) && NoDuplicates(usedList + names[..j]) && used' == ToSet(usedList + names[..j])
    {
      ghost var now, all := usedList + names[..j], usedList + names;
      assert forall k :: 0 <= k < |now| ==> now[k] == all[k];
      assert all[|now|] == names[j];
      if names[j] !in rules { return false, used'; }
      if names[j] in used' {
        ghost var k :| 0 <= k < |now| && now[k] == names[j];
        assert all[k] == all[|now|];
        return false, used';
      }
      assert usedList + names[..j + 1] == now + [names[j]];
      used' := used' + {names[j]};
    }
    assert names[..|names|] == names;
    ok := true;
  }

  lemma NamesStep(subsets: seq<Subset>, i: nat)
    requires i < |subsets|
    ensures SubsetNames(subsets[..i + 1]) == SubsetNames(subsets[..i]) + [subsets[i].name]
    ensures subsets[i].name in ToSet(SubsetNames(subsets[..i])) ==> !NoDuplicates(SubsetNames(subsets))
  {
    var before, all := SubsetNames(subsets[..i]), SubsetNames(subsets);
    assert forall k :: 0 <= k < i ==> before[k] == all[k];
    if subsets[i].name in ToSet(before) {
      var k :| 0 <= k < i && before[k] == subsets[i].name;
      assert all[k] == all[i];
    }
  }

  method ValidateSubsets(subsets: seq<Subset>, rules: set<string>) returns (ok: bool)
    ensures ok <==> SubsetsOK(subsets, rules)
  {
    var names: set<string>, used: set<string> := {}, {};
    for i := 0 to |subsets|
      invariant SubsetsOK(subsets[..i], rules)
      invariant names == ToSet(SubsetNames(subsets[..i])) && used == ToSet(UsedRules(subsets[..i]))
    {
      var s := subsets[i];
      assert subsets[..i + 1][..i] == subsets[..i];
      NamesStep(subsets, i);
      if s.name == "" { return false; }
      if s.name in names { return false; }
      names := names + {s.name};
      if |s.labels| == 0 {
        assert s.labels.Keys == {} && s.labels == map[];
        return false;
      }
      if |s.routeRules| == 0 { return false; }
      var good;
      good, used := UseRules(s.routeRules, rules, UsedRules(subsets[..i]), used);
      if !good {
        if NoDuplicates(UsedRules(subsets)) { UsedPrefix(subsets, i + 1); }
        return false;
      }
    }
    assert subsets[..|subsets|] == subsets;
    return true;
  }

  predicate SelectorOK(lib: Library, app: VirtualApp) {
    app.selector.Some? && lib.parses(app.selector.value) && HasRequirement(app.selector.value)
  }

  predicate ConfigurationOK(c: Configuration, subsets: seq<Subset>) {
    (subsets != [] ==> c.leaderElectionName.Some? || c.webhook.Some?)
    && (c.leaderElectionName.Some? ==> c.leaderElectionName.value != "")
    && (c.webhook.Some? ==> c.webhook.value.certDir != "" && c.webhook.value.port > 0)
  }

  predicate RouteOK(lib: Library, app: VirtualApp) {
    app.route.Some? ==> LimitsOK(lib, app.route.value.globalLimits) && RulesOK(lib, app.route.value.subRules)
  }

  function KnownRules(app: VirtualApp): set<string> {
    if app.route.None? then {} else ToSet(RuleNames(app.route.value.subRules))
  }

  predicate WellFormed(lib: Library, app: VirtualApp) {
    SelectorOK(lib, app) && app.configuration.Some? && ConfigurationOK(app.configuration.value, app.subsets)
    && RouteOK(lib, app) && SubsetsOK(app.subsets, KnownRules(app))
  }

  /**
   * Accepts exactly the well-formed VirtualApps; panics exactly when a usable selector comes without a configuration.
   */
  method Validate(lib: Library, app: VirtualApp) returns (v: Verdict)
    ensures v.Accepted? <==> WellFormed(lib, app)
    ensures v.Panicked? <==> SelectorOK(lib, app) && app.configuration.None?
  {
    if app.selector.None? || !lib.parses(app.selector.value) || !HasRequirement(app.selector.value) { return Rejected; }
    if app.configuration.None? { return Panicked; }
    var c := app.configuration.value;
    if |app.subsets| > 0 && c.leaderElectionName.None? && c.webhook.None? { return Rejected; }
    if c.leaderElectionName.Some? && c.leaderElectionName.value == "" { return Rejected; }
    if c.webhook.Some? {
      if c.webhook.value.certDir == "" { return Rejected; }
      if c.webhook.value.port <= 0 { return Rejected; }
    }
    var rules: set<string> := {};
    if app.route.Some? {
      var good := ValidateLimits(lib, app.route.value.globalLimits);
      if !good { return Rejected; }
      good, rules := ValidateRules(lib, app.route.value.subRules);
      if !good { return Rejected; }
    }
    var good := ValidateSubsets(app.subsets, rules);
    if !good { return Rejected; }
    return Accepted;
  }

  // ----- what admission buys

  /** Every rule of an admitted VirtualApp is in force: no later one takes its name. */
  lemma RulesInForce(lib: Library, rules: seq<SubRule>, k: nat)
    requires RulesOK(lib, rules) && k < |rules|
    ensures InForce(rules, k)
  {
    var names := RuleNames(rules);
    assert forall i :: 0 <= i < |rules| ==> names[i] == rules[i].name;
  }

  /** So a subset of an admitted VirtualApp gets the selectors of all the rules it names, and no others. */
  lemma AdmittedSelectors(lib: Library, app: VirtualApp, s: Subset, ms: MatchLimitSelector)
    requires WellFormed(lib, app)
    ensures ms in SelectorsOf(app, s) <==>
      app.route.Some? && exists r :: r in app.route.value.subRules && r.name in s.routeRules && ms in r.matches
  {
    SelectorsExactly(app, s, ms);
    if app.route.Some? {
      var rules := app.route.value.subRules;
      forall k | 0 <= k < |rules| ensures InForce(rules, k) { RulesInForce(lib, rules, k); }
      if r :| r in rules && r.name in s.routeRules && ms in r.matches {
        var k :| 0 <= k < |rules| && rules[k] == r;
        assert RuleHolds(rules, s, ms, k);
      }
    }
  }

  /** The compiled route lists each admitted subset once, under its own name, and the default subset last. */
  lemma AdmittedSubsets(lib: Library, app: VirtualApp, nss: seq<Namespace>)
    requires WellFormed(lib, app)
    ensures var sls := CompiledRoute(lib, app, nss).subsetLimits;
      && |sls| == |app.subsets| + 1 && sls[|app.subsets|].subset == ""
      && (forall i :: 0 <= i < |app.subsets| ==> sls[i].subset == app.subsets[i].name)
      && (forall i, j :: 0 <= i < j < |sls| ==> sls[i].subset != sls[j].subset)
  {
    var names := SubsetNames(app.subsets);
    assert forall i :: 0 <= i < |app.subsets| ==> names[i] == app.subsets[i].name && names[i] != "";
  }

  /**
   * Object isolation, stated on an admitted VirtualApp: an earlier subset whose rules ask for any objects in particular
   * shares no object with any later one.
   */
  lemma AdmittedObjectIsolation(
    lib: Library, app: VirtualApp, nss: seq<Namespace>, gr: GroupResource, a: nat, b: nat, ms: MatchLimitSelector,
    x: LabelSelector, l: Labels)
    requires WellFormed(lib, app) && a < |app.subsets| && a < b <= |app.subsets|
    requires Governs(app, app.subsets[a], ms) && AsksForObjects(ms, gr, x) && HasRequirement(x)
    ensures var body := CompiledRoute(lib, app, nss);
      !(Passes(ObjectSelector(body, app.subsets[a].name, gr), l)
        && Passes(ObjectSelector(body, if b == |app.subsets| then "" else app.subsets[b].name, gr), l))
  {
    var body := CompiledRoute(lib, app, nss);
    AdmittedSubsets(lib, app, nss);
    AdmittedApart(lib, app, nss, a, b);
    ObjectsPreserved(lib, app, nss, gr, a, x);
    HoldingSays(body.subsetLimits[a].limits, gr, x);
    ObjectIsolation(body, gr, a, body.subsetLimits[b].subset, l);
  }

  lemma AdmittedApart(lib: Library, app: VirtualApp, nss: seq<Namespace>, a: nat, b: nat)
    requires WellFormed(lib, app) && a < |app.subsets| && a < b <= |app.subsets|
    ensures
      var sls := CompiledRoute(lib, app, nss).subsetLimits;
      b < |sls| && NotAmong(sls[..a], sls[a].subset) && NotAmong(sls[..a + 1], sls[b].subset)
  {
    AdmittedSubsets(lib, app, nss);
  }

  lemma HoldingSays(limits: seq<Limit>, gr: GroupResource, x: LabelSelector)
    requires HoldsObjects(limits, gr, x) && HasRequirement(x)
    ensures SaysSomething(limits, gr)
  {
  }

  /** A name outside the active namespaces belongs to no single subset, whatever the VirtualApp says. */
  lemma UnknownNamespaceUnowned(lib: Library, app: VirtualApp, nss: seq<Namespace>, name: string, gr: GroupResource)
    requires name != "" && forall i :: 0 <= i < |nss| ==> nss[i].name != name
    ensures Determine(CompiledRoute(lib, app, nss), name, gr) in {None, Some(ALL_SUBSET_PUBLIC)}
  {
    var body := CompiledRoute(lib, app, nss);
    var public := GRMatched(gr, body.publicResources);
    forall s | 0 <= s < |body.subsetLimits| ensures !Claims(body.subsetLimits[s].limits, name, gr, public) {
      if s < |app.subsets| { UnknownUnclaimed(lib, SelectorsOf(app, app.subsets[s]), nss, name, gr, public, true); }
      else { UnknownUnclaimedByDefault(lib, app, app.subsets, nss, name, gr, public); }
    }
    UnclaimedHasNoFirst(body.subsetLimits, name, gr, public);
  }

  lemma OneRuleUnclaimed(
    lib: Library, ms: MatchLimitSelector, nss: seq<Namespace>, name: string, gr: GroupResource, public: bool,
    want: bool)
    requires forall i :: 0 <= i < |nss| ==> nss[i].name != name
    ensures !Claims(ConvertLimits(RuleFor(lib, ms, nss, want)), name, gr, public)
  {
  }

  lemma {:induction false} UnknownUnclaimed(
    lib: Library, list: seq<MatchLimitSelector>, nss: seq<Namespace>, name: string, gr: GroupResource, public: bool,
    want: bool)
    requires forall i :: 0 <= i < |nss| ==> nss[i].name != name
    ensures !Claims(ConvertLimits(RulesFor(lib, list, nss, want)), name, gr, public)
  {
    if list == [] {
    } else {
      var n := |list| - 1;
      UnknownUnclaimed(lib, list[..n], nss, name, gr, public, want);
      OneRuleUnclaimed(lib, list[n], nss, name, gr, public, want);
      ClaimsConcat(RulesFor(lib, list[..n], nss, want), RuleFor(lib, list[n], nss, want), name, gr, public);
    }
  }

  lemma {:induction false} UnknownUnclaimedByDefault(
    lib: Library, app: VirtualApp, subsets: seq<Subset>, nss: seq<Namespace>, name: string, gr: GroupResource,
    public: bool)
    requires forall i :: 0 <= i < |nss| ==> nss[i].name != name
    ensures !Claims(ConvertLimits(ExcludeOfAll(lib, app, subsets, nss)), name, gr, public)
  {
    if subsets == [] {
    } else {
      var n := |subsets| - 1;
      var list := SelectorsOf(app, subsets[n]);
      UnknownUnclaimedByDefault(lib, app, subsets[..n], nss, name, gr, public);
      UnknownUnclaimed(lib, list, nss, name, gr, public, false);
      ClaimsConcat(ExcludeOfAll(lib, app, subsets[..n], nss), ExcludeRules(lib, list, nss), name, gr, public);
    }
  }

  lemma {:induction false} UnclaimedHasNoFirst(sls: seq<SubsetLimit>, ns: string, gr: GroupResource, public: bool)
    requires forall s :: 0 <= s < |sls| ==> !Claims(sls[s].limits, ns, gr, public)
    ensures FirstClaim(sls, ns, gr, public).None?
  {
    if sls == [] {
    } else {
      UnclaimedHasNoFirst(sls[1..], ns, gr, public);
    }
  }
}
