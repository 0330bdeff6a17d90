/** The object selector of a subset, merged into the label selector a client asked for. */
module Injection {
  import opened Text
  import opened Selectors
  import opened Routes
  import opened ObjectScopes
  import opened RawQuery

  const LABEL_SELECTOR := "labelSelector"

  /** The selector a client asked for, if its query has one; outer None when query or selector cannot be parsed. */
  function ClientSelector(raw: string, parse: string -> Option<LabelSelector>): Option<Option<LabelSelector>> {
    var params := Parse(raw);
    if params.None? then None
    else if LABEL_SELECTOR !in params.value then Some(None)
    else
      var sel := parse(params.value[LABEL_SELECTOR]);
      if sel.None? then None else Some(sel)
  }

  /** The compiled selector lets exactly those labels through. */
  ghost predicate Asks(c: Compiled, sel: Option<LabelSelector>) {
    forall l: Labels :: CompiledMatches(c, l) <==> Passes(sel, l)
  }

  /**
   * What the API server is asked for: the client's own labels win over the subset's, and every other parameter stays.
   * `parse` reads a selector from its escaped text and `render` writes one; what is written can be read back out of the
   * query if and only if it is escaped.
   */
  method InjectSelector(
    raw: string, sel: LabelSelector, parse: string -> Option<LabelSelector>, render: Compiled -> string)
    returns (query: Option<string>)
    ensures
      var client := ClientSelector(raw, parse);
      query.None? <==> client.None? || !KnownOps(Merge(Some(sel), client.value).value.matchExpressions)
    ensures query.Some? ==> exists c: Compiled ::
      && Asks(c, Merge(Some(sel), ClientSelector(raw, parse).value))
      && (Parse(query.value) == Some(Parse(raw).value[LABEL_SELECTOR := render(c)]) <==> CleanText(render(c)))
  {
    var params, ok := ParseRawQuery(raw);
    if !ok { return None; }
    var client: Option<LabelSelector> := None;
    if LABEL_SELECTOR in params {
      client := parse(params[LABEL_SELECTOR]);
      if client.None? { return None; }
    }
    var merged := MergeLabelSelector(Some(sel), client);
    var c := ValidatedLabelSelectorAsSelector(merged);
    if c.BadOperator? { return None; }
    assert Asks(c, merged);
    var text := Rewrite(raw, params, render(c));
    query := Some(text);
  }

  method Rewrite(raw: string, params: map<string, string>, selector: string) returns (query: string)
    requires Parse(raw) == Some(params)
    ensures Parse(query) == Some(params[LABEL_SELECTOR := selector]) <==> CleanText(selector)
  {
    query := MarshalRawQuery(params[LABEL_SELECTOR := selector]);
    ParseGivesClean(raw);
    assert CleanText(selector) ==> Clean(params[LABEL_SELECTOR := selector]);
    assert Clean(params[LABEL_SELECTOR := selector]) ==> CleanText(params[LABEL_SELECTOR := selector][LABEL_SELECTOR]);
  }

  /** The client does not ask for another value of a label that the subset's selector fixes. */
  predicate Compatible(sel: Option<LabelSelector>, client: Option<LabelSelector>) {
    sel.Some? && client.Some? ==> AgreeOnShared(sel.value, client.value)
  }

  /** An object in the answer belongs to the subset if and only if the client's query is compatible. */
  lemma AnswerStaysInSubset(sel: Option<LabelSelector>, client: Option<LabelSelector>, l: Labels)
    requires Passes(Merge(sel, client), l)
    ensures Passes(sel, l) <==> Compatible(sel, client)
  {
    if sel.Some? && client.Some? {
      MergeConjunctionExact(sel.value, client.value, l);
      MergeImplies(sel, client, l);
    }
  }

  /** Compatible queries of an earlier and a later subset never get the same object. */
  lemma QueriesIsolated(body: RouteBody, gr: GroupResource, a: nat, later: string, l: Labels,
                        clientA: Option<LabelSelector>, clientB: Option<LabelSelector>)
    requires a < |body.subsetLimits| && NotAmong(body.subsetLimits[..a], body.subsetLimits[a].subset)
    requires NotAmong(body.subsetLimits[..a + 1], later) && SaysSomething(body.subsetLimits[a].limits, gr)
    requires Compatible(ObjectSelector(body, body.subsetLimits[a].subset, gr), clientA)
    requires Compatible(ObjectSelector(body, later, gr), clientB)
    ensures !(Passes(Merge(ObjectSelector(body, body.subsetLimits[a].subset, gr), clientA), l)
              && Passes(Merge(ObjectSelector(body, later, gr), clientB), l))
  {
    var selA, selB := ObjectSelector(body, body.subsetLimits[a].subset, gr), ObjectSelector(body, later, gr);
    if Passes(Merge(selA, clientA), l) && Passes(Merge(selB, clientB), l) {
      AnswerStaysInSubset(selA, clientA, l);
      AnswerStaysInSubset(selB, clientB, l);
      ObjectIsolation(body, gr, a, later, l);
      assert false;
    }
  }

  const CANARIES := LabelSelector(map["tier" := "canary"], [])
  const STABLE := LabelSelector(map["tier" := "stable"], [])
  const TIERS := RouteBody([], [SubsetLimit("a", [Limit({}, Some(CANARIES), [])]), SubsetLimit("", [])], [], {})

  /** Without that, subset "a" asking for stable objects gets those of the default subset. */
  lemma IncompatibleQueryLeaks(gr: GroupResource, l: Labels)
    requires l == map["tier" := "stable"]
    ensures !Compatible(ObjectSelector(TIERS, "a", gr), Some(STABLE))
    ensures Passes(Merge(ObjectSelector(TIERS, "a", gr), Some(STABLE)), l)
    ensures Passes(ObjectSelector(TIERS, "", gr), l)
  {
    OwnAndDefault(gr);
    assert "tier" in CANARIES.matchLabels && "tier" in STABLE.matchLabels;
    assert !Matches(CANARIES, l);
    NegateSingleComplements(CANARIES, l);
  }

  lemma OwnAndDefault(gr: GroupResource)
    ensures ObjectSelector(TIERS, "a", gr) == Some(CANARIES)
    ensures ObjectSelector(TIERS, "", gr) == Some(Negate(CANARIES))
  {
    var sls := TIERS.subsetLimits;
    var limits := sls[0].limits;
    assert limits[..0] == [] && ObjectApplies(limits[0], gr);
    assert FoldLimits(limits, gr, true, None) == Some(CANARIES);
    assert FoldLimits(limits, gr, false, None) == Some(Negate(CANARIES));
    assert sls[1..] == [sls[1]] && [sls[1]][1..] == [];
    assert FoldLimits(sls[1].limits, gr, true, Some(Negate(CANARIES))) == Some(Negate(CANARIES));
    assert FoldSubsets(sls[1..], gr, "", Some(Negate(CANARIES))) == Some(Negate(CANARIES));
  }
}
