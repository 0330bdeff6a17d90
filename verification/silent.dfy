/** Requests for single objects let namespaces through without a record; how far that sets the subsets apart. */
module SilentVerdicts {
  import opened Text
  import opened Routes
  import opened History
  import opened SpecManagers

  // ----- reachable proxies

  ghost predicate Reached(B: string -> Content, s: State) {
    exists run :: Run(B, run) && run[|run| - 1] == s
  }

  lemma ReachedFresh(B: string -> Content)
    ensures Reached(B, FRESH)
  {
    assert Run(B, [FRESH]);
  }

  lemma ReachedNext(B: string -> Content, s: State, s': State, step: Step)
    requires Reached(B, s) && NextStep(B, s, s', step)
    ensures Reached(B, s')
  {
    var run :| Run(B, run) && run[|run| - 1] == s;
    assert Run(B, run + [s']);
  }

  lemma ReachedInv(B: string -> Content, s: State)
    requires Reached(B, s)
    ensures Inv(B, s)
  {
    var run :| Run(B, run) && run[|run| - 1] == s;
    RunKeepsInv(B, run, |run| - 1);
  }

  /** A proxy between requests and updates. */
  predicate AtRest(s: State) { !s.updating && s.readers == map[] && s.current.Some? && s.expected == s.current }

  function Running(s: State, spec: Spec): State { s.(current := Some(spec), expected := Some(spec), refusal := None) }

  lemma Loads(B: string -> Content, s: State, spec: Spec)
    requires Reached(B, s) && !s.updating && s.readers == map[]
    requires WellHashed(B, spec) && Loadable(s.current, spec, s.pack)
    ensures Reached(B, Running(s, spec))
  {
    var mid := s.(expected := Some(spec), updating := true, refusal := None);
    ReachedNext(B, s, mid, WriteExpected(spec));
    ReachedNext(B, mid, Running(s, spec), LoadExpected(VAppChanged));
  }

  lemma PassesObject(B: string -> Content, s: State, ns: string, gr: GroupResource)
    requires Reached(B, s) && AtRest(s) && Plain(gr) && NamespaceMatch(s.current.value, ns, gr)
    ensures Reached(B, s.(silent := s.silent + {(gr, ns)}))
  {
    var held := s.(readers := map[0 := Reader(s.current, Blank(gr))]);
    var passed := held.(silent := s.silent + {(gr, ns)});
    ReachedNext(B, s, held, Acquire(0, gr));
    ReachedNext(B, held, passed, PassSilently(0, ns));
    assert passed.readers - {0} == map[];
    ReachedNext(B, passed, s.(silent := s.silent + {(gr, ns)}), Release(0, false));
  }

  // ----- against what the others let through by their current spec

  /** Every namespace let through for a resource, on record or not. */
  function Acted(s: State, gr: GroupResource): set<string> {
    Passed(s.pack, gr) + set p | p in s.silent && p.0 == gr :: p.1
  }

  /** Those of them that it would let through now: all on record, and more. */
  function Still(s: State, gr: GroupResource): set<string>
    requires s.current.Some?
  {
    set ns | ns in Acted(s, gr) && NamespaceMatch(s.current.value, ns, gr)
  }

  lemma RecordMatches(B: string -> Content, s: State, gr: GroupResource, ns: string)
    requires Inv(B, s) && Plain(gr) && !gr.Empty() && ns in Passed(s.pack, gr)
    ensures s.current.Some? && NamespaceMatch(s.current.value, ns, gr)
  {
    KeyInjective(gr, s.pack.byGR[gr.Key()].gr);
  }

  lemma RecordsStill(B: string -> Content, s: State, gr: GroupResource)
    requires Inv(B, s) && s.current.Some? && Plain(gr) && !gr.Empty()
    ensures Passed(s.pack, gr) <= Still(s, gr) <= Acted(s, gr)
  {
    forall ns | ns in Passed(s.pack, gr) ensures ns in Still(s, gr) { RecordMatches(B, s, gr, ns); }
  }

  predicate OwnedElsewhere(spec: Spec, ns: string, gr: GroupResource) {
    Determine(spec.body, ns, gr) !in {None, Some(spec.subset), Some(ALL_SUBSET_PUBLIC)}
  }

  /** Another proxy of another subset that has come to run the same hash. */
  ghost predicate Twin(B: string -> Content, s: State, t: State)
    requires s.current.Some?
  {
    && Reached(B, t) && t.current.Some?
    && t.current.value.hash == s.current.value.hash && t.current.value.subset != s.current.value.subset
  }

  /**
   * What a proxy let through, recorded or not, is apart from what any proxy of another subset on its hash let through
   * and still would, if and only if no namespace that it let through without a record belongs to another subset now.
   */
  lemma SilentIsolationExactly(B: string -> Content, s: State, gr: GroupResource)
    requires Inv(B, s) && s.current.Some? && Plain(gr) && !gr.Empty() && NoSubsetNamedPublic(s.current.value.body)
    requires !GRMatched(gr, s.current.value.body.publicResources) || NamedBySome(s.current.value.body.subsetLimits, gr)
    ensures (forall t :: Twin(B, s, t) ==> Acted(s, gr) !! Still(t, gr))
      <==> (forall ns :: (gr, ns) in s.silent ==> !OwnedElsewhere(s.current.value, ns, gr))
  {
    if ns :| (gr, ns) in s.silent && OwnedElsewhere(s.current.value, ns, gr) {
      var t := OwnerOf(B, s.current.value, ns, gr);
      assert Twin(B, s, t) && (gr, ns).1 in Acted(s, gr) && ns in Still(t, gr);
    } else {
      forall t | Twin(B, s, t) ensures Acted(s, gr) !! Still(t, gr) {
        SilentApart(B, s, t, gr);
      }
    }
  }

  lemma OwnerOf(B: string -> Content, spec: Spec, ns: string, gr: GroupResource) returns (t: State)
    requires WellHashed(B, spec) && OwnedElsewhere(spec, ns, gr) && Plain(gr)
    ensures Reached(B, t) && t.current.Some?
    ensures t.current.value.hash == spec.hash && t.current.value.subset != spec.subset
    ensures ns in Passed(t.pack, gr) && ns in Still(t, gr)
  {
    var owner := spec.(subset := Determine(spec.body, ns, gr).value);
    ReachedFresh(B);
    Loads(B, FRESH, owner);
    t := RecordsNamespace(B, Running(FRESH, owner), ns, gr);
  }

  lemma RecordsNamespace(B: string -> Content, s: State, ns: string, gr: GroupResource) returns (t: State)
    requires Reached(B, s) && AtRest(s) && Plain(gr) && NamespaceMatch(s.current.value, ns, gr)
    ensures Reached(B, t) && t == s.(pack := t.pack) && ns in Passed(t.pack, gr)
  {
    var held := s.(readers := map[0 := Reader(s.current, Blank(gr))]);
    var rr := Judge(s.current.value, Blank(gr), ns);
    var judged := held.(readers := map[0 := Reader(s.current, rr)]);
    t := s.(pack := Added(s.pack, Some(rr)));
    ReachedNext(B, s, held, Acquire(0, gr));
    assert held.readers[0 := Reader(s.current, rr)] == judged.readers;
    ReachedNext(B, held, judged, DecideNamespace(0, ns));
    assert judged.readers - {0} == map[];
    ReachedNext(B, judged, t, Release(0, true));
    ReachedInv(B, s);
    AddedExactly(s.pack, rr, gr);
  }

  lemma SilentApart(B: string -> Content, s: State, t: State, gr: GroupResource)
    requires Inv(B, s) && s.current.Some? && Twin(B, s, t) && Plain(gr) && !gr.Empty()
    requires NoSubsetNamedPublic(s.current.value.body)
    requires !GRMatched(gr, s.current.value.body.publicResources) || NamedBySome(s.current.value.body.subsetLimits, gr)
    requires forall ns :: (gr, ns) in s.silent ==> !OwnedElsewhere(s.current.value, ns, gr)
    ensures Acted(s, gr) !! Still(t, gr)
  {
    ReachedInv(B, t);
    var c, d := s.current.value, t.current.value;
    forall ns | ns in Acted(s, gr) ensures !NamespaceMatch(d, ns, gr) {
      FirstClaimIsDeclared(c.body.subsetLimits, ns, gr, GRMatched(gr, c.body.publicResources));
      if ns in Passed(s.pack, gr) {
        RecordMatches(B, s, gr, ns);
      } else {
        assert (gr, ns) in s.silent;
      }
    }
  }

  // ----- against all that the others ever let through

  function SpecAt(B: string -> Content, h: string, subset: string): Spec {
    Spec("", h, subset, B(h).body, B(h).endpoints)
  }

  /** Some hash lets the subset have the namespace. */
  ghost predicate EverOwned(B: string -> Content, subset: string, ns: string, gr: GroupResource) {
    exists h :: NamespaceMatch(SpecAt(B, h, subset), ns, gr)
  }

  /** Everything let through without a record was the subset's under some hash. */
  ghost predicate Backed(B: string -> Content, s: State) {
    && (s.silent != {} ==> s.current.Some?)
    && forall p :: p in s.silent ==> EverOwned(B, s.current.value.subset, p.1, p.0)
  }

  lemma StepKeepsBacked(B: string -> Content, s: State, s': State)
    requires Inv(B, s) && Backed(B, s) && Next(B, s, s')
    ensures Backed(B, s')
  {
    var step :| NextStep(B, s, s', step);
    StepMonotone(B, s, s');
    if step.PassSilently? {
      assert ReaderConsistent(s.current, s.readers[step.id]);
      var c, gr := s.current.value, s.readers[step.id].rr.gr;
      assert NamespaceMatch(SpecAt(B, c.hash, c.subset), step.ns, gr);
    }
  }

  lemma {:induction false} RunBacked(B: string -> Content, run: seq<State>, i: nat)
    requires Run(B, run) && i < |run|
    ensures Backed(B, run[i])
  {
    if i == 0 {
    } else {
      RunBacked(B, run, i - 1);
      RunKeepsInv(B, run, i - 1);
      StepKeepsBacked(B, run[i - 1], run[i - 1 + 1]);
    }
  }

  lemma ActedWasOwned(B: string -> Content, t: State, gr: GroupResource, ns: string)
    requires Reached(B, t) && Plain(gr) && !gr.Empty() && ns in Acted(t, gr)
    ensures t.current.Some? && EverOwned(B, t.current.value.subset, ns, gr)
  {
    var run :| Run(B, run) && run[|run| - 1] == t;
    RunBacked(B, run, |run| - 1);
    ReachedInv(B, t);
    if ns in Passed(t.pack, gr) {
      RecordMatches(B, t, gr, ns);
      var c := t.current.value;
      assert NamespaceMatch(SpecAt(B, c.hash, c.subset), ns, gr);
    } else {
      assert (gr, ns) in t.silent;
    }
  }

  /** A proxy that let the namespace through under hash `h`, without a record, and runs `spec` now. */
  lemma FormerOwner(B: string -> Content, h: string, spec: Spec, ns: string, gr: GroupResource) returns (t: State)
    requires WellHashed(B, spec) && Plain(gr) && NamespaceMatch(SpecAt(B, h, spec.subset), ns, gr)
    ensures Reached(B, t) && t.current == Some(spec) && ns in Acted(t, gr)
  {
    var first := SpecAt(B, h, spec.subset).(vApp := spec.vApp);
    ReachedFresh(B);
    Loads(B, FRESH, first);
    var s := Running(FRESH, first);
    PassesObject(B, s, ns, gr);
    s := s.(silent := {(gr, ns)});
    Loads(B, s, spec);
    t := Running(s, spec);
    assert (gr, ns).1 in Acted(t, gr);
  }

  /**
   * What a proxy let through is apart from all that any proxy of another subset on its hash ever let through, if and
   * only if no hash gives any of those namespaces to another subset.
   */
  lemma ActedApartExactly(B: string -> Content, s: State, gr: GroupResource)
    requires Inv(B, s) && s.current.Some? && Plain(gr) && !gr.Empty()
    ensures (forall t :: Twin(B, s, t) ==> Acted(s, gr) !! Acted(t, gr))
      <==> (forall ns, x :: ns in Acted(s, gr) && x != s.current.value.subset ==> !EverOwned(B, x, ns, gr))
  {
    var c := s.current.value;
    if ns, x :| ns in Acted(s, gr) && x != c.subset && EverOwned(B, x, ns, gr) {
      var h :| NamespaceMatch(SpecAt(B, h, x), ns, gr);
      var t := FormerOwner(B, h, c.(subset := x), ns, gr);
      assert Twin(B, s, t);
    } else {
      forall t | Twin(B, s, t) ensures Acted(s, gr) !! Acted(t, gr) {
        forall ns | ns in Acted(t, gr) ensures ns !in Acted(s, gr) { ActedWasOwned(B, t, gr, ns); }
      }
    }
  }

  // ----- a route that changes hands

  const PODS := GroupResource("", "pods")

  /** A route that gives namespace "n" to one subset. */
  function Giving(subset: string): RouteBody {
    RouteBody([], [SubsetLimit(subset, [Limit({"n"}, None, [])])], [], {})
  }

  lemma GivenOwner(owner: string)
    ensures Determine(Giving(owner), "n", PODS) == Some(owner)
  {
    var limits := Giving(owner).subsetLimits[0].limits;
    assert SubsetApplies(limits[0], PODS, false);
    assert Claims(limits, "n", PODS, false);
  }

  /**
   * A proxy of subset "a" lets "n" through for a single object and then loads a hash that gives "n" to "b": it and a
   * proxy of subset "b" on that hash have both let "n" through, the second on record.
   */
  lemma SilentOverlap(B: string -> Content) returns (s: State, t: State)
    requires B("h1") == Content(Giving("a"), []) && B("h2") == Content(Giving("b"), [])
    ensures Reached(B, s) && s.current.Some? && Twin(B, s, t)
    ensures "n" in Acted(s, PODS) && "n" in Passed(t.pack, PODS) && "n" in Still(t, PODS)
  {
    GivenOwner("a");
    GivenOwner("b");
    var two := Spec("app", "h2", "a", Giving("b"), []);
    s := FormerOwner(B, "h1", two, "n", PODS);
    t := OwnerOf(B, two, "n", PODS);
  }
}
