/** From a decision to the record and to every later spec: what requests decide is recorded, and nothing else is. */
module Verdicts {
  import opened Text
  import opened Selectors
  import opened Routes
  import opened History
  import opened SpecManagers

  /** What a request can ask: may this user agent pass, does this namespace belong here. */
  datatype Question = Agent(ua: string) | Place(gr: GroupResource, ns: string)

  predicate Answer(spec: Spec, q: Question) {
    match q
    case Agent(ua) => UserAgentMatch(spec, ua)
    case Place(gr, ns) => NamespaceMatch(spec, ns, gr)
  }

  /** Resources are named as Kubernetes names them. */
  predicate Proper(q: Question) { q.Place? ==> Plain(q.gr) }

  predicate Noted(rr: Record, q: Question, pass: bool) {
    match q
    case Agent(ua) => (if pass then rr.uaPassed else rr.uaDenied) == Some(ua)
    case Place(gr, ns) => rr.gr == gr && ns in if pass then rr.nsPassed else rr.nsDenied
  }

  predicate OnRecord(p: Pack, q: Question, pass: bool) {
    match q
    case Agent(ua) => ua in if pass then p.uaPassed else p.uaDenied
    case Place(gr, ns) => ns in if pass then Passed(p, gr) else Denied(p, gr)
  }

  /** Request `id` asks the question under the spec it holds. */
  ghost predicate Decides(B: string -> Content, s: State, s': State, id: nat, q: Question) {
    match q
    case Agent(ua) => NextStep(B, s, s', DecideUserAgent(id, ua))
    case Place(gr, ns) => NextStep(B, s, s', DecideNamespace(id, ns)) && s.readers[id].rr.gr == gr
  }

  /** Request `id` ends and leaves its record. */
  ghost predicate Records(B: string -> Content, s: State, s': State, id: nat) {
    NextStep(B, s, s', Release(id, true))
  }

  // ----- one user agent per request

  predicate OneAgent(rr: Record) { rr.uaPassed.None? || rr.uaDenied.None? }

  /** The user agents inside the records per resource are among those of the two sets. */
  predicate AgentsListed(p: Pack) {
    forall k :: k in p.byGR ==>
      && (p.byGR[k].uaPassed.Some? ==> p.byGR[k].uaPassed.value in p.uaPassed)
      && (p.byGR[k].uaDenied.Some? ==> p.byGR[k].uaDenied.value in p.uaDenied)
  }

  ghost predicate AgentsOK(s: State) {
    AgentsListed(s.pack) && forall id :: id in s.readers ==> OneAgent(s.readers[id].rr)
  }

  lemma AddedListsAgents(p: Pack, req: Record)
    requires AgentsListed(p) && OneAgent(req)
    ensures AgentsListed(Added(p, Some(req)))
  {
  }

  lemma StepKeepsAgents(B: string -> Content, s: State, s': State)
    requires AgentsOK(s) && Next(B, s, s')
    ensures AgentsOK(s')
  {
    var step :| NextStep(B, s, s', step);
    if step.Release? && step.record { AddedListsAgents(s.pack, s.readers[step.id].rr); }
  }

  lemma {:induction false} RunKeepsAgents(B: string -> Content, run: seq<State>, i: nat)
    requires Run(B, run) && i < |run|
    ensures AgentsOK(run[i])
  {
    if i == 0 {
    } else {
      RunKeepsAgents(B, run, i - 1);
      StepKeepsAgents(B, run[i - 1], run[i - 1 + 1]);
    }
  }

  // ----- what is decided is recorded

  lemma DecisionIsNoted(B: string -> Content, s: State, s': State, id: nat, q: Question)
    requires Decides(B, s, s', id, q)
    ensures id in s.readers && s.readers[id].spec.Some? && id in s'.readers
    ensures Noted(s'.readers[id].rr, q, Answer(s.readers[id].spec.value, q))
  {
  }

  lemma NoteStays(B: string -> Content, s: State, s': State, id: nat, q: Question, pass: bool)
    requires Next(B, s, s') && id in s.readers && id in s'.readers && Noted(s.readers[id].rr, q, pass)
    ensures Noted(s'.readers[id].rr, q, pass)
  {
  }

  /** The request is still at work. */
  predicate Held(run: seq<State>, id: nat, i: nat, j: nat) {
    j < |run| && forall m: nat :: i < m <= j ==> id in run[m].readers
  }

  lemma NoteStaysAt(B: string -> Content, run: seq<State>, m: nat, id: nat, q: Question, pass: bool)
    requires Run(B, run) && m + 1 < |run| && id in run[m].readers && id in run[m + 1].readers
    requires Noted(run[m].readers[id].rr, q, pass)
    ensures Noted(run[m + 1].readers[id].rr, q, pass)
  {
    NoteStays(B, run[m], run[m + 1], id, q, pass);
  }

  lemma {:induction false} NoteLasts(
    B: string -> Content, run: seq<State>, i: nat, j: nat, id: nat, q: Question, pass: bool)
    requires Run(B, run) && i <= j < |run| && forall m: nat :: i <= m <= j ==> id in run[m].readers
    requires Noted(run[i].readers[id].rr, q, pass)
    ensures Noted(run[j].readers[id].rr, q, pass)
    decreases j - i
  {
    if i == j {
    } else {
      NoteStaysAt(B, run, i, id, q, pass);
      NoteLasts(B, run, i + 1, j, id, q, pass);
    }
  }

  lemma NoteIsRecorded(B: string -> Content, s: State, s': State, id: nat, q: Question, pass: bool)
    requires Inv(B, s) && AgentsOK(s) && Records(B, s, s', id) && Noted(s.readers[id].rr, q, pass)
    ensures OnRecord(s'.pack, q, pass)
  {
    var rr := s.readers[id].rr;
    assert ReaderConsistent(s.current, s.readers[id]);
    AddedExactly(s.pack, rr, rr.gr);
  }

  lemma RecordGrowsOn(p: Pack, p': Pack, q: Question, pass: bool)
    requires Grows(p, p') && OnRecord(p, q, pass)
    ensures OnRecord(p', q, pass)
  {
  }

  lemma RecordedSince(B: string -> Content, run: seq<State>, j: nat, k: nat, id: nat, q: Question, pass: bool)
    requires Run(B, run) && j < k < |run| && id in run[j].readers && Records(B, run[j], run[j + 1], id)
    requires Noted(run[j].readers[id].rr, q, pass)
    ensures OnRecord(run[k].pack, q, pass)
  {
    RunKeepsInv(B, run, j);
    RunKeepsAgents(B, run, j);
    NoteIsRecorded(B, run[j], run[j + 1], id, q, pass);
    RunMonotone(B, run, j + 1, k);
    RecordGrowsOn(run[j + 1].pack, run[k].pack, q, pass);
  }

  /**
   * What a request decided under the spec it held, and left on record when it ended, is on record ever after, as it was
   * decided.
   */
  lemma DecidedIsRecorded(
    B: string -> Content, run: seq<State>, i: nat, j: nat, k: nat, id: nat, q: Question)
    requires Run(B, run) && i < j < k < |run| && Decides(B, run[i], run[i + 1], id, q)
    requires Held(run, id, i, j) && Records(B, run[j], run[j + 1], id)
    ensures id in run[i].readers && run[i].readers[id].spec.Some?
    ensures OnRecord(run[k].pack, q, Answer(run[i].readers[id].spec.value, q))
  {
    DecisionIsNoted(B, run[i], run[i + 1], id, q);
    var pass := Answer(run[i].readers[id].spec.value, q);
    NoteLasts(B, run, i + 1, j, id, q, pass);
    RecordedSince(B, run, j, k, id, q, pass);
  }

  // ----- and nothing else is

  /** A verdict comes onto the record only when a request that noted it ends. */
  lemma RecordedAtRelease(B: string -> Content, s: State, s': State, q: Question, pass: bool) returns (id: nat)
    requires Inv(B, s) && Next(B, s, s') && Proper(q) && OnRecord(s'.pack, q, pass) && !OnRecord(s.pack, q, pass)
    ensures Records(B, s, s', id) && Noted(s.readers[id].rr, q, pass)
  {
    var step :| NextStep(B, s, s', step);
    assert step.Release? && step.record;
    id := step.id;
    assert ReaderConsistent(s.current, s.readers[id]);
    if q.Place? { AddedExactly(s.pack, s.readers[id].rr, q.gr); }
  }

  /** And noted only by asking. */
  lemma NotedByAsking(B: string -> Content, s: State, s': State, id: nat, q: Question, pass: bool)
    requires Next(B, s, s') && id in s'.readers && Noted(s'.readers[id].rr, q, pass)
    ensures id in s.readers
    ensures Noted(s.readers[id].rr, q, pass)
      || (Decides(B, s, s', id, q) && Answer(s.readers[id].spec.value, q) == pass)
  {
  }

  lemma {:induction false} NoteBegan(
    B: string -> Content, run: seq<State>, j: nat, id: nat, q: Question, pass: bool) returns (i: nat)
    requires Run(B, run) && j < |run| && id in run[j].readers && Noted(run[j].readers[id].rr, q, pass)
    ensures i < j && Decides(B, run[i], run[i + 1], id, q) && Held(run, id, i, j)
    ensures Answer(run[i].readers[id].spec.value, q) == pass
  {
    assert j > 0;
    NotedByAsking(B, run[j - 1], run[j - 1 + 1], id, q, pass);
    if Noted(run[j - 1].readers[id].rr, q, pass) {
      i := NoteBegan(B, run, j - 1, id, q, pass);
    } else {
      i := j - 1;
    }
  }

  lemma {:induction false} RecordBegan(B: string -> Content, run: seq<State>, k: nat, q: Question, pass: bool)
    returns (j: nat, id: nat)
    requires Run(B, run) && k < |run| && Proper(q) && OnRecord(run[k].pack, q, pass)
    ensures j < k && Records(B, run[j], run[j + 1], id) && Noted(run[j].readers[id].rr, q, pass)
  {
    assert k > 0;
    if OnRecord(run[k - 1].pack, q, pass) {
      j, id := RecordBegan(B, run, k - 1, q, pass);
    } else {
      RunKeepsInv(B, run, k - 1);
      j := k - 1;
      id := RecordedAtRelease(B, run[k - 1], run[k - 1 + 1], q, pass);
    }
  }

  /** Every verdict on record was decided so by a request, under the spec it held, and left by it when it ended. */
  lemma RecordedWasDecided(B: string -> Content, run: seq<State>, k: nat, q: Question, pass: bool)
    returns (i: nat, j: nat, id: nat)
    requires Run(B, run) && k < |run| && Proper(q) && OnRecord(run[k].pack, q, pass)
    ensures i < j < k && Decides(B, run[i], run[i + 1], id, q) && Held(run, id, i, j)
    ensures Records(B, run[j], run[j + 1], id) && Answer(run[i].readers[id].spec.value, q) == pass
  {
    j, id := RecordBegan(B, run, k, q, pass);
    i := NoteBegan(B, run, j, id, q, pass);
  }

  // ----- and it binds every later spec

  /** Of the empty resource nothing is ever consulted. */
  predicate Consulted(q: Question) { Proper(q) && (q.Place? ==> !q.gr.Empty()) }

  lemma RecordIsCurrent(B: string -> Content, s: State, q: Question, pass: bool)
    requires Inv(B, s) && Consulted(q) && OnRecord(s.pack, q, pass)
    ensures s.current.Some? && Answer(s.current.value, q) == pass
  {
    if q.Place? { KeyInjective(q.gr, s.pack.byGR[q.gr.Key()].gr); }
  }

  /**
   * A recorded decision is the answer of every spec the proxy ever loads afterwards, so a long-lived handler may keep
   * its copy.
   */
  lemma DecisionStands(
    B: string -> Content, run: seq<State>, i: nat, j: nat, k: nat, id: nat, q: Question)
    requires Run(B, run) && i < j < k < |run| && Consulted(q) && Decides(B, run[i], run[i + 1], id, q)
    requires Held(run, id, i, j) && Records(B, run[j], run[j + 1], id)
    ensures id in run[i].readers && run[i].readers[id].spec.Some? && run[k].current.Some?
    ensures Answer(run[k].current.value, q) == Answer(run[i].readers[id].spec.value, q)
  {
    DecidedIsRecorded(B, run, i, j, k, id, q);
    RunKeepsInv(B, run, k);
    RecordIsCurrent(B, run[k], q, Answer(run[i].readers[id].spec.value, q));
  }

  // ----- which specs are loaded

  /** Every verdict on record is what the spec would answer. */
  ghost predicate AnswersAlike(spec: Spec, p: Pack) {
    forall q, pass :: Consulted(q) && OnRecord(p, q, pass) ==> Answer(spec, q) == pass
  }

  /** And so is the selector stored for every resource on record. */
  ghost predicate SelectsAlike(spec: Spec, p: Pack) {
    forall gr :: Plain(gr) && !gr.Empty() && gr.Key() in p.byGR ==>
      p.byGR[gr.Key()].objectSelector == ObjectSelector(spec.body, spec.subset, gr)
  }

  lemma AgreementSplits(spec: Spec, p: Pack)
    requires Keyed(p) && AgentsListed(p)
    ensures PackAgrees(spec, p) <==> AnswersAlike(spec, p) && SelectsAlike(spec, p)
  {
    if PackAgrees(spec, p) {
      AgreementAnswers(spec, p);
      AgreementSelects(spec, p);
    }
    if AnswersAlike(spec, p) && SelectsAlike(spec, p) { AnswersAgree(spec, p); }
  }

  lemma AgreementAnswers(spec: Spec, p: Pack)
    requires Keyed(p) && PackAgrees(spec, p)
    ensures AnswersAlike(spec, p)
  {
    forall q, pass | Consulted(q) && OnRecord(p, q, pass) ensures Answer(spec, q) == pass {
      if q.Place? {
        var key := q.gr.Key();
        KeyInjective(q.gr, p.byGR[key].gr);
        assert RecordAgrees(spec, p.byGR[key]);
      }
    }
  }

  lemma AgreementSelects(spec: Spec, p: Pack)
    requires Keyed(p) && PackAgrees(spec, p)
    ensures SelectsAlike(spec, p)
  {
    forall gr | Plain(gr) && !gr.Empty() && gr.Key() in p.byGR
      ensures p.byGR[gr.Key()].objectSelector == ObjectSelector(spec.body, spec.subset, gr)
    {
      KeyInjective(gr, p.byGR[gr.Key()].gr);
      assert RecordAgrees(spec, p.byGR[gr.Key()]);
    }
  }

  lemma AnswersAgree(spec: Spec, p: Pack)
    requires Keyed(p) && AgentsListed(p) && AnswersAlike(spec, p) && SelectsAlike(spec, p)
    ensures PackAgrees(spec, p)
  {
    forall ua | ua in p.uaPassed ensures UserAgentMatch(spec, ua) { assert OnRecord(p, Agent(ua), true); }
    forall ua | ua in p.uaDenied ensures !UserAgentMatch(spec, ua) { assert OnRecord(p, Agent(ua), false); }
    forall k | k in p.byGR ensures RecordAgrees(spec, p.byGR[k]) {
      var rec := p.byGR[k];
      if !rec.gr.Empty() {
        forall ns | ns in rec.nsPassed ensures NamespaceMatch(spec, ns, rec.gr) {
          assert OnRecord(p, Place(rec.gr, ns), true);
        }
        forall ns | ns in rec.nsDenied ensures !NamespaceMatch(spec, ns, rec.gr) {
          assert OnRecord(p, Place(rec.gr, ns), false);
        }
      }
    }
  }

  /**
   * The expected spec is the first, or has the app and subset of the current one and either its hash or an answer like
   * the record's to every question on it, and the stored selector for every resource on it.
   */
  ghost predicate ShouldLoad(s: State)
    requires s.expected.Some?
  {
    s.current.None? ||
      var c, e := s.current.value, s.expected.value;
      && c.vApp == e.vApp && c.subset == e.subset
      && (c.hash == e.hash || (AnswersAlike(e, s.pack) && SelectsAlike(e, s.pack)))
  }

  /** The expected spec is loaded if and only if it should be; otherwise it is refused, and the reason is kept. */
  lemma LoadsExactly(B: string -> Content, run: seq<State>, k: nat, reason: Reason)
    requires Run(B, run) && k + 1 < |run| && NextStep(B, run[k], run[k + 1], LoadExpected(reason))
    ensures run[k + 1].current == run[k].expected <==> ShouldLoad(run[k])
    ensures run[k + 1].refusal.None? <==> ShouldLoad(run[k])
    ensures run[k + 1].reason == if ShouldLoad(run[k]) then run[k].reason else Some(reason)
    ensures run[k + 1].current in {run[k].current, run[k].expected}
  {
    RunKeepsInv(B, run, k);
    RunKeepsAgents(B, run, k);
    AgreementSplits(run[k].expected.value, run[k].pack);
  }

  // ----- why a spec was not loaded

  /** The check refuses the expected spec for this reason. */
  ghost predicate Refuses(B: string -> Content, s: State, s': State, reason: Reason) {
    NextStep(B, s, s', LoadExpected(reason)) && !Loadable(s.current, s.expected.value, s.pack)
  }

  ghost predicate RefusesAtAll(B: string -> Content, s: State, s': State) {
    exists reason :: Refuses(B, s, s', reason)
  }

  lemma ReasonStep(B: string -> Content, s: State, s': State)
    requires Next(B, s, s')
    ensures s'.reason == s.reason || exists reason :: Refuses(B, s, s', reason) && s'.reason == Some(reason)
  {
    var step :| NextStep(B, s, s', step);
    if step.LoadExpected? && !Loadable(s.current, s.expected.value, s.pack) {
      assert Refuses(B, s, s', step.reason);
    }
  }

  ghost predicate NoRefusal(B: string -> Content, run: seq<State>, m: nat) {
    m + 1 < |run| && !RefusesAtAll(B, run[m], run[m + 1])
  }

  /** A proxy reports the reason of its last refusal, also after it has loaded another spec. */
  lemma {:induction false} ReasonOfLastRefusal(B: string -> Content, run: seq<State>, k: nat, i: nat, reason: Reason)
    requires Run(B, run) && k < i < |run| && Refuses(B, run[k], run[k + 1], reason)
    requires forall m: nat :: k < m < i ==> NoRefusal(B, run, m)
    ensures run[i].reason == Some(reason)
  {
    if i == k + 1 {
    } else {
      ReasonOfLastRefusal(B, run, k, i - 1, reason);
      assert NoRefusal(B, run, i - 1);
      ReasonStep(B, run[i - 1], run[i - 1 + 1]);
    }
  }

  // ----- stored selectors

  /** The step ends a request that leaves something on record about the resource. */
  ghost predicate RecordsFor(B: string -> Content, s: State, s': State, id: nat, gr: GroupResource) {
    Records(B, s, s', id) && s.readers[id].rr.gr == gr && WorthKeeping(s.readers[id].rr)
  }

  ghost predicate NoRecordFor(B: string -> Content, s: State, s': State, gr: GroupResource) {
    forall id :: !RecordsFor(B, s, s', id, gr)
  }

  ghost predicate QuietAt(B: string -> Content, run: seq<State>, m: nat, gr: GroupResource) {
    m + 1 < |run| && NoRecordFor(B, run[m], run[m + 1], gr)
  }

  function StoredSelector(p: Pack, gr: GroupResource): Option<LabelSelector> {
    if gr.Key() in p.byGR then p.byGR[gr.Key()].objectSelector else None
  }

  lemma SelectorStored(B: string -> Content, s: State, s': State, id: nat, gr: GroupResource)
    requires RecordsFor(B, s, s', id, gr)
    ensures gr.Key() in s'.pack.byGR && StoredSelector(s'.pack, gr) == s.readers[id].rr.objectSelector
  {
  }

  lemma SelectorKept(B: string -> Content, s: State, s': State, gr: GroupResource)
    requires Inv(B, s) && Next(B, s, s') && Plain(gr) && NoRecordFor(B, s, s', gr)
    requires gr.Key() in s.pack.byGR
    ensures gr.Key() in s'.pack.byGR && StoredSelector(s'.pack, gr) == StoredSelector(s.pack, gr)
  {
    var step :| NextStep(B, s, s', step);
    if step.Release? && step.record {
      var rr := s.readers[step.id].rr;
      assert ReaderConsistent(s.current, s.readers[step.id]);
      if rr.gr.Key() == gr.Key() {
        KeyInjective(rr.gr, gr);
        assert !RecordsFor(B, s, s', step.id, gr);
      }
    }
  }

  lemma SelectorKeptAt(B: string -> Content, run: seq<State>, m: nat, gr: GroupResource)
    requires Run(B, run) && m + 1 < |run| && Plain(gr) && QuietAt(B, run, m, gr)
    requires gr.Key() in run[m].pack.byGR
    ensures gr.Key() in run[m + 1].pack.byGR
    ensures StoredSelector(run[m + 1].pack, gr) == StoredSelector(run[m].pack, gr)
  {
    RunKeepsInv(B, run, m);
    SelectorKept(B, run[m], run[m + 1], gr);
  }

  lemma {:induction false} SelectorLasts(B: string -> Content, run: seq<State>, j: nat, k: nat, gr: GroupResource)
    requires Run(B, run) && j <= k < |run| && Plain(gr) && gr.Key() in run[j].pack.byGR
    requires forall m: nat :: j <= m < k ==> QuietAt(B, run, m, gr)
    ensures gr.Key() in run[k].pack.byGR && StoredSelector(run[k].pack, gr) == StoredSelector(run[j].pack, gr)
    decreases k - j
  {
    if j == k {
    } else {
      assert QuietAt(B, run, j, gr);
      SelectorKeptAt(B, run, j, gr);
      SelectorLasts(B, run, j + 1, k, gr);
    }
  }

  /** A new hash is loaded only if it selects the objects that the newest record for the resource selected. */
  lemma NewestSelectorGuards(
    B: string -> Content, run: seq<State>, j: nat, k: nat, id: nat, gr: GroupResource, reason: Reason)
    requires Run(B, run) && j < k && k + 1 < |run| && Plain(gr) && !gr.Empty()
    requires RecordsFor(B, run[j], run[j + 1], id, gr)
    requires forall m: nat :: j < m < k ==> QuietAt(B, run, m, gr)
    requires NextStep(B, run[k], run[k + 1], LoadExpected(reason)) && run[k].current.Some?
    requires run[k].current.value.hash != run[k].expected.value.hash && run[k + 1].current == run[k].expected
    ensures
      var e := run[k].expected.value;
      ObjectSelector(e.body, e.subset, gr) == run[j].readers[id].rr.objectSelector
  {
    SelectorStored(B, run[j], run[j + 1], id, gr);
    SelectorLasts(B, run, j + 1, k, gr);
    LoadsExactly(B, run, k, reason);
  }

  // ----- a selector that is forgotten

  const PODS := GroupResource("", "pods")
  const GOLD := LabelSelector(map["tier" := "gold"], [])

  /** A route that shows one subset the selected objects, or all of them. */
  function Showing(sel: Option<LabelSelector>): RouteBody {
    RouteBody([], [SubsetLimit("a", if sel.Some? then [Limit({}, sel, [])] else [])], [], {})
  }

  function SpecShowing(hash: string, sel: Option<LabelSelector>): Spec { Spec("app", hash, "a", Showing(sel), []) }

  lemma ShownObjects(sel: Option<LabelSelector>)
    ensures ObjectSelector(Showing(sel), "a", PODS) == sel && !NamespaceMatch(SpecShowing("", sel), "n", PODS)
  {
    var limits := Showing(sel).subsetLimits[0].limits;
    if sel.Some? {
      assert limits[..0] == [] && ObjectApplies(limits[0], PODS);
      assert FoldLimits(limits, PODS, true, None) == sel;
    }
    assert !Claims(limits, "n", PODS, false) && !GRMatched(PODS, []);
    assert Showing(sel).subsetLimits[1..] == [];
    assert FirstClaim(Showing(sel).subsetLimits, "n", PODS, false).None?;
  }

  function Idle(spec: Spec, p: Pack): State { State(Some(spec), Some(spec), false, None, p, map[], None, {}) }

  function Working(spec: Spec, p: Pack, rr: Record): State {
    Idle(spec, p).(readers := map[0 := Reader(Some(spec), rr)])
  }

  lemma FirstLoad(B: string -> Content, spec: Spec) returns (mid: State)
    requires WellHashed(B, spec)
    ensures Next(B, FRESH, mid) && Next(B, mid, Idle(spec, EMPTY_PACK))
  {
    mid := FRESH.(expected := Some(spec), updating := true);
    assert NextStep(B, FRESH, mid, WriteExpected(spec));
    assert NextStep(B, mid, Idle(spec, EMPTY_PACK), LoadExpected(VAppChanged));
  }

  /** A list request is given the subset's selector and leaves it on record. */
  lemma SelectorGiven(B: string -> Content, spec: Spec, p: Pack)
    ensures
      var rr := Blank(PODS).(objectSelector := ObjectSelector(spec.body, spec.subset, PODS));
      && Next(B, Idle(spec, p), Working(spec, p, Blank(PODS)))
      && Next(B, Working(spec, p, Blank(PODS)), Working(spec, p, rr))
      && Next(B, Working(spec, p, rr), Idle(spec, Added(p, Some(rr))))
  {
    var rr := Blank(PODS).(objectSelector := ObjectSelector(spec.body, spec.subset, PODS));
    assert NextStep(B, Idle(spec, p), Working(spec, p, Blank(PODS)), Acquire(0, PODS));
    assert Working(spec, p, Blank(PODS)).readers[0 := Reader(Some(spec), rr)] == Working(spec, p, rr).readers;
    assert NextStep(B, Working(spec, p, Blank(PODS)), Working(spec, p, rr), AttachSelector(0));
    assert Working(spec, p, rr).readers - {0} == map[];
    assert NextStep(B, Working(spec, p, rr), Idle(spec, Added(p, Some(rr))), Release(0, true));
  }

  /** Filtering the response judges a namespace, and its own record carries no selector. */
  lemma ResponseFiltered(B: string -> Content, spec: Spec, p: Pack)
    ensures
      var rr := Judge(spec, Blank(PODS), "n");
      && Next(B, Idle(spec, p), Working(spec, p, Blank(PODS)))
      && Next(B, Working(spec, p, Blank(PODS)), Working(spec, p, rr))
      && Next(B, Working(spec, p, rr), Idle(spec, Added(p, Some(rr))))
  {
    var rr := Judge(spec, Blank(PODS), "n");
    assert NextStep(B, Idle(spec, p), Working(spec, p, Blank(PODS)), Acquire(0, PODS));
    assert Working(spec, p, Blank(PODS)).readers[0 := Reader(Some(spec), rr)] == Working(spec, p, rr).readers;
    assert NextStep(B, Working(spec, p, Blank(PODS)), Working(spec, p, rr), DecideNamespace(0, "n"));
    assert Working(spec, p, rr).readers - {0} == map[];
    assert NextStep(B, Working(spec, p, rr), Idle(spec, Added(p, Some(rr))), Release(0, true));
  }

  lemma NextLoad(B: string -> Content, from: Spec, spec: Spec, p: Pack) returns (mid: State)
    requires WellHashed(B, spec) && Loadable(Some(from), spec, p)
    ensures Next(B, Idle(from, p), mid) && Next(B, mid, Idle(spec, p))
  {
    mid := Idle(from, p).(expected := Some(spec), updating := true);
    assert NextStep(B, Idle(from, p), mid, WriteExpected(spec));
    assert NextStep(B, mid, Idle(spec, p), LoadExpected(VAppChanged));
  }

  function Given(): Record { Blank(PODS).(objectSelector := Some(GOLD)) }

  function Filtered(): Record { Blank(PODS).(nsDenied := {"n"}) }

  /** After both records the stored selector is gone, and a spec without one agrees with all that is left. */
  lemma ForgottenAgrees()
    ensures
      var p := Added(Added(EMPTY_PACK, Some(Given())), Some(Filtered()));
      StoredSelector(p, PODS).None? && Loadable(Some(SpecShowing("h1", Some(GOLD))), SpecShowing("h2", None), p)
  {
    var first := Added(EMPTY_PACK, Some(Given()));
    var p := Added(first, Some(Filtered()));
    ShownObjects(None);
    assert PODS.Key() == "pods" && first.byGR == map["pods" := Given()];
    assert Absorb(Given(), Filtered()) == Record(PODS, None, {}, {"n"}, None, None);
    assert p.byGR == map["pods" := Record(PODS, None, {}, {"n"}, None, None)];
    assert RecordAgrees(SpecShowing("h2", None), p.byGR["pods"]);
  }

  /**
   * A list response replaces the selector that its request was given by none: then a hash that shows the subset
   * everything is loaded, although the request was confined to the "gold" objects.
   */
  lemma SelectorForgotten(B: string -> Content) returns (run: seq<State>, i: nat, k: nat)
    requires WellHashed(B, SpecShowing("h1", Some(GOLD))) && WellHashed(B, SpecShowing("h2", None))
    ensures Run(B, run) && i < k < |run|
    ensures StoredSelector(run[i].pack, PODS) == Some(GOLD) && run[i].current == Some(SpecShowing("h1", Some(GOLD)))
    ensures run[k].current == Some(SpecShowing("h2", None)) && ObjectSelector(Showing(None), "a", PODS) == None
  {
    var one, two := SpecShowing("h1", Some(GOLD)), SpecShowing("h2", None);
    var p := Added(Added(EMPTY_PACK, Some(Given())), Some(Filtered()));
    ShownObjects(None);
    var filtered := FilteredRun(B);
    ForgottenAgrees();
    var b := NextLoad(B, one, two, p);
    run := filtered + [b, Idle(two, p)];
    RunEnds(B, filtered, b, Idle(two, p));
    i, k := |filtered| - 4, |run| - 1;
  }

  lemma FilteredRun(B: string -> Content) returns (run: seq<State>)
    requires WellHashed(B, SpecShowing("h1", Some(GOLD)))
    ensures
      var one, p := SpecShowing("h1", Some(GOLD)), Added(EMPTY_PACK, Some(Given()));
      && Run(B, run) && |run| > 3 && run[|run| - 4] == Idle(one, p) && StoredSelector(p, PODS) == Some(GOLD)
      && run[|run| - 1] == Idle(one, Added(p, Some(Filtered())))
  {
    var one, p := SpecShowing("h1", Some(GOLD)), Added(EMPTY_PACK, Some(Given()));
    var given := GivenRun(B);
    ShownObjects(Some(GOLD));
    ResponseFiltered(B, one, p);
    assert Judge(one, Blank(PODS), "n") == Filtered();
    var a, b, c := Working(one, p, Blank(PODS)), Working(one, p, Filtered()), Idle(one, Added(p, Some(Filtered())));
    run := given + [a, b, c];
    RunGoesOn(B, given, a, b, c);
  }

  lemma GivenRun(B: string -> Content) returns (run: seq<State>)
    requires WellHashed(B, SpecShowing("h1", Some(GOLD)))
    ensures
      Run(B, run) && run[|run| - 1] == Idle(SpecShowing("h1", Some(GOLD)), Added(EMPTY_PACK, Some(Given())))
    ensures StoredSelector(Added(EMPTY_PACK, Some(Given())), PODS) == Some(GOLD)
  {
    var one := SpecShowing("h1", Some(GOLD));
    ShownObjects(Some(GOLD));
    var a := FirstLoad(B, one);
    var loaded := [FRESH, a, Idle(one, EMPTY_PACK)];
    SelectorGiven(B, one, EMPTY_PACK);
    var held, noted := Working(one, EMPTY_PACK, Blank(PODS)), Working(one, EMPTY_PACK, Given());
    run := loaded + [held, noted, Idle(one, Added(EMPTY_PACK, Some(Given())))];
    RunGoesOn(B, loaded, held, noted, run[5]);
  }

  lemma RunGoesOn(B: string -> Content, run: seq<State>, a: State, b: State, c: State)
    requires Run(B, run) && Next(B, run[|run| - 1], a) && Next(B, a, b) && Next(B, b, c)
    ensures Run(B, run + [a, b, c])
  {
  }

  lemma RunEnds(B: string -> Content, run: seq<State>, a: State, b: State)
    requires Run(B, run) && Next(B, run[|run| - 1], a) && Next(B, a, b)
    ensures Run(B, run + [a, b])
  {
  }
}
