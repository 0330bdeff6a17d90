/**
 * One proxy as a state machine: any number of requests decide and record while specs come and are loaded or refused.
 */
module SpecManagers {
  import opened Text
  import opened Selectors
  import opened Routes
  import opened History

  datatype Reason = VAppChanged | SubsetChanged | UserAgentConflict | SelectorChanged | NamespaceConflict

  /** A request between AcquireSpec and ReleaseSpec: the spec it was given and the verdicts so far. */
  datatype Reader = Reader(spec: Option<Spec>, rr: Record)

  /**
   * `updating` is set between the unlocked write of the expected spec and the locked check that may load it. The last
   * two fields are memory of the run: the history that the expected spec was refused against, if it was, and the
   * namespaces let through by requests for single objects, which leave no record.
   */
  datatype State = State(
    current: Option<Spec>, expected: Option<Spec>, updating: bool, reason: Option<Reason>, pack: Pack,
    readers: map<nat, Reader>, refusal: Option<Pack>, silent: set<(GroupResource, string)>)

  const FRESH := State(None, None, false, None, EMPTY_PACK, map[], None, {})

  /** When the expected spec may replace the current one. */
  ghost predicate Loadable(current: Option<Spec>, expected: Spec, p: Pack) {
    current.Some? ==>
      current.value.vApp == expected.vApp && current.value.subset == expected.subset
      && (current.value.hash == expected.hash || PackAgrees(expected, p))
  }

  function Judge(spec: Spec, rr: Record, ns: string): Record {
    if NamespaceMatch(spec, ns, rr.gr) then rr.(nsPassed := rr.nsPassed + {ns}) else rr.(nsDenied := rr.nsDenied + {ns})
  }

  function JudgeUserAgent(spec: Spec, rr: Record, ua: string): Record {
    if UserAgentMatch(spec, ua) then rr.(uaPassed := Some(ua)) else rr.(uaDenied := Some(ua))
  }

  // ----- steps

  datatype Step =
    | Acquire(id: nat, gr: GroupResource)
    | DecideUserAgent(id: nat, ua: string)
    | AttachSelector(id: nat)
    | DecideNamespace(id: nat, ns: string)
    | PassSilently(id: nat, ns: string)
    | Release(id: nat, record: bool)
    | WriteExpected(spec: Spec)
    | LoadExpected(reason: Reason)

  /** What a hash stands for: route content and endpoints, the pod's own subset excluded. */
  datatype Content = Content(body: RouteBody, endpoints: seq<Endpoint>)

  /** Equal hashes mean equal content. */
  predicate WellHashed(B: string -> Content, spec: Spec) { Content(spec.body, spec.endpoints) == B(spec.hash) }

  predicate Decided(s: State, s': State, id: nat, rr: Record)
    requires id in s.readers
  {
    s.readers[id].spec.Some? && s' == s.(readers := s.readers[id := s.readers[id].(rr := rr)])
  }

  /** The check under the write lock: take over the expected spec, or note why not. */
  ghost function Loaded(s: State, reason: Reason): State
    requires s.expected.Some?
  {
    if Loadable(s.current, s.expected.value, s.pack) then s.(current := s.expected, updating := false)
    else s.(reason := Some(reason), updating := false, refusal := Some(s.pack))
  }

  ghost predicate NextStep(B: string -> Content, s: State, s': State, step: Step) {
    match step
    case Acquire(id, gr) =>
      id !in s.readers && Plain(gr) && s' == s.(readers := s.readers[id := Reader(s.current, Blank(gr))])
    case DecideUserAgent(id, ua) =>
      id in s.readers && s.readers[id].rr.uaPassed.None? && s.readers[id].rr.uaDenied.None?
      && s.readers[id].spec.Some? && Decided(s, s', id, JudgeUserAgent(s.readers[id].spec.value, s.readers[id].rr, ua))
    case AttachSelector(id) =>
      id in s.readers && s.readers[id].spec.Some? && var c := s.readers[id].spec.value;
      Decided(s, s', id, s.readers[id].rr.(objectSelector := ObjectSelector(c.body, c.subset, s.readers[id].rr.gr)))
    case DecideNamespace(id, ns) =>
      && id in s.readers && s.readers[id].spec.Some?
      && Decided(s, s', id, Judge(s.readers[id].spec.value, s.readers[id].rr, ns))
    case PassSilently(id, ns) =>
      && id in s.readers && s.readers[id].spec.Some?
      && NamespaceMatch(s.readers[id].spec.value, ns, s.readers[id].rr.gr)
      && s' == s.(silent := s.silent + {(s.readers[id].rr.gr, ns)})
    case Release(id, record) =>
      id in s.readers
      && s' == s.(readers := s.readers - {id}, pack := Added(s.pack, if record then Some(s.readers[id].rr) else None))
    case WriteExpected(spec) =>
      !s.updating && WellHashed(B, spec) && s' == s.(expected := Some(spec), updating := true, refusal := None)
    case LoadExpected(reason) =>
      s.updating && s.readers == map[] && s.expected.Some? && s' == Loaded(s, reason)
  }

  ghost predicate Next(B: string -> Content, s: State, s': State) {
    exists step :: NextStep(B, s, s', step)
  }

  ghost predicate Run(B: string -> Content, run: seq<State>) {
    run != [] && run[0] == FRESH && forall i :: 0 <= i < |run| - 1 ==> Next(B, run[i], run[i + 1])
  }

  /** Steps in a row, from anywhere. */
  ghost predicate Path(B: string -> Content, trace: seq<State>) {
    forall k: nat :: k < |trace| - 1 ==> Next(B, trace[k], trace[k + 1])
  }

  lemma PathGrows(spec: Spec, trace: seq<State>, last: State, s: State, step: Step)
    requires trace != [] && trace[|trace| - 1] == last && forall B :: WellHashed(B, spec) ==> Path(B, trace)
    requires forall B :: NextStep(B, last, s, step)
    ensures forall B :: WellHashed(B, spec) ==> Path(B, trace + [s])
  {
    forall B: string -> Content | WellHashed(B, spec) ensures Path(B, trace + [s]) {
      assert Path(B, trace) && NextStep(B, last, s, step);
    }
  }

  // ----- the invariant

  predicate ReaderConsistent(current: Option<Spec>, r: Reader) {
    r.spec == current && Plain(r.rr.gr)
    && (if current.None? then r.rr == Blank(r.rr.gr) else RecordVerdictsAgree(current.value, r.rr))
  }

  /** A refused spec is still the expected one, and the history it contradicted is still part of the history. */
  ghost predicate RefusalStands(s: State)
    requires s.refusal.Some?
  {
    && !s.updating && s.current.Some? && s.expected.Some?
    && !Loadable(s.current, s.expected.value, s.refusal.value) && Grows(s.refusal.value, s.pack)
  }

  ghost predicate Inv(B: string -> Content, s: State) {
    && (s.current.Some? ==>
      WellHashed(B, s.current.value) && s.expected.Some? && VerdictsAgree(s.current.value, s.pack))
    && (s.current.None? ==> s.pack == EMPTY_PACK)
    && (s.expected.Some? ==> WellHashed(B, s.expected.value))
    && (s.updating ==> s.expected.Some?)
    && (!s.updating && s.current.None? ==> s.expected.None?)
    && (s.refusal.Some? ==> RefusalStands(s))
    && (!s.updating && s.refusal.None? ==> s.expected == s.current)
    && Keyed(s.pack)
    && forall id :: id in s.readers ==> ReaderConsistent(s.current, s.readers[id])
  }

  lemma JudgeAgrees(spec: Spec, rr: Record, ns: string, ua: string)
    requires RecordVerdictsAgree(spec, rr)
    ensures RecordVerdictsAgree(spec, Judge(spec, rr, ns)) && Judge(spec, rr, ns).gr == rr.gr
    ensures rr.uaPassed.None? && rr.uaDenied.None? ==> RecordVerdictsAgree(spec, JudgeUserAgent(spec, rr, ua))
    ensures JudgeUserAgent(spec, rr, ua).gr == rr.gr
  {
  }

  lemma ReaderStepKeepsInv(B: string -> Content, s: State, s': State, step: Step)
    requires Inv(B, s) && NextStep(B, s, s', step)
    requires step.Acquire? || step.DecideUserAgent? || step.AttachSelector? || step.DecideNamespace?
      || step.PassSilently?
    ensures Inv(B, s')
  {
    forall id | id in s'.readers ensures ReaderConsistent(s'.current, s'.readers[id]) {
      if step.id != id {
        assert s'.readers[id] == s.readers[id];
      } else if !step.Acquire? {
        assert ReaderConsistent(s.current, s.readers[id]);
        var ns := if step.DecideNamespace? then step.ns else "";
        JudgeAgrees(s.current.value, s.readers[id].rr, ns, if step.DecideUserAgent? then step.ua else "");
      } else if s.current.Some? {
        assert RecordVerdictsAgree(s.current.value, Blank(step.gr));
      }
    }
  }

  lemma ReleaseKeepsInv(B: string -> Content, s: State, s': State, step: Step)
    requires Inv(B, s) && step.Release? && NextStep(B, s, s', step)
    ensures Inv(B, s')
  {
    assert ReaderConsistent(s.current, s.readers[step.id]);
    if step.record && s.current.Some? { AddedAgrees(s.current.value, s.pack, s.readers[step.id].rr); }
    AddedGrows(s.pack, if step.record then Some(s.readers[step.id].rr) else None);
    if s.refusal.Some? { GrowsTransitive(s.refusal.value, s.pack, s'.pack); }
  }

  lemma LoadKeepsInv(B: string -> Content, s: State, s': State, step: Step)
    requires Inv(B, s) && step.LoadExpected? && NextStep(B, s, s', step)
    ensures Inv(B, s')
  {
  }

  lemma StepKeepsInv(B: string -> Content, s: State, s': State)
    requires Inv(B, s) && Next(B, s, s')
    ensures Inv(B, s')
  {
    var step :| NextStep(B, s, s', step);
    match step
    case Release(_, _) => ReleaseKeepsInv(B, s, s', step);
    case LoadExpected(_) => LoadKeepsInv(B, s, s', step);
    case WriteExpected(_) =>
    case _ => ReaderStepKeepsInv(B, s, s', step);
  }

  lemma {:induction false} RunKeepsInv(B: string -> Content, run: seq<State>, i: nat)
    requires Run(B, run) && i < |run|
    ensures Inv(B, run[i])
  {
    if i == 0 {
    } else {
      RunKeepsInv(B, run, i - 1);
      StepKeepsInv(B, run[i - 1], run[i - 1 + 1]);
    }
  }

  /** In every reachable state, every recorded verdict is what the current spec would answer now. */
  lemma HistoryAgreesWithCurrent(B: string -> Content, run: seq<State>, i: nat, gr: GroupResource)
    requires Run(B, run) && i < |run| && run[i].current.Some? && Plain(gr) && !gr.Empty()
    ensures var c := run[i].current.value;
      && UserAgentSetsAgree(c, run[i].pack)
      && (forall ns :: ns in Passed(run[i].pack, gr) ==> NamespaceMatch(c, ns, gr))
      && (forall ns :: ns in Denied(run[i].pack, gr) ==> !NamespaceMatch(c, ns, gr))
  {
    RunKeepsInv(B, run, i);
    if gr.Key() in run[i].pack.byGR { KeyInjective(gr, run[i].pack.byGR[gr.Key()].gr); }
  }

  /**
   * The records of two pods of different subsets that run one hash share no namespace let through, at any time, for a
   * resource that is not public.
   */
  lemma HistoriesDisjoint(B: string -> Content, s: State, t: State, gr: GroupResource)
    requires Inv(B, s) && Inv(B, t) && s.current.Some? && t.current.Some?
    requires s.current.value.hash == t.current.value.hash && s.current.value.subset != t.current.value.subset
    requires Plain(gr) && !gr.Empty() && NoSubsetNamedPublic(s.current.value.body)
    requires !GRMatched(gr, s.current.value.body.publicResources) || NamedBySome(s.current.value.body.subsetLimits, gr)
    ensures Passed(s.pack, gr) !! Passed(t.pack, gr)
  {
    forall ns | ns in Passed(s.pack, gr) ensures ns !in Passed(t.pack, gr) {
      KeyInjective(gr, s.pack.byGR[gr.Key()].gr);
      assert NamespaceMatch(s.current.value, ns, gr);
      if NamespaceMatch(t.current.value, ns, gr) {
        SubsetsExclusive(s.current.value, t.current.value, ns, gr);
        assert false;
      }
      if gr.Key() in t.pack.byGR { KeyInjective(gr, t.pack.byGR[gr.Key()].gr); }
    }
  }

  // ----- what a report of two hashes means

  predicate Mismatch(s: State) {
    s.current.Some? && s.expected.Some? && s.expected.value.hash != s.current.value.hash
  }

  /** Between the two halves of an update to another hash. */
  predicate InWindow(s: State) { s.updating && Mismatch(s) }

  ghost predicate NewHashRefused(s: State) {
    Mismatch(s) && s.refusal.Some? && !Loadable(s.current, s.expected.value, s.refusal.value)
  }

  /** Two different hashes mean an update under way or a refusal, and never both. */
  lemma MismatchExactly(B: string -> Content, s: State)
    requires Inv(B, s)
    ensures Mismatch(s) <==> InWindow(s) || NewHashRefused(s)
    ensures !(InWindow(s) && NewHashRefused(s))
  {
  }

  /** At step `k` the spec expected since was held against the history and refused, and nothing came after it. */
  ghost predicate RefusedAt(run: seq<State>, k: nat, i: nat)
    requires i < |run|
  {
    && k < i && run[k].updating && run[k].expected.Some?
    && run[k].expected == run[i].expected && run[k].current == run[i].current
    && !Loadable(run[k].current, run[k].expected.value, run[k].pack)
    && run[i].refusal == Some(run[k].pack)
    && forall j: nat :: k < j <= i ==> !run[j].updating
  }

  /** A refusal is either the check just made or an earlier one that still stands. */
  lemma RefusalStep(B: string -> Content, s: State, s': State)
    requires Inv(B, s) && Next(B, s, s') && s'.refusal.Some?
    ensures s'.expected == s.expected && s'.current == s.current
    ensures s.refusal == s'.refusal
      || (s.updating && s.expected.Some? && !Loadable(s.current, s.expected.value, s.pack) &&
        s'.refusal == Some(s.pack))
  {
  }

  lemma {:induction false} RefusalHappened(B: string -> Content, run: seq<State>, i: nat) returns (k: nat)
    requires Run(B, run) && i < |run| && run[i].refusal.Some?
    ensures RefusedAt(run, k, i)
  {
    RunKeepsInv(B, run, i);
    RunKeepsInv(B, run, i - 1);
    RefusalStep(B, run[i - 1], run[i - 1 + 1]);
    if run[i - 1].refusal == run[i].refusal {
      k := RefusalHappened(B, run, i - 1);
    } else {
      k := i - 1;
    }
  }

  /**
   * A report of two hashes comes from inside an update if and only if the proxy has not refused the spec it expects.
   */
  lemma MismatchMeansRefusal(B: string -> Content, run: seq<State>, i: nat)
    requires Run(B, run) && i < |run| && Mismatch(run[i])
    ensures InWindow(run[i]) <==> !exists k: nat :: RefusedAt(run, k, i)
  {
    RunKeepsInv(B, run, i);
    if run[i].refusal.Some? {
      var k := RefusalHappened(B, run, i);
    }
  }

  // ----- over time

  predicate Pinned(s: State, s': State) {
    s.current.Some? ==>
      && s'.current.Some?
      && s'.current.value.vApp == s.current.value.vApp && s'.current.value.subset == s.current.value.subset
  }

  lemma StepMonotone(B: string -> Content, s: State, s': State)
    requires Next(B, s, s')
    ensures Pinned(s, s') && Grows(s.pack, s'.pack)
  {
    var step :| NextStep(B, s, s', step);
    if step.Release? { AddedGrows(s.pack, if step.record then Some(s.readers[step.id].rr) else None); }
  }

  /** The app and the subset a proxy first loads stay its own for the whole run, and its history only grows. */
  lemma {:induction false} RunMonotone(B: string -> Content, run: seq<State>, i: nat, j: nat)
    requires Run(B, run) && i <= j < |run|
    ensures Pinned(run[i], run[j]) && Grows(run[i].pack, run[j].pack)
  {
    if i == j {
    } else {
      RunMonotone(B, run, i, j - 1);
      StepMonotone(B, run[j - 1], run[j - 1 + 1]);
      GrowsTransitive(run[i].pack, run[j - 1].pack, run[j].pack);
    }
  }

  /** A user-agent verdict, once given, is the verdict of every later spec: a long-lived handler may keep its copy. */
  lemma UserAgentVerdictStays(B: string -> Content, run: seq<State>, i: nat, j: nat, ua: string)
    requires Run(B, run) && i <= j < |run| && run[j].current.Some?
    ensures ua in run[i].pack.uaPassed ==> UserAgentMatch(run[j].current.value, ua)
    ensures ua in run[i].pack.uaDenied ==> !UserAgentMatch(run[j].current.value, ua)
  {
    RunMonotone(B, run, i, j);
    RunKeepsInv(B, run, j);
  }

  /** A hash refused for a namespace or user-agent conflict is never running at any later moment. */
  lemma RejectionIsPermanent(B: string -> Content, run: seq<State>, i: nat, j: nat, spec: Spec)
    requires Run(B, run) && i <= j < |run|
    requires run[i].current.Some? && WellHashed(B, spec) && spec.subset == run[i].current.value.subset
    requires !VerdictsAgree(spec, run[i].pack)
    ensures run[j].current.Some? && run[j].current.value.hash != spec.hash
  {
    RunMonotone(B, run, i, j);
    RunKeepsInv(B, run, j);
    if run[j].current.value.hash == spec.hash {
      VerdictsDependOnRoute(run[j].current.value, spec, run[j].pack);
      EarlierAgrees(spec, run[i].pack, run[j].pack);
      assert false;
    }
  }

  // ----- the object that takes these steps

  datatype MetaState = MetaState(
    subset: string, expectedHash: string, currentHash: string, unloadReason: Option<Reason>)

  function StatusOf(s: State): Option<MetaState>
    requires s.current.Some? ==> s.expected.Some?
  {
    if s.current.None? then None
    else Some(MetaState(s.current.value.subset, s.expected.value.hash, s.current.value.hash, s.reason))
  }

  class SpecManager {
    var expected: Option<Spec>
    var current: Option<Spec>
    var updating: bool
    var unloadReason: Option<Reason>
    var readers: map<nat, Reader>
    const store: RequestsStore
    ghost var refusal: Option<Pack>
    ghost var silent: set<(GroupResource, string)>

    constructor ()
      ensures View() == FRESH && store.Valid() && fresh(store)
    {
      expected, current, updating, unloadReason, readers := None, None, false, None, map[];
      refusal, silent := None, {};
      store := new RequestsStore();
    }

    ghost function View(): State
      reads this, store
    {
      State(current, expected, updating, unloadReason, store.Contents(), readers, refusal, silent)
    }

    method AcquireSpec(id: nat, gr: GroupResource) returns (spec: Option<Spec>)
      requires id !in readers && Plain(gr)
      modifies this`readers
      ensures spec == current && readers == old(readers)[id := Reader(current, Blank(gr))]
      ensures forall B :: NextStep(B, old(View()), View(), Acquire(id, gr))
    {
      spec := current;
      readers := readers[id := Reader(current, Blank(gr))];
    }

    /** A request evaluates one namespace against the spec it holds and notes the verdict. */
    method DecideNamespace(id: nat, ns: string) returns (matched: bool)
      requires id in readers && readers[id].spec.Some?
      modifies this`readers
      ensures var r := old(readers[id]);
        matched == NamespaceMatch(r.spec.value, ns, r.rr.gr)
        && readers == old(readers)[id := r.(rr := Judge(r.spec.value, r.rr, ns))]
      ensures forall B :: NextStep(B, old(View()), View(), Step.DecideNamespace(id, ns))
    {
      var r := readers[id];
      matched := NamespaceMatch(r.spec.value, ns, r.rr.gr);
      var rr := if matched then r.rr.(nsPassed := r.rr.nsPassed + {ns}) else r.rr.(nsDenied := r.rr.nsDenied + {ns});
      readers := readers[id := r.(rr := rr)];
    }

    /** A request for one object is judged by its namespace, and nothing is noted. */
    method DecideObject(id: nat, ns: string) returns (matched: bool)
      requires id in readers && readers[id].spec.Some?
      modifies this`silent
      ensures matched == NamespaceMatch(readers[id].spec.value, ns, readers[id].rr.gr)
      ensures matched ==> forall B :: NextStep(B, old(View()), View(), PassSilently(id, ns))
      ensures !matched ==> View() == old(View())
    {
      matched := NamespaceMatch(readers[id].spec.value, ns, readers[id].rr.gr);
      if matched { silent := silent + {(readers[id].rr.gr, ns)}; }
    }

    /** A request's user agent is judged once, before anything else. */
    method DecideUserAgent(id: nat, ua: string) returns (matched: bool)
      requires id in readers && readers[id].spec.Some?
      requires readers[id].rr.uaPassed.None? && readers[id].rr.uaDenied.None?
      modifies this`readers
      ensures matched == UserAgentMatch(old(readers[id]).spec.value, ua)
      ensures readers.Keys == old(readers).Keys && readers == old(readers)[id := readers[id]]
      ensures forall B :: NextStep(B, old(View()), View(), Step.DecideUserAgent(id, ua))
    {
      var r := readers[id];
      matched := UserAgentMatch(r.spec.value, ua);
      var rr := if matched then r.rr.(uaPassed := Some(ua)) else r.rr.(uaDenied := Some(ua));
      readers := readers[id := r.(rr := rr)];
    }

    /** A list or watch notes the object selector that its query was given. */
    method AttachSelector(id: nat) returns (sel: Option<LabelSelector>)
      requires id in readers && readers[id].spec.Some?
      modifies this`readers
      ensures
        var c := old(readers[id]).spec.value;
        sel == ObjectSelector(c.body, c.subset, old(readers[id]).rr.gr)
      ensures readers.Keys == old(readers).Keys && readers == old(readers)[id := readers[id]]
      ensures forall B :: NextStep(B, old(View()), View(), Step.AttachSelector(id))
    {
      var r := readers[id];
      sel := GetObjectSelector(r.spec.value.body, r.spec.value.subset, r.rr.gr);
      readers := readers[id := r.(rr := r.rr.(objectSelector := sel))];
    }

    /** Records the request's verdicts; callers that decided nothing pass nil. */
    method ReleaseSpec(id: nat, record: bool)
      requires id in readers && store.Valid()
      modifies this`readers, store
      ensures store.Valid() && readers == old(readers) - {id}
      ensures store.Contents() == Added(old(store.Contents()), if record then Some(old(readers[id].rr)) else None)
      ensures forall B :: NextStep(B, old(View()), View(), Release(id, record))
    {
      store.Add(if record then Some(readers[id].rr) else None);
      readers := readers - {id};
    }

    method WriteExpectedSpec(spec: Spec)
      requires !updating
      modifies this`expected, this`updating, this`refusal
      ensures forall B :: WellHashed(B, spec) ==> NextStep(B, old(View()), View(), WriteExpected(spec))
      ensures updating && expected == Some(spec)
    {
      expected := Some(spec);
      updating := true;
      refusal := None;
    }

    /** The part of UpdateSpec under the write lock, which no request holds the read lock against. */
    method LoadExpectedSpec() returns (err: Option<Reason>)
      requires updating && expected.Some? && readers == map[]
      modifies this`current, this`updating, this`unloadReason, this`refusal
      ensures err.None? <==> Loadable(old(current), expected.value, store.Contents())
      ensures View() == Loaded(old(View()), if err.Some? then err.value else VAppChanged)
    {
      err := CheckLoadable();
      updating := false;
      if err.Some? {
        unloadReason := err;
        refusal := Some(store.Contents());
        return;
      }
      current := expected;
    }

    /** One request gives one more verdict, or none. */
    method RequestDecides(id: nat) returns (ghost step: Option<Step>)
      requires id in readers
      modifies this`readers, this`silent
      ensures readers.Keys == old(readers).Keys
      ensures step.None? ==> View() == old(View())
      ensures step.Some? ==> forall B :: NextStep(B, old(View()), View(), step.value)
    {
      if readers[id].spec.None? { return None; }
      var text: string := *;
      var kind: nat := *;
      if kind == 0 {
        var _ := DecideNamespace(id, text);
        step := Some(Step.DecideNamespace(id, text));
      } else if kind == 1 {
        var matched := DecideObject(id, text);
        step := if matched then Some(PassSilently(id, text)) else None;
      } else if kind == 2 {
        var _ := AttachSelector(id);
        step := Some(Step.AttachSelector(id));
      } else if readers[id].rr.uaPassed.None? && readers[id].rr.uaDenied.None? {
        var _ := DecideUserAgent(id, text);
        step := Some(Step.DecideUserAgent(id, text));
      } else {
        step := None;
      }
    }

    /** Any number of verdicts, by any of the requests that hold the read lock. */
    method RequestsDecide(spec: Spec, ghost trace: seq<State>) returns (ghost longer: seq<State>)
      requires trace != [] && trace[|trace| - 1] == View() && forall B :: WellHashed(B, spec) ==> Path(B, trace)
      modifies this`readers, this`silent
      ensures readers.Keys == old(readers).Keys && trace <= longer && longer[|longer| - 1] == View()
      ensures forall B :: WellHashed(B, spec) ==> Path(B, longer)
    {
      longer := trace;
      var count: nat := *;
      while count > 0
        invariant readers.Keys == old(readers).Keys && trace <= longer && longer[|longer| - 1] == View()
        invariant forall B :: WellHashed(B, spec) ==> Path(B, longer)
      {
        var id: nat := *;
        if id in readers {
          ghost var before := View();
          ghost var step := RequestDecides(id);
          if step.Some? {
            PathGrows(spec, longer, before, View(), step.value);
            longer := longer + [View()];
          }
        }
        count := count - 1;
      }
    }

    /** Requests that still come in before the write lock is asked for, with what they and others decide meanwhile. */
    method RequestsArrive(spec: Spec, ghost trace: seq<State>) returns (ghost longer: seq<State>)
      requires trace != [] && trace[|trace| - 1] == View() && forall B :: WellHashed(B, spec) ==> Path(B, trace)
      modifies this`readers, this`silent
      ensures trace <= longer && longer[|longer| - 1] == View() && old(readers).Keys <= readers.Keys
      ensures forall B :: WellHashed(B, spec) ==> Path(B, longer)
    {
      longer := RequestsDecide(spec, trace);
      var count: nat := *;
      while count > 0
        invariant trace <= longer && longer[|longer| - 1] == View() && old(readers).Keys <= readers.Keys
        invariant forall B :: WellHashed(B, spec) ==> Path(B, longer)
      {
        var id: nat, gr: GroupResource := *, *;
        if id !in readers && Plain(gr) {
          ghost var before := View();
          var _ := AcquireSpec(id, gr);
          PathGrows(spec, longer, before, View(), Acquire(id, gr));
          longer := RequestsDecide(spec, longer + [View()]);
        }
        count := count - 1;
      }
    }

    /** One request ends, with or without a record. */
    method RequestEnds(id: nat, spec: Spec, ghost trace: seq<State>) returns (ghost longer: seq<State>)
      requires id in readers && store.Valid()
      requires trace != [] && trace[|trace| - 1] == View() && forall B :: WellHashed(B, spec) ==> Path(B, trace)
      modifies this`readers, store
      ensures store.Valid() && readers == old(readers) - {id} && trace <= longer && longer[|longer| - 1] == View()
      ensures forall B :: WellHashed(B, spec) ==> Path(B, longer)
    {
      var record: bool := *;
      ghost var before := View();
      ReleaseSpec(id, record);
      PathGrows(spec, trace, before, View(), Release(id, record));
      longer := trace + [View()];
    }

    /**
     * Both halves. The write lock waits for the requests that hold the read lock: each of them decides as much as it
     * likes and ends on its own, with or without a record, and what they recorded is part of the history that the new
     * spec is held against.
     */
    method UpdateSpec(spec: Spec) returns (err: Option<Reason>, ghost trace: seq<State>)
      requires !updating && store.Valid()
      modifies this, store
      ensures expected == Some(spec) && !updating && readers == map[] && store.Valid()
      ensures err.None? <==> Loadable(old(current), spec, store.Contents())
      ensures current == if err.None? then Some(spec) else old(current)
      ensures trace != [] && trace[0] == old(View()) && trace[|trace| - 1] == View()
      ensures forall B :: WellHashed(B, spec) ==> Path(B, trace)
    {
      trace := [View()];
      WriteExpectedSpec(spec);
      assert forall B :: WellHashed(B, spec) ==> NextStep(B, trace[0], View(), WriteExpected(spec));
      trace := trace + [View()];
      trace := RequestsArrive(spec, trace);
      while readers != map[]
        invariant updating && expected == Some(spec) && current == old(current) && store.Valid()
        invariant trace != [] && trace[0] == old(View()) && trace[|trace| - 1] == View()
        invariant forall B :: WellHashed(B, spec) ==> Path(B, trace)
        decreases readers.Keys
      {
        trace := RequestsDecide(spec, trace);
        var id :| id in readers;
        trace := RequestEnds(id, spec, trace);
      }
      ghost var before := View();
      err := LoadExpectedSpec();
      PathGrows(spec, trace, before, View(), LoadExpected(if err.Some? then err.value else VAppChanged));
      trace := trace + [View()];
    }

    method GetStatus() returns (status: Option<MetaState>)
      requires current.Some? ==> expected.Some?
      ensures status == StatusOf(View())
    {
      if current.None? { return None; }
      status := Some(MetaState(current.value.subset, expected.value.hash, current.value.hash, unloadReason));
    }

    /** What the range callback decides on one record. */
    method CheckRecord(rec: Record) returns (err: Option<Reason>)
      requires expected.Some?
      ensures err.None? <==> RecordAgrees(expected.value, rec)
      ensures err == Some(UserAgentConflict) ==> !UserAgentsAgree(expected.value, rec)
      ensures err == Some(NamespaceConflict) ==> !rec.gr.Empty() && !NamespacesAgree(expected.value, rec)
      ensures err.Some? && rec.gr.Empty() ==> err.value == UserAgentConflict
    {
      var e := expected.value;
      if rec.uaPassed.Some? && !UserAgentMatch(e, rec.uaPassed.value) { return Some(UserAgentConflict); }
      if rec.uaDenied.Some? && UserAgentMatch(e, rec.uaDenied.value) { return Some(UserAgentConflict); }
      if rec.gr.Empty() { return None; }
      var sel := GetObjectSelector(e.body, e.subset, rec.gr);
      if sel != rec.objectSelector { return Some(SelectorChanged); }
      var todo := rec.nsPassed;
      while todo != {}
        invariant todo <= rec.nsPassed && forall ns :: ns in rec.nsPassed - todo ==> NamespaceMatch(e, ns, rec.gr)
      {
        var ns :| ns in todo;
        if !NamespaceMatch(e, ns, rec.gr) { return Some(NamespaceConflict); }
        todo := todo - {ns};
      }
      todo := rec.nsDenied;
      while todo != {}
        invariant todo <= rec.nsDenied && forall ns :: ns in rec.nsDenied - todo ==> !NamespaceMatch(e, ns, rec.gr)
      {
        var ns :| ns in todo;
        if NamespaceMatch(e, ns, rec.gr) { return Some(NamespaceConflict); }
        todo := todo - {ns};
      }
      return None;
    }

    /** Accepts exactly when every record agrees, in whatever order the sets and the map are walked,
        although a failure only leaves the loop it happened in; a reported verdict conflict is a real one. */
    method CheckLoadable() returns (err: Option<Reason>)
      requires expected.Some?
      ensures err.None? <==> Loadable(current, expected.value, store.Contents())
      ensures err in {Some(UserAgentConflict), Some(NamespaceConflict)} ==>
        !VerdictsAgree(expected.value, store.Contents())
    {
      err := None;
      if current.None? { return; }
      var e := expected.value;
      if current.value.vApp != e.vApp { return Some(VAppChanged); }
      if current.value.subset != e.subset { return Some(SubsetChanged); }
      if current.value.hash == e.hash { return; }
      var p := store.Contents();
      err := CheckUserAgents(p.uaPassed, true);
      var deniedErr := CheckUserAgents(p.uaDenied, false);
      if deniedErr.Some? { err := deniedErr; }
      ghost var uaErr := err;
      var keys := p.byGR.Keys;
      while keys != {}
        invariant keys <= p.byGR.Keys
        invariant forall k :: k in p.byGR && k !in keys ==> RecordAgrees(e, p.byGR[k])
        invariant err == uaErr
      {
        var k :| k in keys;
        var bad := CheckRecord(p.byGR[k]);
        if bad.Some? {
          err := bad;
          break;
        }
        keys := keys - {k};
      }
    }

    method CheckUserAgents(uas: set<string>, passed: bool) returns (err: Option<Reason>)
      requires expected.Some?
      ensures err.None? <==> forall ua :: ua in uas ==> UserAgentMatch(expected.value, ua) == passed
      ensures err.Some? ==> err.value == UserAgentConflict
    {
      var todo := uas;
      while todo != {}
        invariant todo <= uas && forall ua :: ua in uas - todo ==> UserAgentMatch(expected.value, ua) == passed
      {
        var ua :| ua in todo;
        var none := GroupResource("", "");
        err := CheckRecord(if passed then Blank(none).(uaPassed := Some(ua)) else Blank(none).(uaDenied := Some(ua)));
        if err.Some? { return; }
        todo := todo - {ua};
      }
      err := None;
    }
  }
}
