/** The promises of the manager/proxy protocol, for every run. */
module MeshTheorems {
  import opened Text
  import opened Routes
  import opened History
  import opened SpecManagers
  import opened Manager
  import opened MeshProtocol
  import opened MeshSafety
  import opened MeshOrder

  // ----- how a pod came to pass the gate

  /** The pods that have passed the gate of the Reconcile in progress. */
  function Syncs(phase: Phase): seq<Sync> {
    match phase
    case Gating(_, syncs) => syncs
    case Reading(_, _, syncs) => syncs
    case Sending(job, _) => job.all
    case Storing(job, _, _) => job.all
    case _ => []
  }

  /** The Reconcile that is at work at `i` read the status in `s` at `r`, and let the pod pass by it at `g`. */
  ghost predicate Judged(run: seq<Mesh>, steps: seq<MeshStep>, r: nat, g: nat, i: nat, s: Sync) {
    && |run| == |steps| + 1 && r < g < i < |run|
    && steps[r].ReadStatus? && steps[g].ReadExpectation?
    && run[g].phase.Reading? && run[g].phase.sync == s && !Unmet(s, Get(run[g].hashExp, s.uid))
    && (forall k: nat :: r < k <= g ==> run[k].phase == run[g].phase)
    && (forall k: nat :: r <= k < i ==> !steps[k].Start?)
  }

  lemma ReadingFrom(B: string -> Content, m: Mesh, m': Mesh, step: MeshStep)
    requires NextMesh(B, m, m', step) && m'.phase.Reading?
    ensures !step.Start? && (m'.phase == m.phase || step.ReadStatus?)
  {
    if StreamEvent(B, m, m', step) { StreamEventTouches(B, m, m', step); }
  }

  lemma {:induction false} ReadBegan(B: string -> Content, run: seq<Mesh>, steps: seq<MeshStep>, g: nat)
    returns (r: nat)
    requires MeshRun(B, run, steps) && g < |run| && run[g].phase.Reading?
    ensures r < g && steps[r].ReadStatus?
    ensures forall k: nat :: r < k <= g ==> run[k].phase == run[g].phase
    ensures forall k: nat :: r <= k < g ==> !steps[k].Start?
  {
    assert g > 0 && StepAt(B, run, steps, g - 1);
    ReadingFrom(B, run[g - 1], run[g], steps[g - 1]);
    if steps[g - 1].ReadStatus? {
      r := g - 1;
    } else {
      r := ReadBegan(B, run, steps, g - 1);
    }
  }

  lemma SyncsFrom(B: string -> Content, m: Mesh, m': Mesh, step: MeshStep, s: Sync)
    requires NextMesh(B, m, m', step) && s in Syncs(m'.phase)
    ensures !step.Start?
    ensures s in Syncs(m.phase)
      || (step.ReadExpectation? && m.phase.Reading? && m.phase.sync == s && !Unmet(s, Get(m.hashExp, s.uid)))
  {
    if StreamEvent(B, m, m', step) {
      StreamEventTouches(B, m, m', step);
    } else if ReconcileEvent(B, m, m', step) {
      ReconcileSyncs(B, m, m', step, s);
    }
  }

  lemma ReconcileSyncs(B: string -> Content, m: Mesh, m': Mesh, step: MeshStep, s: Sync)
    requires ReconcileEvent(B, m, m', step) && s in Syncs(m'.phase)
    ensures !step.Start?
    ensures s in Syncs(m.phase)
      || (step.ReadExpectation? && m.phase.Reading? && m.phase.sync == s && !Unmet(s, Get(m.hashExp, s.uid)))
  {
  }

  /** Every pod that has passed the gate was read and judged by the Reconcile in progress. */
  lemma {:induction false} JudgementOf(B: string -> Content, run: seq<Mesh>, steps: seq<MeshStep>, i: nat, s: Sync)
    returns (r: nat, g: nat)
    requires MeshRun(B, run, steps) && i < |run| && s in Syncs(run[i].phase)
    ensures Judged(run, steps, r, g, i, s)
  {
    assert i > 0 && StepAt(B, run, steps, i - 1);
    SyncsFrom(B, run[i - 1], run[i], steps[i - 1], s);
    if s in Syncs(run[i - 1].phase) {
      r, g := JudgementOf(B, run, steps, i - 1, s);
    } else {
      g := i - 1;
      r := ReadBegan(B, run, steps, g);
    }
  }

  // ----- a true judgement stays true

  /** The status is true of the pod. */
  predicate TrueOf(m: Mesh, s: Sync) { s.uid in m.nodes && QuietNode(m.nodes[s.uid], s.status) }

  /** The pod runs, expects and is being sent nothing but `hash`. */
  predicate RunsOnly(m: Mesh, u: UID, hash: string) { u in m.nodes && SettledAt(m.nodes[u], hash) }

  /** What a true judgement comes to in each phase: true until the pod is sent to, and of one hash while dispatching. */
  predicate Truthful(m: Mesh, s: Sync) {
    match m.phase
    case Gating(_, _) => TrueOf(m, s)
    case Reading(_, _, _) => TrueOf(m, s)
    case Sending(job, rest) => StillTrue(m, job, rest, s)
    case Storing(job, _, rest) => StillTrue(m, job, rest, s)
    case _ => true
  }

  predicate StillTrue(m: Mesh, job: Job, rest: seq<Sync>, s: Sync) {
    (s in rest ==> TrueOf(m, s)) && (job.dispatch && s in job.all ==> RunsOnly(m, s.uid, job.hash))
  }

  lemma QuietStaysTruthful(m: Mesh, m': Mesh, s: Sync)
    requires Truthful(m, s) && m'.phase == m.phase && m.nodes.Keys <= m'.nodes.Keys
    requires s.uid in m.nodes ==> KeepsQuiet(m.nodes[s.uid], m'.nodes[s.uid])
    ensures Truthful(m', s)
  {
  }

  lemma PodStaysTruthful(m: Mesh, m': Mesh, step: MeshStep, s: Sync)
    requires PodEvent(m, m', step) && Truthful(m, s)
    ensures Truthful(m', s)
  {
    QuietStaysTruthful(m, m', s);
  }

  lemma StreamStaysTruthful(B: string -> Content, m: Mesh, m': Mesh, step: MeshStep, s: Sync)
    requires StreamEvent(B, m, m', step) && NodeOK(B, m, step.uid) && Truthful(m, s)
    ensures Truthful(m', s)
  {
    StreamEventTouches(B, m, m', step);
    StreamEventKeepsNode(B, m, m', step);
    QuietStaysTruthful(m, m', s);
  }

  lemma UnanimousIsTrue(m: Mesh, job: Job, s: Sync)
    requires TrueOf(m, s) && s in job.all && Unanimous(job)
    ensures RunsOnly(m, s.uid, job.hash)
  {
  }

  lemma DecideStaysTruthful(B: string -> Content, m: Mesh, m': Mesh, step: MeshStep, s: Sync)
    requires step.Decide? && ReconcileEvent(B, m, m', step) && PhaseOK(m') && TrueOf(m, s)
    ensures Truthful(m', s)
  {
    assert TrueOf(m', s);
    if m'.phase.Sending? && m'.phase.job.dispatch && s in m'.phase.job.all { UnanimousIsTrue(m', m'.phase.job, s); }
  }

  lemma SendStaysTruthful(B: string -> Content, m: Mesh, m': Mesh, ok: bool, s: Sync)
    requires ReconcileEvent(B, m, m', SendOne(ok)) && DistinctSyncs(m.phase.rest) && Truthful(m, s)
    ensures Truthful(m', s)
  {
    TailDiffers(m.phase.rest);
    var u := m.phase.rest[0].uid;
    if ok && s.uid == u {
      assert m'.nodes[u] == m.nodes[u].(down := m.nodes[u].down + [SpecOf(B, m.phase.job, u)]);
    }
  }

  lemma ReadStaysTruthful(B: string -> Content, m: Mesh, m': Mesh, step: MeshStep, s: Sync)
    requires (step.ReadStatus? || step.ReadExpectation?) && ReconcileEvent(B, m, m', step) && Truthful(m, s)
    ensures Truthful(m', s)
  {
    if step.ReadStatus? { ReadOnlyMoves(m); }
  }

  lemma OwnStepStaysTruthful(B: string -> Content, m: Mesh, m': Mesh, step: MeshStep, s: Sync)
    requires ReconcileEvent(B, m, m', step) && Truthful(m, s)
    requires step.GiveUp? || step.DeleteOne? || step.StoreExpectation? || step.Finish?
    ensures Truthful(m', s)
  {
  }

  lemma ReconcileStaysTruthful(B: string -> Content, m: Mesh, m': Mesh, step: MeshStep, s: Sync)
    requires PhaseOK(m) && PhaseOK(m') && ReconcileEvent(B, m, m', step) && !step.Start? && Truthful(m, s)
    ensures Truthful(m', s)
  {
    if step.ReadStatus? || step.ReadExpectation? {
      ReadStaysTruthful(B, m, m', step, s);
    } else if step.Decide? {
      DecideStaysTruthful(B, m, m', step, s);
    } else if step.SendOne? {
      SendStaysTruthful(B, m, m', step.ok, s);
    } else {
      OwnStepStaysTruthful(B, m, m', step, s);
    }
  }

  lemma StepStaysTruthful(B: string -> Content, m: Mesh, m': Mesh, step: MeshStep, s: Sync)
    requires MeshInv(B, m) && MeshInv(B, m') && NextMesh(B, m, m', step) && !step.Start? && Truthful(m, s)
    ensures Truthful(m', s)
  {
    if PodEvent(m, m', step) {
      PodStaysTruthful(m, m', step, s);
    } else if StreamEvent(B, m, m', step) {
      StreamEventAt(B, m, m', step);
      StreamStaysTruthful(B, m, m', step, s);
    } else {
      ReconcileStaysTruthful(B, m, m', step, s);
    }
  }

  lemma StaysTruthfulAt(B: string -> Content, run: seq<Mesh>, steps: seq<MeshStep>, k: nat, s: Sync)
    requires MeshRun(B, run, steps) && k < |steps| && !steps[k].Start? && Truthful(run[k], s)
    ensures Truthful(run[k + 1], s)
  {
    MeshAlwaysOK(B, run, steps, k);
    MeshAlwaysOK(B, run, steps, k + 1);
    assert StepAt(B, run, steps, k);
    StepStaysTruthful(B, run[k], run[k + 1], steps[k], s);
  }

  lemma {:induction false} TruthLasts(
    B: string -> Content, run: seq<Mesh>, steps: seq<MeshStep>, g: nat, i: nat, s: Sync)
    requires MeshRun(B, run, steps) && g <= i < |run| && Truthful(run[g], s)
    requires forall k: nat :: g <= k < i ==> !steps[k].Start?
    ensures Truthful(run[i], s)
  {
    if g == i {
    } else {
      TruthLasts(B, run, steps, g, i - 1, s);
      StaysTruthfulAt(B, run, steps, i - 1, s);
    }
  }

  // ----- the dispatch barrier

  /** The reading that the pod passed by was fair when made, and no drop of the expectation spoilt it later. */
  ghost predicate FairlyJudged(run: seq<Mesh>, steps: seq<MeshStep>, r: nat, g: nat, i: nat, s: Sync) {
    && Judged(run, steps, r, g, i, s) && Fair(run[r + 1])
    && forall k: nat :: r < k < g ==> ReadingHarmless(run[k], steps[k])
  }

  ghost predicate WellJudged(run: seq<Mesh>, steps: seq<MeshStep>, i: nat, s: Sync) {
    exists r: nat, g: nat :: FairlyJudged(run, steps, r, g, i, s)
  }

  lemma KnownWhenRead(B: string -> Content, run: seq<Mesh>, steps: seq<MeshStep>, k: nat)
    requires MeshRun(B, run, steps) && k < |run| && run[k].phase.Reading?
    ensures run[k].phase.sync.uid in run[k].nodes
  {
    MeshAlwaysOK(B, run, steps, k);
    ReadingKnown(run[k]);
  }

  lemma ReadPodKnown(B: string -> Content, run: seq<Mesh>, steps: seq<MeshStep>, r: nat, g: nat, i: nat, s: Sync)
    requires MeshRun(B, run, steps) && Judged(run, steps, r, g, i, s) && s.uid in run[i].cache
    ensures forall k: nat :: r < k <= i ==> s.uid in run[k].nodes && s.uid in run[k].cache
  {
    KnownWhenRead(B, run, steps, r + 1);
    forall k: nat | r < k <= i ensures s.uid in run[k].nodes && s.uid in run[k].cache {
      KnownStays(B, run, steps, r + 1, k, s.uid);
      ListedAllAlong(B, run, steps, k, i, s.uid);
    }
  }

  /** A fair reading is a true one: the pod is what its status says when it passes. */
  lemma FairMeansTrue(B: string -> Content, run: seq<Mesh>, steps: seq<MeshStep>, r: nat, g: nat, i: nat, s: Sync)
    requires MeshRun(B, run, steps) && FairlyJudged(run, steps, r, g, i, s) && s.uid in run[i].cache
    ensures TrueOf(run[g], s)
  {
    ReadPodKnown(B, run, steps, r, g, i, s);
    FairSoFar(B, run, steps, r + 1, g);
  }

  lemma JudgedTruly(B: string -> Content, run: seq<Mesh>, steps: seq<MeshStep>, i: nat, s: Sync)
    requires MeshRun(B, run, steps) && i < |run| && WellJudged(run, steps, i, s) && s.uid in run[i].cache
    ensures Truthful(run[i], s)
  {
    var r: nat, g: nat :| FairlyJudged(run, steps, r, g, i, s);
    FairMeansTrue(B, run, steps, r, g, i, s);
    TruthLasts(B, run, steps, g, i, s);
  }

  /**
   * No spec is sent before everything sent earlier has been acknowledged: what is still in flight has a hash the pod
   * reported.
   */
  lemma NoSpecBeforeAcknowledgement(B: string -> Content, run: seq<Mesh>, steps: seq<MeshStep>, i: nat, k: nat)
    requires MeshRun(B, run, steps) && i < |steps| && steps[i].SendOne? && run[i].phase.Sending?
    requires run[i].phase.rest != [] && WellJudged(run, steps, i, run[i].phase.rest[0])
    requires
      var u := run[i].phase.rest[0].uid;
      u in run[i].nodes && u in run[i].cache && k < |run[i].nodes[u].down|
    ensures
      var s := run[i].phase.rest[0];
      s.status.meta.Some? && run[i].nodes[s.uid].down[k].hash == s.status.meta.value.expectedHash
  {
    JudgedTruly(B, run, steps, i, run[i].phase.rest[0]);
  }

  predicate Dispatching(m: Mesh) {
    (m.phase.Sending? && m.phase.job.dispatch) || (m.phase.Storing? && m.phase.job.dispatch)
  }

  /** While a hash is being dispatched, a pod judged fairly runs, expects and is being sent nothing but that hash. */
  lemma DispatchBarrier(B: string -> Content, run: seq<Mesh>, steps: seq<MeshStep>, i: nat, s: Sync)
    requires MeshRun(B, run, steps) && i < |run| && Dispatching(run[i]) && s in run[i].phase.job.all
    requires s.uid in run[i].cache && WellJudged(run, steps, i, s)
    ensures RunsOnly(run[i], s.uid, run[i].phase.job.hash)
  {
    JudgedTruly(B, run, steps, i, s);
  }

  /** The pod passed this Reconcile's gates, or was connected all along. */
  predicate Covered(m: Mesh, u: UID) {
    && (m.phase.Sending? || m.phase.Storing?) && u in m.nodes && u in m.cache
    && (Watched(m, u) || Among(u, m.phase.job.all))
  }

  /** Every covered pod is one that was judged. */
  lemma CoveredMeansJudged(B: string -> Content, run: seq<Mesh>, steps: seq<MeshStep>, i: nat, u: UID)
    returns (r: nat, g: nat, s: Sync)
    requires MeshRun(B, run, steps) && i < |run| && Dispatching(run[i]) && Covered(run[i], u)
    ensures s in run[i].phase.job.all && s.uid == u && Judged(run, steps, r, g, i, s)
  {
    MeshAlwaysOK(B, run, steps, i);
    s := SyncFor(run[i], u);
    r, g := JudgementOf(B, run, steps, i, s);
  }

  lemma SyncFor(m: Mesh, u: UID) returns (s: Sync)
    requires PhaseOK(m) && Dispatching(m) && Covered(m, u)
    ensures s in m.phase.job.all && s.uid == u
  {
    var all := m.phase.job.all;
    assert Among(u, all);
    var k :| 0 <= k < |all| && all[k].uid == u;
    s := all[k];
  }

  lemma ReadsThePod(B: string -> Content, run: seq<Mesh>, steps: seq<MeshStep>, r: nat, g: nat, i: nat, s: Sync)
    requires MeshRun(B, run, steps) && Judged(run, steps, r, g, i, s)
    ensures ReconcileEvent(B, run[r], run[r + 1], ReadStatus) && run[r].phase.todo[0] == s.uid
    ensures Connected(run[r], s.uid) && s.uid in run[r].nodes
  {
    assert StepAt(B, run, steps, r);
    MeshAlwaysOK(B, run, steps, r);
  }

  /** Reading a stream in order is fair. */
  lemma OrderlyMeansFair(B: string -> Content, run: seq<Mesh>, steps: seq<MeshStep>, r: nat, g: nat, i: nat, s: Sync)
    requires MeshRun(B, run, steps) && Judged(run, steps, r, g, i, s) && InOrder(run[r], s.uid)
    requires forall k: nat :: r < k < g ==> ReadingHarmless(run[k], steps[k])
    ensures WellJudged(run, steps, i, s)
  {
    ReadsThePod(B, run, steps, r, g, i, s);
    MeshAlwaysOK(B, run, steps, r);
    ReadIsFair(B, run[r], run[r + 1]);
    assert FairlyJudged(run, steps, r, g, i, s);
  }

  /** At that moment the subsets are apart for good: the records of pods of different subsets share no namespace. */
  lemma DispatchMeansIsolation(
    B: string -> Content, run: seq<Mesh>, steps: seq<MeshStep>, i: nat, s: Sync, t: Sync, gr: GroupResource)
    requires MeshRun(B, run, steps) && i < |run| && Dispatching(run[i])
    requires s in run[i].phase.job.all && s.uid in run[i].nodes && s.uid in run[i].cache && WellJudged(run, steps, i, s)
    requires t in run[i].phase.job.all && t.uid in run[i].nodes && t.uid in run[i].cache && WellJudged(run, steps, i, t)
    requires
      var p, q := run[i].nodes[s.uid].proxy, run[i].nodes[t.uid].proxy;
      p.current.Some? && q.current.Some? && p.current.value.subset != q.current.value.subset
    requires
      var body := B(run[i].phase.job.hash).body;
      NoSubsetNamedPublic(body) && (!GRMatched(gr, body.publicResources) || NamedBySome(body.subsetLimits, gr))
    requires Plain(gr) && !gr.Empty()
    ensures Passed(run[i].nodes[s.uid].proxy.pack, gr) !! Passed(run[i].nodes[t.uid].proxy.pack, gr)
  {
    DispatchBarrier(B, run, steps, i, s);
    DispatchBarrier(B, run, steps, i, t);
    MeshAlwaysOK(B, run, steps, i);
    assert NodeOK(B, run[i], s.uid) && NodeOK(B, run[i], t.uid);
    HistoriesDisjoint(B, run[i].nodes[s.uid].proxy, run[i].nodes[t.uid].proxy, gr);
  }

  // ----- runs in which every covered pod is judged fairly

  /** The barrier, for a pod whose stream is in order when it is read and whose reading no drop spoils. */
  lemma OrderlyBarrier(B: string -> Content, run: seq<Mesh>, steps: seq<MeshStep>, r: nat, g: nat, i: nat, s: Sync)
    requires MeshRun(B, run, steps) && Judged(run, steps, r, g, i, s) && InOrder(run[r], s.uid)
    requires forall k: nat :: r < k < g ==> ReadingHarmless(run[k], steps[k])
    requires Dispatching(run[i]) && s in run[i].phase.job.all && s.uid in run[i].cache
    ensures RunsOnly(run[i], s.uid, run[i].phase.job.hash)
  {
    OrderlyMeansFair(B, run, steps, r, g, i, s);
    DispatchBarrier(B, run, steps, i, s);
  }

  /** Neither harms the stream of `u` nor spoils a reading of it. */
  ghost predicate Harmless(m: Mesh, step: MeshStep, u: UID) {
    Drops(step, u) ==> !HarmsStream(m, u) && !HarmsReading(m, u)
  }

  /**
   * The barrier holds for a covered pod if its stream was in order when the Reconcile began and no drop since then was
   * harmful.
   */
  lemma HarmlessBarrier(B: string -> Content, run: seq<Mesh>, steps: seq<MeshStep>, b: nat, i: nat, u: UID)
    requires MeshRun(B, run, steps) && b < i < |run| && steps[b].Start? && InOrder(run[b], u)
    requires forall k: nat :: b <= k < i ==> Harmless(run[k], steps[k], u)
    requires Dispatching(run[i]) && Covered(run[i], u)
    ensures RunsOnly(run[i], u, run[i].phase.job.hash)
  {
    var r, g, s := CoveredMeansJudged(B, run, steps, i, u);
    ReadsThePod(B, run, steps, r, g, i, s);
    ListedAllAlong(B, run, steps, r, i, u);
    assert b < r;
    StaysInOrder(B, run, steps, b, r, u);
    OrderlyBarrier(B, run, steps, r, g, i, s);
  }

  /**
   * What a handler could check in the manager's memory before it drops an expectation: nothing was sent on this
   * stream or the status in hand fulfils the expectation, and so does the status being read.
   */
  ghost predicate Cautious(m: Mesh, step: MeshStep, u: UID) {
    Drops(step, u) ==>
      && (u in m.conns ==> m.conns[u].sendTimes == 0 || HashGateOpen(m, u))
      && (m.phase.Reading? && m.phase.sync.uid == u ==> !Unmet(m.phase.sync, Get(m.hashExp, u)))
  }

  /** A cautious drop never harms a stream in order. */
  lemma CautionSparesStream(B: string -> Content, m: Mesh, step: MeshStep, u: UID)
    requires AllNodesOK(B, m) && InOrder(m, u) && Cautious(m, step, u)
    ensures DropHarmless(m, step, u)
  {
    if Drops(step, u) && Connected(m, u) && u in m.nodes && !StoringFor(m, u) {
      assert NodeOK(B, m, u);
      if HashGateOpen(m, u) {
        OrderMeansSound(B, m, u);
      } else {
        ClearingIsSafeExactly(m.conns[u], m.nodes[u], None);
      }
    }
  }

  lemma {:induction false} CautionKeepsOrder(
    B: string -> Content, run: seq<Mesh>, steps: seq<MeshStep>, i: nat, u: UID)
    requires MeshRun(B, run, steps) && i < |run| && u in run[i].cache
    requires forall k: nat :: k < i ==> Cautious(run[k], steps[k], u)
    ensures InOrder(run[i], u)
  {
    if i == 0 {
    } else {
      if u in run[i - 1].nodes {
        ListedAllAlong(B, run, steps, i - 1, i, u);
        CautionKeepsOrder(B, run, steps, i - 1, u);
      }
      MeshAlwaysOK(B, run, steps, i - 1);
      CautionSparesStream(B, run[i - 1], steps[i - 1], u);
      StepStaysInOrder(B, run, steps, i - 1, u);
    }
  }

  lemma {:induction false} CautionKeepsFair(
    B: string -> Content, run: seq<Mesh>, steps: seq<MeshStep>, r: nat, g: nat, u: UID)
    requires MeshRun(B, run, steps) && r <= g < |run| && forall k: nat :: r <= k <= g ==> StillReading(run, r, k)
    requires run[r].phase.Reading? && run[r].phase.sync.uid == u && Fair(run[r])
    requires forall k: nat :: r <= k < g ==> Cautious(run[k], steps[k], u)
    ensures forall k: nat :: r <= k < g ==> ReadingHarmless(run[k], steps[k])
  {
    if r == g {
    } else {
      CautionKeepsFair(B, run, steps, r, g - 1, u);
      FairSoFar(B, run, steps, r, g - 1);
      assert StillReading(run, r, g - 1) && Cautious(run[g - 1], steps[g - 1], u);
    }
  }

  /** With that check in the handlers the barrier would hold for every covered pod of every run. */
  lemma CautiousBarrier(B: string -> Content, run: seq<Mesh>, steps: seq<MeshStep>, i: nat, u: UID)
    requires MeshRun(B, run, steps) && i < |run| && forall k: nat :: k < i ==> Cautious(run[k], steps[k], u)
    requires Dispatching(run[i]) && Covered(run[i], u)
    ensures RunsOnly(run[i], u, run[i].phase.job.hash)
  {
    var r, g, s := CoveredMeansJudged(B, run, steps, i, u);
    ReadsThePod(B, run, steps, r, g, i, s);
    ListedAllAlong(B, run, steps, r, i, u);
    CautionKeepsOrder(B, run, steps, r, u);
    MeshAlwaysOK(B, run, steps, r);
    ReadIsFair(B, run[r], run[r + 1]);
    ReadPodKnown(B, run, steps, r, g, i, s);
    CautionKeepsFair(B, run, steps, r + 1, g, u);
    OrderlyBarrier(B, run, steps, r, g, i, s);
  }

  /** The three pairs of accesses happen without anything in between. */
  ghost predicate Undivided(run: seq<Mesh>, steps: seq<MeshStep>, k: nat)
    requires |run| == |steps| + 1 && k < |steps|
  {
    && (steps[k].RegisterClear? ==> k > 0 && steps[k - 1].RegisterStore? && steps[k - 1].uid == steps[k].uid)
    && (k > 0 && steps[k - 1].ExitClear? ==> steps[k] == ExitMark(steps[k - 1].uid))
    && (run[k].phase.Reading? ==> steps[k].ReadExpectation?)
  }

  /** The second half of a registration that nothing was sent in the middle of is harmless. */
  lemma FreshClearHarmless(B: string -> Content, run: seq<Mesh>, steps: seq<MeshStep>, k: nat)
    requires MeshRun(B, run, steps) && k + 1 < |steps| && steps[k].RegisterStore?
    ensures !HarmsStream(run[k + 1], steps[k].uid)
  {
    var u, m := steps[k].uid, run[k + 1];
    assert StepAt(B, run, steps, k);
    MeshAlwaysOK(B, run, steps, k + 1);
    assert m.conns[u].sendTimes == 0 && NodeOK(B, m, u);
    ClearingIsSafeExactly(m.conns[u], m.nodes[u], None);
  }

  lemma UndividedStep(B: string -> Content, run: seq<Mesh>, steps: seq<MeshStep>, k: nat, u: UID)
    requires MeshRun(B, run, steps) && k < |steps| && Undivided(run, steps, k) && u in run[k + 1].cache
    requires InOrder(run[k], u) || (k > 0 && steps[k - 1] == ExitClear(u))
    ensures InOrder(run[k + 1], u) || steps[k] == ExitClear(u)
  {
    if k > 0 && steps[k - 1] == ExitClear(u) {
      assert StepAt(B, run, steps, k);
    } else {
      if steps[k] == RegisterClear(u) { FreshClearHarmless(B, run, steps, k - 1); }
      StepStaysInOrder(B, run, steps, k, u);
    }
  }

  lemma {:induction false} UndividedKeepsOrder(
    B: string -> Content, run: seq<Mesh>, steps: seq<MeshStep>, i: nat, u: UID)
    requires MeshRun(B, run, steps) && i < |run| && u in run[i].cache
    requires forall k: nat :: k < i ==> Undivided(run, steps, k)
    ensures InOrder(run[i], u) || (i > 0 && steps[i - 1] == ExitClear(u))
  {
    if i == 0 {
    } else {
      if u in run[i - 1].nodes {
        ListedAllAlong(B, run, steps, i - 1, i, u);
        UndividedKeepsOrder(B, run, steps, i - 1, u);
      }
      UndividedStep(B, run, steps, i - 1, u);
    }
  }

  /** If each of the three pairs were one step, the barrier would hold for every covered pod of every run. */
  lemma UndividedBarrier(B: string -> Content, run: seq<Mesh>, steps: seq<MeshStep>, i: nat, u: UID)
    requires MeshRun(B, run, steps) && i < |run| && forall k: nat :: k < i ==> Undivided(run, steps, k)
    requires Dispatching(run[i]) && Covered(run[i], u)
    ensures RunsOnly(run[i], u, run[i].phase.job.hash)
  {
    var r, g, s := CoveredMeansJudged(B, run, steps, i, u);
    ReadsThePod(B, run, steps, r, g, i, s);
    ListedAllAlong(B, run, steps, r, i, u);
    UndividedKeepsOrder(B, run, steps, r, u);
    assert Undivided(run, steps, r);
    forall k: nat | r < k < g ensures ReadingHarmless(run[k], steps[k]) {
      assert Undivided(run, steps, k);
    }
    OrderlyBarrier(B, run, steps, r, g, i, s);
  }

  // ----- deletions

  predicate Acting(m: Mesh) { m.phase.Deleting? || m.phase.Sending? || m.phase.Storing? }

  lemma StepKeepsDeleted(B: string -> Content, m: Mesh, m': Mesh, step: MeshStep)
    requires NextMesh(B, m, m', step)
    ensures m.deleted <= m'.deleted
    ensures m'.before == if step.Start? then m.deleted else m.before
  {
    if PodEvent(m, m', step) {
    } else if StreamEvent(B, m, m', step) {
      StreamEventTouches(B, m, m', step);
    } else {
      ReconcileKeepsDeleted(B, m, m', step);
    }
  }

  lemma ReconcileKeepsDeleted(B: string -> Content, m: Mesh, m': Mesh, step: MeshStep)
    requires ReconcileEvent(B, m, m', step)
    ensures m.deleted <= m'.deleted
    ensures m'.before == if step.Start? then m.deleted else m.before
  {
  }

  lemma {:induction false} DeletedStays(B: string -> Content, run: seq<Mesh>, steps: seq<MeshStep>, i: nat, j: nat)
    requires MeshRun(B, run, steps) && i <= j < |run|
    ensures run[i].deleted <= run[j].deleted
  {
    if i == j {
    } else {
      DeletedStays(B, run, steps, i, j - 1);
      assert StepAt(B, run, steps, j - 1);
      StepKeepsDeleted(B, run[j - 1], run[j], steps[j - 1]);
    }
  }

  lemma {:induction false} BeforeIsFixed(B: string -> Content, run: seq<Mesh>, steps: seq<MeshStep>, s: nat, j: nat)
    requires MeshRun(B, run, steps) && s < j < |run| && steps[s].Start? && forall k :: s < k < j ==> !steps[k].Start?
    ensures run[j].before == run[s].deleted
  {
    assert StepAt(B, run, steps, j - 1);
    StepKeepsDeleted(B, run[j - 1], run[j], steps[j - 1]);
    if s + 1 < j { BeforeIsFixed(B, run, steps, s, j - 1); }
  }

  lemma ClearedHere(m: Mesh, u: UID)
    requires PhaseOK(m) && Acting(m) && u in m.before
    ensures Cleared(m, u)
  {
    assert u in [] || Cleared(m, u);
  }

  /**
   * After a pod is deleted, no later Reconcile deletes, updates or dispatches anything unless it saw the pod stopped or
   * absent, or the pod is gone.
   */
  lemma HandoffSafety(B: string -> Content, run: seq<Mesh>, steps: seq<MeshStep>, d: nat, s: nat, j: nat)
    requires MeshRun(B, run, steps) && d < s < j < |run|
    requires steps[d] == DeleteOne(true) && run[d].phase.Deleting? && run[d].phase.doomed != []
    requires steps[s].Start? && (forall k :: s < k < j ==> !steps[k].Start?) && Acting(run[j])
    ensures Cleared(run[j], run[d].phase.doomed[0])
  {
    var u := run[d].phase.doomed[0];
    assert StepAt(B, run, steps, d);
    assert u in run[d + 1].deleted;
    DeletedStays(B, run, steps, d + 1, s);
    BeforeIsFixed(B, run, steps, s, j);
    MeshAlwaysOK(B, run, steps, j);
    ClearedHere(run[j], u);
  }

  /**
   * A Reconcile that deletes leaders found no non-leader to replace; the ones deleted earlier fall under HandoffSafety.
   */
  lemma LeadersGoLast(
    B: string -> Content, m: Mesh, m': Mesh, app: string, hash: string, subsetOf: UID -> string, x: Sync)
    requires NextMesh(B, m, m', Decide(app, hash, subsetOf)) && m'.phase.Deleting? && m'.phase.leader
    requires x in m.phase.syncs && ClassOf(x, subsetOf(x.uid), hash) == Replace
    ensures x.status.leader && x.uid in m'.phase.doomed
  {
    PlanSorts(m.phase.syncs, subsetOf, hash);
    var plan := PlanOf(m.phase.syncs, subsetOf, hash);
    assert x in plan.leaders;
    var i :| 0 <= i < |plan.leaders| && plan.leaders[i] == x;
    assert Uids(plan.leaders)[i] == x.uid;
  }

  // ----- replacement for a mismatch of hashes

  predicate AmongReports(meta: Option<MetaState>, reports: seq<Report>) {
    exists k :: 0 <= k < |reports| && reports[k].meta == meta
  }

  predicate AmongSyncs(u: UID, meta: Option<MetaState>, syncs: seq<Sync>) {
    exists k :: 0 <= k < |syncs| && syncs[k].uid == u && syncs[k].status.meta == meta
  }

  /** Somewhere between the pod and the decision there is a report that says `meta`. */
  predicate Circulates(m: Mesh, u: UID, meta: Option<MetaState>) {
    || (u in m.conns && m.conns[u].status.meta == meta)
    || (u in m.nodes && AmongReports(meta, m.nodes[u].up))
    || (m.phase.Reading? && m.phase.sync.uid == u && m.phase.sync.status.meta == meta)
    || ((m.phase.Gating? || m.phase.Reading?) && AmongSyncs(u, meta, m.phase.syncs))
  }

  predicate SaysNow(m: Mesh, u: UID, meta: Option<MetaState>) {
    u in m.nodes && Reportable(m.nodes[u].proxy) && meta == StatusOf(m.nodes[u].proxy)
  }

  lemma StreamCirculates(B: string -> Content, m: Mesh, m': Mesh, step: MeshStep, u: UID, meta: Option<MetaState>)
    requires StreamEvent(B, m, m', step) && Circulates(m', u, meta)
    ensures Circulates(m, u, meta) || SaysNow(m, u, meta)
  {
    StreamEventTouches(B, m, m', step);
    if u in m'.nodes && AmongReports(meta, m'.nodes[u].up) {
      var k :| 0 <= k < |m'.nodes[u].up| && m'.nodes[u].up[k].meta == meta;
      if step.ReceiveReport? && step.uid == u { assert m.nodes[u].up[k + 1].meta == meta; }
      else if k < |m.nodes[u].up| { assert m.nodes[u].up[k].meta == meta; }
    }
    if step.ReceiveReport? && step.uid == u && m'.conns[u].status.meta == meta {
      assert m.nodes[u].up[0].meta == meta;
    }
  }

  lemma ReconcileCirculates(B: string -> Content, m: Mesh, m': Mesh, step: MeshStep, u: UID, meta: Option<MetaState>)
    requires ReconcileEvent(B, m, m', step) && Circulates(m', u, meta)
    ensures Circulates(m, u, meta)
  {
    ReconcileKeepsStreams(B, m, m', step, u);
    if step.ReadStatus? {
      ReadCirculates(m, u, meta);
    } else if step.ReadExpectation? {
      GateCirculates(m, u, meta);
    }
  }

  lemma ReadCirculates(m: Mesh, u: UID, meta: Option<MetaState>)
    requires m.phase.Gating? && m.phase.todo != [] && m.phase.todo[0] in m.snap && Circulates(AfterRead(m), u, meta)
    ensures Circulates(m, u, meta)
  {
  }

  lemma GateCirculates(m: Mesh, u: UID, meta: Option<MetaState>)
    requires m.phase.Reading? && Circulates(AfterGate(m), u, meta)
    ensures Circulates(m, u, meta)
  {
    var syncs := m.phase.syncs + [m.phase.sync];
    if AmongSyncs(u, meta, syncs) {
      var k :| 0 <= k < |syncs| && syncs[k].uid == u && syncs[k].status.meta == meta;
      if k < |m.phase.syncs| { assert m.phase.syncs[k] == syncs[k]; }
    }
  }

  lemma StepCirculates(B: string -> Content, m: Mesh, m': Mesh, step: MeshStep, u: UID, meta: Option<MetaState>)
    requires NextMesh(B, m, m', step) && Circulates(m', u, meta)
    ensures Circulates(m, u, meta) || SaysNow(m, u, meta)
  {
    if StreamEvent(B, m, m', step) {
      StreamCirculates(B, m, m', step, u, meta);
    } else if ReconcileEvent(B, m, m', step) {
      ReconcileCirculates(B, m, m', step, u, meta);
    }
  }

  lemma CirculatedBefore(
    B: string -> Content, run: seq<Mesh>, steps: seq<MeshStep>, k: nat, u: UID, meta: Option<MetaState>)
    requires MeshRun(B, run, steps) && k < |steps| && Circulates(run[k + 1], u, meta)
    ensures Circulates(run[k], u, meta) || SaysNow(run[k], u, meta)
  {
    assert StepAt(B, run, steps, k);
    StepCirculates(B, run[k], run[k + 1], steps[k], u, meta);
  }

  /** Every report the manager holds was true of the pod's proxy at some moment. */
  lemma {:induction false} ReportsAreTrue(
    B: string -> Content, run: seq<Mesh>, steps: seq<MeshStep>, i: nat, u: UID, meta: Option<MetaState>)
    returns (j: nat)
    requires MeshRun(B, run, steps) && i < |run| && Circulates(run[i], u, meta)
    ensures j < i && SaysNow(run[j], u, meta)
  {
    assert i > 0;
    CirculatedBefore(B, run, steps, i - 1, u, meta);
    if Circulates(run[i - 1], u, meta) {
      j := ReportsAreTrue(B, run, steps, i - 1, u, meta);
    } else {
      j := i - 1;
    }
  }

  /** What a report says of subset, hashes and refusal is what the proxy ran, expected and gave as its reason then. */
  lemma ReportsSayWhatRuns(
    B: string -> Content, run: seq<Mesh>, steps: seq<MeshStep>, i: nat, u: UID, meta: MetaState) returns (j: nat)
    requires MeshRun(B, run, steps) && i < |run| && Circulates(run[i], u, Some(meta))
    ensures j < i && u in run[j].nodes
    ensures
      var p := run[j].nodes[u].proxy;
      && p.current.Some? && p.expected.Some? && p.current.value.subset == meta.subset
      && p.current.value.hash == meta.currentHash && p.expected.value.hash == meta.expectedHash
      && p.reason == meta.unloadReason
  {
    j := ReportsAreTrue(B, run, steps, i, u, Some(meta));
  }

  /**
   * A pod that Reconcile replaces because its two hashes differ had refused the spec it expects when it said so, if
   * and only if it was not inside an update at that moment.
   */
  lemma ReplacementMeansRefusal(
    B: string -> Content, run: seq<Mesh>, steps: seq<MeshStep>, i: nat, s: Sync) returns (j: nat)
    requires MeshRun(B, run, steps) && i < |run| && run[i].phase.Gating? && s in run[i].phase.syncs
    requires s.status.meta.Some? && s.status.meta.value.expectedHash != s.status.meta.value.currentHash
    ensures forall subset, hash :: ClassOf(s, subset, hash) == Replace
    ensures j < i && SaysNow(run[j], s.uid, s.status.meta) && Mismatch(run[j].nodes[s.uid].proxy)
    ensures NewHashRefused(run[j].nodes[s.uid].proxy) <==> !run[j].nodes[s.uid].proxy.updating
  {
    var k :| 0 <= k < |run[i].phase.syncs| && run[i].phase.syncs[k] == s;
    j := ReportsAreTrue(B, run, steps, i, s.uid, s.status.meta);
    MeshAlwaysOK(B, run, steps, j);
    assert NodeOK(B, run[j], s.uid);
    MismatchExactly(B, run[j].nodes[s.uid].proxy);
  }

  /** Inside an update the report asks for the pod's replacement, however loadable the spec is. */
  lemma UpdateWindowLooksRejected(
    B: string -> Content, s: State, s': State, spec: Spec, leader: bool, u: UID, gen: nat, subset: string, hash: string)
    requires Inv(B, s) && s.current.Some? && NextStep(B, s, s', WriteExpected(spec))
    requires spec.hash != s.current.value.hash
    ensures StatusOf(s').Some? && ClassOf(Sync(u, gen, Report(StatusOf(s'), leader), true), subset, hash) == Replace
  {
  }
}
