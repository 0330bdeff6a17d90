/** How often something was sent on each stream, and what Reconcile makes of it. */
module MeshSends {
  import opened Text
  import opened Routes
  import opened SpecManagers
  import opened Manager
  import opened MeshProtocol
  import opened MeshSafety
  import opened MeshOrder
  import opened MeshTheorems
  import opened MeshGate

  // ----- sends are counted per stream

  /** A send, successful or not, on the stream that the pod was judged by. */
  ghost predicate SendsOn(m: Mesh, step: MeshStep, u: UID, gen: nat) {
    step.SendOne? && m.phase.Sending? && m.phase.rest != [] && m.phase.rest[0].uid == u && m.phase.rest[0].gen == gen
  }

  ghost function SendsSoFar(run: seq<Mesh>, steps: seq<MeshStep>, i: nat, u: UID, gen: nat): nat
    requires |run| == |steps| + 1 && i <= |steps|
  {
    if i == 0 then 0
    else SendsSoFar(run, steps, i - 1, u, gen) + if SendsOn(run[i - 1], steps[i - 1], u, gen) then 1 else 0
  }

  predicate KnownStream(m: Mesh, s: Sync) { s.uid in m.nodes && s.gen <= m.nodes[s.uid].gen }

  predicate KnownStreams(m: Mesh, syncs: seq<Sync>) { forall s :: s in syncs ==> KnownStream(m, s) }

  /** No stream is judged or sent on that the pod has not opened. */
  ghost predicate StreamsOK(m: Mesh) {
    && m.conns.Keys <= m.nodes.Keys && (forall u :: u in m.conns ==> m.conns[u].gen <= m.nodes[u].gen)
    && match m.phase
       case Gating(_, syncs) => KnownStreams(m, syncs)
       case Reading(sync, _, syncs) => KnownStream(m, sync) && KnownStreams(m, syncs)
       case Sending(job, rest) => KnownStreams(m, rest)
       case Storing(job, _, rest) => KnownStreams(m, rest)
       case _ => true
  }

  ghost predicate GensGrow(m: Mesh, m': Mesh) {
    && m.nodes.Keys <= m'.nodes.Keys && (forall u :: u in m.nodes ==> m.nodes[u].gen <= m'.nodes[u].gen)
    && m'.conns.Keys <= m'.nodes.Keys && (forall u :: u in m'.conns ==> m'.conns[u].gen <= m'.nodes[u].gen)
  }

  lemma PodOpensNone(m: Mesh, m': Mesh, step: MeshStep)
    requires m.conns.Keys <= m.nodes.Keys && forall u :: u in m.conns ==> m.conns[u].gen <= m.nodes[u].gen
    requires PodEvent(m, m', step)
    ensures GensGrow(m, m')
  {
  }

  lemma StreamOpens(B: string -> Content, m: Mesh, m': Mesh, step: MeshStep)
    requires m.conns.Keys <= m.nodes.Keys && forall u :: u in m.conns ==> m.conns[u].gen <= m.nodes[u].gen
    requires StreamEvent(B, m, m', step)
    ensures GensGrow(m, m')
  {
    StreamEventTouches(B, m, m', step);
    StreamOpensAt(B, m, m', step);
  }

  lemma StreamOpensAt(B: string -> Content, m: Mesh, m': Mesh, step: MeshStep)
    requires StreamEvent(B, m, m', step)
    ensures
      var u := step.uid;
      && u in m.nodes && u in m'.nodes && m.nodes[u].gen <= m'.nodes[u].gen
      && (u in m'.conns ==>
            m'.conns[u].gen == m'.nodes[u].gen || (u in m.conns && m'.conns[u].gen == m.conns[u].gen))
  {
  }

  lemma OutsideOpensStreams(B: string -> Content, m: Mesh, m': Mesh, step: MeshStep)
    requires m.conns.Keys <= m.nodes.Keys && forall u :: u in m.conns ==> m.conns[u].gen <= m.nodes[u].gen
    requires PodEvent(m, m', step) || StreamEvent(B, m, m', step)
    ensures GensGrow(m, m')
  {
    if PodEvent(m, m', step) {
      PodOpensNone(m, m', step);
    } else {
      StreamOpens(B, m, m', step);
    }
  }

  lemma ReconcileOpensNone(B: string -> Content, m: Mesh, m': Mesh, step: MeshStep)
    requires ReconcileEvent(B, m, m', step)
    ensures m'.nodes.Keys == m.nodes.Keys && forall u :: u in m.nodes ==> m'.nodes[u].gen == m.nodes[u].gen
    ensures m'.conns.Keys == m.conns.Keys && forall u :: u in m.conns ==> m'.conns[u].gen == m.conns[u].gen
  {
    if step.ReadStatus? { ReadOnlyMoves(m); }
  }

  lemma ReadKnowsStream(m: Mesh)
    requires StreamsOK(m) && m.phase.Gating? && m.phase.todo != [] && m.phase.todo[0] in m.snap
    ensures StreamsOK(AfterRead(m))
  {
    ReadOnlyMoves(m);
  }

  lemma DecideKnowsStreams(B: string -> Content, m: Mesh, m': Mesh, step: MeshStep)
    requires StreamsOK(m) && step.Decide? && ReconcileEvent(B, m, m', step)
    ensures StreamsOK(m')
  {
    forall s ensures s in PlanOf(m.phase.syncs, step.subsetOf, step.hash).update ==> s in m.phase.syncs
      ensures s in PlanOf(m.phase.syncs, step.subsetOf, step.hash).dispatch ==> s in m.phase.syncs
    {
      PlanExactly(m.phase.syncs, step.subsetOf, step.hash, s);
    }
  }

  lemma SendKnowsStreams(B: string -> Content, m: Mesh, m': Mesh, step: MeshStep)
    requires StreamsOK(m) && step.SendOne? && ReconcileEvent(B, m, m', step)
    ensures StreamsOK(m')
  {
    ReconcileOpensNone(B, m, m', step);
    assert forall s :: s in m.phase.rest[1..] ==> s in m.phase.rest;
  }

  lemma ReconcileKnowsStreams(B: string -> Content, m: Mesh, m': Mesh, step: MeshStep)
    requires StreamsOK(m) && ReconcileEvent(B, m, m', step)
    ensures StreamsOK(m')
  {
    if step.ReadStatus? {
      ReadKnowsStream(m);
    } else if step.Decide? {
      DecideKnowsStreams(B, m, m', step);
    } else if step.SendOne? {
      SendKnowsStreams(B, m, m', step);
    } else {
      ReconcileOpensNone(B, m, m', step);
    }
  }

  lemma StepKnowsStreams(B: string -> Content, m: Mesh, m': Mesh, step: MeshStep)
    requires StreamsOK(m) && NextMesh(B, m, m', step)
    ensures StreamsOK(m')
  {
    if ReconcileEvent(B, m, m', step) {
      ReconcileKnowsStreams(B, m, m', step);
    } else {
      OutsideLeaves(B, m, m', step);
      OutsideOpensStreams(B, m, m', step);
    }
  }

  lemma {:induction false} StreamsKnown(B: string -> Content, run: seq<Mesh>, steps: seq<MeshStep>, i: nat)
    requires MeshRun(B, run, steps) && i < |run|
    ensures StreamsOK(run[i])
  {
    if i == 0 {
    } else {
      StreamsKnown(B, run, steps, i - 1);
      assert StepAt(B, run, steps, i - 1);
      StepKnowsStreams(B, run[i - 1], run[i], steps[i - 1]);
    }
  }

  lemma StepKeepsGen(B: string -> Content, m: Mesh, m': Mesh, step: MeshStep, u: UID)
    requires StreamsOK(m) && NextMesh(B, m, m', step) && u in m.nodes
    ensures u in m'.nodes && m.nodes[u].gen <= m'.nodes[u].gen
  {
    if ReconcileEvent(B, m, m', step) {
      ReconcileOpensNone(B, m, m', step);
    } else {
      OutsideOpensStreams(B, m, m', step);
    }
  }

  lemma UnopenedBefore(B: string -> Content, run: seq<Mesh>, steps: seq<MeshStep>, k: nat, u: UID, gen: nat)
    requires MeshRun(B, run, steps) && k < |steps| && (u in run[k + 1].nodes ==> run[k + 1].nodes[u].gen < gen)
    ensures (u in run[k].nodes ==> run[k].nodes[u].gen < gen) && !SendsOn(run[k], steps[k], u, gen)
  {
    StreamsKnown(B, run, steps, k);
    assert StepAt(B, run, steps, k);
    if u in run[k].nodes { StepKeepsGen(B, run[k], run[k + 1], steps[k], u); }
    assert run[k].phase.Sending? && run[k].phase.rest != [] ==> KnownStream(run[k], run[k].phase.rest[0]);
  }

  /** Nothing was ever sent on a stream that the pod has not opened yet. */
  lemma {:induction false} NotSentBeforeOpened(
    B: string -> Content, run: seq<Mesh>, steps: seq<MeshStep>, i: nat, u: UID, gen: nat)
    requires MeshRun(B, run, steps) && i < |run| && (u in run[i].nodes ==> run[i].nodes[u].gen < gen)
    ensures SendsSoFar(run, steps, i, u, gen) == 0
  {
    if i == 0 {
    } else {
      UnopenedBefore(B, run, steps, i - 1, u, gen);
      NotSentBeforeOpened(B, run, steps, i - 1, u, gen);
    }
  }

  lemma CountStep(B: string -> Content, m: Mesh, m': Mesh, step: MeshStep, u: UID)
    requires StreamsOK(m) && NextMesh(B, m, m', step) && u in m'.conns
    ensures
      || (step.RegisterStore? && step.uid == u && u in m.nodes && !SendsOn(m, step, u, m'.conns[u].gen)
          && m'.conns[u].gen == m.nodes[u].gen + 1 && m'.conns[u].sendTimes == 0)
      || (u in m.conns && m'.conns[u].gen == m.conns[u].gen && m'.conns[u].sendTimes ==
            m.conns[u].sendTimes + if SendsOn(m, step, u, m.conns[u].gen) then 1 else 0)
  {
    if ReconcileEvent(B, m, m', step) {
      ReconcileCounts(B, m, m', step, u);
    } else if StreamEvent(B, m, m', step) {
      StreamCounts(B, m, m', step, u);
    } else {
      PodConnects(m, m', step);
    }
  }

  lemma StreamCounts(B: string -> Content, m: Mesh, m': Mesh, step: MeshStep, u: UID)
    requires StreamEvent(B, m, m', step) && u in m'.conns
    ensures !step.SendOne?
    ensures
      || (step.RegisterStore? && step.uid == u && u in m.nodes
          && m'.conns[u].gen == m.nodes[u].gen + 1 && m'.conns[u].sendTimes == 0)
      || (u in m.conns && m'.conns[u].gen == m.conns[u].gen && m'.conns[u].sendTimes == m.conns[u].sendTimes)
  {
  }

  lemma ReconcileCounts(B: string -> Content, m: Mesh, m': Mesh, step: MeshStep, u: UID)
    requires ReconcileEvent(B, m, m', step) && u in m'.conns
    ensures u in m.conns && m'.conns[u].gen == m.conns[u].gen
    ensures m'.conns[u].sendTimes == m.conns[u].sendTimes + if SendsOn(m, step, u, m.conns[u].gen) then 1 else 0
  {
    if step.ReadStatus? { ReadOnlyMoves(m); }
  }

  /** A connection's counter is the number of sends on its very stream, over the whole run. */
  lemma {:induction false} SendsAreCounted(
    B: string -> Content, run: seq<Mesh>, steps: seq<MeshStep>, i: nat, u: UID)
    requires MeshRun(B, run, steps) && i < |run| && u in run[i].conns
    ensures run[i].conns[u].sendTimes == SendsSoFar(run, steps, i, u, run[i].conns[u].gen)
  {
    if i == 0 {
      assert false;
    } else {
      StreamsKnown(B, run, steps, i - 1);
      assert StepAt(B, run, steps, i - 1);
      CountStep(B, run[i - 1], run[i], steps[i - 1], u);
      if steps[i - 1].RegisterStore? && steps[i - 1].uid == u {
        NotSentBeforeOpened(B, run, steps, i - 1, u, run[i].conns[u].gen);
      } else {
        SendsAreCounted(B, run, steps, i - 1, u);
      }
    }
  }

  /** A pod that already runs the dispatched hash is sent it again exactly if nothing was sent on its stream so far. */
  lemma RedispatchExactly(B: string -> Content, run: seq<Mesh>, steps: seq<MeshStep>, r: nat, g: nat, i: nat, s: Sync)
    requires MeshRun(B, run, steps) && i < |steps| && steps[i].Decide? && Judged(run, steps, r, g, i, s)
    requires Dispatching(run[i + 1]) && s in run[i + 1].phase.job.all
    ensures run[i + 1].phase.Sending? && s.uid in run[r].conns
    ensures s in run[i + 1].phase.rest <==> s.status.meta.None? || SendsSoFar(run, steps, r, s.uid, s.gen) == 0
  {
    JudgedPodsQualify(B, run, steps, r, g, i, s);
    assert StepAt(B, run, steps, i);
    DecidesFor(B, run[i], run[i + 1], steps[i], s);
    SendsAreCounted(B, run, steps, r, s.uid);
  }

  lemma DecidesFor(B: string -> Content, m: Mesh, m': Mesh, step: MeshStep, s: Sync)
    requires step.Decide? && ReconcileEvent(B, m, m', step) && Dispatching(m') && s in m'.phase.job.all
    ensures m'.phase.Sending? && (s in m'.phase.rest <==> s.status.meta.None? || !s.dispatched)
  {
    PlanExactly(m.phase.syncs, step.subsetOf, step.hash, s);
    if s.status.meta.Some? { DispatchMeansAgreement(m.phase.syncs, step.subsetOf, step.hash, s); }
  }

  // ----- every pod is sent its own subset

  predicate OfSubset(spec: Option<Spec>, x: string) { spec.Some? ==> spec.value.subset == x }

  predicate HoldsSubset(n: Node, x: string) {
    && OfSubset(n.proxy.expected, x) && OfSubset(n.proxy.current, x)
    && forall i :: 0 <= i < |n.down| ==> n.down[i].subset == x
  }

  predicate JobGives(phase: Phase, u: UID, x: string) {
    (phase.Sending? || phase.Storing?) ==> phase.job.subsetOf(u) == x
  }

  ghost predicate SubsetOK(m: Mesh, u: UID, x: string) {
    (u in m.nodes ==> HoldsSubset(m.nodes[u], x)) && JobGives(m.phase, u, x)
  }

  lemma StreamKeepsSubset(B: string -> Content, m: Mesh, m': Mesh, step: MeshStep, x: string)
    requires StreamEvent(B, m, m', step) && HoldsSubset(m.nodes[step.uid], x)
    ensures HoldsSubset(m'.nodes[step.uid], x)
  {
    var n, n' := m.nodes[step.uid], m'.nodes[step.uid];
    if step.ProxyStep? {
      ProxyKeepsSubset(B, n.proxy, n'.proxy, step.inner, x);
    } else if step.Deliver? {
      assert n' == Delivered(n);
    } else {
      SpecsUntouched(B, m, m', step);
    }
  }

  lemma ProxyKeepsSubset(B: string -> Content, p: State, p': State, inner: Step, x: string)
    requires !inner.WriteExpected? && NextStep(B, p, p', inner) && OfSubset(p.expected, x) && OfSubset(p.current, x)
    ensures OfSubset(p'.expected, x) && OfSubset(p'.current, x)
  {
  }

  lemma SpecsUntouched(B: string -> Content, m: Mesh, m': Mesh, step: MeshStep)
    requires StreamEvent(B, m, m', step) && !step.ProxyStep? && !step.Deliver?
    ensures
      var n, n' := m.nodes[step.uid], m'.nodes[step.uid];
      && (n'.proxy == n.proxy || n'.proxy == FRESH) && (n'.down == n.down || n'.down == [])
  {
  }

  lemma OutsideKeepsSubset(B: string -> Content, m: Mesh, m': Mesh, step: MeshStep, u: UID, x: string)
    requires (PodEvent(m, m', step) || StreamEvent(B, m, m', step)) && SubsetOK(m, u, x)
    ensures SubsetOK(m', u, x)
  {
    OutsideLeaves(B, m, m', step);
    if StreamEvent(B, m, m', step) {
      StreamEventTouches(B, m, m', step);
      if step.uid == u { StreamKeepsSubset(B, m, m', step, x); }
    }
  }

  lemma ReconcileKeepsSubset(B: string -> Content, m: Mesh, m': Mesh, step: MeshStep, u: UID, x: string)
    requires ReconcileEvent(B, m, m', step) && SubsetOK(m, u, x) && (step.Decide? ==> step.subsetOf(u) == x)
    ensures SubsetOK(m', u, x)
  {
    if step.ReadStatus? { ReadOnlyMoves(m); }
  }

  lemma StepKeepsSubset(B: string -> Content, m: Mesh, m': Mesh, step: MeshStep, u: UID, x: string)
    requires NextMesh(B, m, m', step) && SubsetOK(m, u, x) && (step.Decide? ==> step.subsetOf(u) == x)
    ensures SubsetOK(m', u, x)
  {
    if ReconcileEvent(B, m, m', step) {
      ReconcileKeepsSubset(B, m, m', step, u, x);
    } else {
      OutsideKeepsSubset(B, m, m', step, u, x);
    }
  }

  /** As long as a pod is in one subset it is sent, expects and runs specs of that subset only. */
  lemma {:induction false} OwnSubsetOnly(
    B: string -> Content, run: seq<Mesh>, steps: seq<MeshStep>, i: nat, u: UID, x: string)
    requires MeshRun(B, run, steps) && i < |run| && (u in run[0].nodes ==> HoldsSubset(run[0].nodes[u], x))
    requires forall k: nat :: k < i && steps[k].Decide? ==> steps[k].subsetOf(u) == x
    ensures SubsetOK(run[i], u, x)
  {
    if i == 0 {
    } else {
      OwnSubsetOnly(B, run, steps, i - 1, u, x);
      assert StepAt(B, run, steps, i - 1);
      StepKeepsSubset(B, run[i - 1], run[i], steps[i - 1], u, x);
    }
  }
}
