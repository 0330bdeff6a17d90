/** What Reconcile's gate guarantees about the pods it listed, for every run: none is passed over that should not be. */
module MeshGate {
  import opened SpecManagers
  import opened Manager
  import opened MeshProtocol
  import opened MeshSafety
  import opened MeshTheorems

  /** Ready, or so new that its connection may still come. */
  predicate ShouldConnect(view: PodView) {
    view.Active() && ((view.phase == Running && view.ready) || (view.phase == Pending && view.young))
  }

  /** Of the pods listed, those no longer to be read are stopped for good, judged, or not expected to be connected. */
  predicate Sifted(snap: map<UID, PodView>, todo: seq<UID>, syncs: seq<Sync>) {
    && (forall u :: u in snap && u !in todo ==> DealtWith(snap[u], u, syncs))
    && (forall s :: s in syncs ==> s.uid in snap && snap[s.uid].Active())
  }

  predicate DealtWith(view: PodView, u: UID, syncs: seq<Sync>) {
    (!view.Active() ==> !view.running) && (ShouldConnect(view) ==> Among(u, syncs))
  }

  predicate NoneStopping(snap: map<UID, PodView>) { forall u :: u in snap && !snap[u].Active() ==> !snap[u].running }

  ghost predicate GateOK(m: Mesh) {
    match m.phase
    case Idle => true
    case Gating(todo, syncs) => Sifted(m.snap, todo, syncs)
    case Reading(sync, todo, syncs) =>
      Sifted(m.snap, [sync.uid] + todo, syncs) && sync.uid in m.snap && m.snap[sync.uid].Active()
    case Deleting(_, _) => NoneStopping(m.snap)
    case Sending(job, _) => Sifted(m.snap, [], job.all)
    case Storing(job, _, _) => Sifted(m.snap, [], job.all)
  }

  lemma SiftOne(snap: map<UID, PodView>, u: UID, todo: seq<UID>, syncs: seq<Sync>)
    requires Sifted(snap, [u] + todo, syncs) && u in snap && DealtWith(snap[u], u, syncs)
    ensures Sifted(snap, todo, syncs)
  {
    forall v | v in snap && v !in todo ensures DealtWith(snap[v], v, syncs) {
      if v != u { assert v !in [u] + todo; }
    }
  }

  lemma SiftPassed(snap: map<UID, PodView>, s: Sync, todo: seq<UID>, syncs: seq<Sync>)
    requires Sifted(snap, [s.uid] + todo, syncs) && s.uid in snap && snap[s.uid].Active()
    ensures Sifted(snap, todo, syncs + [s])
  {
    forall v | v in snap && v !in todo ensures DealtWith(snap[v], v, syncs + [s]) {
      if v == s.uid {
        assert (syncs + [s])[|syncs|].uid == v;
      } else {
        assert v !in [s.uid] + todo;
        if Among(v, syncs) {
          var i :| 0 <= i < |syncs| && syncs[i].uid == v;
          assert (syncs + [s])[i].uid == v;
        }
      }
    }
  }

  lemma ReadSifts(m: Mesh)
    requires GateOK(m) && m.phase.Gating? && m.phase.todo != [] && m.phase.todo[0] in m.snap
    ensures GateOK(AfterRead(m))
  {
    ReadOnlyMoves(m);
    var u, rest := m.phase.todo[0], m.phase.todo[1..];
    assert m.phase.todo == [u] + rest;
    match ReadHere(m, u)
    case Abort =>
    case Skip => SiftOne(m.snap, u, rest, m.phase.syncs);
    case Pass(sync) => assert sync.uid == u;
  }

  lemma ReconcileSifts(B: string -> Content, m: Mesh, m': Mesh, step: MeshStep)
    requires GateOK(m) && ReconcileEvent(B, m, m', step)
    ensures GateOK(m')
  {
    match step
    case ReadStatus => ReadSifts(m);
    case ReadExpectation =>
      if m'.phase.Gating? { SiftPassed(m.snap, m.phase.sync, m.phase.todo, m.phase.syncs); }
    case _ =>
  }

  lemma OutsideLeaves(B: string -> Content, m: Mesh, m': Mesh, step: MeshStep)
    requires PodEvent(m, m', step) || StreamEvent(B, m, m', step)
    ensures m'.phase == m.phase && m'.snap == m.snap
  {
    if StreamEvent(B, m, m', step) { StreamEventTouches(B, m, m', step); }
  }

  lemma StepSifts(B: string -> Content, m: Mesh, m': Mesh, step: MeshStep)
    requires GateOK(m) && NextMesh(B, m, m', step)
    ensures GateOK(m')
  {
    if ReconcileEvent(B, m, m', step) {
      ReconcileSifts(B, m, m', step);
    } else {
      OutsideLeaves(B, m, m', step);
    }
  }

  lemma {:induction false} GateHolds(B: string -> Content, run: seq<Mesh>, steps: seq<MeshStep>, i: nat)
    requires MeshRun(B, run, steps) && i < |run|
    ensures GateOK(run[i])
  {
    if i == 0 {
    } else {
      GateHolds(B, run, steps, i - 1);
      assert StepAt(B, run, steps, i - 1);
      StepSifts(B, run[i - 1], run[i], steps[i - 1]);
    }
  }

  /** Whenever specs are sent, every ready pod listed, and every young one, is among those judged. */
  lemma ReadyPodsAreJudged(B: string -> Content, run: seq<Mesh>, steps: seq<MeshStep>, i: nat, u: UID)
    requires MeshRun(B, run, steps) && i < |run| && (run[i].phase.Sending? || run[i].phase.Storing?)
    requires u in run[i].snap && ShouldConnect(run[i].snap[u])
    ensures Among(u, run[i].phase.job.all)
  {
    GateHolds(B, run, steps, i);
    assert u !in [] && DealtWith(run[i].snap[u], u, run[i].phase.job.all);
  }

  /** Whenever anything is deleted or sent, no pod listed as going still has a running container. */
  lemma NothingStillStopping(B: string -> Content, run: seq<Mesh>, steps: seq<MeshStep>, i: nat, u: UID)
    requires MeshRun(B, run, steps) && i < |run| && Acting(run[i]) && u in run[i].snap && !run[i].snap[u].Active()
    ensures !run[i].snap[u].running
  {
    GateHolds(B, run, steps, i);
    if !run[i].phase.Deleting? { assert u !in [] && DealtWith(run[i].snap[u], u, run[i].phase.job.all); }
  }

  /**
   * What it takes to be judged: when it was read the pod was listed active, its deletion was not awaited, its stream
   * was connected, and the status is that of the stream; when it passed, nothing else was awaited from it.
   */
  lemma JudgedPodsQualify(B: string -> Content, run: seq<Mesh>, steps: seq<MeshStep>, r: nat, g: nat, i: nat, s: Sync)
    requires MeshRun(B, run, steps) && Judged(run, steps, r, g, i, s)
    ensures s.uid in run[r].snap && run[r].snap[s.uid].Active() && s.uid !in run[r].delExp
    ensures Connected(run[r], s.uid) && s == Judging(s.uid, run[r].conns[s.uid])
    ensures s.uid in run[g].hashExp ==>
      s.status.meta.Some? && s.status.meta.value.expectedHash == run[g].hashExp[s.uid]
  {
    ReadsThePod(B, run, steps, r, g, i, s);
    assert StepAt(B, run, steps, r);
    assert ReadHere(run[r], s.uid) == Pass(s);
  }

  /** So with cautious handlers every ready pod that is still listed runs only the hash that is being dispatched. */
  lemma ReadyBarrier(B: string -> Content, run: seq<Mesh>, steps: seq<MeshStep>, i: nat, u: UID)
    requires MeshRun(B, run, steps) && i < |run| && forall k: nat :: k < i ==> Cautious(run[k], steps[k], u)
    requires Dispatching(run[i]) && u in run[i].snap && ShouldConnect(run[i].snap[u]) && u in run[i].cache
    ensures RunsOnly(run[i], u, run[i].phase.job.hash)
  {
    ReadyPodsAreJudged(B, run, steps, i, u);
    MeshAlwaysOK(B, run, steps, i);
    CautiousBarrier(B, run, steps, i, u);
  }
}
