/** What every interleaving of the mesh keeps. */
module MeshSafety {
  import opened Text
  import opened SpecManagers
  import opened Manager
  import opened MeshProtocol

  /** On a stream that nothing was sent on, nothing is on the way down and every report says the same. */
  predicate Unsent(c: Conn, n: Node) { c.sendTimes == 0 ==> n.down == [] && LinkFine(c, n, None) }

  /** One pod with its connection, if any. */
  ghost predicate NodeFine(B: string -> Content, n: Node, c: Option<Conn>) {
    var linked := c.Some? && !c.value.disconnected;
    && Inv(B, n.proxy)
    && (forall i :: 0 <= i < |n.down| ==> WellHashed(B, n.down[i]))
    && (n.live ==> linked) && (!n.live ==> n.down == []) && (!linked ==> n.up == [])
    && (linked ==> c.value.gen == n.gen && Unsent(c.value, n))
  }

  ghost predicate NodeOK(B: string -> Content, m: Mesh, u: UID)
    requires u in m.nodes
  {
    NodeFine(B, m.nodes[u], Get(m.conns, u))
  }

  ghost predicate AllNodesOK(B: string -> Content, m: Mesh) { forall u :: u in m.nodes ==> NodeOK(B, m, u) }

  predicate RegistersOK(m: Mesh) {
    && m.conns.Keys <= m.nodes.Keys && m.cache.Keys <= m.nodes.Keys && m.deleted <= m.nodes.Keys
    && m.before <= m.deleted && m.snap.Keys <= m.nodes.Keys
    && (forall u :: u in m.deleted ==> u in m.delExp || u !in m.cache)
  }

  ghost predicate WorldOK(B: string -> Content, m: Mesh) { RegistersOK(m) && AllNodesOK(B, m) }

  // ----- the Reconcile in progress

  predicate DistinctSyncs(syncs: seq<Sync>) { forall i, j :: 0 <= i < j < |syncs| ==> syncs[i].uid != syncs[j].uid }

  predicate SubList(part: seq<Sync>, whole: seq<Sync>) { DistinctSyncs(part) && forall s :: s in part ==> s in whole }

  predicate Among(u: UID, syncs: seq<Sync>) { exists i :: 0 <= i < |syncs| && syncs[i].uid == u }

  /** Nothing is awaited from a pod that passed the gate, until something is sent to it. */
  predicate Unawaited(m: Mesh, s: Sync) { s.uid in m.nodes && (s.uid in m.cache ==> s.uid !in m.hashExp) }

  predicate AllUnawaited(m: Mesh, syncs: seq<Sync>) { forall i :: 0 <= i < |syncs| ==> Unawaited(m, syncs[i]) }

  /** A pod that this Reconcile listed as active and that has been connected since before it began. */
  predicate Watched(m: Mesh, u: UID) {
    u in m.snap && m.snap[u].Active() && u in m.cache && u in m.nodes && m.nodes[u].live && u !in m.late
  }

  /** A watched pod is either still to be checked or has passed. */
  ghost predicate Accounted(m: Mesh, todo: seq<UID>, syncs: seq<Sync>) {
    forall u :: Watched(m, u) ==> u in todo || Among(u, syncs)
  }

  /** Gone, or listed inactive with every container stopped, or never listed. */
  predicate Cleared(m: Mesh, u: UID) { u !in m.snap || m.snap[u].Stopped() || u !in m.cache }

  predicate AllCleared(m: Mesh, todo: seq<UID>) { forall u :: u in m.before ==> u in todo || Cleared(m, u) }

  /** Every pod that reported a spec reported the hash of the job. */
  predicate Unanimous(job: Job) {
    forall s <- job.all :: s.status.meta.Some? ==>
      s.status.meta.value.expectedHash == job.hash && s.status.meta.value.currentHash == job.hash
  }

  ghost predicate SendingOK(m: Mesh, job: Job, rest: seq<Sync>) {
    && SubList(rest, job.all) && AllUnawaited(m, rest) && AllCleared(m, [])
    && (job.dispatch ==> Unanimous(job) && Accounted(m, [], job.all))
  }

  ghost predicate GatingOK(m: Mesh, todo: seq<UID>, syncs: seq<Sync>) {
    && NoRepeats(todo) && (forall u :: u in todo ==> u in m.snap) && DistinctSyncs(syncs)
    && (forall i :: 0 <= i < |syncs| ==> syncs[i].uid !in todo)
    && AllUnawaited(m, syncs) && Accounted(m, todo, syncs) && AllCleared(m, todo)
  }

  ghost predicate PhaseOK(m: Mesh) {
    match m.phase
    case Idle => true
    case Gating(todo, syncs) => GatingOK(m, todo, syncs)
    case Reading(sync, todo, syncs) =>
      && GatingOK(m, [sync.uid] + todo, syncs)
      && sync.uid in m.nodes && (sync.uid in m.before ==> Cleared(m, sync.uid))
    case Deleting(leader, doomed) => AllCleared(m, []) && (forall u :: u in doomed ==> u in m.nodes)
    case Sending(job, rest) => SendingOK(m, job, rest)
    case Storing(job, u, rest) =>
      SendingOK(m, job, rest) && u in m.nodes && (forall i :: 0 <= i < |rest| ==> rest[i].uid != u)
  }

  lemma ReadingKnown(m: Mesh)
    requires PhaseOK(m) && m.phase.Reading?
    ensures m.phase.sync.uid in m.nodes
  {
  }

  ghost predicate MeshInv(B: string -> Content, m: Mesh) { WorldOK(B, m) && PhaseOK(m) }

  // ----- events outside Reconcile

  /** Nothing but pod `u` and its memory changed, and nothing new is awaited from it. */
  ghost predicate Elsewhere(m: Mesh, m': Mesh, u: UID) {
    && m'.phase == m.phase && m'.snap == m.snap && m'.before == m.before && m'.deleted == m.deleted
    && m.late <= m'.late && m.nodes.Keys <= m'.nodes.Keys
    && (forall v :: v in m.nodes && v != u ==> m'.nodes[v] == m.nodes[v])
    && (forall v :: v in m'.nodes && v != u ==> v in m.nodes)
    && (forall v :: v != u ==> Get(m'.conns, v) == Get(m.conns, v) && Get(m'.hashExp, v) == Get(m.hashExp, v))
    && (forall v :: v != u ==> (v in m'.cache <==> v in m.cache) && (v in m'.delExp <==> v in m.delExp))
    && (u in m'.hashExp ==> u in m.hashExp) && (u in m.nodes && u in m'.cache ==> u in m.cache)
    && (u in m.nodes && u in m'.cache && m'.nodes[u].live ==> m.nodes[u].live || u in m'.late)
  }

  /** What a status said of a pod, and was true, stays true. */
  ghost predicate KeepsQuiet(n: Node, n': Node) {
    (Untouched(n) ==> Untouched(n'))
    && (forall x :: ExpectsOnly(n, x) ==> ExpectsOnly(n', x)) && (forall x :: SettledAt(n, x) ==> SettledAt(n', x))
  }

  lemma ElsewhereUnawaited(m: Mesh, m': Mesh, u: UID, syncs: seq<Sync>)
    requires Elsewhere(m, m', u) && AllUnawaited(m, syncs)
    ensures AllUnawaited(m', syncs)
  {
    forall i | 0 <= i < |syncs| ensures Unawaited(m', syncs[i]) {
      assert Unawaited(m, syncs[i]);
      assert syncs[i].uid != u ==> Get(m'.hashExp, syncs[i].uid) == Get(m.hashExp, syncs[i].uid);
    }
  }

  lemma ElsewhereAccounted(m: Mesh, m': Mesh, u: UID, todo: seq<UID>, syncs: seq<Sync>)
    requires Elsewhere(m, m', u) && m.snap.Keys <= m.nodes.Keys && Accounted(m, todo, syncs)
    ensures Accounted(m', todo, syncs)
  {
  }

  lemma ElsewhereCleared(m: Mesh, m': Mesh, u: UID, todo: seq<UID>)
    requires Elsewhere(m, m', u) && m.before <= m.nodes.Keys && AllCleared(m, todo)
    ensures AllCleared(m', todo)
  {
  }

  lemma ElsewhereSending(m: Mesh, m': Mesh, u: UID, job: Job, rest: seq<Sync>)
    requires Elsewhere(m, m', u) && m.snap.Keys <= m.nodes.Keys && m.before <= m.nodes.Keys && SendingOK(m, job, rest)
    ensures SendingOK(m', job, rest)
  {
    ElsewhereUnawaited(m, m', u, rest);
    ElsewhereCleared(m, m', u, []);
    if job.dispatch {
      ElsewhereAccounted(m, m', u, [], job.all);
    }
  }

  lemma ElsewhereGating(m: Mesh, m': Mesh, u: UID, todo: seq<UID>, syncs: seq<Sync>)
    requires Elsewhere(m, m', u) && m.snap.Keys <= m.nodes.Keys && m.before <= m.nodes.Keys && GatingOK(m, todo, syncs)
    ensures GatingOK(m', todo, syncs)
  {
    ElsewhereUnawaited(m, m', u, syncs);
    ElsewhereAccounted(m, m', u, todo, syncs);
    ElsewhereCleared(m, m', u, todo);
  }

  lemma ElsewhereKeepsPhase(m: Mesh, m': Mesh, u: UID)
    requires PhaseOK(m) && Elsewhere(m, m', u) && m.snap.Keys <= m.nodes.Keys && m.before <= m.nodes.Keys
    ensures PhaseOK(m')
  {
    match m.phase
    case Idle =>
    case Gating(todo, syncs) => ElsewhereGating(m, m', u, todo, syncs);
    case Reading(sync, todo, syncs) =>
      ElsewhereGating(m, m', u, [sync.uid] + todo, syncs);
    case Deleting(_, _) => ElsewhereCleared(m, m', u, []);
    case Sending(job, rest) => ElsewhereSending(m, m', u, job, rest);
    case Storing(job, v, rest) => ElsewhereSending(m, m', u, job, rest);
  }

  /** An event at one pod keeps the whole invariant once that pod is seen to. */
  lemma Assemble(B: string -> Content, m: Mesh, m': Mesh, u: UID)
    requires MeshInv(B, m) && Elsewhere(m, m', u) && u in m'.nodes && NodeOK(B, m', u)
    requires m'.conns.Keys <= m'.nodes.Keys && m'.cache.Keys <= m'.nodes.Keys
    requires (u in m.deleted ==> u in m'.delExp || u !in m'.cache)
    ensures MeshInv(B, m')
  {
    ElsewhereKeepsPhase(m, m', u);
    forall v | v in m'.nodes ensures NodeOK(B, m', v) {
      if v != u { ElsewhereFine(B, m, m', u, v); }
    }
  }

  lemma ElsewhereFine(B: string -> Content, m: Mesh, m': Mesh, u: UID, v: UID)
    requires Elsewhere(m, m', u) && v in m'.nodes && v != u && v in m.nodes && NodeOK(B, m, v)
    ensures NodeOK(B, m', v)
  {
    assert Get(m'.conns, v) == Get(m.conns, v);
  }

  lemma PodEventElsewhere(m: Mesh, m': Mesh, step: MeshStep)
    requires PodEvent(m, m', step)
    ensures Elsewhere(m, m', step.uid)
  {
  }

  lemma PodEventKeepsNode(B: string -> Content, m: Mesh, m': Mesh, step: MeshStep)
    requires PodEvent(m, m', step) && m.conns.Keys <= m.nodes.Keys && m.cache.Keys <= m.nodes.Keys
    requires step.uid in m.nodes ==> NodeOK(B, m, step.uid)
    ensures step.uid in m'.nodes && NodeOK(B, m', step.uid)
  {
  }

  lemma PodEventKeepsRegisters(m: Mesh, m': Mesh, step: MeshStep)
    requires RegistersOK(m) && PodEvent(m, m', step)
    ensures m'.conns.Keys <= m'.nodes.Keys && m'.cache.Keys <= m'.nodes.Keys
    ensures step.uid in m.deleted ==> step.uid in m'.delExp || step.uid !in m'.cache
  {
  }

  lemma PodEventKeeps(B: string -> Content, m: Mesh, m': Mesh, step: MeshStep)
    requires MeshInv(B, m) && PodEvent(m, m', step)
    ensures MeshInv(B, m')
  {
    PodEventElsewhere(m, m', step);
    PodEventKeepsNode(B, m, m', step);
    PodEventKeepsRegisters(m, m', step);
    Assemble(B, m, m', step.uid);
  }

  // ----- stream events, one pod at a time

  lemma FineProxy(B: string -> Content, n: Node, n': Node, inner: Step, c: Option<Conn>)
    requires NodeFine(B, n, c)
    requires !inner.WriteExpected? && NextStep(B, n.proxy, n'.proxy, inner) && n' == n.(proxy := n'.proxy)
    ensures NodeFine(B, n', c) && KeepsQuiet(n, n')
  {
    assert Next(B, n.proxy, n'.proxy);
    StepKeepsInv(B, n.proxy, n'.proxy);
    if c.Some? && LinkFine(c.value, n, None) { ProxyKeepsOrder(B, n, n', inner, c.value, None); }
  }

  lemma ProxyKeepsOrder(B: string -> Content, n: Node, n': Node, inner: Step, c: Conn, e: Option<string>)
    requires Inv(B, n.proxy) && LinkFine(c, n, e)
    requires !inner.WriteExpected? && NextStep(B, n.proxy, n'.proxy, inner) && n' == n.(proxy := n'.proxy)
    ensures LinkFine(c, n', e)
  {
    if LinkOK(c, n, e) { LoadKeepsLink(c, n, n', e); }
  }

  lemma FineDeliver(B: string -> Content, n: Node, c: Option<Conn>)
    requires NodeFine(B, n, c) && n.live && n.down != [] && !n.proxy.updating
    ensures NodeFine(B, Delivered(n), c) && KeepsQuiet(n, Delivered(n))
  {
    assert NextStep(B, n.proxy, Delivered(n).proxy, WriteExpected(n.down[0]));
    assert Next(B, n.proxy, Delivered(n).proxy);
    StepKeepsInv(B, n.proxy, Delivered(n).proxy);
  }

  lemma FineReport(B: string -> Content, n: Node, leader: bool, c: Option<Conn>)
    requires NodeFine(B, n, c) && n.live && n.proxy.current.Some?
    ensures NodeFine(B, Reported(n, leader), c) && KeepsQuiet(n, Reported(n, leader))
  {
    if c.value.sendTimes == 0 { ReportKeepsLink(c.value, n, None, leader); }
  }

  lemma ReceiveKeepsOrder(n: Node, c: Conn, e: Option<string>)
    requires LinkFine(c, n, e) && n.up != []
    ensures LinkFine(c.(status := n.up[0]), n.(up := n.up[1..]), e)
  {
    if LinkOK(c, n, e) { ReceiveKeepsLink(c, n, e); }
  }

  lemma FineReceive(B: string -> Content, n: Node, c: Conn)
    requires NodeFine(B, n, Some(c)) && !c.disconnected && n.up != []
    ensures NodeFine(B, n.(up := n.up[1..]), Some(c.(status := n.up[0])))
    ensures KeepsQuiet(n, n.(up := n.up[1..]))
  {
    if c.sendTimes == 0 { ReceiveKeepsOrder(n, c, None); }
  }

  lemma FineRegister(B: string -> Content, n: Node, leader: bool)
    requires Inv(B, n.proxy) && !n.proxy.updating
    ensures NodeFine(B, Joined(n), Some(NewConn(n, leader))) && KeepsQuiet(n, Joined(n))
  {
    ConnectMakesLink(n, leader, None);
  }

  lemma FineDrop(B: string -> Content, n: Node, c: Option<Conn>)
    requires NodeFine(B, n, c) && n.live
    ensures var n' := n.(live := false, down := []); NodeFine(B, n', c) && KeepsQuiet(n, n')
  {
    if c.value.sendTimes == 0 { DropKeepsLink(c.value, n, None); }
  }

  lemma HandlerKeepsNode(B: string -> Content, m: Mesh, m': Mesh, step: MeshStep)
    requires StreamEvent(B, m, m', step) && NodeOK(B, m, step.uid)
    requires step.RegisterClear? || step.ExitClear? || step.ExitMark? || step.Restart?
    ensures NodeOK(B, m', step.uid) && KeepsQuiet(m.nodes[step.uid], m'.nodes[step.uid])
  {
  }

  lemma StreamEventKeepsNode(B: string -> Content, m: Mesh, m': Mesh, step: MeshStep)
    requires StreamEvent(B, m, m', step) && step.uid in m.nodes && NodeOK(B, m, step.uid)
    ensures step.uid in m'.nodes && NodeOK(B, m', step.uid) && KeepsQuiet(m.nodes[step.uid], m'.nodes[step.uid])
  {
    var u := step.uid;
    var n, c := m.nodes[u], Get(m.conns, u);
    match step
    case ProxyStep(_, inner) => FineProxy(B, n, m'.nodes[u], inner, c);
    case Deliver(_) => FineDeliver(B, n, c);
    case SendReport(_, leader) => FineReport(B, n, leader, c);
    case ReceiveReport(_) => FineReceive(B, n, c.value);
    case RegisterStore(_, leader) => FineRegister(B, n, leader);
    case Drop(_) => FineDrop(B, n, c);
    case _ => HandlerKeepsNode(B, m, m', step);
  }

  /** Everything a stream event may touch: the pod itself and what the manager remembers of it. */
  ghost predicate TouchesOnly(m: Mesh, m': Mesh, u: UID) {
    && m' == m.(nodes := m'.nodes, conns := m'.conns, hashExp := m'.hashExp, late := m'.late, clearing := m'.clearing,
                exiting := m'.exiting)
    && u in m.nodes && u in m'.nodes && m'.nodes == m.nodes[u := m'.nodes[u]]
    && (m'.conns == m.conns || (u in m'.conns && m'.conns == m.conns[u := m'.conns[u]]))
    && (m'.hashExp == m.hashExp || m'.hashExp == m.hashExp - {u})
    && m.late <= m'.late && (m'.nodes[u].live ==> m.nodes[u].live || u in m'.late)
  }

  lemma StreamEventTouches(B: string -> Content, m: Mesh, m': Mesh, step: MeshStep)
    requires StreamEvent(B, m, m', step)
    ensures TouchesOnly(m, m', step.uid)
  {
  }

  lemma TouchesElsewhere(m: Mesh, m': Mesh, u: UID)
    requires TouchesOnly(m, m', u)
    ensures Elsewhere(m, m', u)
  {
  }

  /** A stream event happens to a pod that is known and in good shape. */
  lemma StreamEventAt(B: string -> Content, m: Mesh, m': Mesh, step: MeshStep)
    requires AllNodesOK(B, m) && StreamEvent(B, m, m', step)
    ensures step.uid in m.nodes && NodeOK(B, m, step.uid)
  {
  }

  lemma StreamEventKeeps(B: string -> Content, m: Mesh, m': Mesh, step: MeshStep)
    requires MeshInv(B, m) && StreamEvent(B, m, m', step)
    ensures MeshInv(B, m')
  {
    StreamEventTouches(B, m, m', step);
    StreamEventKeepsNode(B, m, m', step);
    TouchesElsewhere(m, m', step.uid);
    Assemble(B, m, m', step.uid);
  }

  // ----- Reconcile's own steps

  /** Everything a Reconcile step leaves alone. */
  predicate SameWorld(m: Mesh, m': Mesh) {
    m'.conns == m.conns && m'.nodes == m.nodes && m'.cache == m.cache
  }

  lemma SameWorldKeeps(B: string -> Content, m: Mesh, m': Mesh)
    requires WorldOK(B, m) && SameWorld(m, m')
    requires m'.before <= m'.deleted && m'.deleted <= m'.nodes.Keys && m'.snap.Keys <= m'.nodes.Keys
    requires forall v :: v in m'.deleted ==> v in m'.delExp || v !in m'.cache
    ensures WorldOK(B, m')
  {
  }

  lemma StartKeeps(B: string -> Content, m: Mesh, m': Mesh, order: seq<UID>)
    requires MeshInv(B, m) && ReconcileEvent(B, m, m', Start(order))
    ensures MeshInv(B, m')
  {
    SameWorldKeeps(B, m, m');
  }

  /** The two sides of a step through the list of pods: the first has been dealt with. */
  lemma GatingMovesOn(m: Mesh, m': Mesh, u: UID, todo: seq<UID>, syncs: seq<Sync>)
    requires GatingOK(m, [u] + todo, syncs) && SameWorld(m, m') && m'.hashExp == m.hashExp && m'.snap == m.snap
    requires m'.before == m.before && m'.late == m.late
    requires !Watched(m, u) && (u in m.before ==> Cleared(m, u))
    ensures GatingOK(m', todo, syncs)
  {
    var all := [u] + todo;
    assert forall i :: 0 <= i < |todo| ==> all[i + 1] == todo[i];
    forall i | 0 <= i < |syncs| ensures Unawaited(m', syncs[i]) { assert Unawaited(m, syncs[i]); }
    forall v | Watched(m', v) ensures v in todo || Among(v, syncs) { assert Watched(m, v); }
    forall v | v in m'.before ensures v in todo || Cleared(m', v) { assert v in all || Cleared(m, v); }
  }

  lemma GatingStays(m: Mesh, m': Mesh, todo: seq<UID>, syncs: seq<Sync>)
    requires GatingOK(m, todo, syncs) && SameWorld(m, m') && m'.hashExp == m.hashExp && m'.snap == m.snap
    requires m'.before == m.before && m'.late == m.late
    ensures GatingOK(m', todo, syncs)
  {
    forall i | 0 <= i < |syncs| ensures Unawaited(m', syncs[i]) { assert Unawaited(m, syncs[i]); }
    forall v | Watched(m', v) ensures v in todo || Among(v, syncs) { assert Watched(m, v); }
    forall v | v in m'.before ensures v in todo || Cleared(m', v) { assert v in todo || Cleared(m, v); }
  }

  /** A pod that may be passed over is not connected, and a pod whose deletion is not awaited is clear. */
  lemma ReadTells(B: string -> Content, m: Mesh, u: UID)
    requires WorldOK(B, m) && u in m.snap && !ReadHere(m, u).Abort?
    ensures ReadHere(m, u).Skip? ==> !Watched(m, u)
    ensures u in m.before ==> Cleared(m, u)
  {
    assert NodeOK(B, m, u);
  }

  /** The first read of a pod changes nothing but where the Reconcile stands. */
  lemma ReadOnlyMoves(m: Mesh)
    requires m.phase.Gating? && m.phase.todo != [] && m.phase.todo[0] in m.snap
    ensures AfterRead(m) == m.(phase := AfterRead(m).phase)
  {
  }

  lemma SkipMovesOn(B: string -> Content, m: Mesh)
    requires MeshInv(B, m) && m.phase.Gating? && m.phase.todo != [] && m.phase.todo[0] in m.snap
    requires ReadHere(m, m.phase.todo[0]).Skip?
    ensures PhaseOK(AfterRead(m))
  {
    var u, rest := m.phase.todo[0], m.phase.todo[1..];
    assert m.phase.todo == [u] + rest;
    ReadTells(B, m, u);
    GatingMovesOn(m, AfterRead(m), u, rest, m.phase.syncs);
  }

  lemma ReadMovesOn(B: string -> Content, m: Mesh, sync: Sync)
    requires MeshInv(B, m) && m.phase.Gating? && m.phase.todo != [] && m.phase.todo[0] in m.snap
    requires ReadHere(m, m.phase.todo[0]) == Pass(sync)
    ensures PhaseOK(NowReading(m, sync))
  {
    var u, rest := m.phase.todo[0], m.phase.todo[1..];
    assert m.phase.todo == [u] + rest && sync.uid == u;
    GatingStays(m, NowReading(m, sync), [u] + rest, m.phase.syncs);
    ReadTells(B, m, u);
  }

  lemma ReadStatusKeeps(B: string -> Content, m: Mesh, m': Mesh)
    requires MeshInv(B, m) && ReconcileEvent(B, m, m', ReadStatus)
    ensures MeshInv(B, m')
  {
    ReadOnlyMoves(m);
    SameWorldKeeps(B, m, m');
    match ReadHere(m, m.phase.todo[0])
    case Abort =>
    case Skip => SkipMovesOn(B, m);
    case Pass(sync) => ReadMovesOn(B, m, sync);
  }

  lemma PassAccounts(m: Mesh, u: UID, todo: seq<UID>, syncs: seq<Sync>, s: Sync)
    requires s.uid == u && Accounted(m, [u] + todo, syncs)
    ensures Accounted(m, todo, syncs + [s])
  {
    forall v | Watched(m, v) ensures v in todo || Among(v, syncs + [s]) {
      if v == s.uid {
        assert (syncs + [s])[|syncs|].uid == v;
      } else if Among(v, syncs) {
        var i :| 0 <= i < |syncs| && syncs[i].uid == v;
        assert (syncs + [s])[i].uid == v;
      }
    }
  }

  lemma PassMovesOn(m: Mesh, m': Mesh, todo: seq<UID>, syncs: seq<Sync>, s: Sync)
    requires GatingOK(m, [s.uid] + todo, syncs) && s.uid in m.nodes && (s.uid in m.before ==> Cleared(m, s.uid))
    requires m' == m.(phase := Gating(todo, syncs + [s]), hashExp := m.hashExp - {s.uid})
    ensures GatingOK(m', todo, syncs + [s])
  {
    var u := s.uid;
    var all := [u] + todo;
    assert forall i :: 0 <= i < |todo| ==> all[i + 1] == todo[i];
    assert all[0] == u;
    forall i | 0 <= i < |syncs| + 1 ensures Unawaited(m', (syncs + [s])[i]) {
      if i < |syncs| { assert Unawaited(m, syncs[i]); }
    }
    PassAccounts(m, u, todo, syncs, s);
    forall v | Watched(m', v) ensures v in todo || Among(v, syncs + [s]) { assert Watched(m, v); }
    forall v | v in m'.before ensures v in todo || Cleared(m', v) { assert v in all || Cleared(m, v); }
  }

  lemma ReadExpectationKeeps(B: string -> Content, m: Mesh, m': Mesh)
    requires MeshInv(B, m) && ReconcileEvent(B, m, m', ReadExpectation)
    ensures MeshInv(B, m')
  {
    SameWorldKeeps(B, m, m');
    var s := m.phase.sync;
    if !Unmet(s, Get(m.hashExp, s.uid)) {
      PassMovesOn(m, m', m.phase.todo, m.phase.syncs, s);
    }
  }

  lemma DistinctAppend(syncs: seq<Sync>, s: Sync)
    requires DistinctSyncs(syncs) && !Among(s.uid, syncs)
    ensures DistinctSyncs(syncs + [s])
  {
  }

  lemma SubListGrows(part: seq<Sync>, whole: seq<Sync>, s: Sync)
    requires SubList(part, whole) && DistinctSyncs(whole + [s])
    ensures SubList(part, whole + [s]) && SubList(part + [s], whole + [s])
  {
    forall i | 0 <= i < |part| ensures part[i].uid != s.uid {
      assert part[i] in whole;
      var j :| 0 <= j < |whole| && whole[j] == part[i];
      assert (whole + [s])[j] == part[i] && (whole + [s])[|whole|] == s;
    }
    DistinctAppend(part, s);
  }

  predicate PlanWithin(plan: Plan, syncs: seq<Sync>) {
    && SubList(plan.dispatch, syncs) && SubList(plan.update, syncs)
    && SubList(plan.leaders, syncs) && SubList(plan.nonLeaders, syncs)
  }

  lemma AppendWithin(plan: Plan, syncs: seq<Sync>, s: Sync, subset: string, hash: string)
    requires PlanWithin(plan, syncs) && DistinctSyncs(syncs + [s])
    ensures PlanWithin(Append(plan, s, subset, hash), syncs + [s])
  {
    SubListGrows(plan.dispatch, syncs, s);
    SubListGrows(plan.update, syncs, s);
    SubListGrows(plan.leaders, syncs, s);
    SubListGrows(plan.nonLeaders, syncs, s);
  }

  lemma {:induction false} PlanSubLists(syncs: seq<Sync>, subsetOf: UID -> string, hash: string)
    requires DistinctSyncs(syncs)
    ensures PlanWithin(PlanOf(syncs, subsetOf, hash), syncs)
  {
    if syncs == [] {
    } else {
      var n := |syncs| - 1;
      PlanSubLists(syncs[..n], subsetOf, hash);
      assert syncs == syncs[..n] + [syncs[n]];
      AppendWithin(PlanOf(syncs[..n], subsetOf, hash), syncs[..n], syncs[n], subsetOf(syncs[n].uid), hash);
    }
  }

  lemma UnawaitedSubList(m: Mesh, part: seq<Sync>, whole: seq<Sync>)
    requires SubList(part, whole) && AllUnawaited(m, whole)
    ensures AllUnawaited(m, part)
  {
    forall i | 0 <= i < |part| ensures Unawaited(m, part[i]) {
      assert part[i] in whole;
      var j :| 0 <= j < |whole| && whole[j] == part[i];
    }
  }

  lemma DispatchUnanimous(job: Job)
    requires ActionOf(PlanOf(job.all, job.subsetOf, job.hash)).Send?
    requires ActionOf(PlanOf(job.all, job.subsetOf, job.hash)).dispatch
    ensures Unanimous(job)
  {
    forall s | s in job.all && s.status.meta.Some?
      ensures s.status.meta.value.expectedHash == job.hash && s.status.meta.value.currentHash == job.hash
    {
      DispatchMeansAgreement(job.all, job.subsetOf, job.hash, s);
    }
  }

  lemma DecideMovesOn(B: string -> Content, m: Mesh, m': Mesh, step: MeshStep)
    requires PhaseOK(m) && step.Decide? && ReconcileEvent(B, m, m', step)
    ensures PhaseOK(m')
  {
    var syncs := m.phase.syncs;
    PlanSubLists(syncs, step.subsetOf, step.hash);
    assert AllCleared(m', []) && (forall s :: Unawaited(m, s) <==> Unawaited(m', s));
    match ActionOf(PlanOf(syncs, step.subsetOf, step.hash))
    case Nothing =>
    case Delete(_, pods) => DoomedKnown(m, pods, syncs);
    case Send(dispatch, pods) =>
      UnawaitedSubList(m', pods, syncs);
      if dispatch {
        DispatchUnanimous(m'.phase.job);
        forall v | Watched(m', v) ensures Among(v, syncs) { assert Watched(m, v); }
      }
  }

  lemma DoomedKnown(m: Mesh, pods: seq<Sync>, syncs: seq<Sync>)
    requires SubList(pods, syncs) && AllUnawaited(m, syncs)
    ensures forall u :: u in Uids(pods) ==> u in m.nodes
  {
    UnawaitedSubList(m, pods, syncs);
    forall u | u in Uids(pods) ensures u in m.nodes {
      var i :| 0 <= i < |pods| && pods[i].uid == u;
      assert Unawaited(m, pods[i]);
    }
  }

  lemma DecideKeeps(B: string -> Content, m: Mesh, m': Mesh, step: MeshStep)
    requires MeshInv(B, m) && step.Decide? && ReconcileEvent(B, m, m', step)
    ensures MeshInv(B, m')
  {
    SameWorldKeeps(B, m, m');
    DecideMovesOn(B, m, m', step);
  }

  lemma DeleteOneKeeps(B: string -> Content, m: Mesh, m': Mesh, ok: bool)
    requires MeshInv(B, m) && ReconcileEvent(B, m, m', DeleteOne(ok))
    ensures MeshInv(B, m')
  {
    var u := m.phase.doomed[0];
    assert u in m.phase.doomed;
    SameWorldKeeps(B, m, m');
    forall v | v in m'.before ensures Cleared(m', v) { assert v in m.before && Cleared(m, v); }
    assert forall v :: v in m'.phase.doomed ==> v in m.phase.doomed;
  }

  lemma FinishKeeps(B: string -> Content, m: Mesh, m': Mesh)
    requires MeshInv(B, m) && ReconcileEvent(B, m, m', Finish)
    ensures MeshInv(B, m')
  {
    SameWorldKeeps(B, m, m');
  }

  lemma StoreKeeps(B: string -> Content, m: Mesh, m': Mesh)
    requires MeshInv(B, m) && ReconcileEvent(B, m, m', StoreExpectation)
    ensures MeshInv(B, m')
  {
    SameWorldKeeps(B, m, m');
    RestKeeps(m, m', m.phase.job, m.phase.rest, m.phase.rest, m.phase.uid);
  }

  /** The pods still to be sent to, and the agreement among all, survive a send to or an expectation for another pod. */
  lemma RestKeeps(m: Mesh, m': Mesh, job: Job, rest: seq<Sync>, rest': seq<Sync>, u: UID)
    requires SendingOK(m, job, rest) && DistinctSyncs(rest') && (forall s :: s in rest' ==> s in rest && s.uid != u)
    requires m'.cache == m.cache && m'.snap == m.snap && m'.before == m.before && m'.late == m.late
    requires m'.nodes.Keys == m.nodes.Keys && forall v :: v in m.nodes && v != u ==> m'.nodes[v] == m.nodes[v]
    requires u in m.nodes && m'.nodes[u].live == m.nodes[u].live
    requires forall v :: v != u ==> (v in m'.hashExp <==> v in m.hashExp)
    ensures SendingOK(m', job, rest')
  {
  }

  lemma TailDiffers(rest: seq<Sync>)
    requires rest != [] && DistinctSyncs(rest)
    ensures DistinctSyncs(rest[1..]) && forall s :: s in rest[1..] ==> s in rest && s.uid != rest[0].uid
    ensures forall i :: 0 <= i < |rest[1..]| ==> rest[1..][i].uid != rest[0].uid
  {
  }

  lemma CountKeepsNode(B: string -> Content, m: Mesh, m': Mesh, v: UID)
    requires ReconcileEvent(B, m, m', SendOne(false)) && v in m.nodes && NodeOK(B, m, v)
    ensures v in m'.nodes && NodeOK(B, m', v)
  {
    var u := m.phase.rest[0].uid;
    if v == u && Connected(m, u) && LinkFine(m.conns[u], m.nodes[u], None) {
      CountKeepsLink(m.conns[u], m.nodes[u], None, m'.conns[u].sendTimes);
    }
  }

  lemma CountKeepsWorld(B: string -> Content, m: Mesh, m': Mesh)
    requires WorldOK(B, m) && ReconcileEvent(B, m, m', SendOne(false))
    ensures WorldOK(B, m')
  {
    forall v | v in m'.nodes ensures NodeOK(B, m', v) { CountKeepsNode(B, m, m', v); }
  }

  lemma SendFailsKeeps(B: string -> Content, m: Mesh, m': Mesh)
    requires MeshInv(B, m) && ReconcileEvent(B, m, m', SendOne(false))
    ensures MeshInv(B, m')
  {
    CountKeepsWorld(B, m, m');
    CountMovesOn(B, m, m');
  }

  lemma CountMovesOn(B: string -> Content, m: Mesh, m': Mesh)
    requires PhaseOK(m) && ReconcileEvent(B, m, m', SendOne(false))
    ensures PhaseOK(m')
  {
    TailDiffers(m.phase.rest);
    RestKeeps(m, m', m.phase.job, m.phase.rest, m.phase.rest[1..], m.phase.rest[0].uid);
  }

  lemma SentNode(B: string -> Content, m: Mesh, m': Mesh)
    requires ReconcileEvent(B, m, m', SendOne(true)) && NodeOK(B, m, m.phase.rest[0].uid)
    ensures NodeOK(B, m', m.phase.rest[0].uid)
  {
    assert Connected(m, m.phase.rest[0].uid);
  }

  lemma OthersUnsent(B: string -> Content, m: Mesh, m': Mesh, v: UID)
    requires ReconcileEvent(B, m, m', SendOne(true)) && v in m.nodes && v != m.phase.rest[0].uid && NodeOK(B, m, v)
    ensures NodeOK(B, m', v)
  {
  }

  lemma SendKeepsWorld(B: string -> Content, m: Mesh, m': Mesh)
    requires WorldOK(B, m) && ReconcileEvent(B, m, m', SendOne(true)) && NodeOK(B, m', m.phase.rest[0].uid)
    ensures WorldOK(B, m')
  {
    forall v | v in m'.nodes ensures NodeOK(B, m', v) {
      if v != m.phase.rest[0].uid { OthersUnsent(B, m, m', v); }
    }
  }

  lemma SendMovesOn(B: string -> Content, m: Mesh, m': Mesh)
    requires PhaseOK(m) && ReconcileEvent(B, m, m', SendOne(true))
    ensures PhaseOK(m')
  {
    var u := m.phase.rest[0].uid;
    var n := m.nodes[u];
    assert m'.nodes[u] == n.(down := n.down + [SpecOf(B, m.phase.job, u)]);
    TailDiffers(m.phase.rest);
    RestKeeps(m, m', m.phase.job, m.phase.rest, m.phase.rest[1..], u);
  }

  lemma SendGoesKeeps(B: string -> Content, m: Mesh, m': Mesh)
    requires MeshInv(B, m) && ReconcileEvent(B, m, m', SendOne(true))
    ensures MeshInv(B, m')
  {
    assert NodeOK(B, m, m.phase.rest[0].uid);
    SentNode(B, m, m');
    SendKeepsWorld(B, m, m');
    SendMovesOn(B, m, m');
  }

  lemma StepKeepsMesh(B: string -> Content, m: Mesh, m': Mesh, step: MeshStep)
    requires MeshInv(B, m) && NextMesh(B, m, m', step)
    ensures MeshInv(B, m')
  {
    if PodEvent(m, m', step) {
      PodEventKeeps(B, m, m', step);
    } else if StreamEvent(B, m, m', step) {
      StreamEventKeeps(B, m, m', step);
    } else {
      match step
      case Start(order) => StartKeeps(B, m, m', order);
      case ReadStatus => ReadStatusKeeps(B, m, m');
      case ReadExpectation => ReadExpectationKeeps(B, m, m');
      case GiveUp => SameWorldKeeps(B, m, m');
      case Decide(_, _, _) => DecideKeeps(B, m, m', step);
      case DeleteOne(ok) => DeleteOneKeeps(B, m, m', ok);
      case SendOne(ok) => if ok { SendGoesKeeps(B, m, m'); } else { SendFailsKeeps(B, m, m'); }
      case StoreExpectation => StoreKeeps(B, m, m');
      case Finish => FinishKeeps(B, m, m');
    }
  }

  lemma {:induction false} MeshAlwaysOK(B: string -> Content, run: seq<Mesh>, steps: seq<MeshStep>, i: nat)
    requires MeshRun(B, run, steps) && i < |run|
    ensures MeshInv(B, run[i])
  {
    if i == 0 {
      forall u | u in run[0].nodes ensures NodeOK(B, run[0], u) { assert Offline(B, run[0].nodes[u]); }
    } else {
      MeshAlwaysOK(B, run, steps, i - 1);
      assert StepAt(B, run, steps, i - 1);
      StepKeepsMesh(B, run[i - 1], run[i], steps[i - 1]);
    }
  }
}
