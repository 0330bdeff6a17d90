/** When the hash expectation can be trusted: streams in order, and the two reads of Reconcile's gate. */
module MeshOrder {
  import opened Text
  import opened SpecManagers
  import opened Manager
  import opened MeshProtocol
  import opened MeshSafety

  // ----- streams in order

  /**
   * The hash the manager still waits for. One just sent counts although it is not stored yet; between the two reads of
   * a pod, one that the status being read fulfils no longer counts.
   */
  function Awaited(m: Mesh, u: UID): Option<string> {
    if StoringFor(m, u) then Some(m.phase.job.hash)
    else if m.phase.Reading? && m.phase.sync.uid == u && !Unmet(m.phase.sync, Get(m.hashExp, u)) then None
    else Get(m.hashExp, u)
  }

  /** If the pod is connected, every hash under way is the one last read or the one awaited. */
  predicate InOrder(m: Mesh, u: UID) {
    Connected(m, u) && u in m.nodes ==> LinkFine(m.conns[u], m.nodes[u], Awaited(m, u))
  }

  /** The handler of a pod's stream drops the pod's expectation. */
  ghost predicate Drops(step: MeshStep, u: UID) { step == RegisterClear(u) || step == ExitClear(u) }

  /** Dropping the expectation now would leave a hash under way that the manager neither read nor awaits. */
  predicate HarmsStream(m: Mesh, u: UID) {
    Connected(m, u) && u in m.nodes && !StoringFor(m, u) && !Agreed(m.conns[u], m.nodes[u])
  }

  ghost predicate DropHarmless(m: Mesh, step: MeshStep, u: UID) { Drops(step, u) ==> !HarmsStream(m, u) }

  lemma PodFrame(m: Mesh, m': Mesh, step: MeshStep, u: UID)
    requires PodEvent(m, m', step) && u in m'.cache
    ensures m'.phase == m.phase && m'.conns == m.conns && Get(m'.hashExp, u) == Get(m.hashExp, u)
    ensures u in m.nodes ==> u in m.cache && u in m'.nodes && m'.nodes[u] == m.nodes[u]
    ensures u in m'.nodes && u !in m.nodes ==> Untouched(m'.nodes[u])
  {
  }

  lemma PodKeepsOrder(m: Mesh, m': Mesh, step: MeshStep, u: UID)
    requires m.conns.Keys <= m.nodes.Keys && PodEvent(m, m', step) && u in m'.cache && InOrder(m, u)
    ensures InOrder(m', u) && DropHarmless(m, step, u)
  {
    PodFrame(m, m', step, u);
  }

  lemma OthersKeepOrder(m: Mesh, m': Mesh, v: UID, u: UID)
    requires TouchesOnly(m, m', v) && u != v && InOrder(m, u)
    ensures InOrder(m', u)
  {
    assert Get(m'.conns, u) == Get(m.conns, u) && Get(m'.hashExp, u) == Get(m.hashExp, u);
  }

  lemma StreamKeepsAwaited(B: string -> Content, m: Mesh, m': Mesh, step: MeshStep)
    requires StreamEvent(B, m, m', step) && !step.RegisterClear? && !step.ExitClear?
    ensures m'.phase == m.phase && m'.hashExp == m.hashExp && Awaited(m', step.uid) == Awaited(m, step.uid)
  {
  }

  /** What happens at the pod's end of its stream. */
  lemma NodeKeepsOrder(B: string -> Content, m: Mesh, m': Mesh, step: MeshStep)
    requires StreamEvent(B, m, m', step) && NodeOK(B, m, step.uid) && InOrder(m, step.uid)
    requires step.ProxyStep? || step.Deliver? || step.SendReport? || step.Drop? || step.Restart?
    ensures InOrder(m', step.uid)
  {
    StreamKeepsAwaited(B, m, m', step);
    var u, e := step.uid, Awaited(m, step.uid);
    if Connected(m, u) {
      var n, c := m.nodes[u], m.conns[u];
      match step
      case ProxyStep(_, inner) => ProxyKeepsOrder(B, n, m'.nodes[u], inner, c, e);
      case Deliver(_) => DeliverKeepsLink(c, n, e);
      case SendReport(_, leader) => ReportKeepsLink(c, n, e, leader);
      case Drop(_) => DropKeepsLink(c, n, e);
      case Restart(_) => assert Restarted(m'.nodes[u]);
    }
  }

  /** What happens at the manager's end. */
  lemma ConnKeepsOrder(B: string -> Content, m: Mesh, m': Mesh, step: MeshStep)
    requires StreamEvent(B, m, m', step) && NodeOK(B, m, step.uid) && InOrder(m, step.uid)
    requires step.ReceiveReport? || step.RegisterStore? || step.ExitMark?
    ensures InOrder(m', step.uid)
  {
    StreamKeepsAwaited(B, m, m', step);
    var u, e := step.uid, Awaited(m, step.uid);
    match step
    case ReceiveReport(_) => ReceiveKeepsOrder(m.nodes[u], m.conns[u], e);
    case RegisterStore(_, leader) => ConnectMakesLink(m.nodes[u], leader, e);
    case ExitMark(_) =>
  }

  lemma DropKeepsOrderExactly(B: string -> Content, m: Mesh, m': Mesh, step: MeshStep)
    requires StreamEvent(B, m, m', step) && InOrder(m, step.uid) && (step.RegisterClear? || step.ExitClear?)
    ensures InOrder(m', step.uid) <==> !HarmsStream(m, step.uid)
  {
    var u := step.uid;
    assert m'.conns == m.conns && m'.nodes == m.nodes && m'.phase == m.phase && u !in m'.hashExp;
    if Connected(m, u) { ClearingIsSafeExactly(m.conns[u], m.nodes[u], Awaited(m, u)); }
  }

  lemma StreamKeepsOrderExactly(B: string -> Content, m: Mesh, m': Mesh, step: MeshStep, u: UID)
    requires StreamEvent(B, m, m', step) && NodeOK(B, m, step.uid) && InOrder(m, u)
    ensures InOrder(m', u) <==> DropHarmless(m, step, u)
  {
    if step.uid != u {
      StreamEventTouches(B, m, m', step);
      OthersKeepOrder(m, m', step.uid, u);
    } else if step.RegisterClear? || step.ExitClear? {
      DropKeepsOrderExactly(B, m, m', step);
    } else if step.ReceiveReport? || step.RegisterStore? || step.ExitMark? {
      ConnKeepsOrder(B, m, m', step);
    } else {
      NodeKeepsOrder(B, m, m', step);
    }
  }

  /** A status that fulfils the expectation, read from a stream in order, leaves nothing to wait for. */
  lemma ReadKeepsOrder(B: string -> Content, m: Mesh, m': Mesh, u: UID)
    requires AllNodesOK(B, m) && ReconcileEvent(B, m, m', ReadStatus) && InOrder(m, u)
    ensures InOrder(m', u)
  {
    ReadOnlyMoves(m);
    if Connected(m', u) && u in m'.nodes {
      assert NodeOK(B, m, u);
      if Awaited(m', u) != Awaited(m, u) { GateOpenMeansQuiet(m.conns[u], m.nodes[u], Awaited(m, u)); }
    }
  }

  lemma SendOrdered(B: string -> Content, m: Mesh, m': Mesh)
    requires ReconcileEvent(B, m, m', SendOne(true)) && m.phase.rest[0].uid !in m.hashExp
    requires m.nodes[m.phase.rest[0].uid].live && InOrder(m, m.phase.rest[0].uid)
    ensures InOrder(m', m.phase.rest[0].uid)
  {
    var u := m.phase.rest[0].uid;
    if Connected(m, u) {
      SendKeepsLink(m.conns[u], m.nodes[u], SpecOf(B, m.phase.job, u), m'.conns[u].sendTimes);
    }
  }

  lemma CountOrdered(B: string -> Content, m: Mesh, m': Mesh)
    requires ReconcileEvent(B, m, m', SendOne(false)) && InOrder(m, m.phase.rest[0].uid)
    ensures InOrder(m', m.phase.rest[0].uid)
  {
    var u := m.phase.rest[0].uid;
    if Connected(m, u) { CountKeepsLink(m.conns[u], m.nodes[u], Awaited(m, u), m'.conns[u].sendTimes); }
  }

  lemma OthersUntouched(B: string -> Content, m: Mesh, m': Mesh, ok: bool, u: UID)
    requires ReconcileEvent(B, m, m', SendOne(ok)) && u != m.phase.rest[0].uid && InOrder(m, u)
    ensures InOrder(m', u)
  {
  }

  lemma SendKeepsOrder(B: string -> Content, m: Mesh, m': Mesh, ok: bool, u: UID)
    requires PhaseOK(m) && ReconcileEvent(B, m, m', SendOne(ok)) && u in m.cache && InOrder(m, u)
    ensures InOrder(m', u)
  {
    assert Unawaited(m, m.phase.rest[0]);
    if u != m.phase.rest[0].uid {
      OthersUntouched(B, m, m', ok, u);
    } else if ok {
      SendOrdered(B, m, m');
    } else {
      CountOrdered(B, m, m');
    }
  }

  lemma OwnStepKeepsOrder(B: string -> Content, m: Mesh, m': Mesh, step: MeshStep, u: UID)
    requires ReconcileEvent(B, m, m', step) && !step.ReadStatus? && !step.SendOne? && InOrder(m, u)
    ensures InOrder(m', u)
  {
    assert SameWorld(m, m');
    assert Awaited(m', u) == Awaited(m, u);
  }

  lemma ReconcileDropsNothing(B: string -> Content, m: Mesh, m': Mesh, step: MeshStep, u: UID)
    requires ReconcileEvent(B, m, m', step)
    ensures m'.cache == m.cache && DropHarmless(m, step, u)
  {
    if step.ReadStatus? { ReadOnlyMoves(m); }
  }

  lemma ReconcileKeepsOrder(B: string -> Content, m: Mesh, m': Mesh, step: MeshStep, u: UID)
    requires MeshInv(B, m) && ReconcileEvent(B, m, m', step) && u in m'.cache && InOrder(m, u)
    ensures InOrder(m', u) && DropHarmless(m, step, u)
  {
    ReconcileDropsNothing(B, m, m', step, u);
    if step.ReadStatus? {
      ReadKeepsOrder(B, m, m', u);
    } else if step.SendOne? {
      SendKeepsOrder(B, m, m', step.ok, u);
    } else {
      OwnStepKeepsOrder(B, m, m', step, u);
    }
  }

  /** Any step leaves a stream in order if and only if it is not a harmful drop. */
  lemma OrderExactly(B: string -> Content, m: Mesh, m': Mesh, step: MeshStep, u: UID)
    requires MeshInv(B, m) && NextMesh(B, m, m', step) && u in m'.cache && InOrder(m, u)
    ensures InOrder(m', u) <==> DropHarmless(m, step, u)
  {
    if PodEvent(m, m', step) {
      PodKeepsOrder(m, m', step, u);
    } else if StreamEvent(B, m, m', step) {
      StreamEventAt(B, m, m', step);
      StreamKeepsOrderExactly(B, m, m', step, u);
    } else {
      ReconcileKeepsOrder(B, m, m', step, u);
    }
  }

  /** A new stream is in order, whatever became of the one before. */
  lemma RegistrationStartsInOrder(B: string -> Content, m: Mesh, m': Mesh, u: UID, leader: bool)
    requires MeshInv(B, m) && NextMesh(B, m, m', RegisterStore(u, leader))
    ensures InOrder(m', u)
  {
    assert NodeOK(B, m, u);
    ConnectMakesLink(m.nodes[u], leader, Awaited(m', u));
  }

  /** A stream falls back into order as soon as nothing is on the way and the last report read is still true. */
  lemma QuietStreamInOrder(m: Mesh, u: UID)
    requires u in m.conns && u in m.nodes && m.nodes[u].up == [] && m.nodes[u].down == []
    requires SeenIn(m.conns[u].status) == SeenAt(m.nodes[u].proxy)
    ensures InOrder(m, u)
  {
    OrderRestored(m.conns[u], m.nodes[u], Awaited(m, u));
  }

  lemma ListedBefore(B: string -> Content, m: Mesh, m': Mesh, step: MeshStep, u: UID)
    requires NextMesh(B, m, m', step) && u in m'.cache && u in m.nodes
    ensures u in m.cache && u in m'.nodes
  {
    if StreamEvent(B, m, m', step) {
      StreamEventTouches(B, m, m', step);
    } else if PodEvent(m, m', step) {
      PodFrame(m, m', step, u);
    }
  }

  lemma {:induction false} KnownStays(
    B: string -> Content, run: seq<Mesh>, steps: seq<MeshStep>, k: nat, j: nat, u: UID)
    requires MeshRun(B, run, steps) && k <= j < |run| && u in run[k].nodes
    ensures u in run[j].nodes
  {
    if k == j {
    } else {
      KnownStays(B, run, steps, k, j - 1, u);
      assert StepAt(B, run, steps, j - 1);
      StepKeepsKnown(B, run[j - 1], run[j], steps[j - 1]);
    }
  }

  lemma StepKeepsKnown(B: string -> Content, m: Mesh, m': Mesh, step: MeshStep)
    requires NextMesh(B, m, m', step)
    ensures m.nodes.Keys <= m'.nodes.Keys
  {
    if StreamEvent(B, m, m', step) { StreamEventTouches(B, m, m', step); }
  }

  lemma ListedBeforeAt(B: string -> Content, run: seq<Mesh>, steps: seq<MeshStep>, m: nat, u: UID)
    requires MeshRun(B, run, steps) && m < |steps| && u in run[m + 1].cache && u in run[m].nodes
    ensures u in run[m].cache
  {
    assert StepAt(B, run, steps, m);
    ListedBefore(B, run[m], run[m + 1], steps[m], u);
  }

  /** A pod never comes back under its old UID: listed now, it has been listed for as long as it was known. */
  lemma {:induction false} ListedAllAlong(
    B: string -> Content, run: seq<Mesh>, steps: seq<MeshStep>, k: nat, j: nat, u: UID)
    requires MeshRun(B, run, steps) && k <= j < |run| && u in run[k].nodes && u in run[j].cache
    ensures u in run[k].cache
  {
    if k == j {
    } else {
      KnownStays(B, run, steps, k, j - 1, u);
      ListedBeforeAt(B, run, steps, j - 1, u);
      ListedAllAlong(B, run, steps, k, j - 1, u);
    }
  }

  // ----- the hash expectation

  /** Reconcile would let this pod through its hash check. */
  predicate HashGateOpen(m: Mesh, u: UID) {
    && u in m.conns
    && (u in m.hashExp ==> m.conns[u].status.meta.Some? && m.hashExp[u] == m.conns[u].status.meta.value.expectedHash)
  }

  /** An open gate means that nothing but the reported hash is under way to or from the pod. */
  predicate GateSound(m: Mesh, u: UID) {
    u in m.nodes && Connected(m, u) && HashGateOpen(m, u) && !StoringFor(m, u) ==> Agreed(m.conns[u], m.nodes[u])
  }

  lemma OrderMeansSound(B: string -> Content, m: Mesh, u: UID)
    requires AllNodesOK(B, m) && InOrder(m, u)
    ensures GateSound(m, u)
  {
    if u in m.nodes && Connected(m, u) && HashGateOpen(m, u) && !StoringFor(m, u) {
      assert NodeOK(B, m, u);
      GateOpenMeansQuiet(m.conns[u], m.nodes[u], Awaited(m, u));
    }
  }

  lemma DropHarms(B: string -> Content, m: Mesh, m': Mesh, step: MeshStep, u: UID)
    requires NextMesh(B, m, m', step) && !DropHarmless(m, step, u)
    ensures !GateSound(m', u)
  {
    assert StreamEvent(B, m, m', step);
    assert m'.conns == m.conns && m'.nodes == m.nodes && u !in m'.hashExp && m'.phase == m.phase;
  }

  lemma StepStaysInOrder(B: string -> Content, run: seq<Mesh>, steps: seq<MeshStep>, k: nat, u: UID)
    requires MeshRun(B, run, steps) && k < |steps| && u in run[k + 1].cache && InOrder(run[k], u)
    ensures InOrder(run[k + 1], u) <==> DropHarmless(run[k], steps[k], u)
  {
    MeshAlwaysOK(B, run, steps, k);
    assert StepAt(B, run, steps, k);
    OrderExactly(B, run[k], run[k + 1], steps[k], u);
  }

  lemma {:induction false} StaysInOrder(
    B: string -> Content, run: seq<Mesh>, steps: seq<MeshStep>, c: nat, i: nat, u: UID)
    requires MeshRun(B, run, steps) && c <= i < |run| && InOrder(run[c], u) && u in run[i].cache
    requires forall k: nat :: c <= k < i ==> DropHarmless(run[k], steps[k], u)
    ensures InOrder(run[i], u)
  {
    if c == i {
    } else {
      if u in run[i - 1].nodes {
        ListedAllAlong(B, run, steps, i - 1, i, u);
        StaysInOrder(B, run, steps, c, i - 1, u);
      }
      StepStaysInOrder(B, run, steps, i - 1, u);
    }
  }

  /**
   * From any moment at which the stream of a listed pod is in order, the hash gate can be trusted at every moment if
   * and only if every time the expectation was dropped nothing but the reported hash was under way, or the spec just
   * sent was still to be remembered.
   */
  lemma ExpectationGate(B: string -> Content, run: seq<Mesh>, steps: seq<MeshStep>, c: nat, i: nat, u: UID)
    requires MeshRun(B, run, steps) && c <= i < |run| && InOrder(run[c], u)
    requires u in run[i].cache
    ensures (forall k: nat :: c <= k <= i ==> GateSound(run[k], u))
      <==> (forall k: nat :: c <= k < i ==> DropHarmless(run[k], steps[k], u))
  {
    if k: nat :| c <= k < i && !DropHarmless(run[k], steps[k], u) {
      assert StepAt(B, run, steps, k);
      DropHarms(B, run[k], run[k + 1], steps[k], u);
    } else {
      forall k: nat | c <= k <= i ensures GateSound(run[k], u) {
        if u in run[k].nodes {
          ListedAllAlong(B, run, steps, k, i, u);
          StaysInOrder(B, run, steps, c, k, u);
          MeshAlwaysOK(B, run, steps, k);
          OrderMeansSound(B, run[k], u);
        }
      }
    }
  }

  lemma ReconcileKeepsStreams(B: string -> Content, m: Mesh, m': Mesh, step: MeshStep, u: UID)
    requires ReconcileEvent(B, m, m', step)
    ensures Connected(m', u) <==> Connected(m, u)
    ensures u in m'.conns ==> u in m.conns && m'.conns[u].status == m.conns[u].status
    ensures u in m'.nodes ==> u in m.nodes && m'.nodes[u].up == m.nodes[u].up
  {
    match step
    case Start(_) =>
    case ReadStatus => ReadOnlyMoves(m);
    case ReadExpectation =>
    case GiveUp =>
    case Decide(_, _, _) =>
    case DeleteOne(_) =>
    case SendOne(_) =>
    case StoreExpectation =>
    case Finish =>
  }

  lemma ConnectedByRegistration(B: string -> Content, m: Mesh, m': Mesh, step: MeshStep, u: UID)
    requires NextMesh(B, m, m', step)
    ensures Connected(m', u) ==> Connected(m, u) || (step.RegisterStore? && step.uid == u)
  {
    if ReconcileEvent(B, m, m', step) {
      ReconcileKeepsStreams(B, m, m', step, u);
    } else if StreamEvent(B, m, m', step) {
      StreamConnects(B, m, m', step, u);
    } else {
      PodConnects(m, m', step);
    }
  }

  lemma StreamConnects(B: string -> Content, m: Mesh, m': Mesh, step: MeshStep, u: UID)
    requires StreamEvent(B, m, m', step)
    ensures Connected(m', u) ==> Connected(m, u) || (step.RegisterStore? && step.uid == u)
  {
  }

  lemma PodConnects(m: Mesh, m': Mesh, step: MeshStep)
    requires PodEvent(m, m', step)
    ensures m'.conns == m.conns
  {
  }

  /** Every connection goes back to a registration, after which the stream was in order. */
  lemma {:induction false} StreamBegan(
    B: string -> Content, run: seq<Mesh>, steps: seq<MeshStep>, i: nat, u: UID) returns (c: nat)
    requires MeshRun(B, run, steps) && i < |run| && Connected(run[i], u)
    ensures 0 < c <= i && steps[c - 1].RegisterStore? && steps[c - 1].uid == u && InOrder(run[c], u)
    ensures forall k: nat :: c <= k <= i ==> Connected(run[k], u)
  {
    assert i > 0 && StepAt(B, run, steps, i - 1);
    if Connected(run[i - 1], u) {
      c := StreamBegan(B, run, steps, i - 1, u);
    } else {
      ConnectedByRegistration(B, run[i - 1], run[i], steps[i - 1], u);
      MeshAlwaysOK(B, run, steps, i - 1);
      RegistrationStartsInOrder(B, run[i - 1], run[i], u, steps[i - 1].leader);
      c := i;
    }
  }

  // ----- the two reads of the gate

  /** If the second read passes now, the status of the first is true of the pod now. */
  predicate Fair(m: Mesh) {
    m.phase.Reading? ==>
      var s := m.phase.sync;
      s.uid in m.nodes && !Unmet(s, Get(m.hashExp, s.uid)) ==> QuietNode(m.nodes[s.uid], s.status)
  }

  /** Dropping the expectation now would let the gate pass a status that is no longer true of the pod. */
  predicate HarmsReading(m: Mesh, u: UID) {
    m.phase.Reading? && m.phase.sync.uid == u && u in m.nodes && !QuietNode(m.nodes[u], m.phase.sync.status)
  }

  ghost predicate ReadingHarmless(m: Mesh, step: MeshStep) {
    m.phase.Reading? && Drops(step, m.phase.sync.uid) ==> !HarmsReading(m, m.phase.sync.uid)
  }

  /** Reading the status of a pod in order makes a fair reading. */
  lemma ReadIsFair(B: string -> Content, m: Mesh, m': Mesh)
    requires MeshInv(B, m) && ReconcileEvent(B, m, m', ReadStatus) && InOrder(m, m.phase.todo[0])
    ensures Fair(m')
  {
    ReadOnlyMoves(m);
    var u := m.phase.todo[0];
    if m'.phase.Reading? && u in m.nodes && !Unmet(m'.phase.sync, Get(m.hashExp, u)) {
      assert NodeOK(B, m, u);
      GateOpenMeansQuiet(m.conns[u], m.nodes[u], Awaited(m, u));
    }
  }

  /** Reconcile is still between the two reads it was between at moment `r`. */
  ghost predicate StillReading(run: seq<Mesh>, r: nat, k: nat)
    requires r < |run| && k < |run|
  {
    run[r].phase.Reading? && run[k].phase == run[r].phase && run[k].phase.sync.uid in run[k].cache
  }

  lemma ReconcileLeavesReading(B: string -> Content, m: Mesh, m': Mesh, step: MeshStep)
    requires ReconcileEvent(B, m, m', step) && m.phase.Reading?
    ensures !m'.phase.Reading?
  {
  }

  lemma StreamKeepsExpectation(B: string -> Content, m: Mesh, m': Mesh, step: MeshStep)
    requires StreamEvent(B, m, m', step)
    ensures Get(m'.hashExp, step.uid) == Get(m.hashExp, step.uid)
      || (Drops(step, step.uid) && step.uid in m.nodes && m'.nodes == m.nodes)
  {
  }

  lemma FairnessLost(B: string -> Content, m: Mesh, m': Mesh, step: MeshStep)
    requires NextMesh(B, m, m', step) && m'.phase == m.phase && !ReadingHarmless(m, step)
    ensures !Fair(m')
  {
    assert StreamEvent(B, m, m', step);
    assert m'.nodes == m.nodes && m.phase.sync.uid !in m'.hashExp;
  }

  lemma PodKeepsFair(m: Mesh, m': Mesh, step: MeshStep)
    requires PodEvent(m, m', step) && m.phase.Reading? && m.phase.sync.uid in m'.cache && Fair(m)
    requires m.phase.sync.uid in m.nodes
    ensures Fair(m')
  {
    PodFrame(m, m', step, m.phase.sync.uid);
  }

  lemma FairElsewhere(m: Mesh, m': Mesh, v: UID)
    requires m.phase.Reading? && m.phase.sync.uid != v && m'.phase == m.phase && Fair(m) && TouchesOnly(m, m', v)
    ensures Fair(m')
  {
  }

  lemma FairAt(m: Mesh, m': Mesh, step: MeshStep, u: UID)
    requires m.phase.Reading? && m.phase.sync.uid == u && m'.phase == m.phase && Fair(m) && ReadingHarmless(m, step)
    requires u in m.nodes && u in m'.nodes && KeepsQuiet(m.nodes[u], m'.nodes[u])
    requires Get(m'.hashExp, u) == Get(m.hashExp, u) || (Drops(step, u) && m'.nodes == m.nodes)
    ensures Fair(m')
  {
  }

  lemma StreamKeepsFair(B: string -> Content, m: Mesh, m': Mesh, step: MeshStep)
    requires StreamEvent(B, m, m', step) && m.phase.Reading? && m'.phase == m.phase
    requires step.uid in m.nodes && NodeOK(B, m, step.uid) && Fair(m) && ReadingHarmless(m, step)
    ensures Fair(m')
  {
    var u := m.phase.sync.uid;
    StreamEventTouches(B, m, m', step);
    if step.uid == u {
      StreamEventKeepsNode(B, m, m', step);
      StreamKeepsExpectation(B, m, m', step);
      FairAt(m, m', step, u);
    } else {
      FairElsewhere(m, m', step.uid);
    }
  }

  lemma FairnessStays(B: string -> Content, m: Mesh, m': Mesh, step: MeshStep)
    requires AllNodesOK(B, m) && NextMesh(B, m, m', step) && m.phase.Reading? && m'.phase == m.phase
    requires m.phase.sync.uid in m.nodes && m.phase.sync.uid in m'.cache && Fair(m) && ReadingHarmless(m, step)
    ensures Fair(m')
  {
    if StreamEvent(B, m, m', step) {
      StreamEventAt(B, m, m', step);
      StreamKeepsFair(B, m, m', step);
    } else if PodEvent(m, m', step) {
      PodKeepsFair(m, m', step);
    } else {
      ReconcileLeavesReading(B, m, m', step);
    }
  }

  lemma StepStaysFair(B: string -> Content, run: seq<Mesh>, steps: seq<MeshStep>, r: nat, k: nat)
    requires MeshRun(B, run, steps) && r <= k < |steps| && StillReading(run, r, k) && StillReading(run, r, k + 1)
    requires Fair(run[k]) && ReadingHarmless(run[k], steps[k])
    ensures Fair(run[k + 1])
  {
    MeshAlwaysOK(B, run, steps, k);
    ReadingKnown(run[k]);
    assert StepAt(B, run, steps, k);
    FairnessStays(B, run[k], run[k + 1], steps[k]);
  }

  lemma {:induction false} FairSoFar(B: string -> Content, run: seq<Mesh>, steps: seq<MeshStep>, r: nat, g: nat)
    requires MeshRun(B, run, steps) && r <= g < |run| && forall k: nat :: r <= k <= g ==> StillReading(run, r, k)
    requires Fair(run[r]) && forall k: nat :: r <= k < g ==> ReadingHarmless(run[k], steps[k])
    ensures Fair(run[g])
  {
    if r == g {
    } else {
      FairSoFar(B, run, steps, r, g - 1);
      StepStaysFair(B, run, steps, r, g - 1);
    }
  }

  /**
   * Between the two reads the status in hand stays fit to be judged by if and only if it was so at once, and every time
   * the expectation was dropped in between, the pod was still what that status says.
   */
  lemma ReadingExactly(B: string -> Content, run: seq<Mesh>, steps: seq<MeshStep>, r: nat, g: nat)
    requires MeshRun(B, run, steps) && r <= g < |run| && forall k: nat :: r <= k <= g ==> StillReading(run, r, k)
    ensures (forall k: nat :: r <= k <= g ==> Fair(run[k]))
      <==> Fair(run[r]) && (forall k: nat :: r <= k < g ==> ReadingHarmless(run[k], steps[k]))
  {
    assert StillReading(run, r, r);
    if k: nat :| r <= k < g && !ReadingHarmless(run[k], steps[k]) {
      assert StillReading(run, r, k) && StillReading(run, r, k + 1);
      assert StepAt(B, run, steps, k);
      FairnessLost(B, run[k], run[k + 1], steps[k]);
    } else if Fair(run[r]) {
      forall k: nat | r <= k <= g ensures Fair(run[k]) {
        FairSoFar(B, run, steps, r, k);
      }
    }
  }
}
