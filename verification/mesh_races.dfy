/** Runs in which the promises are lost: accesses of the code that look like one step and are two. */
module MeshRaces {
  import opened Text
  import opened Routes
  import opened SpecManagers
  import opened Manager
  import opened MeshProtocol
  import opened MeshSafety
  import opened MeshOrder
  import opened MeshTheorems

  ghost predicate Ends(B: string -> Content, run: seq<Mesh>, steps: seq<MeshStep>, m: Mesh) {
    MeshRun(B, run, steps) && run[|run| - 1] == m
  }

  ghost predicate Reachable(B: string -> Content, m: Mesh) {
    exists run, steps :: Ends(B, run, steps, m)
  }

  lemma ReachBoot(B: string -> Content, m: Mesh)
    requires Boot(B, m)
    ensures Reachable(B, m)
  {
    assert Ends(B, [m], [], m);
  }

  lemma ReachStep(B: string -> Content, m: Mesh, m': Mesh, step: MeshStep)
    requires Reachable(B, m) && NextMesh(B, m, m', step)
    ensures Reachable(B, m')
  {
    var run, steps :| Ends(B, run, steps, m);
    var run', steps' := run + [m'], steps + [step];
    forall i: nat | i < |steps'| ensures StepAt(B, run', steps', i) {
      if i < |steps| {
        assert StepAt(B, run, steps, i);
      }
    }
    assert Ends(B, run', steps', m');
  }

  // ----- one pod and its manager

  const READY := PodView(Running, false, true, true, false)
  const NOTHING := Report(None, false)

  /** The memory of a run that involves pod 0 alone. */
  datatype Notes = Notes(clearing: set<UID>, exiting: set<UID>, late: set<UID>)

  function Solo(n: Node, c: Conn, e: map<UID, string>, phase: Phase, snap: map<UID, PodView>, x: Notes): Mesh {
    Mesh(map[0 := c], e, {}, x.clearing, x.exiting, map[0 := n], map[0 := READY], phase, {}, snap, {}, x.late)
  }

  function AnySubset(u: UID): string { "" }

  function SpecFor(B: string -> Content, h: string): Spec { Spec("app", h, "", B(h).body, B(h).endpoints) }

  function Holding(spec: Spec): State { FRESH.(current := Some(spec), expected := Some(spec)) }

  /** A first report, never replaced by a later one. */
  function FirstConn(sent: nat): Conn { Conn(1, NOTHING, sent, false) }

  function FirstSync(sent: nat): Sync { Sync(0, 1, NOTHING, sent > 0) }

  function DispatchJob(h: string, sent: nat): Job { Job(true, "app", h, AnySubset, [FirstSync(sent)]) }

  /** The status read says that the pod has no spec, so whatever the Reconcile wants is dispatched to it. */
  lemma DecideDispatches(B: string -> Content, m: Mesh, sent: nat, h: string)
    requires m.phase == Gating([], [FirstSync(sent)])
    ensures NextMesh(B, m, m.(phase := Sending(DispatchJob(h, sent), [FirstSync(sent)])), Decide("app", h, AnySubset))
  {
    var s := FirstSync(sent);
    assert [s][..0] == [];
    assert PlanOf([s][..0], AnySubset, h) == Plan([], [], [], []);
    assert PlanOf([s], AnySubset, h) == Plan([s], [], [], []);
    var m' := m.(phase := Sending(DispatchJob(h, sent), [s]));
    assert ReconcileEvent(B, m, m', Decide("app", h, AnySubset));
  }

  const LISTED := map[0 := READY]

  /** A whole gate of a Reconcile that finds no expectation, up to the dispatch of `h`. */
  lemma GatePasses(
    B: string -> Content, n: Node, e: map<UID, string>, sent: nat, snap: map<UID, PodView>, x: Notes, h: string)
    requires Reachable(B, Solo(n, FirstConn(sent), e, Idle, snap, x)) && 0 !in e
    ensures Reachable(B, Solo(n, FirstConn(sent), e, Sending(DispatchJob(h, sent), [FirstSync(sent)]), LISTED,
                              x.(late := {})))
  {
    var c, y := FirstConn(sent), x.(late := {});
    var m0 := Solo(n, c, e, Idle, snap, x);
    var m1 := Solo(n, c, e, Gating([0], []), LISTED, y);
    assert ReconcileEvent(B, m0, m1, Start([0]));
    ReachStep(B, m0, m1, Start([0]));
    GateReads(B, n, e, sent, y);
    var m2 := Solo(n, c, e, Gating([], [FirstSync(sent)]), LISTED, y);
    DecideDispatches(B, m2, sent, h);
    ReachStep(B, m2, m2.(phase := Sending(DispatchJob(h, sent), [FirstSync(sent)])), Decide("app", h, AnySubset));
  }

  lemma StatusRead(B: string -> Content, n: Node, e: map<UID, string>, sent: nat, x: Notes)
    requires Reachable(B, Solo(n, FirstConn(sent), e, Gating([0], []), LISTED, x))
    ensures Reachable(B, Solo(n, FirstConn(sent), e, Reading(FirstSync(sent), [], []), LISTED, x))
  {
    var m := Solo(n, FirstConn(sent), e, Gating([0], []), LISTED, x);
    var m' := Solo(n, FirstConn(sent), e, Reading(FirstSync(sent), [], []), LISTED, x);
    assert ReadHere(m, 0) == Pass(FirstSync(sent)) && [0][1..] == [];
    assert ReconcileEvent(B, m, m', ReadStatus);
    ReachStep(B, m, m', ReadStatus);
  }

  lemma ExpectationRead(B: string -> Content, n: Node, c: Conn, e: map<UID, string>, sent: nat, x: Notes)
    requires Reachable(B, Solo(n, c, e, Reading(FirstSync(sent), [], []), LISTED, x)) && 0 !in e
    ensures Reachable(B, Solo(n, c, e, Gating([], [FirstSync(sent)]), LISTED, x))
  {
    var m := Solo(n, c, e, Reading(FirstSync(sent), [], []), LISTED, x);
    var m' := Solo(n, c, e, Gating([], [FirstSync(sent)]), LISTED, x);
    assert e - {0} == e && [] + [FirstSync(sent)] == [FirstSync(sent)];
    assert ReconcileEvent(B, m, m', ReadExpectation);
    ReachStep(B, m, m', ReadExpectation);
  }

  lemma GateReads(B: string -> Content, n: Node, e: map<UID, string>, sent: nat, x: Notes)
    requires Reachable(B, Solo(n, FirstConn(sent), e, Gating([0], []), LISTED, x)) && 0 !in e
    ensures Reachable(B, Solo(n, FirstConn(sent), e, Gating([], [FirstSync(sent)]), LISTED, x))
  {
    StatusRead(B, n, e, sent, x);
    ExpectationRead(B, n, FirstConn(sent), e, sent, x);
  }

  /** The spec goes out, its expectation is stored, and the Reconcile ends. */
  lemma SpecGoesOut(B: string -> Content, n: Node, x: Notes, h: string)
    requires Reachable(B, Solo(n, FirstConn(0), map[], Sending(DispatchJob(h, 0), [FirstSync(0)]), LISTED, x))
    requires n.live && n.gen == 1 && n.down == []
    ensures Reachable(B,
      Solo(n.(down := [SpecFor(B, h)]), FirstConn(1), map[], Storing(DispatchJob(h, 0), 0, []), LISTED, x))
  {
    var job, n' := DispatchJob(h, 0), n.(down := [SpecFor(B, h)]);
    var m0 := Solo(n, FirstConn(0), map[], Sending(job, [FirstSync(0)]), LISTED, x);
    var m1 := Solo(n', FirstConn(1), map[], Storing(job, 0, []), LISTED, x);
    assert m0.conns[0 := FirstConn(1)] == map[0 := FirstConn(1)] && m0.nodes[0 := n'] == map[0 := n'];
    assert [FirstSync(0)][1..] == [] && n.down + [SpecOf(B, job, 0)] == [SpecFor(B, h)];
    assert ReconcileEvent(B, m0, m1, SendOne(true));
    ReachStep(B, m0, m1, SendOne(true));
  }

  lemma SpecSent(B: string -> Content, n: Node, x: Notes, h: string)
    requires Reachable(B, Solo(n, FirstConn(0), map[], Sending(DispatchJob(h, 0), [FirstSync(0)]), LISTED, x))
    requires n.live && n.gen == 1 && n.down == []
    ensures Reachable(B, Solo(n.(down := [SpecFor(B, h)]), FirstConn(1), map[0 := h], Idle, LISTED, x))
  {
    SpecGoesOut(B, n, x, h);
    SpecRemembered(B, n.(down := [SpecFor(B, h)]), x, h);
  }

  lemma SpecRemembered(B: string -> Content, n: Node, x: Notes, h: string)
    requires Reachable(B, Solo(n, FirstConn(1), map[], Storing(DispatchJob(h, 0), 0, []), LISTED, x))
    ensures Reachable(B, Solo(n, FirstConn(1), map[0 := h], Idle, LISTED, x))
  {
    var job := DispatchJob(h, 0);
    var m1 := Solo(n, FirstConn(1), map[], Storing(job, 0, []), LISTED, x);
    var m2 := Solo(n, FirstConn(1), map[0 := h], Sending(job, []), LISTED, x);
    assert ReconcileEvent(B, m1, m2, StoreExpectation);
    ReachStep(B, m1, m2, StoreExpectation);
    var m3 := Solo(n, FirstConn(1), map[0 := h], Idle, LISTED, x);
    assert ReconcileEvent(B, m2, m3, Finish);
    ReachStep(B, m2, m3, Finish);
  }

  const BLANK := Node(FRESH, 1, true, [], [])

  function LoadedNode(B: string -> Content, h: string): Node { BLANK.(proxy := Holding(SpecFor(B, h))) }

  /** The pod receives the spec and loads it; its report is not read. */
  lemma SpecLoads(B: string -> Content, e: map<UID, string>, snap: map<UID, PodView>, x: Notes, h: string)
    requires Reachable(B, Solo(BLANK.(down := [SpecFor(B, h)]), FirstConn(1), e, Idle, snap, x))
    ensures Reachable(B, Solo(LoadedNode(B, h), FirstConn(1), e, Idle, snap, x))
  {
    var n0 := BLANK.(down := [SpecFor(B, h)]);
    var n1 := BLANK.(proxy := FRESH.(expected := Some(SpecFor(B, h)), updating := true));
    var m0 := Solo(n0, FirstConn(1), e, Idle, snap, x);
    var m1 := Solo(n1, FirstConn(1), e, Idle, snap, x);
    var m2 := Solo(LoadedNode(B, h), FirstConn(1), e, Idle, snap, x);
    assert n0.down[1..] == [] && Delivered(n0) == n1;
    assert m0.nodes[0 := n1] == m1.nodes && m1.nodes[0 := LoadedNode(B, h)] == m2.nodes;
    assert StreamEvent(B, m0, m1, Deliver(0));
    ReachStep(B, m0, m1, Deliver(0));
    assert NextStep(B, n1.proxy, Holding(SpecFor(B, h)), LoadExpected(VAppChanged));
    assert StreamEvent(B, m1, m2, ProxyStep(0, LoadExpected(VAppChanged)));
    ReachStep(B, m1, m2, ProxyStep(0, LoadExpected(VAppChanged)));
  }

  const NEWCOMER := Node(FRESH, 0, false, [], [])

  /** A new pod registers; the handler has stored the connection and not yet dropped the expectation. */
  lemma Registers(B: string -> Content)
    ensures Reachable(B, Solo(BLANK, FirstConn(0), map[], Idle, map[], Notes({0}, {}, {0})))
  {
    var m0 := Mesh(map[], map[], {}, {}, {}, map[0 := NEWCOMER], LISTED, Idle, {}, map[], {}, {});
    var m1 := Solo(BLANK, FirstConn(0), map[], Idle, map[], Notes({0}, {}, {0}));
    assert Boot(B, m0);
    ReachBoot(B, m0);
    assert m0.conns[0 := NewConn(NEWCOMER, false)] == m1.conns && m0.nodes[0 := Joined(NEWCOMER)] == m1.nodes;
    assert StreamEvent(B, m0, m1, RegisterStore(0, false));
    ReachStep(B, m0, m1, RegisterStore(0, false));
  }

  /** The registration's second half, whenever it comes. */
  lemma Clears(B: string -> Content, n: Node, sent: nat, e: map<UID, string>, snap: map<UID, PodView>, x: Notes)
    requires Reachable(B, Solo(n, FirstConn(sent), e, Idle, snap, x)) && x.clearing == {0}
    requires e.Keys <= {0}
    ensures Reachable(B, Solo(n, FirstConn(sent), map[], Idle, snap, x.(clearing := {})))
  {
    var m := Solo(n, FirstConn(sent), e, Idle, snap, x);
    var m' := Solo(n, FirstConn(sent), map[], Idle, snap, x.(clearing := {}));
    assert e - {0} == map[];
    assert StreamEvent(B, m, m', RegisterClear(0));
    ReachStep(B, m, m', RegisterClear(0));
  }

  /** Between the halves of its registration a pod is sent "h2"; then the second half drops the expectation. */
  lemma SentWhileRegistering(B: string -> Content)
    ensures Reachable(B,
      Solo(BLANK.(down := [SpecFor(B, "h2")]), FirstConn(1), map[], Idle, LISTED, Notes({}, {}, {})))
  {
    Registers(B);
    var x := Notes({0}, {}, {});
    GatePasses(B, BLANK, map[], 0, map[], Notes({0}, {}, {0}), "h2");
    SpecSent(B, BLANK, x, "h2");
    var n := BLANK.(down := [SpecFor(B, "h2")]);
    Clears(B, n, 1, map[0 := "h2"], LISTED, x);
  }

  /** The gate of a live pod is open while a spec that it never acknowledged is in flight to it. */
  lemma RegistrationBreaksGate(B: string -> Content) returns (m: Mesh)
    ensures Reachable(B, m) && 0 in m.nodes && m.nodes[0].live && Connected(m, 0) && HashGateOpen(m, 0)
    ensures !GateSound(m, 0) && |m.nodes[0].down| == 1 && m.conns[0].status.meta.None?
  {
    SentWhileRegistering(B);
    m := Solo(BLANK.(down := [SpecFor(B, "h2")]), FirstConn(1), map[], Idle, LISTED, Notes({}, {}, {}));
    assert Chain(m.conns[0], m.nodes[0])[2] == Some("h2");
  }

  /** Then "h1" is dispatched while the pod, connected all along, runs "h2". */
  lemma RegistrationBreaksBarrier(B: string -> Content) returns (m: Mesh)
    ensures Reachable(B, m) && Dispatching(m) && m.phase.job.hash == "h1" && Covered(m, 0) && Watched(m, 0)
    ensures HashOf(m.nodes[0].proxy.current) == Some("h2")
  {
    SentWhileRegistering(B);
    var x := Notes({}, {}, {});
    SpecLoads(B, map[], LISTED, x, "h2");
    GatePasses(B, LoadedNode(B, "h2"), map[], 1, LISTED, x, "h1");
    m := Solo(LoadedNode(B, "h2"), FirstConn(1), map[], Sending(DispatchJob("h1", 1), [FirstSync(1)]), LISTED, x);
    assert Among(0, m.phase.job.all) by { assert m.phase.job.all[0].uid == 0; }
  }

  // ----- the end of a stream

  /** A pod registers in full, is sent "h2" and loads it, and its report is not read. */
  lemma LoadedUnread(B: string -> Content)
    ensures Reachable(B,
      Solo(LoadedNode(B, "h2"), FirstConn(1), map[0 := "h2"], Idle, LISTED, Notes({}, {}, {})))
  {
    Registers(B);
    Clears(B, BLANK, 0, map[], map[], Notes({0}, {}, {0}));
    GatePasses(B, BLANK, map[], 0, map[], Notes({}, {}, {0}), "h2");
    var x := Notes({}, {}, {});
    SpecSent(B, BLANK, x, "h2");
    SpecLoads(B, map[0 := "h2"], LISTED, x, "h2");
  }

  /** The stream dies and its handler drops the expectation, not yet marking the connection. */
  lemma StreamEnds(B: string -> Content, phase: Phase, x: Notes)
    requires Reachable(B, Solo(LoadedNode(B, "h2"), FirstConn(1), map[0 := "h2"], phase, LISTED, x))
    requires x == Notes({}, {}, {}) && (phase == Idle || phase == Reading(FirstSync(1), [], []))
    ensures
      Reachable(B, Solo(LoadedNode(B, "h2").(live := false), FirstConn(1), map[], phase, LISTED,
                        x.(exiting := {0})))
  {
    var n, n' := LoadedNode(B, "h2"), LoadedNode(B, "h2").(live := false);
    var m0 := Solo(n, FirstConn(1), map[0 := "h2"], phase, LISTED, x);
    var m1 := Solo(n', FirstConn(1), map[0 := "h2"], phase, LISTED, x);
    assert m0.nodes[0 := n'] == m1.nodes;
    assert StreamEvent(B, m0, m1, Drop(0));
    ReachStep(B, m0, m1, Drop(0));
    var y := x.(exiting := {0});
    var m2 := Solo(n', FirstConn(1), map[], phase, LISTED, y);
    assert m1.hashExp - {0} == map[];
    assert StreamEvent(B, m1, m2, ExitClear(0));
    ReachStep(B, m1, m2, ExitClear(0));
  }

  /** A Reconcile between the two halves of the exit passes the pod by its old status and dispatches "h1". */
  lemma ExitBreaksBarrier(B: string -> Content) returns (m: Mesh)
    ensures Reachable(B, m) && Dispatching(m) && m.phase.job.hash == "h1" && Covered(m, 0) && Connected(m, 0)
    ensures HashOf(m.nodes[0].proxy.current) == Some("h2")
  {
    LoadedUnread(B);
    StreamEnds(B, Idle, Notes({}, {}, {}));
    var n, x := LoadedNode(B, "h2").(live := false), Notes({}, {0}, {});
    GatePasses(B, n, map[], 1, LISTED, x, "h1");
    m := Solo(n, FirstConn(1), map[], Sending(DispatchJob("h1", 1), [FirstSync(1)]), LISTED, x);
    assert Among(0, m.phase.job.all) by { assert m.phase.job.all[0].uid == 0; }
  }

  /** So does one whose two reads the whole exit falls between. */
  lemma ExitBetweenReadsBreaksBarrier(B: string -> Content) returns (m: Mesh)
    ensures Reachable(B, m) && Dispatching(m) && m.phase.job.hash == "h1" && Covered(m, 0) && !Connected(m, 0)
    ensures HashOf(m.nodes[0].proxy.current) == Some("h2")
  {
    LoadedUnread(B);
    var x := Notes({}, {}, {});
    var m0 := Solo(LoadedNode(B, "h2"), FirstConn(1), map[0 := "h2"], Idle, LISTED, x);
    var m1 := m0.(phase := Gating([0], []));
    assert ReconcileEvent(B, m0, m1, Start([0]));
    ReachStep(B, m0, m1, Start([0]));
    StatusRead(B, LoadedNode(B, "h2"), map[0 := "h2"], 1, x);
    StreamEnds(B, Reading(FirstSync(1), [], []), x);
    m := GateAfterExit(B);
  }

  lemma GateAfterExit(B: string -> Content) returns (m: Mesh)
    requires
      Reachable(B, Solo(LoadedNode(B, "h2").(live := false), FirstConn(1), map[], Reading(FirstSync(1), [], []), LISTED,
                        Notes({}, {0}, {})))
    ensures Reachable(B, m) && Dispatching(m) && m.phase.job.hash == "h1" && Covered(m, 0) && !Connected(m, 0)
    ensures HashOf(m.nodes[0].proxy.current) == Some("h2")
  {
    var n, x := LoadedNode(B, "h2").(live := false), Notes({}, {}, {});
    var c := FirstConn(1).(disconnected := true);
    var m0 := Solo(n, FirstConn(1), map[], Reading(FirstSync(1), [], []), LISTED, x.(exiting := {0}));
    var m1 := Solo(n, c, map[], Reading(FirstSync(1), [], []), LISTED, x);
    assert m0.conns[0 := c] == m1.conns && m0.nodes[0 := n.(up := [])] == m1.nodes;
    assert StreamEvent(B, m0, m1, ExitMark(0));
    ReachStep(B, m0, m1, ExitMark(0));
    ExpectationRead(B, n, c, map[], 1, x);
    var m2 := Solo(n, c, map[], Gating([], [FirstSync(1)]), LISTED, x);
    m := Solo(n, c, map[], Sending(DispatchJob("h1", 1), [FirstSync(1)]), LISTED, x);
    DecideDispatches(B, m2, 1, "h1");
    ReachStep(B, m2, m, Decide("app", "h1", AnySubset));
    assert Among(0, m.phase.job.all) by { assert m.phase.job.all[0].uid == 0; }
  }

  // ----- a pod that registers late: pod 0 is new, pod 1 runs "old" since an earlier manager

  const UNREADY := PodView(Running, false, false, true, false)
  const BOTH := map[0 := UNREADY, 1 := UNREADY]

  function Veteran(B: string -> Content): Node { NEWCOMER.(proxy := Holding(SpecFor(B, "old"))) }

  function Pair(B: string -> Content, phase: Phase): Mesh {
    Mesh(map[0 := FirstConn(0)], map[], {}, {0}, {}, map[0 := BLANK, 1 := Veteran(B)], BOTH, phase, {}, BOTH, {}, {})
  }

  function BothUp(B: string -> Content, phase: Phase): Mesh {
    Pair(B, phase).(conns := map[0 := FirstConn(0), 1 := NewConn(Veteran(B), false)], clearing := {0, 1}, late := {1},
                    nodes := map[0 := BLANK, 1 := Joined(Veteran(B))])
  }

  function PairBefore(B: string -> Content): Mesh {
    var nodes := map[0 := NEWCOMER, 1 := Veteran(B)];
    Mesh(map[], map[], {}, {}, {}, nodes, BOTH, Idle, {}, map[], {}, {})
  }

  lemma PairBoots(B: string -> Content)
    ensures Reachable(B, PairBefore(B))
  {
    assert Inv(B, FRESH) && Inv(B, Veteran(B).proxy);
    ReachBoot(B, PairBefore(B));
  }

  lemma PairRegisters(B: string -> Content)
    ensures Reachable(B, Pair(B, Idle).(snap := map[], late := {0}))
  {
    PairBoots(B);
    var m0, m1 := PairBefore(B), Pair(B, Idle).(snap := map[], late := {0});
    assert m0.conns[0 := NewConn(NEWCOMER, false)] == m1.conns && m0.nodes[0 := Joined(NEWCOMER)] == m1.nodes;
    assert StreamEvent(B, m0, m1, RegisterStore(0, false));
    ReachStep(B, m0, m1, RegisterStore(0, false));
  }

  lemma PairStarts(B: string -> Content)
    ensures Reachable(B, Pair(B, Gating([0, 1], [])))
  {
    PairRegisters(B);
    var m0, m1 := Pair(B, Idle).(snap := map[], late := {0}), Pair(B, Gating([0, 1], []));
    assert ReconcileEvent(B, m0, m1, Start([0, 1]));
    ReachStep(B, m0, m1, Start([0, 1]));
  }

  lemma NewcomerRead(B: string -> Content)
    ensures Reachable(B, Pair(B, Reading(FirstSync(0), [1], [])))
  {
    PairStarts(B);
    var m0, m1 := Pair(B, Gating([0, 1], [])), Pair(B, Reading(FirstSync(0), [1], []));
    assert ReadHere(m0, 0) == Pass(FirstSync(0)) && [0, 1][1..] == [1];
    assert ReconcileEvent(B, m0, m1, ReadStatus);
    ReachStep(B, m0, m1, ReadStatus);
  }

  lemma PairRead(B: string -> Content)
    ensures Reachable(B, Pair(B, Gating([], [FirstSync(0)])))
  {
    NewcomerRead(B);
    var m1, m2 := Pair(B, Reading(FirstSync(0), [1], [])), Pair(B, Gating([1], [FirstSync(0)]));
    assert m1.hashExp - {0} == map[] && [] + [FirstSync(0)] == [FirstSync(0)];
    assert ReconcileEvent(B, m1, m2, ReadExpectation);
    ReachStep(B, m1, m2, ReadExpectation);
    assert ReadHere(m2, 1) == Skip && [1][1..] == [];
    assert ReconcileEvent(B, m2, Pair(B, Gating([], [FirstSync(0)])), ReadStatus);
    ReachStep(B, m2, Pair(B, Gating([], [FirstSync(0)])), ReadStatus);
  }

  lemma VeteranRegisters(B: string -> Content)
    ensures Reachable(B, BothUp(B, Gating([], [FirstSync(0)])))
  {
    PairRead(B);
    var m0, m1 := Pair(B, Gating([], [FirstSync(0)])), BothUp(B, Gating([], [FirstSync(0)]));
    assert m0.conns[1 := NewConn(Veteran(B), false)] == m1.conns && m0.nodes[1 := Joined(Veteran(B))] == m1.nodes;
    assert StreamEvent(B, m0, m1, RegisterStore(1, false));
    ReachStep(B, m0, m1, RegisterStore(1, false));
  }

  /**
   * The barrier does not cover a pod that had no connection when it was read and registers afterwards: here pod 1,
   * running but not ready, runs "old" while "new" is being dispatched to pod 0.
   */
  lemma LateRegistrationEscapes(B: string -> Content) returns (m: Mesh)
    ensures Reachable(B, m) && Dispatching(m) && m.phase.job.hash == "new" && 1 in m.late && !Covered(m, 1)
    ensures 1 in m.nodes && m.nodes[1].live && 1 in m.snap && m.snap[1].Active()
    ensures HashOf(m.nodes[1].proxy.current) == Some("old")
  {
    VeteranRegisters(B);
    var s := FirstSync(0);
    m := BothUp(B, Sending(DispatchJob("new", 0), [s]));
    DecideDispatches(B, BothUp(B, Gating([], [s])), 0, "new");
    ReachStep(B, BothUp(B, Gating([], [s])), m, Decide("app", "new", AnySubset));
  }
}
