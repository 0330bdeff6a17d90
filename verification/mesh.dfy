/** Manager and proxies together: streams, reports, reconnects and Reconcile, interleaved in any order. */
module MeshProtocol {
  import opened Text
  import opened Routes
  import opened SpecManagers
  import opened Manager

  /** One pod's proxy and its stream: `up` are reports not yet received, `down` specs not yet received. */
  datatype Node = Node(proxy: State, gen: nat, live: bool, up: seq<Report>, down: seq<Spec>)

  datatype Job = Job(dispatch: bool, app: string, hash: string, subsetOf: UID -> string, all: seq<Sync>)

  /**
   * Where the Reconcile in progress stands; Reconciles of one VirtualApp never overlap. `Reading` lies between the two
   * reads of one pod: its status is known and its expectation is not.
   */
  datatype Phase =
    | Idle
    | Gating(todo: seq<UID>, syncs: seq<Sync>)
    | Reading(sync: Sync, todo: seq<UID>, syncs: seq<Sync>)
    | Deleting(leader: bool, doomed: seq<UID>)
    | Sending(job: Job, rest: seq<Sync>)
    | Storing(job: Job, uid: UID, rest: seq<Sync>)

  /**
   * `clearing` are the registrations that have stored their connection and not yet dropped the old expectation,
   * `exiting` the handlers that have dropped the expectation and not yet marked the connection.
   *
   * The rest is memory of the run. `deleted` collects every successful deletion; `snap`, `before` and `late` belong to
   * the Reconcile in progress: the pods it listed, those deleted before it began, and those that registered since.
   */
  datatype Mesh = Mesh(
    conns: map<UID, Conn>, hashExp: map<UID, string>, delExp: set<UID>, clearing: set<UID>, exiting: set<UID>,
    nodes: map<UID, Node>, cache: map<UID, PodView>, phase: Phase,
    deleted: set<UID>, snap: map<UID, PodView>, before: set<UID>, late: set<UID>)

  ghost predicate Offline(B: string -> Content, n: Node) {
    Inv(B, n.proxy) && !n.proxy.updating && !n.live && n.up == [] && n.down == []
  }

  /** A manager starts with empty memory; the proxies may already hold specs from an earlier manager. */
  ghost predicate Boot(B: string -> Content, m: Mesh) {
    && m == Mesh(map[], map[], {}, {}, {}, m.nodes, m.cache, Idle, {}, map[], {}, {})
    && m.cache.Keys <= m.nodes.Keys
    && forall u :: u in m.nodes ==> Offline(B, m.nodes[u])
  }

  predicate Connected(m: Mesh, u: UID) { u in m.conns && !m.conns[u].disconnected }

  /** A spec was sent to the pod and its expectation is about to be stored. */
  predicate StoringFor(m: Mesh, u: UID) { m.phase.Storing? && m.phase.uid == u }

  // ----- steps

  datatype MeshStep =
    | PodAppears(uid: UID, view: PodView)
    | PodChanges(uid: UID, view: PodView)
    | PodGone(uid: UID)
    | DeleteEvent(uid: UID)
    | ProxyStep(uid: UID, inner: Step)
    | Deliver(uid: UID)
    | SendReport(uid: UID, leader: bool)
    | ReceiveReport(uid: UID)
    | RegisterStore(uid: UID, leader: bool)
    | RegisterClear(uid: UID)
    | Drop(uid: UID)
    | ExitClear(uid: UID)
    | ExitMark(uid: UID)
    | Restart(uid: UID)
    | Start(order: seq<UID>)
    | ReadStatus
    | ReadExpectation
    | GiveUp
    | Decide(app: string, hash: string, subsetOf: UID -> string)
    | DeleteOne(ok: bool)
    | SendOne(ok: bool)
    | StoreExpectation
    | Finish

  predicate Reportable(p: State) { p.current.Some? ==> p.expected.Some? }

  ghost predicate PodEvent(m: Mesh, m': Mesh, step: MeshStep) {
    match step
    case PodAppears(u, view) =>
      u !in m.nodes && m' == m.(nodes := m.nodes[u := Node(FRESH, 0, false, [], [])], cache := m.cache[u := view])
    case PodChanges(u, view) => u in m.cache && m' == m.(cache := m.cache[u := view])
    case PodGone(u) => u in m.cache && m' == m.(cache := m.cache - {u})
    case DeleteEvent(u) =>
      u in m.nodes && u !in m.cache && m' == m.(hashExp := m.hashExp - {u}, delExp := m.delExp - {u})
    case _ => false
  }

  ghost predicate StreamEvent(B: string -> Content, m: Mesh, m': Mesh, step: MeshStep) {
    match step
    case ProxyStep(u, inner) =>
      && u in m.nodes && u in m'.nodes && !inner.WriteExpected?
      && NextStep(B, m.nodes[u].proxy, m'.nodes[u].proxy, inner)
      && m' == m.(nodes := m.nodes[u := m.nodes[u].(proxy := m'.nodes[u].proxy)])
    case Deliver(u) =>
      && u in m.nodes && m.nodes[u].live && m.nodes[u].down != [] && !m.nodes[u].proxy.updating
      && m' == m.(nodes := m.nodes[u := Delivered(m.nodes[u])])
    case SendReport(u, leader) =>
      && u in m.nodes && m.nodes[u].live && m.nodes[u].proxy.current.Some? && Reportable(m.nodes[u].proxy)
      && m' == m.(nodes := m.nodes[u := Reported(m.nodes[u], leader)])
    case ReceiveReport(u) =>
      && u in m.nodes && Connected(m, u) && m.nodes[u].up != []
      && m' == m.(conns := m.conns[u := m.conns[u].(status := m.nodes[u].up[0])],
                  nodes := m.nodes[u := m.nodes[u].(up := m.nodes[u].up[1..])])
    case RegisterStore(u, leader) =>
      && u in m.nodes && !m.nodes[u].live && !Connected(m, u)
      && !m.nodes[u].proxy.updating && Reportable(m.nodes[u].proxy)
      && u in m.cache && m.cache[u].Active()
      && m' == m.(conns := m.conns[u := NewConn(m.nodes[u], leader)], nodes := m.nodes[u := Joined(m.nodes[u])],
                  late := m.late + {u}, clearing := m.clearing + {u})
    case RegisterClear(u) =>
      u in m.nodes && u in m.clearing && m' == m.(hashExp := m.hashExp - {u}, clearing := m.clearing - {u})
    case Drop(u) =>
      u in m.nodes && m.nodes[u].live && m' == m.(nodes := m.nodes[u := m.nodes[u].(live := false, down := [])])
    case ExitClear(u) =>
      && u in m.nodes && !m.nodes[u].live && Connected(m, u) && u !in m.clearing && u !in m.exiting
      && m' == m.(hashExp := m.hashExp - {u}, exiting := m.exiting + {u})
    case ExitMark(u) =>
      && u in m.nodes && !m.nodes[u].live && Connected(m, u) && u in m.exiting
      && m' == m.(conns := m.conns[u := m.conns[u].(disconnected := true)], exiting := m.exiting - {u},
                  nodes := m.nodes[u := m.nodes[u].(up := [])])
    case Restart(u) =>
      u in m.nodes && !m.nodes[u].live && m' == m.(nodes := m.nodes[u := m.nodes[u].(proxy := FRESH)])
    case _ => false
  }

  function NewConn(n: Node, leader: bool): Conn
    requires Reportable(n.proxy)
  {
    Conn(n.gen + 1, Report(StatusOf(n.proxy), leader), 0, false)
  }

  function Joined(n: Node): Node { n.(gen := n.gen + 1, live := true, up := [], down := []) }

  function Delivered(n: Node): Node
    requires n.down != []
  {
    n.(proxy := n.proxy.(expected := Some(n.down[0]), updating := true, refusal := None), down := n.down[1..])
  }

  function Reported(n: Node, leader: bool): Node
    requires Reportable(n.proxy)
  {
    n.(up := n.up + [Report(StatusOf(n.proxy), leader)])
  }

  function Uids(syncs: seq<Sync>): seq<UID> { seq(|syncs|, i requires 0 <= i < |syncs| => syncs[i].uid) }

  function PhaseOf(action: Action, job: Job): Phase {
    match action
    case Delete(leader, pods) => Deleting(leader, Uids(pods))
    case Send(dispatch, pods) => Sending(job.(dispatch := dispatch), pods)
    case Nothing => Idle
  }

  function SpecOf(B: string -> Content, job: Job, u: UID): Spec {
    Spec(job.app, job.hash, job.subsetOf(u), B(job.hash).body, B(job.hash).endpoints)
  }

  predicate NoRepeats(s: seq<UID>) { forall i, j :: 0 <= i < j < |s| ==> s[i] != s[j] }

  function ReadHere(m: Mesh, u: UID): GateResult
    requires u in m.snap
  {
    ReadPod(u, m.snap[u], Get(m.conns, u), u in m.delExp)
  }

  ghost predicate ReconcileEvent(B: string -> Content, m: Mesh, m': Mesh, step: MeshStep) {
    match step
    case Start(order) =>
      && m.phase.Idle? && NoRepeats(order) && (forall u :: u in order <==> u in m.cache)
      && m' == m.(phase := Gating(order, []), snap := m.cache, before := m.deleted, late := {})
    case ReadStatus =>
      m.phase.Gating? && m.phase.todo != [] && m.phase.todo[0] in m.snap && m' == AfterRead(m)
    case ReadExpectation => m.phase.Reading? && m' == AfterGate(m)
    case GiveUp => m.phase.Gating? && m.phase.todo == [] && m' == m.(phase := Idle)
    case Decide(app, hash, subsetOf) =>
      && m.phase.Gating? && m.phase.todo == []
      && var job := Job(false, app, hash, subsetOf, m.phase.syncs);
         m' == m.(phase := PhaseOf(ActionOf(PlanOf(m.phase.syncs, subsetOf, hash)), job))
    case DeleteOne(ok) =>
      && m.phase.Deleting? && m.phase.doomed != []
      && var u := m.phase.doomed[0];
         m' == m.(phase := m.phase.(doomed := m.phase.doomed[1..]),
                  delExp := if ok then m.delExp + {u} else m.delExp,
                  deleted := if ok then m.deleted + {u} else m.deleted)
    case SendOne(ok) =>
      && m.phase.Sending? && m.phase.rest != [] && m.phase.rest[0].uid in m.nodes
      && (ok ==> CanSend(m, m.phase.rest[0]))
      && m' == if ok then SentOn(B, m) else SentCount(m).(phase := Sending(m.phase.job, m.phase.rest[1..]))
    case StoreExpectation =>
      && m.phase.Storing?
      && m' == m.(hashExp := m.hashExp[m.phase.uid := m.phase.job.hash], phase := Sending(m.phase.job, m.phase.rest))
    case Finish =>
      && ((m.phase.Deleting? && m.phase.doomed == []) || (m.phase.Sending? && m.phase.rest == []))
      && m' == m.(phase := Idle)
    case _ => false
  }

  function AfterRead(m: Mesh): Mesh
    requires m.phase.Gating? && m.phase.todo != [] && m.phase.todo[0] in m.snap
  {
    var u, rest := m.phase.todo[0], m.phase.todo[1..];
    match ReadHere(m, u)
    case Abort => m.(phase := Idle)
    case Skip => m.(phase := Gating(rest, m.phase.syncs))
    case Pass(sync) => NowReading(m, sync)
  }

  function NowReading(m: Mesh, sync: Sync): Mesh
    requires m.phase.Gating? && m.phase.todo != []
  {
    m.(phase := Reading(sync, m.phase.todo[1..], m.phase.syncs))
  }

  function AfterGate(m: Mesh): Mesh
    requires m.phase.Reading?
  {
    var sync := m.phase.sync;
    if Unmet(sync, Get(m.hashExp, sync.uid)) then m.(phase := Idle)
    else m.(phase := Gating(m.phase.todo, m.phase.syncs + [sync]), hashExp := m.hashExp - {sync.uid})
  }

  /** A send goes through only on the very stream the pod was judged by. */
  predicate CanSend(m: Mesh, s: Sync)
    requires s.uid in m.nodes
  {
    m.nodes[s.uid].live && m.nodes[s.uid].gen == s.gen
  }

  function SentCount(m: Mesh): Mesh
    requires m.phase.Sending? && m.phase.rest != []
  {
    m.(conns := CountSend(m.conns, m.phase.rest[0]))
  }

  function SentOn(B: string -> Content, m: Mesh): Mesh
    requires m.phase.Sending? && m.phase.rest != [] && m.phase.rest[0].uid in m.nodes
  {
    var u := m.phase.rest[0].uid;
    SentCount(m).(nodes := m.nodes[u := m.nodes[u].(down := m.nodes[u].down + [SpecOf(B, m.phase.job, u)])],
                  phase := Storing(m.phase.job, u, m.phase.rest[1..]))
  }

  ghost predicate NextMesh(B: string -> Content, m: Mesh, m': Mesh, step: MeshStep) {
    PodEvent(m, m', step) || StreamEvent(B, m, m', step) || ReconcileEvent(B, m, m', step)
  }

  ghost predicate StepAt(B: string -> Content, run: seq<Mesh>, steps: seq<MeshStep>, i: nat)
    requires |run| == |steps| + 1 && i < |steps|
  {
    NextMesh(B, run[i], run[i + 1], steps[i])
  }

  ghost predicate MeshRun(B: string -> Content, run: seq<Mesh>, steps: seq<MeshStep>) {
    |run| == |steps| + 1 && Boot(B, run[0]) && forall i: nat :: i < |steps| ==> StepAt(B, run, steps, i)
  }

  // ----- one stream: hashes in the order they were expected

  /** What a report, or the proxy itself, says it expects and runs. */
  datatype Seen = Seen(exp: Option<string>, cur: Option<string>)

  function HashOf(s: Option<Spec>): Option<string> { if s.None? then None else Some(s.value.hash) }

  function SeenIn(r: Report): Seen {
    if r.meta.None? then Seen(None, None) else Seen(Some(r.meta.value.expectedHash), Some(r.meta.value.currentHash))
  }

  function SeenAt(p: State): Seen { Seen(HashOf(p.expected), HashOf(p.current)) }

  function Sightings(c: Conn, n: Node): seq<Seen> {
    [SeenIn(c.status)] + seq(|n.up|, i requires 0 <= i < |n.up| => SeenIn(n.up[i])) + [SeenAt(n.proxy)]
  }

  function Exps(vs: seq<Seen>): seq<Option<string>> { seq(|vs|, i requires 0 <= i < |vs| => vs[i].exp) }

  function Downs(ds: seq<Spec>): seq<Option<string>> { seq(|ds|, i requires 0 <= i < |ds| => Some(ds[i].hash)) }

  /** From the manager's last report down to the last spec in flight. */
  function Chain(c: Conn, n: Node): seq<Option<string>> { Exps(Sightings(c, n)) + Downs(n.down) }

  /** One old value followed by the awaited one: a change is always to what the manager waits for. */
  predicate Ordered(xs: seq<Option<string>>, e: Option<string>) {
    forall i, j :: 0 <= i < j < |xs| ==> xs[i] == xs[j] || (e.Some? && xs[j] == e)
  }

  /** Once a hash is seen loaded it stays loaded for as long as it is the one expected. */
  predicate Steady(vs: seq<Seen>) {
    forall i, j :: 0 <= i < j < |vs| && vs[i].exp == vs[j].exp && vs[i].exp.Some? && vs[i].cur == vs[i].exp ==>
      vs[j].cur == vs[j].exp
  }

  predicate LinkOK(c: Conn, n: Node, e: Option<string>) { Ordered(Chain(c, n), e) && Steady(Sightings(c, n)) }

  /** A proxy that has lost its stream and all it knew. */
  predicate Restarted(n: Node) { !n.live && Untouched(n) }

  predicate LinkFine(c: Conn, n: Node, e: Option<string>) { LinkOK(c, n, e) || Restarted(n) }

  /** Every hash under way is the one the manager last read, or the proxy has started afresh. */
  predicate Agreed(c: Conn, n: Node) {
    (forall j :: 0 <= j < |Chain(c, n)| ==> Chain(c, n)[j] == SeenIn(c.status).exp) || Restarted(n)
  }

  lemma OrderedDrop(a: seq<Option<string>>, x: Option<string>, b: seq<Option<string>>, e: Option<string>)
    requires Ordered(a + [x] + b, e)
    ensures Ordered(a + b, e)
  {
    var xs, ys := a + [x] + b, a + b;
    forall i, j | 0 <= i < j < |ys| ensures ys[i] == ys[j] || (e.Some? && ys[j] == e) {
      var i', j' := if i < |a| then i else i + 1, if j < |a| then j else j + 1;
      assert xs[i'] == ys[i] && xs[j'] == ys[j];
    }
  }

  lemma OrderedDouble(a: seq<Option<string>>, x: Option<string>, b: seq<Option<string>>, e: Option<string>)
    requires Ordered(a + [x] + b, e)
    ensures Ordered(a + [x] + [x] + b, e)
  {
    var xs, ys := a + [x] + b, a + [x] + [x] + b;
    forall i, j | 0 <= i < j < |ys| ensures ys[i] == ys[j] || (e.Some? && ys[j] == e) {
      var i', j' := if i <= |a| then i else i - 1, if j <= |a| then j else j - 1;
      assert xs[i'] == ys[i] && xs[j'] == ys[j];
    }
  }

  /** With nothing awaited, or the awaited hash already reported, all hashes under way are the reported one. */
  lemma OrderedOpen(xs: seq<Option<string>>, e: Option<string>, j: nat)
    requires Ordered(xs, e) && j < |xs| && (e.None? || e == xs[0])
    ensures xs[j] == xs[0]
  {
  }

  lemma OrderedSend(xs: seq<Option<string>>, h: string)
    requires Ordered(xs, None)
    ensures Ordered(xs + [Some(h)], Some(h))
  {
  }

  lemma ReceiveKeepsLink(c: Conn, n: Node, e: Option<string>)
    requires LinkOK(c, n, e) && n.up != []
    ensures LinkOK(c.(status := n.up[0]), n.(up := n.up[1..]), e)
  {
    var c', n' := c.(status := n.up[0]), n.(up := n.up[1..]);
    var vs, vs' := Sightings(c, n), Sightings(c', n');
    assert vs == [vs[0]] + vs';
    assert Chain(c, n) == [] + [vs[0].exp] + Chain(c', n');
    OrderedDrop([], vs[0].exp, Chain(c', n'), e);
    assert Chain(c', n') == [] + Chain(c', n');
    assert forall i :: 0 <= i < |vs'| ==> vs'[i] == vs[i + 1];
  }

  lemma ReportKeepsLink(c: Conn, n: Node, e: Option<string>, leader: bool)
    requires LinkOK(c, n, e) && n.proxy.current.Some? && n.proxy.expected.Some?
    ensures LinkOK(c, Reported(n, leader), e)
  {
    var n' := Reported(n, leader);
    var vs, vs' := Sightings(c, n), Sightings(c, n');
    var k := |vs| - 1;
    assert vs' == vs + [vs[k]] && vs == vs[..k] + [vs[k]];
    var a, x, b := Exps(vs[..k]), vs[k].exp, Downs(n.down);
    assert Chain(c, n) == a + [x] + b;
    assert Chain(c, n') == a + [x] + [x] + b;
    OrderedDouble(a, x, b, e);
    forall i, j | 0 <= i < j < |vs'| && vs'[i].exp == vs'[j].exp && vs'[i].exp.Some? && vs'[i].cur == vs'[i].exp
      ensures vs'[j].cur == vs'[j].exp {
      if i < k { assert vs[i] == vs'[i] && vs[if j <= k then j else k] == vs'[j]; }
    }
  }

  lemma DeliverKeepsLink(c: Conn, n: Node, e: Option<string>)
    requires LinkOK(c, n, e) && n.down != []
    ensures LinkOK(c, Delivered(n), e)
  {
    var n' := Delivered(n);
    var vs, vs' := Sightings(c, n), Sightings(c, n');
    var k := |vs| - 1;
    var xs := Chain(c, n);
    assert vs == vs[..k] + [vs[k]] && vs' == vs[..k] + [vs'[k]];
    var a, x, b := Exps(vs[..k]), vs[k].exp, Downs(n.down);
    assert xs == a + [x] + b;
    assert b == [Some(n.down[0].hash)] + Downs(n.down[1..]);
    assert Chain(c, n') == a + b;
    OrderedDrop(a, x, b, e);
    forall i | 0 <= i < k && vs'[i].exp == vs'[k].exp && vs'[i].exp.Some? && vs'[i].cur == vs'[i].exp
      ensures vs'[k].cur == vs'[k].exp {
      assert xs[i] == vs[i].exp && xs[k] == x && xs[k + 1] == vs'[k].exp;
    }
    assert forall i :: 0 <= i < k ==> vs'[i] == vs[i];
  }

  lemma LoadKeepsLink(c: Conn, n: Node, n': Node, e: Option<string>)
    requires LinkOK(c, n, e) && n' == n.(proxy := n'.proxy) && n'.proxy.expected == n.proxy.expected
    requires n'.proxy.current == n.proxy.current || n'.proxy.current == n.proxy.expected
    ensures LinkOK(c, n', e)
  {
    var vs, vs' := Sightings(c, n), Sightings(c, n');
    assert Exps(vs) == Exps(vs');
    assert forall i :: 0 <= i < |vs| - 1 ==> vs'[i] == vs[i];
  }

  lemma DropKeepsLink(c: Conn, n: Node, e: Option<string>)
    requires LinkOK(c, n, e)
    ensures LinkOK(c, n.(live := false, down := []), e)
  {
    var n' := n.(live := false, down := []);
    assert Sightings(c, n') == Sightings(c, n);
    assert Chain(c, n) == Chain(c, n') + Downs(n.down);
    assert forall i :: 0 <= i < |Chain(c, n')| ==> Chain(c, n')[i] == Chain(c, n)[i];
  }

  lemma SendKeepsLink(c: Conn, n: Node, spec: Spec, times: nat)
    requires LinkOK(c, n, None)
    ensures LinkOK(c.(sendTimes := times), n.(down := n.down + [spec]), Some(spec.hash))
  {
    var c', n' := c.(sendTimes := times), n.(down := n.down + [spec]);
    assert Sightings(c', n') == Sightings(c, n);
    assert Chain(c', n') == Chain(c, n) + [Some(spec.hash)];
    OrderedSend(Chain(c, n), spec.hash);
  }

  lemma ConnectMakesLink(n: Node, leader: bool, e: Option<string>)
    requires Reportable(n.proxy) && (n.proxy.current.None? ==> n.proxy.expected.None?)
    ensures LinkOK(NewConn(n, leader), Joined(n), e)
  {
  }

  lemma CountKeepsLink(c: Conn, n: Node, e: Option<string>, times: nat)
    requires LinkFine(c, n, e)
    ensures LinkFine(c.(sendTimes := times), n, e)
  {
    assert Sightings(c.(sendTimes := times), n) == Sightings(c, n);
    assert Chain(c.(sendTimes := times), n) == Chain(c, n);
  }

  /** Nothing on the way and the last report read still true: the stream is in order, whatever happened on it before. */
  lemma OrderRestored(c: Conn, n: Node, e: Option<string>)
    requires n.up == [] && n.down == [] && SeenIn(c.status) == SeenAt(n.proxy)
    ensures LinkFine(c, n, e)
  {
    assert Sightings(c, n) == [SeenIn(c.status), SeenAt(n.proxy)];
  }

  // ----- what a passed gate tells about a pod, and keeps telling

  /** Whatever the proxy was last given or is about to receive is hash `x`. */
  predicate ExpectsOnly(n: Node, x: string) {
    && (n.proxy.expected.Some? ==> n.proxy.expected.value.hash == x)
    && forall i :: 0 <= i < |n.down| ==> n.down[i].hash == x
  }

  /** And so is whatever it runs. */
  predicate SettledAt(n: Node, x: string) {
    ExpectsOnly(n, x) && (n.proxy.current.Some? ==> n.proxy.current.value.hash == x)
  }

  predicate Untouched(n: Node) { n.proxy.expected.None? && n.proxy.current.None? && n.down == [] }

  predicate QuietNode(n: Node, status: Report) {
    if status.meta.None? then Untouched(n)
    else
      var meta := status.meta.value;
      ExpectsOnly(n, meta.expectedHash) && (meta.expectedHash == meta.currentHash ==> SettledAt(n, meta.expectedHash))
  }

  /** An open hash gate means that everything under way carries the reported hash. */
  lemma GateOpenMeansQuiet(c: Conn, n: Node, e: Option<string>)
    requires LinkFine(c, n, e) && (n.proxy.current.Some? ==> n.proxy.expected.Some?)
    requires e.None? || (c.status.meta.Some? && e.value == c.status.meta.value.expectedHash)
    ensures QuietNode(n, c.status) && LinkFine(c, n, None) && Agreed(c, n)
  {
    if LinkOK(c, n, e) {
      var vs, xs := Sightings(c, n), Chain(c, n);
      var k := |vs| - 1;
      assert xs[0] == SeenIn(c.status).exp && vs[0] == SeenIn(c.status);
      assert xs[k] == HashOf(n.proxy.expected) && vs[k] == SeenAt(n.proxy);
      forall j | 0 <= j < |xs| ensures xs[j] == xs[0] { OrderedOpen(xs, e, j); }
      forall i | 0 <= i < |n.down| ensures Some(n.down[i].hash) == xs[0] {
        assert xs[k + 1 + i] == Some(n.down[i].hash);
      }
      if n.down != [] { assert Some(n.down[0].hash) == xs[0]; }
    }
  }

  /** With everything agreed, whatever is in flight to the pod carries the hash it reported. */
  lemma AgreedMeansAcknowledged(c: Conn, n: Node, k: nat)
    requires Agreed(c, n) && k < |n.down|
    ensures c.status.meta.Some? && n.down[k].hash == c.status.meta.value.expectedHash
  {
    var i := |Sightings(c, n)| + k;
    assert Chain(c, n)[i] == Some(n.down[k].hash);
  }

  /** Dropping an expectation keeps the stream in order if and only if everything under way is agreed. */
  lemma ClearingIsSafeExactly(c: Conn, n: Node, e: Option<string>)
    requires LinkFine(c, n, e)
    ensures LinkFine(c, n, None) <==> Agreed(c, n)
  {
    if LinkOK(c, n, None) {
      var xs := Chain(c, n);
      assert xs[0] == SeenIn(c.status).exp;
      forall j | 0 <= j < |xs| ensures xs[j] == xs[0] { OrderedOpen(xs, None, j); }
    }
  }
}
