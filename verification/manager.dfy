/** The manager's side: connections, expectations, and what one Reconcile decides from them. */
module Manager {
  import opened Text
  import opened SpecManagers

  type UID = nat

  datatype PodPhase = Pending | Running | Succeeded | Failed | Unknown

  /**
   * A pod as the informer cache shows it; `running` says some container still runs, `young` that it is under a minute
   * old.
   */
  datatype PodView = PodView(phase: PodPhase, deleting: bool, ready: bool, running: bool, young: bool) {
    predicate Active() { phase != Succeeded && phase != Failed && !deleting }

    /** Inactive with every container stopped. */
    predicate Stopped() { !Active() && !running }
  }

  datatype Report = Report(meta: Option<MetaState>, leader: bool)

  /** One registered stream; `gen` tells the streams of one pod apart. */
  datatype Conn = Conn(gen: nat, status: Report, sendTimes: nat, disconnected: bool)

  /** A pod that passed every gate, with the status it was judged by. */
  datatype Sync = Sync(uid: UID, gen: nat, status: Report, dispatched: bool)

  datatype GateResult = Abort | Skip | Pass(sync: Sync)

  /** The first half of the checks on one pod: its listing, its expected deletion, and its connection under the lock. */
  function ReadPod(uid: UID, view: PodView, conn: Option<Conn>, deletionExpected: bool): GateResult {
    if !view.Active() then (if view.running then Abort else Skip)
    else if deletionExpected then Abort
    else if conn.None? then
      (if (view.phase == Running && view.ready) || (view.phase == Pending && view.young) then Abort else Skip)
    else if conn.value.disconnected then Abort
    else Pass(Sync(uid, conn.value.gen, conn.value.status, conn.value.sendTimes > 0))
  }

  /** The second half, made later and without that lock: the status just read does not show the awaited hash. */
  predicate Unmet(sync: Sync, exp: Option<string>) {
    exp.Some? && (sync.status.meta.None? || exp.value != sync.status.meta.value.expectedHash)
  }

  /** Both halves with nothing between them. */
  function GatePod(
    uid: UID, view: PodView, conn: Option<Conn>, exp: Option<string>, deletionExpected: bool): GateResult {
    var r := ReadPod(uid, view, conn, deletionExpected);
    if r.Pass? && Unmet(r.sync, exp) then Abort else r
  }

  function Get<T>(m: map<UID, T>, k: UID): Option<T> { if k in m then Some(m[k]) else None }

  datatype Listed = Listed(uid: UID, view: PodView)

  /** The whole gate loop: None as soon as one pod blocks, otherwise the pods that passed, in order. */
  function GateAll(
    pods: seq<Listed>, conns: map<UID, Conn>, exps: map<UID, string>, delExp: set<UID>): Option<seq<Sync>> {
    if pods == [] then Some([])
    else
      var n := |pods| - 1;
      var before := GateAll(pods[..n], conns, exps, delExp);
      var r := GatePod(pods[n].uid, pods[n].view, Get(conns, pods[n].uid), Get(exps, pods[n].uid),
        pods[n].uid in delExp);
      if before.None? || r.Abort? then None
      else if r.Skip? then before
      else Some(before.value + [r.sync])
  }

  /**
   * The seven reasons for which a Reconcile waits: a stopping pod still has containers, a deletion was asked for, a
   * ready or a very young pod has no connection, a connection is lost, or a pod has not reported the hash it was sent,
   * be it that it reported none or another.
   */
  predicate Blocks(p: Listed, conns: map<UID, Conn>, exps: map<UID, string>, delExp: set<UID>) {
    || (!p.view.Active() && p.view.running)
    || (p.view.Active() && p.uid in delExp)
    || (p.view.Active() && p.uid !in conns && p.view.phase == Running && p.view.ready)
    || (p.view.Active() && p.uid !in conns && p.view.phase == Pending && p.view.young)
    || (p.view.Active() && p.uid in conns && conns[p.uid].disconnected)
    || (p.view.Active() && p.uid in conns && p.uid in exps && conns[p.uid].status.meta.None?)
    || (p.view.Active() && p.uid in conns && p.uid in exps && conns[p.uid].status.meta.Some?
        && conns[p.uid].status.meta.value.expectedHash != exps[p.uid])
  }

  lemma GateBlocksExactly(p: Listed, conns: map<UID, Conn>, exps: map<UID, string>, delExp: set<UID>)
    ensures
      var r := GatePod(p.uid, p.view, Get(conns, p.uid), Get(exps, p.uid), p.uid in delExp);
      && (r.Abort? <==> Blocks(p, conns, exps, delExp))
      && (!Blocks(p, conns, exps, delExp) ==> (r.Pass? <==> p.view.Active() && p.uid in conns))
      && (r.Pass? ==> p.uid in conns && r.sync == Judging(p.uid, conns[p.uid]))
  {
  }

  /** What a pod is judged by: its connection as it is. */
  function Judging(uid: UID, c: Conn): Sync { Sync(uid, c.gen, c.status, c.sendTimes > 0) }

  predicate SomeBlocks(pods: seq<Listed>, conns: map<UID, Conn>, exps: map<UID, string>, delExp: set<UID>) {
    exists i :: 0 <= i < |pods| && Blocks(pods[i], conns, exps, delExp)
  }

  /** The gate stays shut if and only if some pod blocks; otherwise the active pods with a connection pass. */
  lemma {:induction false} GateExactly(
    pods: seq<Listed>, conns: map<UID, Conn>, exps: map<UID, string>, delExp: set<UID>)
    ensures GateAll(pods, conns, exps, delExp).None? <==> SomeBlocks(pods, conns, exps, delExp)
    ensures
      var r := GateAll(pods, conns, exps, delExp);
      r.Some? ==> forall s :: s in r.value <==>
        exists i :: 0 <= i < |pods| && ConnectedAs(pods[i], conns, s)
  {
    if pods == [] {
    } else {
      var n := |pods| - 1;
      GateExactly(pods[..n], conns, exps, delExp);
      GateBlocksExactly(pods[n], conns, exps, delExp);
      assert forall i :: 0 <= i < n ==> pods[..n][i] == pods[i];
      if GateAll(pods, conns, exps, delExp).Some? { GateGrows(pods, conns, exps, delExp); }
    }
  }

  predicate ConnectedAs(p: Listed, conns: map<UID, Conn>, s: Sync) {
    p.view.Active() && p.uid in conns && s == Judging(p.uid, conns[p.uid])
  }

  lemma GateGrows(pods: seq<Listed>, conns: map<UID, Conn>, exps: map<UID, string>, delExp: set<UID>)
    requires pods != [] && GateAll(pods, conns, exps, delExp).Some?
    ensures
      var n := |pods| - 1;
      var before := GateAll(pods[..n], conns, exps, delExp);
      && before.Some? && !Blocks(pods[n], conns, exps, delExp)
      && GateAll(pods, conns, exps, delExp).value
         == before.value + if pods[n].view.Active() && pods[n].uid in conns
                           then [Judging(pods[n].uid, conns[pods[n].uid])] else []
  {
    GateBlocksExactly(pods[|pods| - 1], conns, exps, delExp);
  }

  // ----- classification

  datatype Class = First | Replace | Stale | Reconnected | Settled

  function ClassOf(s: Sync, subset: string, hash: string): Class {
    if s.status.meta.None? then First
    else
      var meta := s.status.meta.value;
      if meta.subset != subset || meta.expectedHash != meta.currentHash then Replace
      else if hash != meta.expectedHash then Stale
      else if !s.dispatched then Reconnected
      else Settled
  }

  datatype Plan = Plan(dispatch: seq<Sync>, update: seq<Sync>, leaders: seq<Sync>, nonLeaders: seq<Sync>)

  predicate ToDispatch(s: Sync, subset: string, hash: string) { ClassOf(s, subset, hash) in {First, Reconnected} }

  /** `plan` sorts the pods into the four lists, none forgotten and none in two. */
  ghost predicate Sorts(plan: Plan, syncs: seq<Sync>, subsetOf: UID -> string, hash: string) {
    forall s ::
      (s in plan.dispatch <==> s in syncs && ToDispatch(s, subsetOf(s.uid), hash))
      && (s in plan.update <==> s in syncs && ClassOf(s, subsetOf(s.uid), hash) == Stale)
      && (s in plan.leaders <==> s in syncs && ClassOf(s, subsetOf(s.uid), hash) == Replace && s.status.leader)
      && (s in plan.nonLeaders <==> s in syncs && ClassOf(s, subsetOf(s.uid), hash) == Replace && !s.status.leader)
  }

  function Append(plan: Plan, s: Sync, subset: string, hash: string): Plan {
    match ClassOf(s, subset, hash)
    case First => plan.(dispatch := plan.dispatch + [s])
    case Reconnected => plan.(dispatch := plan.dispatch + [s])
    case Stale => plan.(update := plan.update + [s])
    case Replace =>
      if s.status.leader then plan.(leaders := plan.leaders + [s]) else plan.(nonLeaders := plan.nonLeaders + [s])
    case Settled => plan
  }

  function PlanOf(syncs: seq<Sync>, subsetOf: UID -> string, hash: string): Plan {
    if syncs == [] then Plan([], [], [], [])
    else
      var last := syncs[|syncs| - 1];
      Append(PlanOf(syncs[..|syncs| - 1], subsetOf, hash), last, subsetOf(last.uid), hash)
  }

  lemma {:induction false} PlanSorts(syncs: seq<Sync>, subsetOf: UID -> string, hash: string)
    ensures Sorts(PlanOf(syncs, subsetOf, hash), syncs, subsetOf, hash)
  {
    if syncs == [] {
    } else {
      var n := |syncs| - 1;
      PlanSorts(syncs[..n], subsetOf, hash);
      var plan := PlanOf(syncs, subsetOf, hash);
      assert syncs == syncs[..n] + [syncs[n]];
    }
  }

  /** By its report the pod cannot go on as it is: it is of another subset, or expects another hash than it runs. */
  predicate NeedsReplacing(s: Sync, subset: string) {
    s.status.meta.Some?
    && (s.status.meta.value.subset != subset || s.status.meta.value.expectedHash != s.status.meta.value.currentHash)
  }

  /** It can, but expects an older hash. */
  predicate NeedsUpdate(s: Sync, subset: string, hash: string) {
    !NeedsReplacing(s, subset) && s.status.meta.Some? && s.status.meta.value.expectedHash != hash
  }

  /** It has reported no spec yet, or the newest one on a stream on which nothing was sent. */
  predicate NeedsDispatch(s: Sync, subset: string, hash: string) {
    || s.status.meta.None?
    || (!NeedsReplacing(s, subset) && s.status.meta.value.expectedHash == hash && !s.dispatched)
  }

  /** The four lists, read off the reports. */
  lemma PlanExactly(syncs: seq<Sync>, subsetOf: UID -> string, hash: string, s: Sync)
    ensures
      var plan := PlanOf(syncs, subsetOf, hash);
      && (s in plan.nonLeaders <==> s in syncs && NeedsReplacing(s, subsetOf(s.uid)) && !s.status.leader)
      && (s in plan.leaders <==> s in syncs && NeedsReplacing(s, subsetOf(s.uid)) && s.status.leader)
      && (s in plan.update <==> s in syncs && NeedsUpdate(s, subsetOf(s.uid), hash))
      && (s in plan.dispatch <==> s in syncs && NeedsDispatch(s, subsetOf(s.uid), hash))
  {
    PlanSorts(syncs, subsetOf, hash);
  }

  /** What the phases amount to: replacements alone, non-leaders before leaders; else updates alone; else dispatches. */
  datatype Action = Delete(leader: bool, pods: seq<Sync>) | Send(dispatch: bool, pods: seq<Sync>) | Nothing

  function ActionOf(plan: Plan): Action {
    if plan.nonLeaders != [] then Delete(false, plan.nonLeaders)
    else if plan.leaders != [] then Delete(true, plan.leaders)
    else if plan.update != [] then Send(false, plan.update)
    else if plan.dispatch != [] then Send(true, plan.dispatch)
    else Nothing
  }

  /** Who is acted on, and how: one kind of action at a time, and each waits until no pod calls for an earlier one. */
  lemma ActionExactly(syncs: seq<Sync>, subsetOf: UID -> string, hash: string)
    ensures
      var action := ActionOf(PlanOf(syncs, subsetOf, hash));
      var replace := set s | s in syncs && NeedsReplacing(s, subsetOf(s.uid));
      var followers := set s | s in replace && !s.status.leader;
      var update := set s | s in syncs && NeedsUpdate(s, subsetOf(s.uid), hash);
      var dispatch := set s | s in syncs && NeedsDispatch(s, subsetOf(s.uid), hash);
      if followers != {} then action.Delete? && !action.leader && Members(action.pods) == followers
      else if replace != {} then action.Delete? && action.leader && Members(action.pods) == replace
      else if update != {} then action.Send? && !action.dispatch && Members(action.pods) == update
      else if dispatch != {} then action.Send? && action.dispatch && Members(action.pods) == dispatch
      else action.Nothing?
  {
    var plan := PlanOf(syncs, subsetOf, hash);
    forall s
      ensures
        && (s in plan.nonLeaders <==> s in syncs && NeedsReplacing(s, subsetOf(s.uid)) && !s.status.leader)
        && (s in plan.leaders <==> s in syncs && NeedsReplacing(s, subsetOf(s.uid)) && s.status.leader)
        && (s in plan.update <==> s in syncs && NeedsUpdate(s, subsetOf(s.uid), hash))
        && (s in plan.dispatch <==> s in syncs && NeedsDispatch(s, subsetOf(s.uid), hash))
    {
      PlanExactly(syncs, subsetOf, hash, s);
    }
    NonEmpty(plan.nonLeaders);
    NonEmpty(plan.leaders);
    NonEmpty(plan.update);
    NonEmpty(plan.dispatch);
  }

  function Members(syncs: seq<Sync>): set<Sync> { set s | s in syncs }

  lemma NonEmpty(syncs: seq<Sync>)
    ensures Members(syncs) == {} <==> syncs == []
  {
    if syncs != [] { assert syncs[0] in Members(syncs); }
  }

  /**
   * A dispatch means every pod that reported a spec runs the very hash being dispatched, by its report, in its own
   * subset.
   */
  lemma DispatchMeansAgreement(syncs: seq<Sync>, subsetOf: UID -> string, hash: string, s: Sync)
    requires ActionOf(PlanOf(syncs, subsetOf, hash)).Send? && ActionOf(PlanOf(syncs, subsetOf, hash)).dispatch
    requires s in syncs && s.status.meta.Some?
    ensures s.status.meta.value.expectedHash == hash && s.status.meta.value.currentHash == hash
    ensures s.status.meta.value.subset == subsetOf(s.uid)
  {
    PlanSorts(syncs, subsetOf, hash);
    var plan := PlanOf(syncs, subsetOf, hash);
    assert s !in plan.update && s !in plan.leaders && s !in plan.nonLeaders;
  }

  lemma UpdateMeansLoaded(syncs: seq<Sync>, subsetOf: UID -> string, hash: string, s: Sync)
    requires ActionOf(PlanOf(syncs, subsetOf, hash)).Send? && s in ActionOf(PlanOf(syncs, subsetOf, hash)).pods
    ensures s in syncs
    ensures s.status.meta.Some? ==> s.status.meta.value.expectedHash == s.status.meta.value.currentHash
  {
  }

  /** The pods of the list whose call went through. */
  function Succeeding(pods: seq<Sync>, succeeds: UID -> bool): set<UID> {
    set s | s in pods && succeeds(s.uid) :: s.uid
  }

  /** A send is counted on the very connection the pod was judged by, whether or not it goes through. */
  function CountSend(conns: map<UID, Conn>, s: Sync): (r: map<UID, Conn>)
    ensures r.Keys == conns.Keys
    ensures forall u :: u in conns ==>
      r[u] == conns[u].(sendTimes := r[u].sendTimes) && r[u].sendTimes >= conns[u].sendTimes
  {
    if s.uid in conns && conns[s.uid].gen == s.gen then
      conns[s.uid := conns[s.uid].(sendTimes := conns[s.uid].sendTimes + 1)]
    else conns
  }

  /** The send counters after sending to each pod in turn; nothing else of a connection changes. */
  function SentTo(conns: map<UID, Conn>, pods: seq<Sync>): (r: map<UID, Conn>)
    ensures r.Keys == conns.Keys
    ensures forall u :: u in conns ==>
      r[u] == conns[u].(sendTimes := r[u].sendTimes) && r[u].sendTimes >= conns[u].sendTimes
  {
    if pods == [] then conns else CountSend(SentTo(conns, pods[..|pods| - 1]), pods[|pods| - 1])
  }

  /** The expectations after those sends: one per send that went through. */
  function Expecting(
    exps: map<UID, string>, pods: seq<Sync>, hash: string, succeeds: UID -> bool): (r: map<UID, string>)
    ensures r.Keys == exps.Keys + Succeeding(pods, succeeds)
    ensures forall u :: u in r ==> r[u] == if u in Succeeding(pods, succeeds) then hash else exps[u]
  {
    if pods == [] then exps
    else
      var n := |pods| - 1;
      assert Succeeding(pods, succeeds) ==
        Succeeding(pods[..n], succeeds) + if succeeds(pods[n].uid) then {pods[n].uid} else {} by {
        assert forall s :: s in pods <==> s in pods[..n] || s == pods[n];
      }
      var e := Expecting(exps, pods[..n], hash, succeeds);
      if succeeds(pods[n].uid) then e[pods[n].uid := hash] else e
  }

  /** The expectations after a Reconcile that passed the gate: fulfilled ones gone, those of its sends added. */
  function Remaining(
    exps: map<UID, string>, passed: seq<Sync>, action: Action, hash: Option<string>, succeeds: UID -> bool)
    : map<UID, string> {
    var open := exps - (set s | s in passed :: s.uid);
    if action.Send? && hash.Some? then Expecting(open, action.pods, hash.value, succeeds) else open
  }
}
