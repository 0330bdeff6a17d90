/** The manager's memory as its handlers and Reconcile change it; each change is one event of the mesh. */
module GrpcServer {
  import opened Text
  import opened Manager
  import opened MeshProtocol

  /** What the manager remembers in a state of the mesh. */
  predicate Tells(m: Mesh, conns: map<UID, Conn>, exps: map<UID, string>, dels: set<UID>) {
    m.conns == conns && m.hashExp == exps && m.delExp == dels
  }

  class GrpcManager {
    var conns: map<UID, Conn>
    var hashExpectation: map<UID, string>
    var deletionExpectation: set<UID>

    constructor ()
      ensures conns == map[] && hashExpectation == map[] && deletionExpectation == {}
    {
      conns, hashExpectation, deletionExpectation := map[], map[], {};
    }

    /** A new stream is remembered under the pod, in place of any older one. */
    method StoreConnection(uid: UID, gen: nat, first: Report)
      modifies this`conns
      ensures conns == old(conns)[uid := Conn(gen, first, 0, false)]
      ensures forall B, m, m' ::
        NextMesh(B, m, m', RegisterStore(uid, first.leader))
        && Tells(m, old(conns), hashExpectation, deletionExpectation)
        && NewConn(m.nodes[uid], first.leader) == Conn(gen, first, 0, false)
        ==> Tells(m', conns, hashExpectation, deletionExpectation)
    {
      conns := conns[uid := Conn(gen, first, 0, false)];
    }

    /** The expectation of an older or an ended stream goes. Nothing holds a lock across this and its neighbours. */
    method DropExpectation(uid: UID)
      modifies this`hashExpectation
      ensures hashExpectation == old(hashExpectation) - {uid}
      ensures forall B, m, m', step ::
        NextMesh(B, m, m', step) && step in {RegisterClear(uid), ExitClear(uid)}
        && Tells(m, conns, old(hashExpectation), deletionExpectation)
        ==> Tells(m', conns, hashExpectation, deletionExpectation)
    {
      hashExpectation := hashExpectation - {uid};
    }

    /** The stream is gone; the connection stays cached, marked, so that its pod keeps blocking Reconcile. */
    method MarkDisconnected(uid: UID)
      requires uid in conns
      modifies this`conns
      ensures conns == old(conns)[uid := old(conns)[uid].(disconnected := true)]
      ensures forall view: PodView, deletionExpected ::
        view.Active() ==> ReadPod(uid, view, Get(conns, uid), deletionExpected) == Abort
      ensures forall B, m, m' ::
        NextMesh(B, m, m', ExitMark(uid)) && Tells(m, old(conns), hashExpectation, deletionExpectation)
        ==> Tells(m', conns, hashExpectation, deletionExpectation)
    {
      conns := conns[uid := conns[uid].(disconnected := true)];
    }

    /** A later report overwrites the whole status; the VirtualApp is enqueued only if it changed. */
    method Receive(uid: UID, report: Report) returns (enqueue: bool)
      requires uid in conns
      modifies this`conns
      ensures conns == old(conns)[uid := old(conns)[uid].(status := report)]
      ensures !enqueue ==> conns == old(conns)
      ensures enqueue <==> old(conns)[uid].status != report
      ensures forall B, m, m' ::
        NextMesh(B, m, m', ReceiveReport(uid)) && Tells(m, old(conns), hashExpectation, deletionExpectation)
        && m.nodes[uid].up[0] == report
        ==> Tells(m', conns, hashExpectation, deletionExpectation)
    {
      enqueue := conns[uid].status != report;
      conns := conns[uid := conns[uid].(status := report)];
    }

    /**
     * A pod is gone, and nothing is awaited from it any more; but if its VirtualApp cannot be found the event is lost,
     * and what was awaited stays awaited.
     */
    method PodDeleted(uid: UID, found: bool) returns (enqueue: bool)
      modifies this`hashExpectation, this`deletionExpectation
      ensures enqueue <==> found
      ensures hashExpectation == old(hashExpectation) - if found then {uid} else {}
      ensures deletionExpectation == old(deletionExpectation) - if found then {uid} else {}
      ensures found ==> forall B, m, m' ::
        NextMesh(B, m, m', DeleteEvent(uid)) && Tells(m, conns, old(hashExpectation), old(deletionExpectation))
        ==> Tells(m', conns, hashExpectation, deletionExpectation)
    {
      if !found { return false; }
      hashExpectation := hashExpectation - {uid};
      deletionExpectation := deletionExpectation - {uid};
      enqueue := true;
    }

    /** The first loop of Reconcile. Met expectations are dropped on the way, even when a later pod blocks. */
    method GatePods(pods: seq<Listed>) returns (r: Option<seq<Sync>>)
      requires forall i, j :: 0 <= i < j < |pods| ==> pods[i].uid != pods[j].uid
      modifies this`hashExpectation
      ensures r == GateAll(pods, conns, old(hashExpectation), deletionExpectation)
      ensures r.None? <==> SomeBlocks(pods, conns, old(hashExpectation), deletionExpectation)
      ensures r.Some? ==> forall s :: s in r.value <==> exists i :: 0 <= i < |pods| && ConnectedAs(pods[i], conns, s)
      ensures r.Some? ==> hashExpectation == old(hashExpectation) - (set s | s in r.value :: s.uid)
      ensures forall u :: u in hashExpectation ==>
        u in old(hashExpectation) && hashExpectation[u] == old(hashExpectation)[u]
    {
      ghost var exps := hashExpectation;
      GateExactly(pods, conns, exps, deletionExpectation);
      var syncs: seq<Sync> := [];
      for n := 0 to |pods|
        invariant GateAll(pods[..n], conns, exps, deletionExpectation) == Some(syncs)
        invariant hashExpectation == exps - (set s | s in syncs :: s.uid)
        invariant forall s :: s in syncs ==> exists i :: 0 <= i < n && pods[i].uid == s.uid
      {
        var p := pods[n];
        assert pods[..n + 1][..n] == pods[..n];
        assert Get(exps, p.uid) == Get(hashExpectation, p.uid);
        ghost var blocked :=
          GatePod(p.uid, p.view, Get(conns, p.uid), Get(exps, p.uid), p.uid in deletionExpectation).Abort?;
        if blocked { BlockedForGood(pods, n, conns, exps, deletionExpectation); }
        if !p.view.Active() {
          if p.view.running { return None; }
          continue;
        }
        if p.uid in deletionExpectation { return None; }
        if p.uid !in conns {
          if p.view.phase == Running && p.view.ready { return None; }
          if p.view.phase == Pending && p.view.young { return None; }
          continue;
        }
        var conn := conns[p.uid];
        if conn.disconnected { return None; }
        if p.uid in hashExpectation {
          if conn.status.meta.None? || hashExpectation[p.uid] != conn.status.meta.value.expectedHash { return None; }
          hashExpectation := hashExpectation - {p.uid};
        }
        syncs := syncs + [Sync(p.uid, conn.gen, conn.status, conn.sendTimes > 0)];
        assert pods[n].uid == p.uid;
      }
      assert pods[..|pods|] == pods;
      r := Some(syncs);
    }

    /** The second loop of Reconcile. */
    method Classify(syncs: seq<Sync>, subsetOf: UID -> string, hash: string) returns (plan: Plan)
      ensures plan == PlanOf(syncs, subsetOf, hash)
    {
      plan := Plan([], [], [], []);
      for i := 0 to |syncs|
        invariant plan == PlanOf(syncs[..i], subsetOf, hash)
      {
        var s := syncs[i];
        assert syncs[..i + 1][..i] == syncs[..i];
        if s.status.meta.None? {
          plan := plan.(dispatch := plan.dispatch + [s]);
          continue;
        }
        var meta := s.status.meta.value;
        if meta.subset != subsetOf(s.uid) || meta.expectedHash != meta.currentHash {
          if s.status.leader { plan := plan.(leaders := plan.leaders + [s]); }
          else { plan := plan.(nonLeaders := plan.nonLeaders + [s]); }
          continue;
        }
        if hash != meta.expectedHash {
          plan := plan.(update := plan.update + [s]);
          continue;
        }
        if !s.dispatched { plan := plan.(dispatch := plan.dispatch + [s]); }
      }
      assert syncs[..|syncs|] == syncs;
    }

    /** A deletion that went through is remembered until the pod is seen gone or stopped. */
    method DeletePod(uid: UID, ok: bool)
      modifies this`deletionExpectation
      ensures deletionExpectation == old(deletionExpectation) + if ok then {uid} else {}
      ensures forall B, m, m' ::
        NextMesh(B, m, m', DeleteOne(ok)) && m.phase.doomed[0] == uid
        && Tells(m, conns, hashExpectation, old(deletionExpectation))
        ==> Tells(m', conns, hashExpectation, deletionExpectation)
    {
      if ok { deletionExpectation := deletionExpectation + {uid}; }
    }

    method DeletePods(pods: seq<Sync>, succeeds: UID -> bool)
      modifies this`deletionExpectation
      ensures deletionExpectation == old(deletionExpectation) + Succeeding(pods, succeeds)
    {
      for i := 0 to |pods|
        invariant deletionExpectation == old(deletionExpectation) + Succeeding(pods[..i], succeeds)
      {
        assert pods[..i + 1] == pods[..i] + [pods[i]];
        DeletePod(pods[i].uid, succeeds(pods[i].uid));
      }
      assert pods[..|pods|] == pods;
    }

    /** A send is counted whether or not it goes through. */
    method CountSent(s: Sync, ghost ok: bool)
      modifies this`conns
      ensures conns == CountSend(old(conns), s)
      ensures forall B, m, m' ::
        NextMesh(B, m, m', SendOne(ok)) && m.phase.rest[0] == s
        && Tells(m, old(conns), hashExpectation, deletionExpectation)
        ==> Tells(m', conns, hashExpectation, deletionExpectation)
    {
      if s.uid in conns && conns[s.uid].gen == s.gen {
        conns := conns[s.uid := conns[s.uid].(sendTimes := conns[s.uid].sendTimes + 1)];
      }
    }

    /** The hash just sent is awaited from now on. */
    method AwaitHash(uid: UID, hash: string)
      modifies this`hashExpectation
      ensures hashExpectation == old(hashExpectation)[uid := hash]
      ensures forall B, m, m' ::
        NextMesh(B, m, m', StoreExpectation) && m.phase.uid == uid && m.phase.job.hash == hash
        && Tells(m, conns, old(hashExpectation), deletionExpectation)
        ==> Tells(m', conns, hashExpectation, deletionExpectation)
    {
      hashExpectation := hashExpectation[uid := hash];
    }

    /** The send is counted first; the expectation follows a send that went through. */
    method SendSpec(s: Sync, hash: string, ok: bool)
      modifies this`conns, this`hashExpectation
      ensures conns == CountSend(old(conns), s)
      ensures hashExpectation == if ok then old(hashExpectation)[s.uid := hash] else old(hashExpectation)
    {
      CountSent(s, ok);
      if ok { AwaitHash(s.uid, hash); }
    }

    /** Sends the new spec to each pod; only a send that went through leaves an expectation. */
    method SendSpecs(pods: seq<Sync>, hash: string, succeeds: UID -> bool)
      modifies this`conns, this`hashExpectation
      ensures hashExpectation == Expecting(old(hashExpectation), pods, hash, succeeds)
      ensures conns == SentTo(old(conns), pods)
    {
      for i := 0 to |pods|
        invariant hashExpectation == Expecting(old(hashExpectation), pods[..i], hash, succeeds)
        invariant conns == SentTo(old(conns), pods[..i])
      {
        SendOneMore(old(conns), old(hashExpectation), pods, i, hash, succeeds);
        SendSpec(pods[i], hash, succeeds(pods[i].uid));
      }
      assert pods[..|pods|] == pods;
    }

    /**
     * One Reconcile with nothing happening around it: blocked, or exactly one kind of action. `listed` is None when the
     * VirtualApp or its pods cannot be read, `hash` when the namespaces cannot: then the gate is over already, and the
     * expectations that it found fulfilled are gone.
     */
    method Reconcile(
      listed: Option<seq<Listed>>, subsetOf: UID -> string, hash: Option<string>, succeeds: UID -> bool)
      returns (action: Action)
      requires listed.Some? ==>
        forall i, j :: 0 <= i < j < |listed.value| ==> listed.value[i].uid != listed.value[j].uid
      modifies this
      ensures var passed := PassedOf(listed, old(conns), old(hashExpectation), old(deletionExpectation));
        action == if passed.None? || hash.None? then Nothing else ActionOf(PlanOf(passed.value, subsetOf, hash.value))
      ensures deletionExpectation ==
        old(deletionExpectation) + if action.Delete? then Succeeding(action.pods, succeeds) else {}
      ensures conns == if action.Send? then SentTo(old(conns), action.pods) else old(conns)
      ensures var passed := PassedOf(listed, old(conns), old(hashExpectation), old(deletionExpectation));
        passed.Some? ==> hashExpectation == Remaining(old(hashExpectation), passed.value, action, hash, succeeds)
      ensures listed.None? ==> hashExpectation == old(hashExpectation)
      ensures
        listed.Some? && SomeBlocks(listed.value, old(conns), old(hashExpectation), old(deletionExpectation)) ==>
          action.Nothing?
    {
      action := Nothing;
      if listed.None? { return; }
      var passed := GatePods(listed.value);
      if passed.None? || hash.None? { return; }
      var plan := Classify(passed.value, subsetOf, hash.value);
      PlanSorts(passed.value, subsetOf, hash.value);
      if plan.nonLeaders != [] {
        DeletePods(plan.nonLeaders, succeeds);
        return Delete(false, plan.nonLeaders);
      }
      if plan.leaders != [] {
        DeletePods(plan.leaders, succeeds);
        return Delete(true, plan.leaders);
      }
      if plan.update != [] {
        SendSpecs(plan.update, hash.value, succeeds);
        return Send(false, plan.update);
      }
      SendSpecs(plan.dispatch, hash.value, succeeds);
      if plan.dispatch != [] { action := Send(true, plan.dispatch); }
    }
  }

  function PassedOf(
    listed: Option<seq<Listed>>, conns: map<UID, Conn>, exps: map<UID, string>, delExp: set<UID>): Option<seq<Sync>> {
    if listed.None? then None else GateAll(listed.value, conns, exps, delExp)
  }

  lemma SendOneMore(
    conns: map<UID, Conn>, exps: map<UID, string>, pods: seq<Sync>, i: nat, hash: string, succeeds: UID -> bool)
    requires i < |pods|
    ensures SentTo(conns, pods[..i + 1]) == CountSend(SentTo(conns, pods[..i]), pods[i])
    ensures
      var u, e := pods[i].uid, Expecting(exps, pods[..i], hash, succeeds);
      Expecting(exps, pods[..i + 1], hash, succeeds) == if succeeds(u) then e[u := hash] else e
  {
    assert pods[..i + 1][..i] == pods[..i];
  }

  lemma {:induction false} BlockedForGood(
    pods: seq<Listed>, n: nat, conns: map<UID, Conn>, exps: map<UID, string>, delExp: set<UID>)
    requires n < |pods| && GateAll(pods[..n + 1], conns, exps, delExp).None?
    ensures GateAll(pods, conns, exps, delExp).None?
    decreases |pods|
  {
    if n + 1 == |pods| {
      assert pods[..n + 1] == pods;
    } else {
      var m := |pods| - 1;
      assert pods[..m][..n + 1] == pods[..n + 1];
      BlockedForGood(pods[..m], n, conns, exps, delExp);
    }
  }
}
