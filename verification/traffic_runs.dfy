/** Any number of requests at once, over any policies: their checks, service and releases interleave freely. */
module TrafficRuns {
  import opened Traffic

  datatype Phase = Checking | Serving | Leaving

  /** One call of the handler: `held` is its stack of deferred releases. */
  datatype Request = Request(plan: seq<Check>, next: nat, held: seq<string>, phase: Phase)

  datatype State = State(occ: map<string, nat>, live: map<nat, Request>)

  /** `Examine` is one check; `Enter` starts the handler and `Finish` is its return or panic. */
  datatype Event =
    | Arrive(id: nat, plan: seq<Check>)
    | Examine(id: nat, throttled: bool)
    | Enter(id: nat)
    | Finish(id: nat)
    | Undo(id: nat)
    | Depart(id: nat)

  predicate Seen(r: Request, hash: string) {
    r.next <= |r.plan| && Limit(hash) in r.plan[..r.next]
  }

  function ExamineOf(limits: Limits, occ: map<string, nat>, r: Request, throttled: bool): (map<string, nat>, Request)
    requires r.next < |r.plan|
  {
    var on := r.(next := r.next + 1);
    match r.plan[r.next]
    case Crash => (occ, on.(phase := Leaving))
    case Break(_) => (occ, on.(phase := Leaving))
    case Limit(hash) =>
      if Seen(r, hash) then (occ, on)
      else
        var held := if TakesToken(limits, occ, hash) then r.held + [hash] else r.held;
        var refused := !Room(limits, occ, hash) || throttled;
        (AfterAsking(limits, occ, hash), on.(held := held, phase := if refused then Leaving else r.phase))
  }

  /** The event belongs to a request in the right place; nothing here asks for a free or a taken slot. */
  predicate Due(s: State, e: Event) {
    match e
    case Arrive(id, _) => id !in s.live
    case Examine(id, _) => id in s.live && s.live[id].phase == Checking && s.live[id].next < |s.live[id].plan|
    case Enter(id) => id in s.live && s.live[id].phase == Checking && s.live[id].next == |s.live[id].plan|
    case Finish(id) => id in s.live && s.live[id].phase == Serving
    case Undo(id) => id in s.live && s.live[id].phase == Leaving && s.live[id].held != []
    case Depart(id) => id in s.live && s.live[id].phase == Leaving && s.live[id].held == []
  }

  /** A receive from an empty channel would never return. */
  predicate Blocks(s: State, e: Event)
    requires Due(s, e)
  {
    e.Undo? && Count(s.occ, s.live[e.id].held[|s.live[e.id].held| - 1]) == 0
  }

  function Next(limits: Limits, s: State, e: Event): State
    requires Due(s, e) && !Blocks(s, e)
  {
    match e
    case Arrive(id, plan) => s.(live := s.live[id := Request(plan, 0, [], Checking)])
    case Examine(id, throttled) =>
      var (occ, r) := ExamineOf(limits, s.occ, s.live[id], throttled);
      State(occ, s.live[id := r])
    case Enter(id) => s.(live := s.live[id := s.live[id].(phase := Serving)])
    case Finish(id) => s.(live := s.live[id := s.live[id].(phase := Leaving)])
    case Undo(id) =>
      var r := s.live[id];
      var hash := r.held[|r.held| - 1];
      State(s.occ[hash := s.occ[hash] - 1], s.live[id := r.(held := r.held[..|r.held| - 1])])
    case Depart(id) => s.(live := s.live - {id})
  }

  predicate Run(limits: Limits, states: seq<State>, events: seq<Event>) {
    && |states| == |events| + 1
    && states[0] == State(map[], map[])
    && forall i: nat :: i < |events| ==> Steps(limits, states[i], events[i], states[i + 1])
  }

  predicate Steps(limits: Limits, s: State, e: Event, s': State) {
    Due(s, e) && !Blocks(s, e) && s' == Next(limits, s, e)
  }

  function Holders(live: map<nat, Request>, hash: string): set<nat> {
    set id | id in live && hash in live[id].held
  }

  /** Requests inside the handler although the policy behind `hash` applies to them. */
  function InService(s: State, hash: string): set<nat> {
    set id | id in s.live && s.live[id].phase == Serving && Limit(hash) in s.live[id].plan
  }

  predicate RequestOK(limits: Limits, r: Request) {
    && r.next <= |r.plan|
    && Distinct(r.held)
    && (r.phase == Serving ==> r.next == |r.plan|)
    && (forall h <- r.held :: Seen(r, h) && limits(h).Some?)
    && (r.phase != Leaving ==> forall c <- r.plan[..r.next] :: c.Limit? && (limits(c.hash).Some? ==> c.hash in r.held))
  }

  ghost predicate Balanced(limits: Limits, s: State, hash: string) {
    && Count(s.occ, hash) == |Holders(s.live, hash)|
    && (limits(hash).Some? ==> Count(s.occ, hash) <= limits(hash).value)
  }

  ghost predicate Inv(limits: Limits, s: State) {
    && (forall id <- s.live :: RequestOK(limits, s.live[id]))
    && forall hash :: Balanced(limits, s, hash)
  }

  lemma HoldersAfter(live: map<nat, Request>, id: nat, r: Request, hash: string)
    ensures Holders(live[id := r], hash) ==
            if hash in r.held then Holders(live, hash) + {id} else Holders(live, hash) - {id}
  {
  }

  /** Replacing a request changes a control's holders by exactly the change in its own stack. */
  lemma HoldersChange(live: map<nat, Request>, id: nat, r: Request, hash: string)
    requires id in live
    ensures |Holders(live[id := r], hash)| ==
            |Holders(live, hash)| + (if hash in r.held then 1 else 0) - if hash in live[id].held then 1 else 0
  {
    HoldersAfter(live, id, r, hash);
    assert id in Holders(live, hash) <==> hash in live[id].held;
  }

  lemma SeenGrows(r: Request)
    requires r.next < |r.plan|
    ensures r.plan[..r.next + 1] == r.plan[..r.next] + [r.plan[r.next]]
  {
  }

  lemma ExamineKeepsRequest(limits: Limits, occ: map<string, nat>, r: Request, throttled: bool)
    requires RequestOK(limits, r) && r.phase == Checking && r.next < |r.plan|
    ensures RequestOK(limits, ExamineOf(limits, occ, r, throttled).1)
  {
    SeenGrows(r);
    var r' := ExamineOf(limits, occ, r, throttled).1;
    var c := r.plan[r.next];
    assert r'.plan == r.plan && r'.next == r.next + 1;
    if c.Limit? {
      assert c.hash in r.held ==> Seen(r, c.hash);
    }
  }

  lemma ExamineBalances(limits: Limits, s: State, id: nat, throttled: bool, hash: string)
    requires Inv(limits, s) && Due(s, Examine(id, throttled))
    ensures Balanced(limits, Next(limits, s, Examine(id, throttled)), hash)
  {
    var r := s.live[id];
    var (occ, r') := ExamineOf(limits, s.occ, r, throttled);
    assert Balanced(limits, s, hash) && RequestOK(limits, r);
    HoldersChange(s.live, id, r', hash);
    if r.plan[r.next].Limit? {
      var h := r.plan[r.next].hash;
      assert h in r.held ==> Seen(r, h);
    }
  }

  lemma UndoKeeps(limits: Limits, s: State, id: nat)
    requires Inv(limits, s) && Due(s, Undo(id))
    ensures !Blocks(s, Undo(id)) && Inv(limits, Next(limits, s, Undo(id)))
  {
    var r := s.live[id];
    var n := |r.held| - 1;
    var last := r.held[n];
    assert id in Holders(s.live, last) && Balanced(limits, s, last);
    var r' := r.(held := r.held[..n]);
    assert r.held == r'.held + [last];
    assert RequestOK(limits, r);
    forall h | h in r'.held ensures Seen(r', h) && limits(h).Some? {
      assert h in r.held;
    }
    var s' := Next(limits, s, Undo(id));
    forall hash ensures Balanced(limits, s', hash) {
      assert Balanced(limits, s, hash);
      HoldersChange(s.live, id, r', hash);
    }
  }

  lemma RelabelKeeps(limits: Limits, s: State, id: nat, r: Request)
    requires Inv(limits, s) && RequestOK(limits, r)
    requires if id in s.live then r.held == s.live[id].held else r.held == []
    ensures Inv(limits, s.(live := s.live[id := r]))
  {
    var s' := s.(live := s.live[id := r]);
    forall hash ensures Balanced(limits, s', hash) {
      assert Balanced(limits, s, hash);
      assert Holders(s'.live, hash) == Holders(s.live, hash);
    }
  }

  lemma DepartKeeps(limits: Limits, s: State, id: nat)
    requires Inv(limits, s) && Due(s, Depart(id))
    ensures Inv(limits, Next(limits, s, Depart(id)))
  {
    var s' := Next(limits, s, Depart(id));
    forall hash ensures Balanced(limits, s', hash) {
      assert Balanced(limits, s, hash);
      assert Holders(s'.live, hash) == Holders(s.live, hash);
    }
  }

  lemma StepKeeps(limits: Limits, s: State, e: Event)
    requires Inv(limits, s) && Due(s, e)
    ensures !Blocks(s, e) && Inv(limits, Next(limits, s, e))
  {
    match e
    case Arrive(id, plan) =>
      RelabelKeeps(limits, s, id, Request(plan, 0, [], Checking));
    case Examine(id, throttled) =>
      var s' := Next(limits, s, e);
      ExamineKeepsRequest(limits, s.occ, s.live[id], throttled);
      forall hash ensures Balanced(limits, s', hash) {
        ExamineBalances(limits, s, id, throttled, hash);
      }
    case Enter(id) => RelabelKeeps(limits, s, id, s.live[id].(phase := Serving));
    case Finish(id) => RelabelKeeps(limits, s, id, s.live[id].(phase := Leaving));
    case Undo(id) => UndoKeeps(limits, s, id);
    case Depart(id) => DepartKeeps(limits, s, id);
  }

  lemma {:induction false} RunKeeps(limits: Limits, states: seq<State>, events: seq<Event>, i: nat)
    requires Run(limits, states, events) && i < |states|
    ensures Inv(limits, states[i])
  {
    if i == 0 {
      forall hash ensures Balanced(limits, states[0], hash) {
        assert Holders(states[0].live, hash) == {};
      }
    } else {
      RunKeeps(limits, states, events, i - 1);
      assert Steps(limits, states[i - 1], events[i - 1], states[i]);
      StepKeeps(limits, states[i - 1], events[i - 1]);
    }
  }

  /** At every moment of every run a channel's fill is the number of calls that hold its token, within the limit. */
  lemma InFlightConserved(limits: Limits, states: seq<State>, events: seq<Event>, i: nat, hash: string)
    requires Run(limits, states, events) && i < |states|
    ensures Count(states[i].occ, hash) == |Holders(states[i].live, hash)|
    ensures limits(hash).Some? ==> |Holders(states[i].live, hash)| <= limits(hash).value
    ensures forall id <- states[i].live :: Distinct(states[i].live[id].held)
    ensures states[i].live == map[] ==> Count(states[i].occ, hash) == 0
  {
    RunKeeps(limits, states, events, i);
    assert Balanced(limits, states[i], hash);
  }

  /** No more requests than the limit are ever inside the handler together. */
  lemma NeverOverTheLimit(limits: Limits, states: seq<State>, events: seq<Event>, i: nat, hash: string)
    requires Run(limits, states, events) && i < |states| && limits(hash).Some?
    ensures |InService(states[i], hash)| <= limits(hash).value
  {
    RunKeeps(limits, states, events, i);
    var s := states[i];
    assert Balanced(limits, s, hash);
    forall id | id in InService(s, hash) ensures id in Holders(s.live, hash) {
      var r := s.live[id];
      assert RequestOK(limits, r) && r.plan[..r.next] == r.plan;
      assert Limit(hash) in r.plan[..r.next];
    }
    SubsetSize(InService(s, hash), Holders(s.live, hash));
  }

  lemma SubsetSize(a: set<nat>, b: set<nat>)
    requires a <= b
    ensures |a| <= |b|
  {
    assert b == a + (b - a);
  }

  function OwnEvent(id: nat, r: Request, throttled: bool): Event {
    match r.phase
    case Checking => if r.next < |r.plan| then Examine(id, throttled) else Enter(id)
    case Serving => Finish(id)
    case Leaving => if r.held != [] then Undo(id) else Depart(id)
  }

  /** Bound on the steps a request still takes. */
  function StepsLeft(r: Request): nat {
    var unexamined := if r.next < |r.plan| then |r.plan| - r.next else 0;
    match r.phase
    case Checking => 2 * unexamined + |r.held| + 3
    case Serving => |r.held| + 2
    case Leaving => |r.held| + 1
  }

  /**
   * Whatever the others do, a live request's own next step is possible, never blocks, and brings it nearer to
   * leaving: all its tokens are back after finitely many of its steps.
   */
  lemma NeverStuck(limits: Limits, states: seq<State>, events: seq<Event>, i: nat, id: nat, throttled: bool)
    requires Run(limits, states, events) && i < |states| && id in states[i].live
    ensures
      var s := states[i];
      var e := OwnEvent(id, s.live[id], throttled);
      && Due(s, e) && !Blocks(s, e)
      && (id in Next(limits, s, e).live ==> StepsLeft(Next(limits, s, e).live[id]) < StepsLeft(s.live[id]))
  {
    RunKeeps(limits, states, events, i);
    assert RequestOK(limits, states[i].live[id]);
    StepKeeps(limits, states[i], OwnEvent(id, states[i].live[id], throttled));
  }

  /** One request between two moments of its life: it only takes until it leaves, and then only gives back. */
  predicate StackMoves(r: Request, r': Request) {
    && r'.plan == r.plan
    && (r'.phase != Leaving ==> r.phase != Leaving && r.held <= r'.held)
    && (r.phase == Leaving ==> r'.phase == Leaving && r'.held <= r.held)
  }

  lemma StackStep(limits: Limits, s: State, e: Event, id: nat)
    requires Due(s, e) && !Blocks(s, e) && id in s.live && id in Next(limits, s, e).live
    ensures StackMoves(s.live[id], Next(limits, s, e).live[id])
  {
  }

  /** No token is taken twice or given back twice between a request's arrival and its departure. */
  lemma {:induction false} TakenOnceReleasedOnce(
    limits: Limits, states: seq<State>, events: seq<Event>, i: nat, j: nat, id: nat)
    requires Run(limits, states, events) && i <= j < |states|
    requires forall k: nat :: i <= k <= j ==> id in states[k].live
    ensures StackMoves(states[i].live[id], states[j].live[id])
  {
    if i == j {
    } else {
      TakenOnceReleasedOnce(limits, states, events, i, j - 1, id);
      assert Steps(limits, states[j - 1], events[j - 1], states[j - 1 + 1]);
      StackStep(limits, states[j - 1], events[j - 1], id);
    }
  }
}
