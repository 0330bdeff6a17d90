/** In-flight limits: one slot per request and rate policy, given back on every way out. */
module Traffic {
  import opened Text

  /** How a policy's circuit breaking section answers the request; a policy may lack the section. */
  datatype Breaking = Missing | Lets | Breaks

  datatype Rate = Rate(hash: string, matches: bool)

  datatype Policy = Policy(name: string, breaking: Breaking, rates: seq<Rate>)

  /** What the policies ask of one request, in order. */
  datatype Check = Crash | Break(name: string) | Limit(hash: string)

  datatype Outcome = Served | CircuitBroken(name: string) | TooMany(hash: string) | Panicked | NoInfo

  type Limits = string -> Option<nat>

  function RateChecks(rates: seq<Rate>): seq<Check> {
    if rates == [] then []
    else RateChecks(rates[..|rates| - 1]) + if rates[|rates| - 1].matches then [Limit(rates[|rates| - 1].hash)] else []
  }

  function BreakChecks(policy: Policy): seq<Check> {
    match policy.breaking
    case Missing => [Crash]
    case Lets => []
    case Breaks => [Break(policy.name)]
  }

  function Checks(policies: seq<Policy>): seq<Check> {
    if policies == [] then []
    else
      var last := policies[|policies| - 1];
      Checks(policies[..|policies| - 1]) + BreakChecks(last) + RateChecks(last.rates)
  }

  function Count(occ: map<string, nat>, hash: string): nat {
    if hash in occ then occ[hash] else 0
  }

  predicate Room(limits: Limits, occ: map<string, nat>, hash: string) {
    limits(hash).Some? ==> Count(occ, hash) < limits(hash).value
  }

  /** A token is taken exactly when the control has a limit and room under it. */
  predicate TakesToken(limits: Limits, occ: map<string, nat>, hash: string) {
    limits(hash).Some? && Room(limits, occ, hash)
  }

  function AfterAsking(limits: Limits, occ: map<string, nat>, hash: string): map<string, nat> {
    occ[hash := Count(occ, hash) + if TakesToken(limits, occ, hash) then 1 else 0]
  }

  /** Whether a check ends the request, judged on the slots in use when the request came in. */
  predicate Stops(limits: Limits, occ: map<string, nat>, throttled: string -> bool, check: Check) {
    match check
    case Crash => true
    case Break(_) => true
    case Limit(hash) => !Room(limits, occ, hash) || throttled(hash)
  }

  predicate AllPass(limits: Limits, occ: map<string, nat>, throttled: string -> bool, checks: seq<Check>) {
    forall c <- checks :: !Stops(limits, occ, throttled, c)
  }

  /** Rate `j` refuses after everything in `done` and the rates before it passed. */
  predicate RefusesAt(limits: Limits, occ: map<string, nat>, throttled: string -> bool, done: seq<Check>,
                      rates: seq<Rate>, j: nat)
    requires j < |rates|
  {
    && rates[j].matches
    && Stops(limits, occ, throttled, Limit(rates[j].hash))
    && AllPass(limits, occ, throttled, done + RateChecks(rates[..j]))
  }

  // ----- the policies themselves

  /** There is room under the control's limit, if it has one, and neither bucket nor backoff objects. */
  predicate Fits(limits: Limits, occ: map<string, nat>, throttled: string -> bool, hash: string) {
    (limits(hash).Some? ==> Count(occ, hash) < limits(hash).value) && !throttled(hash)
  }

  predicate RatesFit(limits: Limits, occ: map<string, nat>, throttled: string -> bool, rates: seq<Rate>) {
    forall r <- rates :: r.matches ==> Fits(limits, occ, throttled, r.hash)
  }

  predicate PolicyPasses(limits: Limits, occ: map<string, nat>, throttled: string -> bool, p: Policy) {
    p.breaking == Lets && RatesFit(limits, occ, throttled, p.rates)
  }

  predicate PoliciesPass(limits: Limits, occ: map<string, nat>, throttled: string -> bool, policies: seq<Policy>) {
    forall p <- policies :: PolicyPasses(limits, occ, throttled, p)
  }

  lemma AllPassConcat(
    limits: Limits, occ: map<string, nat>, throttled: string -> bool, a: seq<Check>, b: seq<Check>)
    ensures AllPass(limits, occ, throttled, a + b) <==>
      AllPass(limits, occ, throttled, a) && AllPass(limits, occ, throttled, b)
  {
    assert forall c :: c in a + b <==> c in a || c in b;
  }

  lemma OnePasses(limits: Limits, occ: map<string, nat>, throttled: string -> bool, c: Check)
    ensures AllPass(limits, occ, throttled, [c]) <==> !Stops(limits, occ, throttled, c)
  {
    assert c in [c];
  }

  lemma {:induction false} RatesMean(
    limits: Limits, occ: map<string, nat>, throttled: string -> bool, rates: seq<Rate>)
    ensures AllPass(limits, occ, throttled, RateChecks(rates)) <==> RatesFit(limits, occ, throttled, rates)
  {
    if rates == [] {
    } else {
      var n := |rates| - 1;
      RatesMean(limits, occ, throttled, rates[..n]);
      assert rates == rates[..n] + [rates[n]];
      var last := if rates[n].matches then [Limit(rates[n].hash)] else [];
      AllPassConcat(limits, occ, throttled, RateChecks(rates[..n]), last);
      OnePasses(limits, occ, throttled, Limit(rates[n].hash));
    }
  }

  lemma PolicyMeans(
    limits: Limits, occ: map<string, nat>, throttled: string -> bool, done: seq<Check>, p: Policy)
    ensures AllPass(limits, occ, throttled, done + BreakChecks(p) + RateChecks(p.rates)) <==>
      AllPass(limits, occ, throttled, done) && PolicyPasses(limits, occ, throttled, p)
  {
    RatesMean(limits, occ, throttled, p.rates);
    AllPassConcat(limits, occ, throttled, done + BreakChecks(p), RateChecks(p.rates));
    AllPassConcat(limits, occ, throttled, done, BreakChecks(p));
    OnePasses(limits, occ, throttled, Crash);
    OnePasses(limits, occ, throttled, Break(p.name));
  }

  lemma {:induction false} ChecksMean(
    limits: Limits, occ: map<string, nat>, throttled: string -> bool, policies: seq<Policy>)
    ensures AllPass(limits, occ, throttled, Checks(policies)) <==> PoliciesPass(limits, occ, throttled, policies)
  {
    if policies == [] {
    } else {
      var n := |policies| - 1;
      ChecksMean(limits, occ, throttled, policies[..n]);
      PolicyMeans(limits, occ, throttled, Checks(policies[..n]), policies[n]);
      assert forall p :: p in policies <==> p in policies[..n] || p == policies[n];
    }
  }

  /** Some policy has a matching rate under that control. */
  predicate Limited(policies: seq<Policy>, hash: string) {
    exists p :: p in policies && HasRate(p.rates, hash)
  }

  predicate HasRate(rates: seq<Rate>, hash: string) { exists r :: r in rates && r.matches && r.hash == hash }

  lemma {:induction false} RateMember(rates: seq<Rate>, hash: string)
    ensures Limit(hash) in RateChecks(rates) <==> HasRate(rates, hash)
  {
    if rates == [] {
    } else {
      RateMember(rates[..|rates| - 1], hash);
      assert rates == rates[..|rates| - 1] + [rates[|rates| - 1]];
    }
  }

  lemma LimitedLast(policies: seq<Policy>, hash: string)
    requires policies != []
    ensures Limited(policies, hash) <==>
      Limited(policies[..|policies| - 1], hash) || HasRate(policies[|policies| - 1].rates, hash)
  {
    var n := |policies| - 1;
    assert forall p :: p in policies <==> p in policies[..n] || p == policies[n];
  }

  lemma {:induction false} ChecksMember(policies: seq<Policy>, hash: string)
    ensures Limit(hash) in Checks(policies) <==> Limited(policies, hash)
  {
    if policies == [] {
    } else {
      var n := |policies| - 1;
      ChecksMember(policies[..n], hash);
      RateMember(policies[n].rates, hash);
      LimitedLast(policies, hash);
    }
  }

  /** The first policy that does not pass decides: no section, a broken circuit, or its first rate that does not fit. */
  ghost predicate FirstObjects(
    limits: Limits, occ: map<string, nat>, throttled: string -> bool, policies: seq<Policy>, i: nat, outcome: Outcome)
    requires i < |policies|
  {
    && PoliciesPass(limits, occ, throttled, policies[..i])
    && match policies[i].breaking
       case Missing => outcome == Panicked
       case Breaks => outcome == CircuitBroken(policies[i].name)
       case Lets => outcome.TooMany? && FirstRateObjects(limits, occ, throttled, policies[i].rates, outcome.hash)
  }

  predicate FirstRateObjects(
    limits: Limits, occ: map<string, nat>, throttled: string -> bool, rates: seq<Rate>, hash: string) {
    exists j :: 0 <= j < |rates| && RateObjects(limits, occ, throttled, rates, j) && rates[j].hash == hash
  }

  predicate RateObjects(limits: Limits, occ: map<string, nat>, throttled: string -> bool, rates: seq<Rate>, j: nat)
    requires j < |rates|
  {
    && rates[j].matches && !Fits(limits, occ, throttled, rates[j].hash)
    && RatesFit(limits, occ, throttled, rates[..j])
  }

  ghost predicate PoliciesDecide(
    limits: Limits, occ: map<string, nat>, throttled: string -> bool, policies: seq<Policy>, outcome: Outcome) {
    if PoliciesPass(limits, occ, throttled, policies) then outcome == Served
    else exists i :: 0 <= i < |policies| && FirstObjects(limits, occ, throttled, policies, i, outcome)
  }

  lemma RefusalObjects(limits: Limits, occ: map<string, nat>, throttled: string -> bool, policies: seq<Policy>, i: nat,
                       j: nat)
    requires i < |policies| && policies[i].breaking == Lets && j < |policies[i].rates|
    requires RefusesAt(limits, occ, throttled, Checks(policies[..i]), policies[i].rates, j)
    ensures FirstObjects(limits, occ, throttled, policies, i, TooMany(policies[i].rates[j].hash))
    ensures !PolicyPasses(limits, occ, throttled, policies[i])
  {
    var rates, done := policies[i].rates, Checks(policies[..i]);
    AllPassConcat(limits, occ, throttled, done, RateChecks(rates[..j]));
    ChecksMean(limits, occ, throttled, policies[..i]);
    RatesMean(limits, occ, throttled, rates[..j]);
    assert RateObjects(limits, occ, throttled, rates, j);
    assert rates[j] in rates;
  }

  predicate Distinct<T(==)>(s: seq<T>) {
    forall i: nat, j: nat :: i < j < |s| ==> s[i] != s[j]
  }

  /** The request holds one slot for each of `held`, on top of what was in use. */
  ghost predicate Holding(before: map<string, nat>, after: map<string, nat>, held: seq<string>) {
    && Distinct(held)
    && forall h :: Count(after, h) == Count(before, h) + if h in held then 1 else 0
  }

  class TrafficControl {
    const limits: Limits
    /** Tokens in each rate control's channel. */
    var occ: map<string, nat>

    constructor (limits: Limits)
      ensures this.limits == limits && occ == map[]
    {
      this.limits, occ := limits, map[];
    }

    /** A token taken before the bucket or the backoff refuses is handed to the caller all the same. */
    method Allow(hash: string, throttled: bool) returns (token: bool, refused: bool)
      modifies this
      ensures token <==> TakesToken(limits, old(occ), hash)
      ensures refused <==> !Room(limits, old(occ), hash) || throttled
      ensures occ == AfterAsking(limits, old(occ), hash)
    {
      if hash !in occ { occ := occ[hash := 0]; }
      token := false;
      if limits(hash).Some? {
        if occ[hash] < limits(hash).value {
          occ := occ[hash := occ[hash] + 1];
          token := true;
        } else {
          return false, true;
        }
      }
      refused := throttled;
    }

    /** Taking a token back out of the channel, which would block forever on an empty one. */
    method Release(hash: string)
      requires Count(occ, hash) > 0
      modifies this
      ensures occ == old(occ)[hash := old(occ)[hash] - 1]
    {
      occ := occ[hash := occ[hash] - 1];
    }

    /** Deferred releases, last registered first. */
    method Unwind(held: seq<string>, ghost before: map<string, nat>)
      requires Holding(before, occ, held)
      modifies this
      ensures forall h :: Count(occ, h) == Count(before, h)
    {
      var n := |held|;
      while n > 0
        invariant 0 <= n <= |held| && Holding(before, occ, held[..n])
      {
        n := n - 1;
        assert held[n] in held[..n + 1];
        assert held[..n + 1] == held[..n] + [held[n]];
        Release(held[n]);
      }
    }

    /** What one request has done after passing the checks `done`. */
    ghost predicate Passed(before: map<string, nat>, done: seq<Check>, seen: set<string>, held: seq<string>,
                           throttled: string -> bool)
      reads this
    {
      && Holding(before, occ, held)
      && AllPass(limits, before, throttled, done)
      && (forall h :: h in seen <==> Limit(h) in done)
      && (forall h :: h in held <==> h in seen && limits(h).Some?)
    }

    /** One rate policy that matches the request; a control met before is not asked again. */
    method Examine(hash: string, throttled: string -> bool, seen: set<string>, held: seq<string>,
                   ghost before: map<string, nat>, ghost done: seq<Check>)
      returns (refused: bool, seen': set<string>, held': seq<string>)
      requires Passed(before, done, seen, held, throttled)
      modifies this
      ensures refused <==> Stops(limits, before, throttled, Limit(hash))
      ensures Holding(before, occ, held')
      ensures !refused ==> Passed(before, done + [Limit(hash)], seen', held', throttled)
    {
      seen', held' := seen, held;
      if hash in seen {
        assert Limit(hash) in done;
        return false, seen, held;
      }
      seen' := seen + {hash};
      var token;
      token, refused := Allow(hash, throttled(hash));
      if token {
        held' := held + [hash];
      }
    }

    /** One policy's rates, in order. */
    method AdmitRates(rates: seq<Rate>, throttled: string -> bool, seen: set<string>, held: seq<string>,
                      ghost before: map<string, nat>, ghost done: seq<Check>)
      returns (refused: Option<nat>, seen': set<string>, held': seq<string>)
      requires Passed(before, done, seen, held, throttled)
      modifies this
      ensures Holding(before, occ, held')
      ensures refused.None? ==> Passed(before, done + RateChecks(rates), seen', held', throttled)
      ensures refused.Some? ==>
        refused.value < |rates| && RefusesAt(limits, before, throttled, done, rates, refused.value)
    {
      seen', held' := seen, held;
      assert done + RateChecks(rates[..0]) == done;
      for j := 0 to |rates|
        invariant Passed(before, done + RateChecks(rates[..j]), seen', held', throttled)
      {
        ghost var sofar := done + RateChecks(rates[..j]);
        assert rates[..j + 1][..j] == rates[..j];
        if rates[j].matches {
          var stop;
          stop, seen', held' := Examine(rates[j].hash, throttled, seen', held', before, sofar);
          if stop { return Some(j), seen', held'; }
          assert done + RateChecks(rates[..j + 1]) == sofar + [Limit(rates[j].hash)];
        } else {
          assert done + RateChecks(rates[..j + 1]) == sofar;
        }
      }
      assert rates[..|rates|] == rates;
      refused := None;
    }

    /** The policy loop: stops at the first check that refuses, with the slots taken so far still held. */
    method Admit(policies: seq<Policy>, throttled: string -> bool) returns (outcome: Outcome, held: seq<string>)
      modifies this
      ensures PoliciesDecide(limits, old(occ), throttled, policies, outcome)
      ensures Holding(old(occ), occ, held)
      ensures outcome == Served ==> forall h :: h in held <==> Limited(policies, h) && limits(h).Some?
    {
      var seen: set<string> := {};
      held := [];
      ghost var before := occ;
      for i := 0 to |policies|
        invariant Passed(before, Checks(policies[..i]), seen, held, throttled)
      {
        ghost var done := Checks(policies[..i]);
        if policies[i].breaking != Lets {
          ChecksMean(limits, before, throttled, policies[..i]);
          assert policies[i] in policies;
          outcome := if policies[i].breaking == Missing then Panicked else CircuitBroken(policies[i].name);
          assert FirstObjects(limits, before, throttled, policies, i, outcome);
          return;
        }
        assert done + BreakChecks(policies[i]) == done;
        var refused;
        refused, seen, held := AdmitRates(policies[i].rates, throttled, seen, held, before, done);
        if refused.Some? {
          RefusalObjects(limits, before, throttled, policies, i, refused.value);
          assert policies[i] in policies;
          return TooMany(policies[i].rates[refused.value].hash), held;
        }
        assert policies[..i + 1][..i] == policies[..i];
      }
      assert policies[..|policies|] == policies;
      ChecksMean(limits, before, throttled, policies);
      forall h ensures Limit(h) in Checks(policies) <==> Limited(policies, h) { ChecksMember(policies, h); }
      outcome := Served;
    }

    /**
     * A request from policy loop to deferred releases. `listed` is None when the policies cannot be listed, which lets
     * the request through, and `hasInfo` whether the request says what it is about. `during` is what was in use while
     * the handler ran, or when the request was turned away; afterwards every control is as before, however it ended.
     */
    method ServeHTTP(listed: Option<seq<Policy>>, hasInfo: bool, throttled: string -> bool, handlerPanics: bool)
      returns (outcome: Outcome, during: map<string, nat>)
      modifies this
      ensures listed.Some? && listed.value != [] && !hasInfo ==> outcome == NoInfo
      ensures Applying(listed) != [] && hasInfo && !PoliciesPass(limits, old(occ), throttled, Applying(listed)) ==>
        PoliciesDecide(limits, old(occ), throttled, Applying(listed), outcome)
      ensures Applying(listed) == [] || (hasInfo && PoliciesPass(limits, old(occ), throttled, Applying(listed))) ==>
        && outcome == (if handlerPanics then Panicked else Served)
        && forall h :: Count(during, h) == Count(old(occ), h) + if Taking(limits, listed, h) then 1 else 0
      ensures forall h :: Count(old(occ), h) <= Count(during, h) <= Count(old(occ), h) + 1
      ensures forall h :: Count(occ, h) == Count(old(occ), h)
    {
      ghost var before := occ;
      var policies := Applying(listed);
      if policies == [] { return if handlerPanics then Panicked else Served, occ; }
      if !hasInfo { return NoInfo, occ; }
      var held;
      outcome, held := Admit(policies, throttled);
      during := occ;
      if outcome == Served && handlerPanics { outcome := Panicked; }
      Unwind(held, before);
    }
  }

  function Applying(listed: Option<seq<Policy>>): seq<Policy> { if listed.Some? then listed.value else [] }

  /** While it is served the request holds a slot of this control. */
  predicate Taking(limits: Limits, listed: Option<seq<Policy>>, hash: string) {
    Limited(Applying(listed), hash) && limits(hash).Some?
  }
}
