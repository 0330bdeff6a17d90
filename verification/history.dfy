/** The verdicts a proxy has already given, kept per resource and never forgotten. */
module History {
  import opened Text
  import opened Selectors
  import opened Routes

  /** A request's verdicts; the same shape is kept per resource. */
  datatype Record = Record(
    gr: GroupResource, objectSelector: Option<LabelSelector>, nsPassed: set<string>, nsDenied: set<string>,
    uaPassed: Option<string>, uaDenied: Option<string>)

  datatype Pack = Pack(byGR: map<string, Record>, uaPassed: set<string>, uaDenied: set<string>)

  const EMPTY_PACK := Pack(map[], {}, {})

  function Blank(gr: GroupResource): Record { Record(gr, None, {}, {}, None, None) }

  function AddUserAgent(p: Pack, req: Record): Pack {
    if req.uaPassed.Some? then p.(uaPassed := p.uaPassed + {req.uaPassed.value})
    else if req.uaDenied.Some? then p.(uaDenied := p.uaDenied + {req.uaDenied.value})
    else p
  }

  predicate WorthKeeping(req: Record) {
    req.objectSelector.Some? || req.nsPassed != {} || req.nsDenied != {}
  }

  /** The selector is replaced by the newest, even by nil; the namespace sets only grow. */
  function Absorb(kept: Record, req: Record): Record {
    kept.(objectSelector := req.objectSelector,
          nsPassed := kept.nsPassed + req.nsPassed, nsDenied := kept.nsDenied + req.nsDenied)
  }

  function AddResource(p: Pack, req: Record): Pack {
    var key := req.gr.Key();
    if !WorthKeeping(req) then p
    else p.(byGR := p.byGR[key := if key in p.byGR then Absorb(p.byGR[key], req) else req])
  }

  function Added(p: Pack, req: Option<Record>): Pack {
    if req.None? then p else AddResource(AddUserAgent(p, req.value), req.value)
  }

  /** The store writes its pack out only when something changed; `saved` is what it last wrote. */
  class RequestsStore {
    var byGR: map<string, Record>
    var uaPassed: set<string>
    var uaDenied: set<string>
    var saved: Pack

    constructor ()
      ensures Contents() == EMPTY_PACK && Valid()
    {
      byGR, uaPassed, uaDenied, saved := map[], {}, {}, EMPTY_PACK;
    }

    function Contents(): Pack
      reads this
    {
      Pack(byGR, uaPassed, uaDenied)
    }

    predicate Valid()
      reads this
    {
      saved == Contents()
    }

    method Add(req: Option<Record>)
      requires Valid()
      modifies this
      ensures Contents() == Added(old(Contents()), req)
      ensures Valid()
    {
      if req.None? { return; }
      var r := req.value;
      var changed := false;
      if r.uaPassed.Some? {
        if r.uaPassed.value !in uaPassed {
          uaPassed := uaPassed + {r.uaPassed.value};
          changed := true;
        }
      } else if r.uaDenied.Some? {
        if r.uaDenied.value !in uaDenied {
          uaDenied := uaDenied + {r.uaDenied.value};
          changed := true;
        }
      }
      assert Pack(byGR, uaPassed, uaDenied) == AddUserAgent(old(Contents()), r);
      if WorthKeeping(r) {
        var key := r.gr.Key();
        if key !in byGR {
          byGR := byGR[key := r];
          changed := true;
        } else {
          var kept := byGR[key];
          if kept.objectSelector != r.objectSelector {
            kept := kept.(objectSelector := r.objectSelector);
            changed := true;
          }
          var diff := r.nsPassed - kept.nsPassed;
          assert kept.nsPassed + diff == kept.nsPassed + r.nsPassed && kept.nsPassed + {} == kept.nsPassed;
          if diff != {} {
            kept := kept.(nsPassed := kept.nsPassed + diff);
            changed := true;
          }
          diff := r.nsDenied - kept.nsDenied;
          assert kept.nsDenied + diff == kept.nsDenied + r.nsDenied && kept.nsDenied + {} == kept.nsDenied;
          if diff != {} {
            kept := kept.(nsDenied := kept.nsDenied + diff);
            changed := true;
          }
          assert kept == Absorb(byGR[key], r);
          byGR := byGR[key := kept];
        }
      }
      if changed { saved := Contents(); }
    }
  }

  // ----- keys

  /** A resource name without a dot, as Kubernetes names them. */
  predicate Plain(gr: GroupResource) { '.' !in gr.resource }

  lemma KeyInjective(a: GroupResource, b: GroupResource)
    requires Plain(a) && Plain(b) && a.Key() == b.Key()
    ensures a == b
  {
    DotPosition(a);
    DotPosition(b);
    if a.group != "" && b.group != "" {
      assert |a.resource| == |b.resource|;
      assert a.resource == a.Key()[..|a.resource|] && b.resource == b.Key()[..|b.resource|];
      assert a.group == a.Key()[|a.resource| + 1..] && b.group == b.Key()[|b.resource| + 1..];
    }
  }

  lemma DotPosition(a: GroupResource)
    requires Plain(a)
    ensures a.group == "" ==> '.' !in a.Key()
    ensures a.group != "" ==> |a.resource| < |a.Key()| && a.Key()[|a.resource|] == '.'
    ensures forall i :: 0 <= i < |a.resource| ==> a.Key()[i] != '.'
  {
  }

  /** With a dot in the resource name two resources can share one record. */
  lemma DottedNamesCollide()
    ensures GroupResource("", "a.b").Key() == GroupResource("b", "a").Key()
  {
  }

  // ----- what a pack remembers

  function Passed(p: Pack, gr: GroupResource): set<string> {
    if gr.Key() in p.byGR then p.byGR[gr.Key()].nsPassed else {}
  }

  function Denied(p: Pack, gr: GroupResource): set<string> {
    if gr.Key() in p.byGR then p.byGR[gr.Key()].nsDenied else {}
  }

  /** Each record sits under its own resource's key. */
  predicate Keyed(p: Pack) {
    forall k :: k in p.byGR ==> p.byGR[k].gr.Key() == k && Plain(p.byGR[k].gr)
  }

  /** A request adds its own verdicts to its own resource, and nothing anywhere else. */
  lemma AddedExactly(p: Pack, req: Record, gr: GroupResource)
    requires Keyed(p) && Plain(req.gr) && Plain(gr)
    ensures Keyed(Added(p, Some(req)))
    ensures Passed(Added(p, Some(req)), gr) == Passed(p, gr) + if gr == req.gr then req.nsPassed else {}
    ensures Denied(Added(p, Some(req)), gr) == Denied(p, gr) + if gr == req.gr then req.nsDenied else {}
  {
    if gr.Key() == req.gr.Key() { KeyInjective(gr, req.gr); }
  }

  predicate RecordGrows(r: Record, s: Record) {
    && r.gr == s.gr && r.uaPassed == s.uaPassed && r.uaDenied == s.uaDenied
    && r.nsPassed <= s.nsPassed && r.nsDenied <= s.nsDenied
  }

  predicate Grows(p: Pack, q: Pack) {
    && p.uaPassed <= q.uaPassed && p.uaDenied <= q.uaDenied
    && forall k :: k in p.byGR ==> k in q.byGR && RecordGrows(p.byGR[k], q.byGR[k])
  }

  lemma AddedGrows(p: Pack, req: Option<Record>)
    ensures Grows(p, Added(p, req))
  {
  }

  // ----- agreement with a spec

  predicate UserAgentsAgree(spec: Spec, rec: Record) {
    (rec.uaPassed.Some? ==> UserAgentMatch(spec, rec.uaPassed.value))
    && (rec.uaDenied.Some? ==> !UserAgentMatch(spec, rec.uaDenied.value))
  }

  predicate NamespacesAgree(spec: Spec, rec: Record) {
    (forall ns :: ns in rec.nsPassed ==> NamespaceMatch(spec, ns, rec.gr))
    && (forall ns :: ns in rec.nsDenied ==> !NamespaceMatch(spec, ns, rec.gr))
  }

  /** Verdicts only, leaving the stored selector aside; a record of the empty resource is never consulted. */
  predicate RecordVerdictsAgree(spec: Spec, rec: Record) {
    UserAgentsAgree(spec, rec) && (rec.gr.Empty() || NamespacesAgree(spec, rec))
  }

  ghost predicate RecordAgrees(spec: Spec, rec: Record) {
    && RecordVerdictsAgree(spec, rec)
    && (rec.gr.Empty() || ObjectSelector(spec.body, spec.subset, rec.gr) == rec.objectSelector)
  }

  predicate UserAgentSetsAgree(spec: Spec, p: Pack) {
    && (forall ua :: ua in p.uaPassed ==> UserAgentMatch(spec, ua))
    && (forall ua :: ua in p.uaDenied ==> !UserAgentMatch(spec, ua))
  }

  predicate VerdictsAgree(spec: Spec, p: Pack) {
    UserAgentSetsAgree(spec, p) && forall k :: k in p.byGR ==> RecordVerdictsAgree(spec, p.byGR[k])
  }

  ghost predicate PackAgrees(spec: Spec, p: Pack) {
    UserAgentSetsAgree(spec, p) && forall k :: k in p.byGR ==> RecordAgrees(spec, p.byGR[k])
  }

  /** Recording verdicts that agree with a spec keeps the history in agreement with it. */
  lemma AddedAgrees(spec: Spec, p: Pack, req: Record)
    requires Keyed(p) && Plain(req.gr) && VerdictsAgree(spec, p) && RecordVerdictsAgree(spec, req)
    ensures Keyed(Added(p, Some(req))) && VerdictsAgree(spec, Added(p, Some(req)))
  {
    var q := Added(p, Some(req));
    var key := req.gr.Key();
    if WorthKeeping(req) && key in p.byGR {
      KeyInjective(req.gr, p.byGR[key].gr);
      assert RecordVerdictsAgree(spec, Absorb(p.byGR[key], req));
    }
    forall k | k in q.byGR ensures RecordVerdictsAgree(spec, q.byGR[k]) {
      if k != key { assert q.byGR[k] == p.byGR[k]; }
    }
  }

  /** Whatever agrees with a history agreed with it all along, so a disagreement recorded once is one for good. */
  lemma EarlierAgrees(spec: Spec, p: Pack, q: Pack)
    requires Grows(p, q) && VerdictsAgree(spec, q)
    ensures VerdictsAgree(spec, p)
  {
  }

  lemma GrowsTransitive(p: Pack, q: Pack, r: Pack)
    requires Grows(p, q) && Grows(q, r)
    ensures Grows(p, r)
  {
  }

  lemma VerdictsDependOnRoute(a: Spec, b: Spec, p: Pack)
    requires a.body == b.body && a.subset == b.subset
    ensures VerdictsAgree(a, p) <==> VerdictsAgree(b, p)
  {
  }
}
