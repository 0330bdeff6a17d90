/**
 * How list and watch responses are filtered: decide each object under one spec, deliver it or not, record the verdict.
 */
module ResponseFilters {
  import opened Text
  import opened Routes
  import opened History
  import opened SpecManagers

  /** A list member; None stands for a member without object metadata. */
  datatype Item = Item(namespace: Option<string>, payload: string)

  /**
   * The namespaces that get judged and recorded: cluster-scoped members are not recorded, and an unstructured list
   * stops at its first malformed member.
   */
  function Judged(items: seq<Item>, unstructured: bool): seq<string> {
    if items == [] then []
    else if items[0].namespace.None? then (if unstructured then [] else Judged(items[1..], unstructured))
    else if items[0].namespace.value == "" then Judged(items[1..], unstructured)
    else [items[0].namespace.value] + Judged(items[1..], unstructured)
  }

  /** What is delivered when nothing is malformed; a typed list keeps members it cannot read. */
  function Kept(spec: Spec, gr: GroupResource, items: seq<Item>): seq<Item> {
    if items == [] then []
    else
      var ns := items[0].namespace;
      (if ns.None? || NamespaceMatch(spec, ns.value, gr) then [items[0]] else []) + Kept(spec, gr, items[1..])
  }

  predicate Malformed(items: seq<Item>) { exists i :: 0 <= i < |items| && items[i].namespace.None? }

  function JudgeAll(spec: Spec, rr: Record, nss: seq<string>): Record
    decreases nss
  {
    if nss == [] then rr else JudgeAll(spec, Judge(spec, rr, nss[0]), nss[1..])
  }

  lemma MalformedStep(items: seq<Item>, i: nat)
    requires i < |items|
    ensures items[i].namespace.None? ==> Malformed(items)
    ensures Malformed(items[..i + 1]) <==> Malformed(items[..i]) || items[i].namespace.None?
  {
    assert forall k :: 0 <= k < i ==> items[..i + 1][k] == items[..i][k];
    assert items[..i + 1][i] == items[i];
  }

  lemma ItemStep(spec: Spec, gr: GroupResource, items: seq<Item>, i: nat, unstructured: bool)
    requires i < |items|
    ensures Kept(spec, gr, items[i..])
      == (if items[i].namespace.None? || NamespaceMatch(spec, items[i].namespace.value, gr) then [items[i]] else [])
         + Kept(spec, gr, items[i + 1..])
    ensures items[i].namespace.None? ==>
      Judged(items[i..], unstructured) == if unstructured then [] else Judged(items[i + 1..], unstructured)
    ensures items[i].namespace.Some? ==>
      var ns := items[i].namespace.value;
      Judged(items[i..], unstructured) == (if ns == "" then [] else [ns]) + Judged(items[i + 1..], unstructured)
  {
    assert items[i..][0] == items[i] && items[i..][1..] == items[i + 1..];
  }

  /** The loop over the members, under the lock held by reader `id`. */
  method FilterEach(sm: SpecManager, id: nat, unstructured: bool, items: seq<Item>) returns (out: seq<Item>, ok: bool)
    requires id in sm.readers && sm.readers[id].spec.Some?
    modifies sm`readers
    ensures ok <==> !(unstructured && Malformed(items))
    ensures out == if ok then Kept(old(sm.readers[id].spec.value), old(sm.readers[id].rr.gr), items) else items
    ensures var r := old(sm.readers[id]);
      sm.readers == old(sm.readers)[id := r.(rr := JudgeAll(r.spec.value, r.rr, Judged(items, unstructured)))]
  {
    var spec, gr := sm.readers[id].spec.value, sm.readers[id].rr.gr;
    ghost var rr := sm.readers[id].rr;
    out := [];
    var i := 0;
    assert items[0..] == items;
    while i < |items|
      invariant 0 <= i <= |items| && id in sm.readers && sm.readers[id].spec == Some(spec)
      invariant sm.readers == old(sm.readers)[id := sm.readers[id]]
      invariant Progress(spec, gr, items, unstructured, rr, i, out, sm.readers[id].rr)
    {
      ProgressStep(spec, gr, items, unstructured, rr, i, out, sm.readers[id].rr);
      if items[i].namespace.None? {
        if unstructured { return items, false; }
        out := out + [items[i]];
      } else {
        var ns := items[i].namespace.value;
        var matched := NamespaceMatch(spec, ns, gr);
        if ns != "" { matched := sm.DecideNamespace(id, ns); }
        if matched { out := out + [items[i]]; }
      }
      i := i + 1;
    }
    assert items[i..] == [] && items[..i] == items;
    ok := true;
  }

  /** After `i` members: what is kept and judged so far, completed by the rest, is what the whole list comes to. */
  ghost predicate Progress(spec: Spec, gr: GroupResource, items: seq<Item>, unstructured: bool, rr: Record, i: nat,
                           out: seq<Item>, now: Record)
  {
    && i <= |items| && now.gr == gr
    && out + Kept(spec, gr, items[i..]) == Kept(spec, gr, items)
    && (unstructured ==> !Malformed(items[..i]))
    && JudgeAll(spec, now, Judged(items[i..], unstructured)) == JudgeAll(spec, rr, Judged(items, unstructured))
  }

  lemma ProgressStep(spec: Spec, gr: GroupResource, items: seq<Item>, unstructured: bool, rr: Record, i: nat,
                     out: seq<Item>, now: Record)
    requires i < |items| && Progress(spec, gr, items, unstructured, rr, i, out, now)
    ensures
      var x := items[i];
      if x.namespace.None? then
        && Malformed(items)
        && if unstructured then now == JudgeAll(spec, rr, Judged(items, unstructured))
           else Progress(spec, gr, items, unstructured, rr, i + 1, out + [x], now)
      else
        var ns := x.namespace.value;
        var out' := if NamespaceMatch(spec, ns, gr) then out + [x] else out;
        Progress(spec, gr, items, unstructured, rr, i + 1, out', if ns == "" then now else Judge(spec, now, ns))
  {
    ItemStep(spec, gr, items, i, unstructured);
    MalformedStep(items, i);
    var x := items[i];
    if x.namespace.Some? && x.namespace.value != "" {
      JudgeFirst(spec, now, x.namespace.value, Judged(items[i + 1..], unstructured));
    }
  }

  lemma JudgeFirst(spec: Spec, rr: Record, ns: string, rest: seq<string>)
    ensures JudgeAll(spec, rr, [ns] + rest) == JudgeAll(spec, Judge(spec, rr, ns), rest)
  {
  }

  /**
   * Filters a list under the read lock; None stands for a response without a list of members, and `settable` is whether
   * a typed list can be written back. On an error the list stays as it was, after the verdicts given so far have been
   * recorded: a malformed member of an unstructured list, no list at all, or one that cannot be written back.
   */
  method FilterItems(
    sm: SpecManager, id: nat, gr: GroupResource, unstructured: bool, settable: bool, userAgentDenied: bool,
    listing: Option<seq<Item>>)
    returns (out: Option<seq<Item>>, ok: bool)
    requires id !in sm.readers && Plain(gr) && sm.current.Some? && sm.store.Valid()
    modifies sm`readers, sm.store
    ensures sm.readers == old(sm.readers) && sm.store.Valid()
    ensures userAgentDenied ==> ok
    ensures !userAgentDenied ==> (ok <==> listing.Some? && if unstructured then !Malformed(listing.value) else settable)
    ensures out == if userAgentDenied then (if unstructured || settable then Some([]) else listing)
      else if ok then Some(Kept(sm.current.value, gr, listing.value)) else listing
    ensures sm.store.Contents() == if userAgentDenied || listing.None? then old(sm.store.Contents())
      else
        var rr := JudgeAll(sm.current.value, Blank(gr), Judged(listing.value, unstructured));
        Added(old(sm.store.Contents()), Some(rr))
  {
    if userAgentDenied { return if unstructured || settable then Some([]) else listing, true; }
    var _ := sm.AcquireSpec(id, gr);
    out, ok := listing, false;
    if listing.Some? {
      var kept;
      kept, ok := FilterEach(sm, id, unstructured, listing.value);
      ok := ok && (unstructured || settable);
      if ok { out := Some(kept); }
    }
    sm.ReleaseSpec(id, true);
  }

  /**
   * Filters one watch event: a namespace that does not match turns it into a bookmark, and the verdict is recorded,
   * cluster scope included. An object without metadata is an error before anything is judged.
   */
  method FilterEvent(sm: SpecManager, id: nat, gr: GroupResource, userAgentDenied: bool, namespace: Option<string>)
    returns (bookmark: bool, ok: bool)
    requires id !in sm.readers && Plain(gr) && sm.current.Some? && sm.store.Valid()
    modifies sm`readers, sm.store
    ensures sm.readers == old(sm.readers) && sm.store.Valid()
    ensures ok <==> userAgentDenied || namespace.Some?
    ensures userAgentDenied ==> bookmark
    ensures !userAgentDenied && ok ==> (bookmark <==> !NamespaceMatch(sm.current.value, namespace.value, gr))
    ensures sm.store.Contents() == if userAgentDenied || namespace.None? then old(sm.store.Contents())
      else Added(old(sm.store.Contents()), Some(Judge(sm.current.value, Blank(gr), namespace.value)))
  {
    if userAgentDenied { return true, true; }
    if namespace.None? { return false, false; }
    var _ := sm.AcquireSpec(id, gr);
    var matched := sm.DecideNamespace(id, namespace.value);
    sm.ReleaseSpec(id, true);
    return !matched, true;
  }

  /** Folding verdicts records exactly the judged namespaces that match as passed and the others as denied. */
  lemma {:induction false} JudgeAllExactly(spec: Spec, rr: Record, nss: seq<string>)
    ensures var r := JudgeAll(spec, rr, nss);
      && r.gr == rr.gr
      && r.nsPassed == rr.nsPassed + (set ns | ns in nss && NamespaceMatch(spec, ns, rr.gr))
      && r.nsDenied == rr.nsDenied + (set ns | ns in nss && !NamespaceMatch(spec, ns, rr.gr))
    decreases nss
  {
    if nss == [] {
    } else {
      JudgeAllExactly(spec, Judge(spec, rr, nss[0]), nss[1..]);
      assert forall ns :: ns in nss <==> ns == nss[0] || ns in nss[1..];
    }
  }

  lemma {:induction false} KeptMember(spec: Spec, gr: GroupResource, items: seq<Item>, x: Item)
    ensures x in Kept(spec, gr, items) <==>
      x in items && (x.namespace.None? || NamespaceMatch(spec, x.namespace.value, gr))
  {
    if items == [] {
    } else {
      KeptMember(spec, gr, items[1..], x);
      assert x in items <==> x == items[0] || x in items[1..];
    }
  }

  /** Order and number are kept: what is kept of a list is what is kept of its parts, one after the other. */
  lemma {:induction false} KeptInOrder(spec: Spec, gr: GroupResource, before: seq<Item>, x: Item, after: seq<Item>)
    ensures Kept(spec, gr, before + [x] + after) == Kept(spec, gr, before)
      + (if x.namespace.None? || NamespaceMatch(spec, x.namespace.value, gr) then [x] else [])
      + Kept(spec, gr, after)
  {
    var all := before + [x] + after;
    if before == [] {
      assert all[0] == x && all[1..] == after;
    } else {
      assert all[0] == before[0] && all[1..] == before[1..] + [x] + after;
      KeptInOrder(spec, gr, before[1..], x, after);
    }
  }

  /** What is judged: the namespaces of the list, up to the first member that stops it. */
  lemma {:induction false} JudgedExactly(items: seq<Item>, unstructured: bool, ns: string)
    ensures ns in Judged(items, unstructured) <==> exists i :: 0 <= i < |items| && JudgedAt(items, unstructured, i, ns)
  {
    if items == [] {
    } else {
      JudgedExactly(items[1..], unstructured, ns);
      assert JudgedAt(items, unstructured, 0, ns) <==> ns != "" && items[0].namespace == Some(ns);
      if !(unstructured && items[0].namespace.None?) {
        assert items == [items[0]] + items[1..];
        forall i | 0 <= i < |items| - 1 && JudgedAt(items[1..], unstructured, i, ns)
          ensures JudgedAt(items, unstructured, i + 1, ns)
        {
          JudgedLater(items, unstructured, i, ns);
        }
        forall i | 1 <= i < |items| && JudgedAt(items, unstructured, i, ns)
          ensures JudgedAt(items[1..], unstructured, i - 1, ns)
        {
          JudgedLater(items, unstructured, i - 1, ns);
        }
      }
    }
  }

  predicate JudgedAt(items: seq<Item>, unstructured: bool, i: nat, ns: string)
    requires i < |items|
  {
    ns != "" && items[i].namespace == Some(ns) && (unstructured ==> !Malformed(items[..i]))
  }

  lemma JudgedLater(items: seq<Item>, unstructured: bool, i: nat, ns: string)
    requires i < |items| - 1 && !(unstructured && items[0].namespace.None?)
    ensures JudgedAt(items[1..], unstructured, i, ns) <==> JudgedAt(items, unstructured, i + 1, ns)
  {
    assert items[..i + 1] == [items[0]] + items[1..][..i];
    assert forall k :: 0 <= k < i ==> items[..i + 1][k + 1] == items[1..][..i][k];
  }

  /**
   * Nothing namespaced goes out of a filtered list without its namespace being on record as passed, or is held back
   * without being on record as denied.
   */
  lemma DeliveryIsOnRecord(spec: Spec, gr: GroupResource, p: Pack, items: seq<Item>, unstructured: bool, x: Item)
    requires Keyed(p) && Plain(gr) && (unstructured ==> !Malformed(items))
    requires x in items && x.namespace.Some? && x.namespace.value != ""
    ensures var q := Added(p, Some(JudgeAll(spec, Blank(gr), Judged(items, unstructured))));
      if x in Kept(spec, gr, items) then x.namespace.value in Passed(q, gr) else x.namespace.value in Denied(q, gr)
  {
    var rr := JudgeAll(spec, Blank(gr), Judged(items, unstructured));
    JudgeAllExactly(spec, Blank(gr), Judged(items, unstructured));
    KeptMember(spec, gr, items, x);
    var i :| 0 <= i < |items| && items[i] == x;
    if unstructured { assert !Malformed(items[..i]); }
    assert JudgedAt(items, unstructured, i, x.namespace.value);
    JudgedExactly(items, unstructured, x.namespace.value);
    AddedExactly(p, rr, gr);
  }

  /** And nothing comes onto the record but the namespaces of members of the list, by the spec's own answer. */
  lemma RecordComesFromList(
    spec: Spec, gr: GroupResource, p: Pack, items: seq<Item>, unstructured: bool, ns: string)
    requires Keyed(p) && Plain(gr)
    ensures
      var q := Added(p, Some(JudgeAll(spec, Blank(gr), Judged(items, unstructured))));
      var listed := exists i :: 0 <= i < |items| && JudgedAt(items, unstructured, i, ns);
      && (ns in Passed(q, gr) <==> ns in Passed(p, gr) || (listed && NamespaceMatch(spec, ns, gr)))
      && (ns in Denied(q, gr) <==> ns in Denied(p, gr) || (listed && !NamespaceMatch(spec, ns, gr)))
  {
    JudgeAllExactly(spec, Blank(gr), Judged(items, unstructured));
    JudgedExactly(items, unstructured, ns);
    AddedExactly(p, JudgeAll(spec, Blank(gr), Judged(items, unstructured)), gr);
  }
}
