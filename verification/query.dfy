/** Raw URL queries: split into a map and put together again. */
module RawQuery {
  import opened Text

  // ----- splitting and joining

  /** What `strings.Split` does with a one-character separator. */
  function Split(s: string, c: char): (parts: seq<string>)
    ensures |parts| >= 1
  {
    if s == [] then [[]]
    else
      var rest := Split(s[1..], c);
      if s[0] == c then [[]] + rest else [[s[0]] + rest[0]] + rest[1..]
  }

  lemma {:induction false} SplitFree(s: string, c: char, k: nat)
    requires k < |Split(s, c)|
    ensures c !in Split(s, c)[k] && forall x :: x in Split(s, c)[k] ==> x in s
  {
    if s == [] {
    } else {
      var rest := Split(s[1..], c);
      if s[0] == c {
        if k > 0 { SplitFree(s[1..], c, k - 1); }
      } else {
        SplitFree(s[1..], c, k);
      }
    }
  }

  /** A part without the separator is split off whole. */
  lemma {:induction false} SplitFirst(a: string, c: char, b: string)
    requires c !in a
    ensures Split(a + [c] + b, c) == [a] + Split(b, c)
  {
    var s := a + [c] + b;
    if a == [] {
      assert s[1..] == b;
    } else {
      assert s[1..] == a[1..] + [c] + b;
      SplitFirst(a[1..], c, b);
      assert a == [a[0]] + a[1..];
    }
  }

  lemma {:induction false} SplitNone(a: string, c: char)
    requires c !in a
    ensures Split(a, c) == [a]
  {
    if a == [] {
    } else {
      SplitNone(a[1..], c);
      assert a == [a[0]] + a[1..];
    }
  }

  // ----- parsing

  function ParsePairs(pairs: seq<string>): Option<map<string, string>> {
    if pairs == [] then Some(map[])
    else
      var before := ParsePairs(pairs[..|pairs| - 1]);
      var kv := Split(pairs[|pairs| - 1], '=');
      if before.None? || |kv| != 2 then None else Some(before.value[kv[0] := kv[1]])
  }

  function Parse(raw: string): Option<map<string, string>> {
    if raw == "" then Some(map[]) else ParsePairs(Split(raw, '&'))
  }

  lemma {:induction false} BadPairSpoils(pairs: seq<string>, i: nat)
    requires i < |pairs| && ParsePairs(pairs[..i + 1]).None?
    ensures ParsePairs(pairs).None?
    decreases |pairs|
  {
    var n := |pairs| - 1;
    if i < n {
      assert pairs[..n][..i + 1] == pairs[..i + 1];
      BadPairSpoils(pairs[..n], i);
    } else {
      assert pairs[..i + 1] == pairs;
    }
  }

  method ParseRawQuery(raw: string) returns (result: map<string, string>, ok: bool)
    ensures ok <==> Parse(raw).Some?
    ensures ok ==> result == Parse(raw).value
  {
    result := map[];
    if raw == "" { return result, true; }
    var pairs := Split(raw, '&');
    for i := 0 to |pairs|
      invariant ParsePairs(pairs[..i]) == Some(result)
    {
      assert pairs[..i + 1][..i] == pairs[..i];
      var kv := Split(pairs[i], '=');
      if |kv| != 2 {
        BadPairSpoils(pairs, i);
        return result, false;
      }
      result := result[kv[0] := kv[1]];
    }
    assert pairs[..|pairs|] == pairs;
    ok := true;
  }

  // ----- marshalling

  function PairOf(m: map<string, string>, k: string): string
    requires k in m
  {
    k + "=" + m[k]
  }

  /** The keys of the map, each once, in the order the map happened to be walked. */
  ghost predicate WalkOf(order: seq<string>, m: map<string, string>) {
    (forall i, j :: 0 <= i < j < |order| ==> order[i] != order[j]) && (forall k :: k in order <==> k in m)
  }

  ghost function Render(m: map<string, string>, order: seq<string>): string
    requires forall k :: k in order ==> k in m
  {
    if order == [] then ""
    else
      var n := |order| - 1;
      var before := Render(m, order[..n]);
      if n == 0 then PairOf(m, order[n]) else before + "&" + PairOf(m, order[n])
  }

  lemma RenderOneMore(m: map<string, string>, order: seq<string>, k: string)
    requires k in m && forall x :: x in order ==> x in m
    ensures Render(m, order + [k]) == if order == [] then PairOf(m, k) else Render(m, order) + "&" + PairOf(m, k)
    ensures Render(m, order + [k]) != ""
  {
  }

  method MarshalRawQuery(m: map<string, string>) returns (result: string)
    ensures exists order :: WalkOf(order, m) && result == Render(m, order)
    ensures Parse(result) == Some(m) <==> Clean(m)
  {
    ghost var order: seq<string> := [];
    result := "";
    var keys := m.Keys;
    while keys != {}
      invariant keys <= m.Keys && (forall k :: k in order <==> k in m && k !in keys)
      invariant forall i, j :: 0 <= i < j < |order| ==> order[i] != order[j]
      invariant result == Render(m, order) && (result == "" <==> order == [])
    {
      var k :| k in keys;
      RenderOneMore(m, order, k);
      var pair := k + "=" + m[k];
      if |result| == 0 { result := pair; } else { result := result + "&" + pair; }
      order := order + [k];
      keys := keys - {k};
    }
    assert WalkOf(order, m);
    RoundTripExact(m, order);
  }

  // ----- the round trip

  predicate CleanText(s: string) { '&' !in s && '=' !in s }

  predicate Clean(m: map<string, string>) { forall k :: k in m ==> CleanText(k) && CleanText(m[k]) }

  function Pairs(m: map<string, string>, order: seq<string>): seq<string>
    requires forall k :: k in order ==> k in m
  {
    seq(|order|, i requires 0 <= i < |order| => assert order[i] in order; PairOf(m, order[i]))
  }

  lemma {:induction false} SplitLast(a: string, c: char, b: string)
    requires c !in b
    ensures Split(a + [c] + b, c) == Split(a, c) + [b]
  {
    var s := a + [c] + b;
    if a == [] {
      SplitNone(b, c);
      assert s[1..] == b;
    } else {
      assert s[1..] == a[1..] + [c] + b;
      SplitLast(a[1..], c, b);
    }
  }

  lemma {:induction false} SplitRender(m: map<string, string>, order: seq<string>)
    requires Clean(m) && order != [] && forall k :: k in order ==> k in m
    ensures Split(Render(m, order), '&') == Pairs(m, order)
  {
    var n := |order| - 1;
    assert order[n] in order;
    var pair := PairOf(m, order[n]);
    assert '&' !in pair;
    if n == 0 {
      SplitNone(pair, '&');
    } else {
      SplitRender(m, order[..n]);
      SplitLast(Render(m, order[..n]), '&', pair);
      assert Pairs(m, order) == Pairs(m, order[..n]) + [pair];
    }
  }

  ghost predicate Restricts(r: map<string, string>, m: map<string, string>, order: seq<string>) {
    (forall k :: k in r <==> k in order) && (forall k :: k in r ==> k in m && r[k] == m[k])
  }

  lemma {:induction false} ParseRendered(m: map<string, string>, order: seq<string>)
    requires Clean(m) && forall k :: k in order ==> k in m
    ensures ParsePairs(Pairs(m, order)).Some? && Restricts(ParsePairs(Pairs(m, order)).value, m, order)
  {
    if order == [] {
    } else {
      var n := |order| - 1;
      assert order[n] in order;
      assert Pairs(m, order)[..n] == Pairs(m, order[..n]);
      ParseRendered(m, order[..n]);
      SplitFirst(order[n], '=', m[order[n]]);
      SplitNone(m[order[n]], '=');
      assert order == order[..n] + [order[n]];
    }
  }

  lemma {:induction false} ParsedClean(pairs: seq<string>)
    requires ParsePairs(pairs).Some? && forall i :: 0 <= i < |pairs| ==> '&' !in pairs[i]
    ensures Clean(ParsePairs(pairs).value)
  {
    if pairs == [] {
    } else {
      var n := |pairs| - 1;
      ParsedClean(pairs[..n]);
      SplitFree(pairs[n], '=', 0);
      SplitFree(pairs[n], '=', 1);
    }
  }

  lemma ParseGivesClean(raw: string)
    requires Parse(raw).Some?
    ensures Clean(Parse(raw).value)
  {
    if raw != "" {
      forall i | 0 <= i < |Split(raw, '&')| ensures '&' !in Split(raw, '&')[i] { SplitFree(raw, '&', i); }
      ParsedClean(Split(raw, '&'));
    }
  }

  /**
   * Parsing a marshalled map gives it back, in whatever order it was walked, exactly when no key or value holds a
   * separator.
   */
  lemma RoundTripExact(m: map<string, string>, order: seq<string>)
    requires WalkOf(order, m)
    ensures Parse(Render(m, order)) == Some(m) <==> Clean(m)
  {
    if Clean(m) {
      if order == [] {
        assert m == map[];
      } else {
        SplitRender(m, order);
        ParseRendered(m, order);
        assert ParsePairs(Pairs(m, order)).value == m;
        NotEmpty(m, order);
      }
    } else if Parse(Render(m, order)).Some? {
      ParseGivesClean(Render(m, order));
    }
  }

  lemma NotEmpty(m: map<string, string>, order: seq<string>)
    requires order != [] && forall k :: k in order ==> k in m
    ensures Render(m, order) != ""
  {
  }

  /** Whatever parses survives being marshalled and parsed again. */
  lemma ParseMarshalParse(raw: string, order: seq<string>)
    requires Parse(raw).Some? && WalkOf(order, Parse(raw).value)
    ensures Parse(Render(Parse(raw).value, order)) == Parse(raw)
  {
    ParseGivesClean(raw);
    RoundTripExact(Parse(raw).value, order);
  }
}
