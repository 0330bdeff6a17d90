/** The write algorithm on a directory that others read at any moment; every step may fail and stop it there. */
module AtomicWriter {
  import opened Text
  import opened AtomicPayload

  /** States that came after `before`, all owned by the writer and showing `view`. */
  ghost predicate Extended(before: seq<Root>, after: seq<Root>, view: Option<Files>) {
    && before <= after
    && forall k: nat :: |before| <= k < |after| ==> Owned(after[k], view)
  }

  /** A timestamped directory that the data link does not lead to. */
  predicate Aside(root: Root, ts: string) {
    Timestamped(ts) && (ts in root ==> root[ts].Dir?) && (DATA_DIR in root ==> root[DATA_DIR] != Link([ts]))
  }

  predicate Tidy(root: Root) {
    forall n <- root :: Dotted(n) || Published(root, n)
  }

  lemma OwnedStable(r: Root, t: Root, gone: set<string>, view: Option<Files>)
    requires Owned(r, view) && Keeps(r, t, gone) && Tidy(t)
    requires DATA_DIR in t ==> DATA_DIR in r
    requires DATA_DIR !in gone
    requires view.Some? ==> r[DATA_DIR].target[0] !in gone && Firsts(view.value) !! gone
    ensures Owned(t, view)
  {
  }

  /** Whatever happens to a directory on the side shows nowhere. */
  lemma AsideIsUnseen(r: Root, ts: string, t: Root, view: Option<Files>)
    requires Owned(r, view) && Aside(r, ts)
    requires t == r - {ts} || (ts in t && t[ts].Dir? && t == r[ts := t[ts]])
    ensures Owned(t, view) && Aside(t, ts)
  {
    if view.Some? {
      forall n | n in Firsts(view.value) ensures n != ts { assert Published(r, n); }
    }
    forall n | n in t ensures Dotted(n) || Published(t, n) { assert n == ts || n in r; }
    OwnedStable(r, t, {ts}, view);
  }

  function WithLinks(root: Root, names: set<string>): Root {
    root + map n | n in names - root.Keys :: Link([DATA_DIR, n])
  }

  lemma ExtendedTwice(a: seq<Root>, b: seq<Root>, c: seq<Root>, view: Option<Files>)
    requires Extended(a, b, view) && Extended(b, c, view)
    ensures Extended(a, c, view)
  {
  }

  lemma StagedAside(start: Root, payload: Files, ts: string, view: Option<Files>)
    requires Owned(start, view) && Timestamped(ts) && ts !in start
    ensures Aside(WithLinks(start[ts := Dir(payload)], Firsts(payload)), ts) || DATA_DIR in Firsts(payload)
  {
  }

  lemma LinksCompose(root: Root, names: set<string>, n: string)
    ensures WithLinks(WithLinks(root, names), {n}) == WithLinks(root, names + {n})
  {
  }

  lemma LinksAreUnseen(r: Root, names: set<string>, view: Option<Files>)
    requires Owned(r, view) && DATA_DIR !in names
    ensures Owned(WithLinks(r, names), view)
  {
    OwnedStable(r, WithLinks(r, names), {}, view);
  }

  /** Every promise about `view` is made for a directory that the writer owned when it began. */
  class Disk {
    var root: Root
    /** Every state a reader could have met, newest last. */
    ghost var trace: seq<Root>

    method Commit(next: Root)
      modifies this
      ensures root == next && trace == old(trace) + [next]
    {
      root := next;
      trace := trace + [next];
    }

    method NewTimestampDir(ts: string, ghost view: Option<Files>) returns (ok: bool)
      requires Timestamped(ts) && ts !in root
      modifies this
      ensures old(trace) <= trace
      ensures ok ==> root == old(root)[ts := Dir(map[])]
      ensures old(Owned(root, view)) ==> Extended(old(trace), trace, view) && Owned(root, view)
    {
      var made: bool := *;
      if !made { return false; }
      if Owned(root, view) { AsideIsUnseen(root, ts, root[ts := Dir(map[])], view); }
      Commit(root[ts := Dir(map[])]);
      ok := *;
    }

    /** A crash or a full disk can leave any part of the content behind. */
    method WriteFile(ts: string, p: Path, content: Bytes, ghost view: Option<Files>) returns (ok: bool)
      requires ts in root && root[ts].Dir?
      modifies this
      ensures old(trace) <= trace
      ensures ts in root && root[ts].Dir? && root == old(root)[ts := root[ts]]
      ensures ok ==> Fits(old(root[ts].files), p) && root[ts].files == old(root[ts].files)[p := content]
      ensures old(Owned(root, view) && Aside(root, ts)) ==>
        Extended(old(trace), trace, view) && Owned(root, view) && Aside(root, ts)
    {
      var files := root[ts].files;
      ghost var owned := Owned(root, view) && Aside(root, ts);
      ok := *;
      if !ok || !Fits(files, p) { return false; }
      var n :| 0 <= n <= |content|;
      if owned { AsideIsUnseen(root, ts, root[ts := Dir(files[p := content[..n]])], view); }
      Commit(root[ts := Dir(files[p := content[..n]])]);
      ok := *;
      if !ok { return; }
      if owned { AsideIsUnseen(root, ts, root[ts := Dir(files[p := content])], view); }
      Commit(root[ts := Dir(files[p := content])]);
    }

    /** Files go in one by one, in any order; paths that clash make it fail. */
    method WritePayloadToDir(payload: Files, ts: string, ghost view: Option<Files>) returns (ok: bool)
      requires ts in root && root[ts] == Dir(map[])
      modifies this
      ensures old(trace) <= trace
      ensures ok ==> root == old(root)[ts := Dir(payload)] && PrefixFree(payload)
      ensures old(Owned(root, view) && Aside(root, ts)) ==>
        Extended(old(trace), trace, view) && Owned(root, view) && Aside(root, ts)
    {
      var todo := payload.Keys;
      ghost var owned := Owned(root, view) && Aside(root, ts);
      while todo != {}
        invariant old(trace) <= trace
        invariant todo <= payload.Keys
        invariant owned ==> Extended(old(trace), trace, view) && Owned(root, view) && Aside(root, ts)
        invariant ts in root && root == old(root)[ts := root[ts]]
        invariant root[ts] == Dir(payload - todo) && PrefixFree(payload - todo)
      {
        var p :| p in todo;
        ok := WriteFile(ts, p, payload[p], view);
        if !ok { return; }
        assert payload - (todo - {p}) == (payload - todo)[p := payload[p]];
        todo := todo - {p};
      }
      assert payload - {} == payload;
      ok := true;
    }

    /** A link for a first component that has none yet. */
    method CreateLink(name: string, ghost view: Option<Files>) returns (ok: bool)
      modifies this
      ensures old(trace) <= trace
      ensures ok ==> root == WithLinks(old(root), {name})
      ensures old(Owned(root, view)) && name != DATA_DIR ==> Extended(old(trace), trace, view) && Owned(root, view)
    {
      ok := true;
      if name !in root {
        ok := *;
        if !ok { return; }
        if Owned(root, view) && name != DATA_DIR { LinksAreUnseen(root, {name}, view); }
        assert WithLinks(root, {name}) == root[name := Link([DATA_DIR, name])];
        Commit(root[name := Link([DATA_DIR, name])]);
      }
    }

    method CreateUserVisibleFiles(payload: Files, ghost view: Option<Files>) returns (ok: bool)
      requires [] !in payload
      modifies this
      ensures old(trace) <= trace
      ensures ok ==> root == WithLinks(old(root), Firsts(payload))
      ensures old(Owned(root, view)) && DATA_DIR !in Firsts(payload) ==>
        Extended(old(trace), trace, view) && Owned(root, view)
    {
      var todo := payload.Keys;
      ghost var names: set<string>, owned := {}, Owned(root, view) && DATA_DIR !in Firsts(payload);
      while todo != {}
        invariant old(trace) <= trace
        invariant todo <= payload.Keys && names == Firsts(payload - todo)
        invariant owned ==> Extended(old(trace), trace, view) && Owned(root, view)
        invariant root == WithLinks(old(root), names)
      {
        var p :| p in todo;
        FirstsGrow(payload, todo, p);
        LinksCompose(old(root), names, p[0]);
        ok := CreateLink(p[0], view);
        if !ok { return; }
        names := names + {p[0]};
        todo := todo - {p};
      }
      assert payload - {} == payload;
      ok := true;
    }

    /** Deletes file by file, then the directory itself; anything else goes at once. */
    method RemoveAll(name: string, ghost view: Option<Files>) returns (ok: bool)
      modifies this
      ensures old(trace) <= trace
      ensures ok ==> root == old(root) - {name}
      ensures old(Owned(root, view) && Aside(root, name)) ==> Extended(old(trace), trace, view) && Owned(root, view)
    {
      if name !in root { return true; }
      ghost var owned := Owned(root, view) && Aside(root, name);
      var left := if root[name].Dir? then root[name].files.Keys else {};
      while left != {}
        invariant old(trace) <= trace
        invariant name in root && root == old(root)[name := root[name]]
        invariant left != {} ==> root[name].Dir? && left <= root[name].files.Keys
        invariant owned ==> Extended(old(trace), trace, view) && Owned(root, view) && Aside(root, name)
      {
        ok := *;
        if !ok { return; }
        var p :| p in left;
        left := left - {p};
        if owned { AsideIsUnseen(root, name, root[name := Dir(root[name].files - {p})], view); }
        Commit(root[name := Dir(root[name].files - {p})]);
      }
      ok := *;
      if !ok { return; }
      if owned { AsideIsUnseen(root, name, root - {name}, view); }
      Commit(root - {name});
    }

    /** Only names at the top are links; a failure is remembered and the rest still goes. */
    method RemoveUserVisiblePaths(paths: set<Path>, ghost view: Option<Files>) returns (ok: bool)
      modifies this
      ensures old(trace) <= trace
      ensures Keeps(old(root), root, TopNames(paths))
      ensures ok ==> root == old(root) - TopNames(paths)
      ensures old(Owned(root, view) && Unneeded(root, TopNames(paths), view)) ==>
        Extended(old(trace), trace, view) && Owned(root, view)
    {
      var todo := paths;
      ghost var owned := Owned(root, view) && Unneeded(root, TopNames(paths), view);
      ok := true;
      while todo != {}
        invariant old(trace) <= trace
        invariant todo <= paths
        invariant owned ==> Extended(old(trace), trace, view) && Owned(root, view)
        invariant owned ==> Unneeded(root, TopNames(paths), view)
        invariant Keeps(old(root), root, TopNames(paths))
        invariant ok ==> root == old(root) - TopNames(paths - todo)
      {
        var p :| p in todo;
        TopNamesGrow(paths, todo, p);
        todo := todo - {p};
        if |p| == 1 {
          var removed: bool := *;
          if removed && p[0] in root && (root[p[0]].Dir? ==> root[p[0]].files == map[]) {
            if owned { NameIsUnseen(root, TopNames(paths), p[0], view); }
            Commit(root - {p[0]});
          } else {
            ok := false;
          }
        }
      }
      assert paths - {} == paths;
    }

    /** The temporary link; one left behind by an earlier failure is in the way. */
    method LinkNewData(ts: string, ghost view: Option<Files>) returns (ok: bool)
      modifies this
      ensures old(trace) <= trace
      ensures ok ==> NEW_DATA_DIR !in old(root) && root == old(root)[NEW_DATA_DIR := Link([ts])]
      ensures old(Owned(root, view) && Aside(root, ts)) ==> Extended(old(trace), trace, view) && Owned(root, view)
    {
      ok := *;
      if !ok || NEW_DATA_DIR in root {
        var _ := RemoveAll(ts, view);
        return false;
      }
      if Owned(root, view) { OwnedStable(root, root[NEW_DATA_DIR := Link([ts])], {}, view); }
      Commit(root[NEW_DATA_DIR := Link([ts])]);
    }

    /** A new timestamped directory with the payload in it. */
    method Stage(payload: Files, ts: string, ghost view: Option<Files>) returns (ok: bool)
      requires Timestamped(ts) && ts !in root
      modifies this
      ensures old(trace) <= trace
      ensures ok ==> PrefixFree(payload) && root == old(root)[ts := Dir(payload)]
      ensures old(Owned(root, view)) ==> Extended(old(trace), trace, view) && Owned(root, view)
    {
      ghost var owned, t0 := Owned(root, view), trace;
      ok := NewTimestampDir(ts, view);
      if !ok { return; }
      ghost var t1 := trace;
      if owned { FreshIsAside(old(root), ts, view); }
      ok := WritePayloadToDir(payload, ts, view);
      if owned { ExtendedTwice(t0, t1, trace, view); }
    }

    /** Up to the temporary link: the new payload lies complete beside the old one. */
    method Prepare(payload: Files, ts: string, ghost view: Option<Files>) returns (ok: bool)
      requires Timestamped(ts) && ts !in root
      modifies this
      ensures old(trace) <= trace
      ensures ok ==>
        && PrefixFree(payload) && NEW_DATA_DIR !in old(root) && NEW_DATA_DIR !in Firsts(payload)
        && root == Prepared(old(root), payload, ts)
      ensures old(Owned(root, view)) && DATA_DIR !in Firsts(payload) ==>
        Extended(old(trace), trace, view) && Owned(root, view)
    {
      ghost var owned, t0 := Owned(root, view) && DATA_DIR !in Firsts(payload), trace;
      ok := Stage(payload, ts, view);
      if !ok { return; }
      ghost var t1 := trace;
      if owned { StagedAside(old(root), payload, ts, view); }
      ok := CreateUserVisibleFiles(payload, view);
      if owned { ExtendedTwice(t0, t1, trace, view); }
      if !ok { return; }
      ghost var t2 := trace;
      ok := LinkNewData(ts, view);
      if owned { ExtendedTwice(t0, t2, trace, view); }
    }

    /** The one step that readers notice. */
    method Rename(payload: Files, ts: string, ghost view: Option<Files>, ghost start: Root) returns (ok: bool)
      requires Timestamped(ts) && ts !in start && PrefixFree(payload) && NEW_DATA_DIR !in Firsts(payload)
      requires root == Prepared(start, payload, ts)
      modifies this
      ensures old(trace) <= trace
      ensures ok ==> root == Flipped(old(root), ts) && trace == old(trace) + [root]
      ensures Owned(start, view) && old(Owned(root, view)) && Publishable(start, ts, payload) ==>
        if ok then Owned(root, Some(payload)) else Extended(old(trace), trace, view) && Owned(root, view)
    {
      ghost var owned := Owned(start, view) && Owned(root, view) && Publishable(start, ts, payload);
      ok := *;
      if ok {
        if owned { FlipShowsExactly(start, payload, ts, view); }
        Commit(Flipped(root, ts));
        return;
      }
      if owned { StagedAside(start, payload, ts, view); }
      ghost var t0 := trace;
      var removed: bool := *;
      if removed {
        if owned { OwnedStable(root, root - {NEW_DATA_DIR}, {NEW_DATA_DIR}, view); }
        Commit(root - {NEW_DATA_DIR});
      }
      ghost var t1 := trace;
      var _ := RemoveAll(ts, view);
      if owned { ExtendedTwice(t0, t1, trace, view); }
    }

    /** Links and files of the payload before last. */
    method CleanUp(paths: set<Path>, oldTs: Option<string>, ghost view: Option<Files>) returns (ok: bool)
      modifies this
      ensures old(trace) <= trace
      ensures ok ==> root == old(root) - TopNames(paths) - (if oldTs.Some? then {oldTs.value} else {})
      ensures old(Owned(root, view) && Dispensable(root, TopNames(paths), oldTs, view)) ==>
        Extended(old(trace), trace, view) && Owned(root, view)
    {
      ghost var t0 := trace;
      ok := RemoveUserVisiblePaths(paths, view);
      ghost var t1 := trace;
      if ok && oldTs.Some? {
        ok := RemoveAll(oldTs.value, view);
        if Extended(t0, t1, view) && Extended(t1, trace, view) { ExtendedTwice(t0, t1, trace, view); }
      }
    }

    /** The change itself, once it is known that there is one to make. */
    method Replace(payload: Files, ts: string, paths: set<Path>, oldTs: Option<string>, ghost view: Option<Files>)
      returns (ok: bool, ghost flip: nat)
      requires Timestamped(ts) && ts !in root
      modifies this
      ensures |old(trace)| <= flip <= |trace| && (ok ==> flip < |trace| && NEW_DATA_DIR !in old(root))
      ensures old(Sound(root, view, ts, payload, paths, oldTs)) ==>
        && Extended(old(trace), trace[..flip], view) && Extended(trace[..flip], trace, Some(payload))
        && Owned(root, if flip < |trace| then Some(payload) else view)
        && (ok ==> PrefixFree(payload) && root == Installed(old(root), view, payload, ts))
    {
      ghost var start, t0 := root, trace;
      ghost var sound := Sound(root, view, ts, payload, paths, oldTs);
      ok := Prepare(payload, ts, view);
      flip := |trace|;
      assert trace[..flip] == trace;
      if !ok { return; }
      ghost var t1 := trace;
      ok := Rename(payload, ts, view, start);
      if !ok {
        flip := |trace|;
        assert trace[..flip] == trace;
        if sound { ExtendedTwice(t0, t1, trace, view); }
        return;
      }
      ghost var t2 := trace;
      if sound {
        OldIsUnneeded(start, view, payload, ts, paths);
      }
      ok := CleanUp(paths, oldTs, Some(payload));
      if sound {
        assert trace[..flip] == t1;
        assert Extended(t1, t2, Some(payload));
        ExtendedTwice(t1, t2, trace, Some(payload));
      }
    }

    /**
     * In a directory the writer owns, and for a payload whose names are free for it, every state a reader can meet
     * shows the old payload up to some point and the complete new one from there on, wherever the write stops. Success
     * means the new one is shown, with no update when it already was.
     */
    method Write(raw: map<Path, Bytes>, ts: string, ghost view: Option<Files>)
      returns (ok: bool, payload: Files, ghost flip: nat)
      requires [] !in raw && Timestamped(ts) && ts !in root
      modifies this
      ensures DATA_DIR in old(root) && old(root)[DATA_DIR].Dir? ==> !ok && root == old(root) && trace == old(trace)
      ensures (exists k <- raw :: !ValidPath(k)) ==> !ok && root == old(root) && trace == old(trace)
      ensures ok ==> forall k <- raw :: Clean(k) in payload
      ensures ok ==> forall p <- payload :: exists k <- raw :: Clean(k) == p && payload[p] == raw[k]
      ensures |old(trace)| <= flip <= |trace|
      ensures old(Owned(root, view)) && Publishable(old(root), ts, payload) ==>
        && Extended(old(trace), trace[..flip], view) && Extended(trace[..flip], trace, Some(payload))
        && Owned(root, if flip < |trace| then Some(payload) else view)
        && (ok ==> Owned(root, Some(payload))
                   && root == if view == Some(payload) then old(root) else Installed(old(root), view, payload, ts))
        && (ok && NEW_DATA_DIR in old(root) ==> view == Some(payload))
    {
      flip := |trace|;
      assert trace[..flip] == trace;
      payload := map[];
      var clean := ValidatePayload(raw);
      if clean.None? { return false, payload, flip; }
      payload := clean.value;
      var readable: bool := *;
      if DATA_DIR in root && (root[DATA_DIR].Dir? || !readable) { return false, payload, flip; }
      var paths: set<Path> := {};
      var oldTs := None;
      if DATA_DIR in root {
        if |root[DATA_DIR].target| != 1 { return payload == map[], payload, flip; }
        oldTs := Some(root[DATA_DIR].target[0]);
        var files := FilesOf(root, oldTs.value);
        if Owned(root, view) { NothingToDo(payload, files); }
        paths := PathsToRemove(payload, files);
        var should := ShouldWritePayload(payload, files);
        if should == Unreadable { return false, payload, flip; }
        if should == Same && paths == {} { return true, payload, flip; }
      } else {
        assert Prefixes(OldFiles(None).Keys) == {};
      }
      ok, flip := Replace(payload, ts, paths, oldTs, view);
    }
  }

  /** A missing directory reads as an empty one. */
  function FilesOf(root: Root, name: string): Files {
    if name in root && root[name].Dir? then root[name].files else map[]
  }

  /** What the write found to take away is exactly what the old payload leaves behind. */
  predicate Superseded(root: Root, view: Option<Files>, payload: Files, paths: set<Path>, oldTs: Option<string>) {
    && paths == Prefixes(OldFiles(view).Keys) - Prefixes(payload.Keys)
    && (view.Some? ==> DATA_DIR in root && root[DATA_DIR].Link? && |root[DATA_DIR].target| == 1)
    && oldTs == if view.Some? then Some(root[DATA_DIR].target[0]) else None
  }

  predicate Sound(
    root: Root, view: Option<Files>, ts: string, payload: Files, paths: set<Path>, oldTs: Option<string>)
  {
    Owned(root, view) && Publishable(root, ts, payload) && Superseded(root, view, payload, paths, oldTs)
  }

  /** None of these names takes part in what is shown. */
  predicate Unneeded(root: Root, names: set<string>, view: Option<Files>) {
    && view.Some? && Firsts(view.value) !! names && DATA_DIR !in names
    && DATA_DIR in root && root[DATA_DIR].Link? && |root[DATA_DIR].target| == 1 && root[DATA_DIR].target[0] !in names
  }

  predicate Dispensable(root: Root, names: set<string>, oldTs: Option<string>, view: Option<Files>) {
    Unneeded(root, names, view) && (oldTs.Some? ==> Aside(root, oldTs.value) && oldTs.value !in names)
  }

  function OldFiles(view: Option<Files>): Files {
    if view.Some? then view.value else map[]
  }

  function Stale(view: Option<Files>, payload: Files): set<string> {
    Firsts(OldFiles(view)) - Firsts(payload)
  }

  /** The directory after a complete write: one payload, its links, and no trace of the one before. */
  function Installed(root: Root, view: Option<Files>, payload: Files, ts: string): Root
    requires Owned(root, view)
  {
    Flipped(Prepared(root, payload, ts), ts) - Stale(view, payload)
      - if view.Some? then {root[DATA_DIR].target[0]} else {}
  }

  lemma FreshIsAside(root: Root, ts: string, view: Option<Files>)
    requires Owned(root, view) && Timestamped(ts) && ts !in root
    ensures Aside(root[ts := Dir(map[])], ts)
  {
  }

  lemma TopPrefix(files: Files, n: string)
    ensures n in Firsts(files) <==> [n] in Prefixes(files.Keys)
  {
    if n in Firsts(files) {
      var p :| p in files && p != [] && p[0] == n;
      assert p[..1] == [n];
    }
    if [n] in Prefixes(files.Keys) {
      var p, k :| p in files.Keys && 0 < k <= |p| && p[..k] == [n];
      assert p[0] == p[..k][0];
    }
  }

  lemma StaleNames(files: Files, payload: Files)
    ensures TopNames(Prefixes(files.Keys) - Prefixes(payload.Keys)) == Firsts(files) - Firsts(payload)
  {
    var gone := Prefixes(files.Keys) - Prefixes(payload.Keys);
    forall n ensures n in TopNames(gone) <==> n in Firsts(files) - Firsts(payload) {
      TopPrefix(files, n);
      TopPrefix(payload, n);
      if n in TopNames(gone) {
        var q :| q in gone && |q| == 1 && q[0] == n;
        assert q == [n];
      }
      assert [n] in gone ==> n in TopNames(gone);
    }
  }

  /** After the flip nothing that is left of the old payload takes part in what is shown. */
  lemma OldIsUnneeded(start: Root, view: Option<Files>, payload: Files, ts: string, paths: set<Path>)
    requires Owned(start, view) && Timestamped(ts) && ts !in start
    requires paths == Prefixes(OldFiles(view).Keys) - Prefixes(payload.Keys)
    ensures TopNames(paths) == Stale(view, payload)
    ensures Unneeded(Flipped(Prepared(start, payload, ts), ts), TopNames(paths), Some(payload))
    ensures view.Some? ==>
      && Aside(Flipped(Prepared(start, payload, ts), ts), start[DATA_DIR].target[0])
      && start[DATA_DIR].target[0] !in TopNames(paths)
  {
    StaleNames(OldFiles(view), payload);
    if view.Some? {
      forall n | n in Firsts(view.value) ensures n != DATA_DIR && n != ts && n != start[DATA_DIR].target[0] {
        assert Published(start, n);
      }
    }
  }

  function Prepared(root: Root, payload: Files, ts: string): Root {
    WithLinks(root[ts := Dir(payload)], Firsts(payload))[NEW_DATA_DIR := Link([ts])]
  }

  function Flipped(root: Root, ts: string): Root {
    (root - {NEW_DATA_DIR})[DATA_DIR := Link([ts])]
  }

  lemma FlipPublishes(start: Root, payload: Files, ts: string, n: string)
    requires ts !in start && n in Firsts(payload) && n != NEW_DATA_DIR
    ensures Published(Flipped(Prepared(start, payload, ts), ts), n)
      <==> n != DATA_DIR && n != ts && (n in start ==> Published(start, n))
  {
  }

  lemma FlipIsTidy(start: Root, payload: Files, ts: string, view: Option<Files>)
    requires Owned(start, view) && Timestamped(ts)
    ensures Tidy(Flipped(Prepared(start, payload, ts), ts))
  {
    var t := Flipped(Prepared(start, payload, ts), ts);
    forall n | n in t ensures Dotted(n) || Published(t, n) {
      assert n in start || n in Firsts(payload) || Dotted(n);
    }
  }

  /** Once everything is in place the renamed link shows the payload if and only if its names were free for it. */
  lemma FlipShowsExactly(start: Root, payload: Files, ts: string, view: Option<Files>)
    requires Owned(start, view) && Timestamped(ts) && ts !in start
    requires PrefixFree(payload) && NEW_DATA_DIR !in Firsts(payload)
    ensures Owned(Flipped(Prepared(start, payload, ts), ts), Some(payload)) <==> Publishable(start, ts, payload)
  {
    var t := Flipped(Prepared(start, payload, ts), ts);
    forall n | n in Firsts(payload)
      ensures Published(t, n) <==> n != DATA_DIR && n != ts && (n in start ==> Published(start, n))
    {
      FlipPublishes(start, payload, ts, n);
    }
    FlipIsTidy(start, payload, ts, view);
    assert ts !in Firsts(payload) ==> t[ts] == Dir(payload);
  }

  /** Names that do not begin with ".." always are. */
  lemma OrdinaryNamesPublishable(root: Root, view: Option<Files>, ts: string, payload: Files)
    requires Owned(root, view) && Timestamped(ts) && forall n <- Firsts(payload) :: !Dotted(n)
    ensures Publishable(root, ts, payload)
  {
  }

  /** A payload that names the data link puts a link in its place that leads nowhere, before anything is published. */
  lemma DataLinkOverwritten(ts: string, content: Bytes, view: Option<Files>)
    requires Timestamped(ts)
    ensures
      var payload := map[[DATA_DIR, "x"] := content];
      ValidPath([".", "..data", "x"]) && Clean([".", "..data", "x"]) == [DATA_DIR, "x"]
      && Owned(map[], None) && !Shows(WithLinks(map[ts := Dir(payload)], Firsts(payload)), view)
  {
    var items := [".", "..data", "x"];
    assert items[1..] == ["..data", "x"] && items[1..][1..] == ["x"] && items[1..][1..][1..] == [];
    assert TextLength(items) == 10;
    assert Clean(["x"]) == ["x"] + Clean([]) && Clean(["..data", "x"]) == ["..data"] + Clean(["x"]);
    var payload := map[[DATA_DIR, "x"] := content];
    assert [DATA_DIR, "x"] in payload && DATA_DIR in Firsts(payload);
  }

  function TopNames(paths: set<Path>): set<string> {
    set p | p in paths && |p| == 1 :: p[0]
  }

  lemma TopNamesGrow(paths: set<Path>, todo: set<Path>, p: Path)
    requires p in todo && todo <= paths
    ensures TopNames(paths - (todo - {p})) == TopNames(paths - todo) + if |p| == 1 then {p[0]} else {}
    ensures |p| == 1 ==> p[0] in TopNames(paths)
  {
  }

  lemma FirstsGrow(payload: Files, todo: set<Path>, p: Path)
    requires p in todo && todo <= payload.Keys && p != []
    ensures Firsts(payload - (todo - {p})) == Firsts(payload - todo) + {p[0]}
  {
  }

  lemma NameIsUnseen(r: Root, names: set<string>, n: string, view: Option<Files>)
    requires Owned(r, view) && Unneeded(r, names, view) && n in names
    ensures Owned(r - {n}, view) && Unneeded(r - {n}, names, view)
  {
    OwnedStable(r, r - {n}, {n}, view);
  }

  /** A reader that follows the visible names finds the whole old payload or the whole new one, never a mixture. */
  lemma ReadersSeeWholePayloads(
    before: seq<Root>, trace: seq<Root>, flip: nat, view: Option<Files>, payload: Files, k: nat)
    requires |before| <= flip <= |trace| && |before| <= k < |trace|
    requires Extended(before, trace[..flip], view) && Extended(trace[..flip], trace, Some(payload))
    ensures Visible(trace[k]) == if k < flip then OldFiles(view) else payload
  {
    if k < flip {
      assert trace[..flip][k] == trace[k];
      ShownIsVisible(trace[k], view);
    } else {
      ShownIsVisible(trace[k], Some(payload));
    }
  }

  function UserNames(root: Root): set<string> {
    set n | n in root && !Dotted(n)
  }

  function PlainNames(payload: Files): set<string> {
    set n | n in Firsts(payload) && !Dotted(n)
  }

  lemma InstalledNames(root: Root, view: Option<Files>, payload: Files, ts: string)
    requires Owned(root, view) && Timestamped(ts) && ts !in root
    ensures UserNames(Installed(root, view, payload, ts)) ==
      UserNames(root) + PlainNames(payload) - Stale(view, payload)
  {
    var t := Flipped(Prepared(root, payload, ts), ts);
    assert UserNames(t) == UserNames(root) + PlainNames(payload);
    assert view.Some? ==> Dotted(root[DATA_DIR].target[0]);
  }

  /**
   * The visible names are exactly those of the new payload if and only if no other name was there before than
   * those of the two payloads: links made by a write that failed halfway are never taken away again.
   */
  lemma VisibleNamesExact(root: Root, view: Option<Files>, payload: Files, ts: string)
    requires Owned(root, view) && Timestamped(ts) && ts !in root
    ensures UserNames(Installed(root, view, payload, ts)) == PlainNames(payload)
      <==> UserNames(root) <= Firsts(OldFiles(view)) + Firsts(payload)
  {
    InstalledNames(root, view, payload, ts);
    var names, plain, stale := UserNames(root), PlainNames(payload), Stale(view, payload);
    if names <= Firsts(OldFiles(view)) + Firsts(payload) {
      assert names + plain - stale == plain;
    } else {
      var n :| n in names && n !in Firsts(OldFiles(view)) + Firsts(payload);
      assert n in names + plain - stale && n !in plain;
    }
  }

  /** A link that an unfinished write of "old" left behind survives the next write. */
  lemma LeftoverLinkStays(ts: string, content: Bytes)
    requires Timestamped(ts)
    ensures
      var root, payload := map["old" := Link([DATA_DIR, "old"])], map[["new"] := content];
      && Owned(root, None) && Publishable(root, ts, payload)
      && "old" in UserNames(Installed(root, None, payload, ts)) && "old" !in Firsts(payload)
  {
    var root, payload := map["old" := Link([DATA_DIR, "old"])], map[["new"] := content];
    forall n | n in Firsts(payload) ensures n == "new" {
      var p :| p in payload && p != [] && p[0] == n;
      assert p == ["new"];
    }
    assert ts[..2][0] == '.' && "new"[0] == 'n' && "old"[..2][0] == 'o';
  }
}
