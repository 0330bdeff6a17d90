/** Files published under a directory so that readers move from one complete payload to the next in one step. */
module AtomicPayload {
  import opened Text

  type Path = seq<string>
  type Bytes = seq<bv8>
  type Files = map<Path, Bytes>

  /** What a name in the target directory is; a directory is known by the files below it. */
  datatype Entry = Link(target: Path) | Dir(files: Files)

  type Root = map<string, Entry>

  const DATA_DIR := "..data"
  const NEW_DATA_DIR := "..data_tmp"
  const MAX_FILE_NAME_LENGTH := 255
  const MAX_PATH_LENGTH := 4096

  /** Names the writer keeps for itself. */
  predicate Dotted(name: string) {
    |name| >= 2 && name[..2] == ".."
  }

  predicate Timestamped(name: string) {
    Dotted(name) && name != DATA_DIR && name != NEW_DATA_DIR
  }

  // ---- paths ----

  predicate Below(p: Path, q: Path) {
    p < q
  }

  /** No file is also a directory. */
  predicate PrefixFree(files: Files) {
    && [] !in files
    && forall p <- files, q <- files :: !Below(p, q)
  }

  /** A file cannot be put where a directory is, nor below a file. */
  predicate Fits(files: Files, p: Path) {
    p != [] && forall q <- files :: !Below(p, q) && !Below(q, p)
  }

  function Firsts(files: Files): set<string> {
    set p | p in files && p != [] :: p[0]
  }

  function Prefixes(paths: set<Path>): set<Path> {
    set p, k | p in paths && 0 < k <= |p| :: p[..k]
  }

  // ---- validation ----

  function TextLength(items: seq<string>): nat {
    if items == [] then 0 else |items[0]| + (if |items| > 1 then 1 else 0) + TextLength(items[1..])
  }

  /** `items` is the path split at the separator. */
  predicate ValidPath(items: seq<string>) {
    && items != [] && items != [""]
    && items[0] != ""
    && TextLength(items) <= MAX_PATH_LENGTH
    && (forall item <- items :: item != ".." && |item| <= MAX_FILE_NAME_LENGTH)
    && !(Dotted(items[0]) && |items[0]| > 2)
  }

  function Clean(items: seq<string>): Path {
    if items == [] then []
    else if items[0] == "" || items[0] == "." then Clean(items[1..])
    else [items[0]] + Clean(items[1..])
  }

  method ValidatePath(items: seq<string>) returns (ok: bool)
    requires items != []
    ensures ok <==> ValidPath(items)
  {
    if items == [""] || items[0] == "" || TextLength(items) > MAX_PATH_LENGTH { return false; }
    for i := 0 to |items|
      invariant forall k: nat :: k < i ==> items[k] != ".." && |items[k]| <= MAX_FILE_NAME_LENGTH
    {
      if items[i] == ".." || |items[i]| > MAX_FILE_NAME_LENGTH { return false; }
    }
    ok := !(Dotted(items[0]) && |items[0]| > 2);
  }

  /** Accepted exactly when every path is; each cleaned path gets the content of one that cleans to it. */
  method ValidatePayload(payload: map<Path, Bytes>) returns (clean: Option<Files>)
    requires [] !in payload
    ensures clean.Some? <==> forall k <- payload :: ValidPath(k)
    ensures clean.Some? ==> forall k <- payload :: Clean(k) in clean.value
    ensures clean.Some? ==>
      forall p <- clean.value :: exists k <- payload :: Clean(k) == p && clean.value[p] == payload[k]
  {
    var out: Files := map[];
    var todo := payload.Keys;
    while todo != {}
      invariant todo <= payload.Keys
      invariant forall k <- payload :: k in todo || (ValidPath(k) && Clean(k) in out)
      invariant forall p <- out :: exists k <- payload :: Clean(k) == p && out[p] == payload[k]
    {
      var k :| k in todo;
      todo := todo - {k};
      var ok := ValidatePath(k);
      if !ok { return None; }
      out := out[Clean(k) := payload[k]];
    }
    return Some(out);
  }

  /** Where a path leads from a directory: "." stays and ".." goes up. */
  function Walk(from: Path, items: seq<string>): Path
    decreases items
  {
    if items == [] then from
    else if items[0] == "" || items[0] == "." then Walk(from, items[1..])
    else if items[0] == ".." then Walk(if from == [] then [] else from[..|from| - 1], items[1..])
    else Walk(from + [items[0]], items[1..])
  }

  lemma {:induction false} NoParentStaysInside(from: Path, items: seq<string>)
    requires forall item <- items :: item != ".."
    ensures Walk(from, items) == from + Clean(items)
    decreases items
  {
    if items == [] {
      assert from + [] == from;
    } else {
      assert items[0] in items && forall item <- items[1..] :: item in items;
      if items[0] == "" || items[0] == "." {
        NoParentStaysInside(from, items[1..]);
      } else {
        NoParentStaysInside(from + [items[0]], items[1..]);
        assert from + [items[0]] + Clean(items[1..]) == from + ([items[0]] + Clean(items[1..]));
      }
    }
  }

  /** A valid path leads to what it cleans to, below the directory it starts from. */
  lemma ValidPathStaysInside(from: Path, items: seq<string>)
    requires ValidPath(items)
    ensures Walk(from, items) == from + Clean(items)
  {
    NoParentStaysInside(from, items);
  }

  function Joined(items: seq<string>): string {
    if items == [] then "" else if |items| == 1 then items[0] else items[0] + "/" + Joined(items[1..])
  }

  /** And it fits the file system: the whole path and each of its names. */
  lemma {:induction false} LengthIsJoined(items: seq<string>)
    ensures TextLength(items) == |Joined(items)|
  {
    if items == [] {
    } else {
      LengthIsJoined(items[1..]);
    }
  }

  lemma ValidPathFits(items: seq<string>, i: nat)
    requires ValidPath(items) && i < |items|
    ensures |Joined(items)| <= 4096 && |items[i]| <= 255
  {
    LengthIsJoined(items);
    assert items[i] in items;
  }

  /** A valid path that does not open with "." stays clear of the writer's own names once cleaned. */
  lemma ValidStaysClear(items: seq<string>)
    requires ValidPath(items) && items[0] != "."
    ensures Clean(items) != [] && !Dotted(Clean(items)[0])
  {
  }

  /** One that does can reach them: the check looks at the path before cleaning it. */
  lemma DotPrefixReachesDataDir()
    ensures ValidPath([".", "..data"]) && Clean([".", "..data"]) == [DATA_DIR]
  {
  }

  // ---- what readers see ----

  /** The payload behind the data link: nothing before the first write. */
  predicate Shows(root: Root, view: Option<Files>) {
    match view
    case None => DATA_DIR !in root
    case Some(files) =>
      && DATA_DIR in root && root[DATA_DIR].Link?
      && |root[DATA_DIR].target| == 1
      && var ts := root[DATA_DIR].target[0];
         Timestamped(ts) && ts in root && root[ts] == Dir(files)
         && forall n <- Firsts(files) :: Published(root, n)
  }

  /** The user-visible name leads through the data link. */
  predicate Published(root: Root, name: string) {
    name in root && root[name] == Link([DATA_DIR, name])
  }

  /** A target directory that only this writer has written to. */
  predicate Owned(root: Root, view: Option<Files>) {
    && Shows(root, view)
    && (view.Some? ==> PrefixFree(view.value))
    && forall n <- root :: Dotted(n) || Published(root, n)
  }

  /** Every visible name of the payload is free for its link, or has it already; the writer's own links never are. */
  predicate Publishable(root: Root, ts: string, payload: Files) {
    forall n <- Firsts(payload) :: n != DATA_DIR && n != ts && (n in root ==> Published(root, n))
  }

  /** Every name of `r` outside `gone` is still there and unchanged. */
  predicate Keeps(r: Root, t: Root, gone: set<string>) {
    forall n <- r :: n !in gone ==> n in t && t[n] == r[n]
  }

  /** Following a visible name reaches exactly the files of the payload shown, at every moment. */
  function Visible(root: Root): Files {
    if DATA_DIR in root && root[DATA_DIR].Link? && |root[DATA_DIR].target| == 1
       && root[DATA_DIR].target[0] in root && root[root[DATA_DIR].target[0]].Dir?
    then
      var files := root[root[DATA_DIR].target[0]].files;
      map p | p in files && p != [] && Published(root, p[0]) :: files[p]
    else map[]
  }

  lemma ShownIsVisible(root: Root, view: Option<Files>)
    requires Shows(root, view) && (view.Some? ==> [] !in view.value)
    ensures Visible(root) == if view.Some? then view.value else map[]
  {
  }

  // ---- comparing the old payload with the new ----

  /** The walk lists every file and directory; what no new path passes through goes. */
  method PathsToRemove(payload: Files, files: Files) returns (gone: set<Path>)
    ensures gone == Prefixes(files.Keys) - Prefixes(payload.Keys)
  {
    var paths := Prefixes(files.Keys);
    var newPaths: set<Path> := {};
    var todo := payload.Keys;
    while todo != {}
      invariant todo <= payload.Keys
      invariant newPaths == Prefixes(payload.Keys - todo)
    {
      var file :| file in todo;
      ghost var was := newPaths;
      var sub := file;
      while sub != []
        invariant sub <= file
        invariant newPaths == was + set k | |sub| < k <= |file| :: file[..k]
        decreases |sub|
      {
        assert sub == file[..|sub|];
        newPaths := newPaths + {sub};
        sub := sub[..|sub| - 1];
      }
      todo := todo - {file};
      PrefixesGrow(payload.Keys - todo - {file}, file);
      assert payload.Keys - todo - {file} == payload.Keys - (todo + {file});
    }
    gone := paths - newPaths;
  }

  lemma PrefixesGrow(paths: set<Path>, file: Path)
    ensures Prefixes(paths + {file}) == Prefixes(paths) + set k | 0 < k <= |file| :: file[..k]
  {
  }

  datatype Comparison = Write | Same | Unreadable

  function Compare(files: Files, p: Path, content: Bytes): Comparison {
    if p in files then (if files[p] == content then Same else Write)
    else if Fits(files, p) then Write
    else Unreadable
  }

  /** Looks at the files in any order and stops at the first that differs or cannot be read. */
  method ShouldWritePayload(payload: Files, files: Files) returns (result: Comparison)
    ensures result == Same <==> forall p <- payload :: Compare(files, p, payload[p]) == Same
    ensures result != Same ==> exists p <- payload :: Compare(files, p, payload[p]) == result
  {
    var todo := payload.Keys;
    while todo != {}
      invariant todo <= payload.Keys
      invariant forall p <- payload :: p in todo || Compare(files, p, payload[p]) == Same
    {
      var p :| p in todo;
      todo := todo - {p};
      if Compare(files, p, payload[p]) != Same { return Compare(files, p, payload[p]); }
    }
    result := Same;
  }

  /** Nothing to write and nothing to remove means that the payload is already there, and conversely. */
  lemma NothingToDo(payload: Files, files: Files)
    requires PrefixFree(files)
    ensures
      && (forall p <- payload :: Compare(files, p, payload[p]) == Same)
      && Prefixes(files.Keys) - Prefixes(payload.Keys) == {}
      <==> files == payload
  {
    if (forall p <- payload :: Compare(files, p, payload[p]) == Same) &&
      Prefixes(files.Keys) - Prefixes(payload.Keys) == {} {
      forall f | f in files ensures f in payload {
        assert f[..|f|] == f && f in Prefixes(files.Keys);
        assert f !in Prefixes(files.Keys) - Prefixes(payload.Keys);
        var q, k :| q in payload.Keys && 0 < k <= |q| && q[..k] == f;
        assert Compare(files, q, payload[q]) == Same;
        assert !Below(f, q);
        assert q == f;
      }
      forall p | p in payload ensures p in files && files[p] == payload[p] {
        assert Compare(files, p, payload[p]) == Same;
      }
      assert files.Keys == payload.Keys;
      assert files == payload;
    }
  }
}
