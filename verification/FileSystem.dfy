/** What the file system shows its user: named files, open handles and remembered sizes, and nothing about
    objects, parts or nodes. */
module FileSystem {
  import opened Bytes
  import opened PartNames
  import opened Layout
  import opened HexHash
  import opened Listing
  import opened Storages
  import opened RestClient
  import opened Logical
  import opened FileNode
  import opened StatCache
  import opened ShareLinks

  /** `size`: the size the cloud is believed to have. `covers`: a flush replaces everything the cloud holds for
      the path. `truncated`: the size a truncation has set since the last flush. */
  datatype Handle = Handle(content: Content, dirty: bool, size: nat, covers: bool, truncated: Option<nat>)

  /** `torn` are the paths whose objects are in disarray: only the flush of a handle that covers them helps.
      Nothing is said of what is remembered about them. `onDisk`: a cache directory is configured. */
  datatype World = World(
    limit: nat,
    onDisk: bool,
    links: string -> Content,
    folders: set<string>,
    files: Files,
    handles: map<string, Handle>,
    cache: map<string, CacheNode>,
    now: nat,
    torn: set<string>)

  const EIO := -5
  const ENOENT := -2
  const EEXIST := -17
  const EINVAL := -22

  /** How rename treats an existing target. */
  datatype RenameFlags = RenameFlags(noReplace: bool, exchange: bool)

  datatype Call =
    | GetAttr(path: string)
    | GetAttrOpen(path: string)
    | ReadDir(path: string)
    | Mknod(path: string, faults: seq<Fault>)
    | Open(path: string)
    | Read(path: string, size: nat, offset: nat)
    | Write(path: string, buf: Content, offset: nat)
    | Flush(path: string, faults: seq<Fault>)
    | Release(path: string)
    | Truncate(path: string, size: nat)
    | TruncateClosed(path: string, size: nat, faults: seq<Fault>)
    | Unlink(path: string, faults: seq<Fault>)
    | Rename(path: string, newPath: string, flags: RenameFlags)
    | Wait(seconds: nat)

  datatype Answer =
    | Error(code: int)
    | Stat(size: nat)
    | Entries(entries: set<CloudFile>)
    | Bytes(bytes: Content, count: int)
    | Count(count: int)
    | Success

  /** What a call may bring to light besides its code: entries a listing has for paths in disarray, and since when
      a settled path has been remembered. */
  datatype Outcome = Outcome(code: int, strays: set<CloudFile>, since: Option<nat>)

  /** The outcome of most calls is their code. */
  function Ended(code: int): Outcome {
    Outcome(code, {}, None)
  }

  // ---- retries ----

  const RETRIES: nat := 3

  /** `doWithRetry` around a row of calls that uploads some content last: tried again after a server error, given
      up at once after any other. */
  function RetryCode(faults: seq<Fault>, calls: nat, taken: bool, attempts: nat): int
    decreases attempts
  {
    if attempts == 0 then EINVAL
    else
      match AttemptStatus(faults, calls, taken)
      case Ok => 0
      case Failed(code) =>
        if code >= 500 then RetryCode(RowRest(faults, calls), calls, taken, attempts - 1) else EIO
  }

  /** The codes of the failures to come. */
  function Failures(faults: seq<Fault>): seq<int> {
    if faults == [] then []
    else (if faults[0].Pass? then [] else [faults[0].code]) + Failures(faults[1..])
  }

  predicate AllServerErrors(codes: seq<int>) {
    forall i :: 0 <= i < |codes| ==> codes[i] >= 500
  }

  lemma {:induction false} RowFailures(faults: seq<Fault>, calls: nat)
    ensures RowStatus(faults, calls).Ok? ==> Failures(RowRest(faults, calls)) == Failures(faults)
    ensures RowStatus(faults, calls).Failed? ==>
              Failures(faults) == [RowStatus(faults, calls).code] + Failures(RowRest(faults, calls))
  {
    if calls > 0 && faults != [] && faults[0].Pass? {
      RowFailures(faults[1..], calls - 1);
    }
  }

  lemma ErrorsCons(code: int, less: seq<int>, n: nat)
    requires n <= |less|
    ensures AllServerErrors([code] + less) <==> code >= 500 && AllServerErrors(less)
    ensures ([code] + less)[..n + 1] == [code] + less[..n]
    ensures AllServerErrors([code] + less[..n]) <==> code >= 500 && AllServerErrors(less[..n])
  {
    assert ([code] + less)[0] == code && ([code] + less[..n])[0] == code;
    assert forall i :: 0 <= i < |less| ==> ([code] + less)[i + 1] == less[i];
    assert forall i :: 0 <= i < n ==> ([code] + less[..n])[i + 1] == less[..n][i];
  }

  /** Fewer failures than attempts, all of them server errors, are survived; as many server errors as attempts
      may end it with -EINVAL, and only they; and -EIO comes from some other error, or content not taken. */
  lemma {:induction false} RetryCodeIs(faults: seq<Fault>, calls: nat, taken: bool, attempts: nat)
    ensures var r := RetryCode(faults, calls, taken, attempts);
            && (r == 0 || r == EIO || r == EINVAL)
            && (taken && |Failures(faults)| < attempts && AllServerErrors(Failures(faults)) ==> r == 0)
            && (r == 0 ==> taken)
            && (r == EINVAL ==> |Failures(faults)| >= attempts && AllServerErrors(Failures(faults)[..attempts]))
            && (r == EIO && taken ==> !AllServerErrors(Failures(faults)))
    decreases attempts
  {
    hide AllServerErrors, Failures, RowStatus, RowRest;
    if attempts == 0 {
      NoErrors();
      assert Failures(faults)[..0] == [];
    } else {
      RowFailures(faults, calls);
      var rest := RowRest(faults, calls);
      RetryCodeIs(rest, calls, taken, attempts - 1);
      var s := RowStatus(faults, calls);
      if s.Failed? {
        var less := Failures(rest);
        ErrorsCons(s.code, less, 0);
        if |less| >= attempts - 1 {
          ErrorsCons(s.code, less, attempts - 1);
        }
      }
    }
  }

  lemma NoErrors()
    ensures AllServerErrors([])
  {
  }

  predicate ServerError(f: Fault) {
    !f.Pass? && f.code >= 500
  }

  /** The first `i` entries are server errors, and then one passes. */
  predicate PassesAt(faults: seq<Fault>, attempts: nat, i: nat) {
    && i < attempts && i <= |faults| && (i == |faults| || faults[i].Pass?)
    && forall j :: 0 <= j < i ==> ServerError(faults[j])
  }

  /** The first `i` entries are server errors, and then comes another error. */
  predicate FailsAt(faults: seq<Fault>, attempts: nat, i: nat) {
    && i < attempts && i < |faults| && !faults[i].Pass? && faults[i].code < 500
    && forall j :: 0 <= j < i ==> ServerError(faults[j])
  }

  lemma LaterAt(faults: seq<Fault>, attempts: nat, i: nat)
    requires faults != [] && attempts > 0
    ensures PassesAt(faults, attempts, i + 1) <==> ServerError(faults[0]) && PassesAt(faults[1..], attempts - 1, i)
    ensures FailsAt(faults, attempts, i + 1) <==> ServerError(faults[0]) && FailsAt(faults[1..], attempts - 1, i)
  {
    var rest := faults[1..];
    assert forall j :: 0 <= j < |rest| ==> rest[j] == faults[j + 1];
    assert forall j :: 0 < j < |faults| ==> faults[j] == rest[j - 1];
  }

  ghost predicate GetsThrough(faults: seq<Fault>, attempts: nat) {
    exists i: nat :: PassesAt(faults, attempts, i)
  }

  ghost predicate EndsBadly(faults: seq<Fault>, attempts: nat) {
    exists i: nat :: FailsAt(faults, attempts, i)
  }

  /** A single call gets through exactly if one of the attempts passes and only server errors come before it; it
      gives up with -EIO exactly if another error comes first. */
  lemma {:induction false} SingleCallIff(faults: seq<Fault>, attempts: nat)
    ensures RetryCode(faults, 1, true, attempts) == 0 <==> GetsThrough(faults, attempts)
    ensures RetryCode(faults, 1, true, attempts) == EIO <==> EndsBadly(faults, attempts)
    decreases attempts
  {
    OneCallRow(faults);
    hide RowStatus, RowRest;
    if attempts > 0 {
      if faults == [] || !ServerError(faults[0]) {
        assert PassesAt(faults, attempts, 0) || FailsAt(faults, attempts, 0);
        OnlyFirst(faults, attempts);
      } else {
        SingleCallIff(faults[1..], attempts - 1);
        Shifted(faults, attempts);
      }
    }
  }

  lemma OnlyFirst(faults: seq<Fault>, attempts: nat)
    requires faults == [] || !ServerError(faults[0])
    ensures forall i: nat :: PassesAt(faults, attempts, i) ==> i == 0
    ensures forall i: nat :: FailsAt(faults, attempts, i) ==> i == 0
  {
  }

  lemma Shifted(faults: seq<Fault>, attempts: nat)
    requires faults != [] && attempts > 0 && ServerError(faults[0])
    ensures GetsThrough(faults, attempts) <==> GetsThrough(faults[1..], attempts - 1)
    ensures EndsBadly(faults, attempts) <==> EndsBadly(faults[1..], attempts - 1)
  {
    assert !PassesAt(faults, attempts, 0) && !FailsAt(faults, attempts, 0);
    hide PassesAt, FailsAt;
    if GetsThrough(faults, attempts) {
      var i: nat :| PassesAt(faults, attempts, i);
      LaterAt(faults, attempts, i - 1);
    }
    if GetsThrough(faults[1..], attempts - 1) {
      var i: nat :| PassesAt(faults[1..], attempts - 1, i);
      LaterAt(faults, attempts, i);
    }
    if EndsBadly(faults, attempts) {
      var i: nat :| FailsAt(faults, attempts, i);
      LaterAt(faults, attempts, i - 1);
    }
    if EndsBadly(faults[1..], attempts - 1) {
      var i: nat :| FailsAt(faults[1..], attempts - 1, i);
      LaterAt(faults, attempts, i);
    }
  }

  /** In numbers: three server errors end in -22, two are survived, and any other error ends in -5 at once. */
  lemma ThreeAttempts(a: Fault, b: Fault, c: Fault, other: Fault, rest: seq<Fault>, calls: nat, taken: bool)
    requires ServerError(a) && ServerError(b) && ServerError(c) && !other.Pass? && other.code < 500 && calls > 0
    ensures RetryCode([a, b, c] + rest, calls, taken, RETRIES) == -22
    ensures RetryCode([a, b], calls, true, RETRIES) == 0
    ensures RetryCode([other] + rest, calls, taken, RETRIES) == -5
  {
    FirstOf(a, [b, c] + rest, calls);
    FirstOf(b, [c] + rest, calls);
    FirstOf(c, rest, calls);
    FirstOf(a, [b], calls);
    FirstOf(b, [], calls);
    FirstOf(other, rest, calls);
    assert [a] + ([b, c] + rest) == [a, b, c] + rest && [b] + ([c] + rest) == [b, c] + rest;
    assert [a] + [b] == [a, b] && [b] + [] == [b];
    assert RowStatus([], calls) == Ok;
    hide RowStatus, RowRest;
  }

  lemma FirstOf(f: Fault, rest: seq<Fault>, calls: nat)
    requires !f.Pass? && calls > 0
    ensures RowStatus([f] + rest, calls) == Failed(f.code) && RowRest([f] + rest, calls) == rest
  {
    assert ([f] + rest)[1..] == rest;
  }

  // ---- names ----

  /** A stat needs a name to look for; a path without any slash is refused. */
  predicate Statable(path: string) {
    path == "/" || NameOf(path) != []
  }

  predicate Slashed(path: string) {
    LastOf(path, "/") >= 0
  }

  /** A folder there has always been, or one some file lies in. */
  predicate IsFolder(w: World, path: string) {
    path in w.folders || exists p :: p in w.files.Keys + w.torn && path + "/" <= p
  }

  /** A path that may name a regular file. */
  predicate NamesFile(w: World, path: string) {
    LogicalPath(path) && !IsFolder(w, path)
  }

  // ---- what the stat cache remembers ----

  predicate Fresh(w: World, path: string) {
    path in w.cache && !Expired(w.cache[path], w.now)
  }

  /** What a stat of the path answers is so. */
  predicate Truthful(w: World, path: string) {
    Fresh(w, path) ==> path in w.files && w.cache[path].size == |w.files[path]|
  }

  /** After a directory was listed, all its files are remembered as of now. */
  function Listed(cache: map<string, CacheNode>, files: Files, dir: string, now: nat): map<string, CacheNode> {
    map p | p in cache.Keys + files.Keys && (p in cache || DirOf(p) == dir) ::
      if p in files && DirOf(p) == dir then CacheNode(|files[p]|, now) else cache[p]
  }

  /** A stat that is not answered from the cache lists the directory. */
  function LookedUp(w: World, path: string): map<string, CacheNode> {
    if path == "/" || !Slashed(path) || Fresh(w, path) then w.cache
    else Listed(w.cache - {path}, w.files, DirOf(path), w.now)
  }

  function StatCode(w: World, path: string): int {
    if path == "/" then 0
    else if !Slashed(path) then EIO
    else if Fresh(w, path) || path in w.files then 0
    else ENOENT
  }

  function StatSize(w: World, path: string): nat {
    if path == "/" || !Slashed(path) then 0
    else if Fresh(w, path) then w.cache[path].size
    else if path in w.files then |w.files[path]|
    else 0
  }

  // ---- handles ----

  function Written(onDisk: bool, h: Handle, buf: Content, offset: nat): Handle {
    h.(content := Put(onDisk, h.content, buf, offset), dirty := h.dirty || Int32(|buf|) > 0)
  }

  /** A file of `size` bytes may be cut or grown to `n` without an object being left behind. */
  predicate SafeTruncate(size: nat, n: nat, m: nat)
    requires ValidLimit(m)
  {
    if size > m then n > m && size / m <= n / m else n <= m
  }

  /** Whether a truncated handle still covers all objects its path may have. */
  predicate StillCovers(files: Files, path: string, h: Handle, n: nat, m: nat)
    requires ValidLimit(m)
  {
    && h.covers
    && if path in files then SafeTruncate(|files[path]|, n, m)
       else SafeTruncate(h.size, n, m) && SafeTruncate(|h.content|, n, m)
  }

  function Opened(c: Content): Handle {
    Handle(c, false, |c|, true, None)
  }

  function Cut(h: Handle, n: nat, covers: bool): Handle {
    Handle(Resize(h.content, n), true, n, covers, Some(n))
  }

  function Clean(h: Handle): Handle {
    if h.dirty then h.(dirty := false, size := |h.content|, truncated := None) else h
  }

  // ---- renames ----

  /** No file stored in the same way lies here. Parts and a single object can share a name. */
  predicate Clear(files: Files, path: string, compound: bool, m: nat) {
    path in files ==> (|files[path]| > m) != compound
  }

  /** The cloud has an object under this key. */
  predicate Occupied(files: Files, key: string, m: nat)
    requires ValidLimit(m)
  {
    var p := Owner(key);
    p in files && LogicalPath(p) && key in Keys(p, |files[p]|, m)
  }

  /** A rename can pass: the directory or the name stays, or no file stored in the same way has the new name in the
      old directory. With backslashes it cannot, save by an accident: only the old name has one, the directory
      stays, and the cloud has an object at every key the client looks for. */
  predicate FreeWay(files: Files, oldPath: string, newPath: string, m: nat)
    requires ValidLimit(m) && oldPath in files
  {
    var size := |files[oldPath]|;
    if PlainName(oldPath) && PlainName(newPath) then
      || DirOf(oldPath) == DirOf(newPath)
      || NameOf(oldPath) == NameOf(newPath)
      || Clear(files, MidPath(oldPath, newPath), size > m, m)
    else
      && !PlainName(oldPath) && PlainName(newPath) && DirOf(oldPath) == DirOf(newPath)
      && Sought(oldPath, newPath) != oldPath
      && forall i :: 0 <= i < NParts(size, m) ==> Occupied(files, KeyAt(Sought(oldPath, newPath), size, i, m), m)
  }

  const TEMP := ".marcfs-temp"

  /** No backslashes, and the temporary name and both ways of an exchange are free. */
  predicate FreeExchange(files: Files, oldPath: string, newPath: string, m: nat)
    requires oldPath in files && newPath in files
  {
    var temp := newPath + TEMP;
    var oldBig, newBig := |files[oldPath]| > m, |files[newPath]| > m;
    && PlainName(oldPath) && PlainName(newPath)
    && Clear(files, temp, newBig, m)
    && (|| DirOf(oldPath) == DirOf(newPath)
        || (NameOf(oldPath) == NameOf(newPath) && oldBig != newBig)
        || (&& NameOf(oldPath) != NameOf(newPath)
            && Clear(files, MidPath(oldPath, newPath), oldBig, m)
            && (NameOf(oldPath) == NameOf(temp) || Clear(files, MidPath(newPath, oldPath), newBig, m))))
  }

  /** The paths a rename may pass through. */
  function RenamePaths(oldPath: string, newPath: string): set<string> {
    {oldPath, newPath, newPath + TEMP, MidPath(oldPath, newPath), MidPath(newPath, oldPath)}
  }

  /** Circumstances under which a rename does what it says. */
  predicate RenameOk(files: Files, oldPath: string, newPath: string, flags: RenameFlags, m: nat)
    requires ValidLimit(m)
  {
    && LogicalPath(oldPath) && LogicalPath(newPath) && oldPath != newPath
    && (oldPath in files ==>
          if newPath in files && flags.noReplace then true
          else if newPath in files && flags.exchange then FreeExchange(files, oldPath, newPath, m)
          else FreeWay(files - {newPath}, oldPath, newPath, m))
  }

  // ---- links ----

  /** What a flush writes into the link file of `orig`. Asking for the link of a missing file fails half-way. */
  function LinkText(w: World, orig: string): Content
    requires ValidLimit(w.limit)
  {
    if orig in w.files then
      LinkLines(orig, |w.files[orig]|, NParts(|w.files[orig]|, w.limit), w.links, w.limit)
    else LinkHead(orig)
  }

  /** Circumstances under which a link file can be filled. */
  predicate Linkable(w: World, orig: string)
    requires ValidLimit(w.limit)
  {
    NamesFile(w, orig) && orig !in w.torn && Truthful(w, orig) && |LinkText(w, orig)| <= OFF_MAX
  }

  // ---- truncating a closed file ----

  /** What an attempt to upload `c` over a single object `left` leaves there. */
  function AttemptLeft(left: Content, c: Content, faults: seq<Fault>): Option<Content> {
    var f1, f2 := Fate(faults), Fate(Later(faults));
    if f1.Refused? then Some(left)
    else if f1.Torn? || f2.Refused? || !Storable(c) then None
    else Some(Stored(c))
  }

  /** The attempts at truncating a single object within the limit, each from what the one before has left: the
      code, and what is there in the end. */
  function TruncateTries(left: Option<Content>, n: nat, faults: seq<Fault>, attempts: nat): (int, Option<Content>)
    decreases attempts
  {
    if attempts == 0 then (EINVAL, left)
    else
      match left
      case None => (EIO, None)
      case Some(c) =>
        var cut := Resize(c, n);
        var after := AttemptLeft(c, cut, faults);
        match AttemptStatus(faults, 2, Storable(cut))
        case Ok => (0, after)
        case Failed(code) =>
          if code >= 500 then TruncateTries(after, n, RowRest(faults, 2), attempts - 1) else (EIO, after)
  }

  /** Undisturbed, the object is cut or grown, unless what is left of it is not taken: then it is gone. */
  lemma TruncateCalm(c: Content, n: nat, attempts: nat)
    requires attempts > 0
    ensures TruncateTries(Some(c), n, [], attempts) ==
            if Storable(Resize(c, n)) then (0, Some(Stored(Resize(c, n)))) else (EIO, None)
  {
    hide Storable, Resize, Stored;
  }

  /** A refused upload loses the object: the next attempt does not find it. */
  lemma TruncateLoses(c: Content, n: nat, f: Fault, rest: seq<Fault>, attempts: nat)
    requires attempts > 1 && f.Refused?
    ensures TruncateTries(Some(c), n, [Pass, f] + rest, attempts) == (EIO, None)
  {
    hide Storable, Resize, Stored;
    var faults := [Pass, f] + rest;
    assert faults[1..] == [f] + rest && faults[1..][1..] == rest;
    assert RowStatus(faults[1..], 1) == Failed(f.code);
    assert RowStatus(faults, 2) == Failed(f.code);
    assert TruncateTries(None, n, RowRest(faults, 2), attempts - 1) == (EIO, None);
  }

  // ---- calls ----

  /** The calls a run may make in a world. */
  predicate Enabled(w: World, call: Call)
    requires ValidLimit(w.limit)
  {
    match call
    case GetAttr(path) => path == "/" || (Statable(path) && !IsFolder(w, path) && path !in w.torn)
    case GetAttrOpen(path) => path in w.handles
    case ReadDir(dir) => IsDir(dir)
    case Mknod(path, _) => NamesFile(w, path) && path !in w.handles
    case Open(path) =>
      path !in w.handles && path in w.files && Fresh(w, path) && w.cache[path].size == |w.files[path]|
    case Read(path, size, offset) => path in w.handles && InRange(offset, size)
    case Write(path, buf, offset) => path in w.handles && InRange(offset, |buf|)
    case Flush(path, _) => path in w.handles && (LinkTarget(path).Some? ==> Linkable(w, LinkTarget(path).value))
    case Release(path) => path in w.handles
    case Truncate(path, n) => path in w.handles && n <= OFF_MAX
    case TruncateClosed(path, n, _) =>
      NamesFile(w, path) && path !in w.handles && path !in w.torn && n <= OFF_MAX
    case Unlink(path, _) =>
      NamesFile(w, path) && path !in w.handles && path !in w.torn && Truthful(w, path)
    case Rename(path, newPath, flags) =>
      && NamesFile(w, path) && path !in w.handles && Truthful(w, path)
      && NamesFile(w, newPath) && newPath !in w.handles && Truthful(w, newPath)
      && RenamePaths(path, newPath) !! w.torn
      && RenameOk(w.files, path, newPath, flags, w.limit)
    case Wait(_) => true
  }

  // ---- what calls do ----

  /** The path is lost from sight. */
  function Tear(w: World, path: string): (w': World)
    ensures SameMount(w', w)
  {
    w.(files := w.files - {path}, torn := w.torn + {path}, cache := w.cache - {path})
  }

  /** What never changes. */
  ghost predicate SameMount(w': World, w: World) {
    && w'.limit == w.limit && w'.onDisk == w.onDisk && w'.links == w.links && w'.folders == w.folders
  }

  function AfterMknod(w: World, path: string): (w': World)
    ensures SameMount(w', w)
  {
    if path in w.torn then w
    else if path in w.files && |w.files[path]| > w.limit then Tear(w, path)
    else w.(files := w.files[path := []])
  }

  function AfterOpen(w: World, path: string): (w': World)
    ensures SameMount(w', w)
  {
    if path in w.files then w.(handles := w.handles[path := Opened(w.files[path])]) else w
  }

  function AfterWrite(w: World, path: string, buf: Content, offset: nat): (w': World)
    ensures SameMount(w', w)
  {
    if path in w.handles then w.(handles := w.handles[path := Written(w.onDisk, w.handles[path], buf, offset)])
    else w
  }

  /** The handle is cut or grown; if it no longer covers what is in the cloud, the path is given up. */
  function AfterCut(w: World, path: string, n: nat): (w': World)
    requires ValidLimit(w.limit)
    ensures SameMount(w', w)
  {
    if path !in w.handles then w
    else
      var covers := StillCovers(w.files, path, w.handles[path], n, w.limit);
      var changed := w.(handles := w.handles[path := Cut(w.handles[path], n, covers)]);
      if covers then changed else Tear(changed, path)
  }

  function AfterTruncate(w: World, path: string, n: nat): (w': World)
    requires ValidLimit(w.limit)
    ensures SameMount(w', w)
  {
    var cut := AfterCut(w, path, n);
    cut.(cache := Updated(cut.cache, path, n))
  }

  /** A link file gets its text. */
  function AfterLinks(w: World, path: string): (w': World)
    requires ValidLimit(w.limit)
    ensures SameMount(w', w)
  {
    match LinkTarget(path)
    case None => w
    case Some(orig) =>
      AfterWrite(AfterCut(w.(cache := LookedUp(w, orig)), path, 0), path, LinkText(w, orig), 0)
  }

  /** What was written reaches the files. `since` is the age of an entry that is visible again. */
  function AfterUpload(w: World, path: string, since: Option<nat>): (w': World)
    ensures SameMount(w', w)
  {
    if path !in w.handles then w
    else
      var h := w.handles[path];
      var n := |h.content|;
      var changed := w.(handles := w.handles[path := Clean(h)]);
      if h.dirty && h.covers && path in w.torn then
        changed.(
          files := w.files[path := Stored(h.content)],
          torn := w.torn - {path},
          cache := if since.Some? then w.cache[path := CacheNode(n, since.value)] else w.cache)
      else
        changed.(
          files := if h.dirty && h.covers then w.files[path := Stored(h.content)] else w.files,
          cache := Updated(w.cache, path, n))
  }

  function AfterFlush(w: World, path: string, since: Option<nat>): (w': World)
    requires ValidLimit(w.limit)
    ensures SameMount(w', w)
  {
    AfterUpload(AfterLinks(w, path), path, since)
  }

  function AfterRelease(w: World, path: string): (w': World)
    ensures SameMount(w', w)
  {
    w.(handles := w.handles - {path})
  }

  /** A truncation of a closed file finds single objects only. Grown beyond the limit, what was there stays behind
      and the path is in disarray. */
  function TruncateClosedCode(w: World, path: string, n: nat, faults: seq<Fault>): int
    requires ValidLimit(w.limit)
  {
    if path !in w.files || |w.files[path]| > w.limit then EIO
    else if n <= w.limit then TruncateTries(Some(w.files[path]), n, faults, RETRIES).0
    else RetryCode(faults, FlushCalls(n, n, w.limit), true, RETRIES)
  }

  function AfterTruncateClosed(w: World, path: string, n: nat, faults: seq<Fault>): (w': World)
    ensures SameMount(w', w)
  {
    if path !in w.files || |w.files[path]| > w.limit then w
    else if n > w.limit then Tear(w, path)
    else
      var (code, left) := TruncateTries(Some(w.files[path]), n, faults, RETRIES);
      w.(files := match left case Some(c) => w.files[path := c] case None => w.files - {path},
         cache := if code == 0 then Updated(w.cache, path, n) else w.cache)
  }

  function AfterUnlink(w: World, path: string): (w': World)
    ensures SameMount(w', w)
  {
    if path in w.files then w.(files := w.files - {path}, cache := LookedUp(w, path) - {path})
    else w.(cache := LookedUp(w, path))
  }

  /** What a rename does to the files. */
  function Renamed(files: Files, oldPath: string, newPath: string, flags: RenameFlags): Files {
    if oldPath !in files then files
    else if newPath in files && flags.noReplace then files
    else if newPath in files && flags.exchange then
      files[oldPath := files[newPath]][newPath := files[oldPath]]
    else (files - {oldPath})[newPath := files[oldPath]]
  }

  function RenameCode(files: Files, oldPath: string, newPath: string, flags: RenameFlags): int {
    if oldPath !in files then ENOENT
    else if newPath in files && flags.noReplace then EEXIST
    else 0
  }

  /** Both paths are looked up, then forgotten. */
  function RenameCache(w: World, oldPath: string, newPath: string): map<string, CacheNode> {
    var changed := w.(cache := LookedUp(w, oldPath));
    if oldPath !in w.files then changed.cache else LookedUp(changed, newPath) - {oldPath} - {newPath}
  }

  function AfterRename(w: World, path: string, newPath: string, flags: RenameFlags): (w': World)
    ensures SameMount(w', w)
  {
    w.(files := Renamed(w.files, path, newPath, flags), cache := RenameCache(w, path, newPath))
  }

  /** The code of a flush: none is needed for a clean handle; else it is a row of removals and uploads. */
  function FlushCode(h: Handle, faults: seq<Fault>, m: nat): int
    requires ValidLimit(m)
  {
    if h.dirty then RetryCode(faults, FlushCalls(h.size, |h.content|, m), Storable(h.content), RETRIES) else 0
  }

  /** The code a call ends with. */
  function CodeOf(w: World, call: Call): int
    requires ValidLimit(w.limit)
  {
    match call
    case GetAttr(path) => StatCode(w, path)
    case Mknod(_, faults) => RetryCode(faults, 1, true, RETRIES)
    case Flush(path, faults) =>
      var w' := AfterLinks(w, path);
      if path in w'.handles then FlushCode(w'.handles[path], faults, w.limit) else 0
    case TruncateClosed(path, n, faults) => TruncateClosedCode(w, path, n, faults)
    case Unlink(path, faults) =>
      if path in w.files then RetryCode(faults, NParts(|w.files[path]|, w.limit), true, RETRIES) else ENOENT
    case Rename(path, newPath, flags) => RenameCode(w.files, path, newPath, flags)
    case _ => 0
  }

  /** What a call may turn out to be. Its code is fixed. */
  predicate Possible(w: World, call: Call, o: Outcome)
    requires ValidLimit(w.limit)
  {
    && o.code == CodeOf(w, call)
    && (forall f :: f in o.strays ==> call.ReadDir? && '/' !in f.name && call.path + f.name in w.torn)
    && (o.since.Some? ==> call.Flush? && call.path in w.torn && o.since.value <= w.now)
  }

  /** The world after a call. */
  function Next(w: World, call: Call, o: Outcome): (w': World)
    requires ValidLimit(w.limit)
    ensures SameMount(w', w)
  {
    hide AfterMknod, AfterOpen, AfterWrite, AfterCut, AfterTruncate, AfterLinks, AfterUpload, AfterFlush,
         AfterTruncateClosed, AfterUnlink, AfterRename, LookedUp, Listed, Tear;
    match call
    case GetAttr(path) => Remembering(w, LookedUp(w, path))
    case ReadDir(dir) => Remembering(w, Listed(w.cache, w.files, dir, w.now))
    case Mknod(path, _) => if o.code == 0 then AfterMknod(w, path) else Tear(w, path)
    case Open(path) => AfterOpen(w, path)
    case Write(path, buf, offset) => AfterWrite(w, path, buf, offset)
    case Flush(path, _) => if o.code == 0 then AfterFlush(w, path, o.since) else Tear(AfterLinks(w, path), path)
    case Release(path) => AfterRelease(w, path)
    case Truncate(path, n) => AfterTruncate(w, path, n)
    case TruncateClosed(path, n, faults) => AfterTruncateClosed(w, path, n, faults)
    case Unlink(path, _) =>
      if o.code == 0 || o.code == ENOENT then AfterUnlink(w, path)
      else Tear(Remembering(w, LookedUp(w, path)), path)
    case Rename(path, newPath, flags) => AfterRename(w, path, newPath, flags)
    case Wait(seconds) => Waited(w, seconds)
    case GetAttrOpen(_) => Waited(w, 0)
    case Read(_, _, _) => Waited(w, 0)
  }

  function Remembering(w: World, cache: map<string, CacheNode>): (w': World)
    ensures SameMount(w', w)
  {
    w.(cache := cache)
  }

  function Waited(w: World, seconds: nat): (w': World)
    ensures SameMount(w', w)
  {
    w.(now := w.now + seconds)
  }

  /** The files of one directory, as a listing shows them. */
  function EntriesOf(files: Files, dir: string): set<CloudFile> {
    set p | p in files && DirOf(p) == dir :: CloudFile(NameOf(p), |files[p]|)
  }

  /** The answer to a call. */
  function Reply(w: World, call: Call, o: Outcome): Answer {
    if o.code != 0 then Error(o.code)
    else
      match call
      case GetAttr(path) => Stat(StatSize(w, path))
      case GetAttrOpen(path) => if path in w.handles then Stat(|w.handles[path].content|) else Success
      case ReadDir(dir) => Entries(EntriesOf(w.files, dir) + o.strays)
      case Read(path, size, offset) =>
        if path in w.handles then
          var b := ReadAt(w.handles[path].content, size, offset); Answer.Bytes(b, Int32(|b|))
        else Success
      case Write(path, buf, offset) => Answer.Count(Int32(|buf|))
      case _ => Success
  }

  // ---- whole runs ----

  /** Every call is enabled when its turn comes, whatever the calls before it have brought to light. */
  ghost predicate AllEnabled(w: World, calls: seq<Call>)
    requires ValidLimit(w.limit)
    decreases |calls|
  {
    calls == [] ||
    (&& Enabled(w, calls[0])
     && forall o :: Possible(w, calls[0], o) ==> AllEnabled(Next(w, calls[0], o), calls[1..]))
  }

  /** A way through the calls, or a beginning of one. */
  predicate Feasible(w: World, calls: seq<Call>, outcomes: seq<Outcome>)
    requires ValidLimit(w.limit)
    decreases |outcomes|
  {
    outcomes == [] ||
    (&& calls != [] && Possible(w, calls[0], outcomes[0])
     && Feasible(Next(w, calls[0], outcomes[0]), calls[1..], outcomes[1..]))
  }

  function RunWorld(w: World, calls: seq<Call>, outcomes: seq<Outcome>): (w': World)
    requires ValidLimit(w.limit)
    ensures w'.limit == w.limit
    decreases |outcomes|
  {
    if outcomes == [] || calls == [] then w
    else RunWorld(Next(w, calls[0], outcomes[0]), calls[1..], outcomes[1..])
  }

  function RunAnswers(w: World, calls: seq<Call>, outcomes: seq<Outcome>): seq<Answer>
    requires ValidLimit(w.limit)
    decreases |outcomes|
  {
    if outcomes == [] || calls == [] then []
    else
      [Reply(w, calls[0], outcomes[0])]
      + RunAnswers(Next(w, calls[0], outcomes[0]), calls[1..], outcomes[1..])
  }
}
