/** The FUSE callbacks over cloud, stat cache and open nodes. */
module FuseHooks {
  import opened Bytes
  import opened PartNames
  import opened Layout
  import opened HexHash
  import opened Listing
  import opened Storages
  import opened RestClient
  import opened Logical
  import opened FileNode
  import opened StatCache
  import opened ShareLinks
  import opened FS = FileSystem
  import opened Renames
  import opened FuseState

  // ---- retries ----

  /** `doWithRetry` around a flush: three attempts, given up at once on anything but a server error.
      `base` may be the cloud before any number of earlier flushes that failed. */
  method FlushWithRetry(node: MarcFileNode, client: RestClient, path: string, ghost base: Objects) returns (r: int)
    requires ValidLimit(node.limit) && LogicalPath(path) && |node.cachedContent| <= OFF_MAX
    requires SameOutside(client.objects, base, FlushKeys(path, node.oldFileSize, |node.cachedContent|, node.limit))
    modifies node`dirty, node`oldFileSize, client
    ensures var calls := FlushCalls(old(node.oldFileSize), |node.cachedContent|, node.limit);
            r == if old(node.dirty) then RetryCode(old(client.faults), calls, Storable(node.cachedContent), RETRIES)
                 else 0
    ensures !old(node.dirty) ==>
              && !node.dirty && node.oldFileSize == old(node.oldFileSize)
              && client.objects == old(client.objects)
    ensures old(node.dirty) && r == 0 ==>
              && !node.dirty && node.oldFileSize == |node.cachedContent|
              && client.objects == Flushed(base, path, old(node.oldFileSize), node.cachedContent, node.limit)
    ensures r != 0 ==>
              && node.dirty && node.oldFileSize == old(node.oldFileSize)
              && SameOutside(client.objects, base,
                             FlushKeys(path, node.oldFileSize, |node.cachedContent|, node.limit))
  {
    hide LogicalPath, FlushKeys, Flushed, Storable, SameOutside, AttemptStatus, RowRest;
    ghost var size := node.oldFileSize;
    ghost var touched := FlushKeys(path, size, |node.cachedContent|, node.limit);
    ghost var calls, taken := FlushCalls(size, |node.cachedContent|, node.limit), Storable(node.cachedContent);
    var retries := 3;
    while retries > 0
      invariant 0 <= retries && node.dirty == old(node.dirty) && node.oldFileSize == size
      invariant SameOutside(client.objects, base, touched)
      invariant !node.dirty ==> client.objects == old(client.objects) && retries > 0
      invariant node.dirty ==>
                  RetryCode(client.faults, calls, taken, retries)
                  == RetryCode(old(client.faults), calls, taken, RETRIES)
    {
      ghost var before := client.objects;
      var s := node.Flush(client, path);
      if s.Ok? {
        FlushForgets(base, before, path, size, node.cachedContent, node.limit);
        return 0;
      }
      SameOutsideTwice(base, before, client.objects, touched);
      if s.code < 500 {
        return EIO;
      }
      retries := retries - 1;
    }
    r := EINVAL;
  }

  /** The retried flush, stated on the node's state as a value. */
  method FlushNode(node: MarcFileNode, client: RestClient, path: string, ghost h: Handle) returns (r: int)
    requires ValidLimit(node.limit) && LogicalPath(path) && |node.cachedContent| <= OFF_MAX && Matches(h, node)
    modifies node`dirty, node`oldFileSize, client
    ensures r == FlushCode(h, old(client.faults), node.limit)
    ensures r == 0 ==>
              && Matches(Clean(h), node)
              && client.objects == FlushedObjects(old(client.objects), path, h, node.limit)
    ensures r != 0 ==>
              && Matches(h, node)
              && SameOutside(client.objects, old(client.objects), FlushKeys(path, h.size, |h.content|, node.limit))
  {
    hide LogicalPath, FlushKeys, Flushed, Storable;
    SameAsItself(client.objects, FlushKeys(path, node.oldFileSize, |node.cachedContent|, node.limit));
    hide SameOutside;
    r := FlushWithRetry(node, client, path, client.objects);
  }

  /** The attempts at removing a file of the given size; a retry may find some of its objects gone. */
  method RemoveWithRetry(client: RestClient, limit: nat, onDisk: bool, path: string, size: nat) returns (r: int)
    requires ValidLimit(limit)
    modifies client
    ensures r == RetryCode(old(client.faults), NParts(size, limit), true, RETRIES)
    ensures r == 0 ==> client.objects == old(client.objects) - Keys(path, size, limit)
    ensures SameOutside(client.objects, old(client.objects), Keys(path, size, limit))
  {
    hide Keys, RowStatus, RowRest;
    ghost var before, keys, calls := client.objects, Keys(path, size, limit), NParts(size, limit);
    var retries := 3;
    while retries > 0
      invariant 0 <= retries && SameOutside(client.objects, before, keys)
      invariant RetryCode(client.faults, calls, true, retries) == RetryCode(old(client.faults), calls, true, RETRIES)
    {
      ghost var now := client.objects;
      var node := new MarcFileNode(limit, size, onDisk);
      var s := node.Remove(client, path);
      RemovedFrom(before, now, client.objects, keys);
      if s.Ok? {
        return 0;
      }
      if s.code < 500 {
        return EIO;
      }
      retries := retries - 1;
    }
    r := EINVAL;
  }

  /** The attempts at creating an empty object. */
  method CreateWithRetry(client: RestClient, path: string) returns (r: int)
    modifies client
    ensures r == RetryCode(old(client.faults), 1, true, RETRIES)
    ensures r == 0 ==> client.objects == old(client.objects)[path := []]
    ensures SameOutside(client.objects, old(client.objects), {path})
  {
    hide SameOutside, RowStatus, RowRest;
    ghost var before := client.objects;
    SameAsItself(before, {path});
    var retries := 3;
    while retries > 0
      invariant 0 <= retries && SameOutside(client.objects, before, {path})
      invariant RetryCode(client.faults, 1, true, retries) == RetryCode(old(client.faults), 1, true, RETRIES)
    {
      ghost var now := client.objects;
      OneCallRow(client.faults);
      var s := client.Create(path);
      CreatedOver(before, now, path);
      if s.Ok? {
        return 0;
      }
      if s.code < 500 {
        return EIO;
      }
      retries := retries - 1;
    }
    r := EINVAL;
  }

  // ---- truncating a closed file ----

  /** What one attempt does: download the single object, cut or grow it, upload it again. */
  method TruncateAttempt(client: RestClient, limit: nat, onDisk: bool, path: string, size: nat) returns (s: Status)
    requires ValidLimit(limit) && LogicalPath(path) && size <= OFF_MAX
    modifies client
    ensures path !in old(client.objects) ==>
              s == Failed(NOT_FOUND) && client.objects == old(client.objects) && client.faults == old(client.faults)
    ensures path in old(client.objects) ==>
              var c, calls := Resize(old(client.objects)[path], size), FlushCalls(size, size, limit);
              && s == AttemptStatus(old(client.faults), calls, Storable(c))
              && client.faults == RowRest(old(client.faults), calls)
              && (s.Ok? ==> client.objects == Flushed(old(client.objects), path, size, c, limit))
              && (size <= limit ==>
                    client.objects == SmallFlush(old(client.objects), path, c, old(client.faults)))
    ensures SameOutside(client.objects, old(client.objects), FlushKeys(path, size, size, limit))
  {
    hide LogicalPath, Decode, Storable, Keys, Encode, Resize, RowStatus, RowRest, SmallFlush;
    SameAsItself(client.objects, FlushKeys(path, size, size, limit));
    WholeObject(client.objects, path, limit);
    var tempFile := new MarcFileNode(limit, 0, onDisk);
    s := tempFile.Open(client, path);
    if s.Ok? {
      ghost var c := tempFile.cachedContent;
      assert c == old(client.objects)[path];
      tempFile.Truncate(size);
      ResizeLength(c, size);
      s := tempFile.Flush(client, path);
      if s.Ok? {
        FlushOutside(old(client.objects), path, size, tempFile.cachedContent, limit);
        tempFile.Release();
        assert tempFile.GetSize() == size;
      }
    }
  }

  lemma WholeObject(objs: Objects, path: string, m: nat)
    requires ValidLimit(m)
    ensures Decode(objs, path, 0, m) == if path in objs then Some(objs[path]) else None
  {
    assert KeyAt(path, 0, 0, m) == path && Fetch(objs, path, 0, 0, m) == Some([]);
    assert Decode(objs, path, 0, m) == Fetch(objs, path, 0, 1, m);
    assert path in objs ==> [] + objs[path] == objs[path];
  }

  /** How far the attempts at a truncation have got: what is there now, and what is still to be expected. */
  ghost predicate OnCourse(before: Objects, start: seq<Fault>, path: string, size: nat, m: nat,
                           objs: Objects, faults: seq<Fault>, retries: nat)
    requires ValidLimit(m)
  {
    && SameOutside(objs, before, FlushKeys(path, size, size, m))
    && (path !in before ==> objs == before && retries == RETRIES)
    && (path in before && size <= m ==>
          && objs == LeftObjects(before, path, Lookup(objs, path))
          && TruncateTries(Lookup(objs, path), size, faults, retries)
             == TruncateTries(Some(before[path]), size, start, RETRIES))
    && (path in before && size > m ==>
          && path in objs && objs[path] == before[path]
          && RetryCode(faults, FlushCalls(size, size, m), true, retries)
             == RetryCode(start, FlushCalls(size, size, m), true, RETRIES))
  }

  lemma CourseStart(objs: Objects, faults: seq<Fault>, path: string, size: nat, m: nat)
    requires ValidLimit(m)
    ensures OnCourse(objs, faults, path, size, m, objs, faults, RETRIES)
  {
    SameAsItself(objs, FlushKeys(path, size, size, m));
    hide SameOutside, FlushKeys, TruncateTries, RetryCode;
  }

  /** What an attempt has done fits the course. */
  lemma CourseGoes(before: Objects, start: seq<Fault>, path: string, size: nat, m: nat, now: Objects,
                   faults: seq<Fault>, retries: nat, objs: Objects, rest: seq<Fault>, s: Status)
    requires ValidLimit(m) && LogicalPath(path) && retries > 0
    requires OnCourse(before, start, path, size, m, now, faults, retries)
    requires path !in now ==> s == Failed(NOT_FOUND) && objs == now && rest == faults
    requires path in now ==>
               var c, calls := Resize(now[path], size), FlushCalls(size, size, m);
               && s == AttemptStatus(faults, calls, Storable(c)) && rest == RowRest(faults, calls)
               && (size <= m ==> objs == SmallFlush(now, path, c, faults))
    requires SameOutside(objs, now, FlushKeys(path, size, size, m))
    ensures s.Failed? && s.code >= 500 ==> OnCourse(before, start, path, size, m, objs, rest, retries - 1)
    ensures s.Ok? || s.code < 500 ==>
              Tried(before, start, path, size, m, objs, if s.Ok? then 0 else EIO)
  {
    hide LogicalPath, Storable, Resize, RowStatus, RowRest, FlushKeys, SameOutside;
    SameOutsideTwice(before, now, objs, FlushKeys(path, size, size, m));
    if path in now {
      if size <= m {
        SmallFlushLeaves(now, path, Resize(now[path], size), faults);
        LeftTwice(before, path, Lookup(now, path), Lookup(objs, path));
        assert FlushCalls(size, size, m) == 2;
      } else {
        KeptWhole(now, objs, path, size, m);
        ResizeLength(now[path], size);
        TakenIfBig(Resize(now[path], size));
      }
    }
  }

  /** What the attempts have led to. */
  ghost predicate Tried(before: Objects, start: seq<Fault>, path: string, size: nat, m: nat, objs: Objects, r: int)
    requires ValidLimit(m)
  {
    && SameOutside(objs, before, FlushKeys(path, size, size, m))
    && (path !in before ==> objs == before && r == EIO)
    && (path in before && size <= m ==>
          var (code, left) := TruncateTries(Some(before[path]), size, start, RETRIES);
          r == code && objs == LeftObjects(before, path, left))
    && (path in before && size > m ==> r == RetryCode(start, FlushCalls(size, size, m), true, RETRIES))
  }

  lemma CourseEnds(before: Objects, start: seq<Fault>, path: string, size: nat, m: nat, objs: Objects,
                   faults: seq<Fault>)
    requires ValidLimit(m) && OnCourse(before, start, path, size, m, objs, faults, 0)
    ensures Tried(before, start, path, size, m, objs, EINVAL)
  {
    hide SameOutside, FlushKeys;
  }

  lemma SmallFlushLeaves(objs: Objects, path: string, c: Content, faults: seq<Fault>)
    requires path in objs
    ensures SmallFlush(objs, path, c, faults) == LeftObjects(objs, path, AttemptLeft(objs[path], c, faults))
    ensures Lookup(SmallFlush(objs, path, c, faults), path) == AttemptLeft(objs[path], c, faults)
  {
    hide Storable, Stored, Later, Fate;
    assert objs[path := objs[path]] == objs;
  }

  lemma LeftTwice(objs: Objects, path: string, left: Option<Content>, after: Option<Content>)
    ensures LeftObjects(LeftObjects(objs, path, left), path, after) == LeftObjects(objs, path, after)
  {
  }

  /** The parts of a file do not touch a single object of the same path. */
  lemma KeptWhole(now: Objects, objs: Objects, path: string, size: nat, m: nat)
    requires ValidLimit(m) && LogicalPath(path) && size > m && SameOutside(objs, now, FlushKeys(path, size, size, m))
    ensures Lookup(objs, path) == Lookup(now, path)
  {
    hide LogicalPath;
    var keys := FlushKeys(path, size, size, m);
    assert path !in keys by {
      KindsApart(path, size, 0, m);
      assert KeyAt(path, 0, 0, m) == path && path in Keys(path, 0, m);
    }
    assert path in objs <==> path in objs - keys;
    assert path in now <==> path in now - keys;
  }

  /** The attempts at truncating a closed file, each from what the one before has left. */
  method TruncateWithRetry(client: RestClient, limit: nat, onDisk: bool, path: string, size: nat) returns (r: int)
    requires ValidLimit(limit) && LogicalPath(path) && size <= OFF_MAX
    modifies client
    ensures Tried(old(client.objects), old(client.faults), path, size, limit, client.objects, r)
    ensures r == 0 && size > limit ==>
              && path in old(client.objects)
              && client.objects
                 == Flushed(old(client.objects), path, size, Resize(old(client.objects)[path], size), limit)
  {
    hide LogicalPath, Storable, Keys, FlushKeys, Flushed, Resize, SameOutside, OnCourse, Tried, SmallFlush, Lookup,
         AttemptStatus, RowRest;
    ghost var before, start := client.objects, client.faults;
    CourseStart(before, start, path, size, limit);
    var retries := 3;
    while retries > 0
      invariant 0 <= retries && OnCourse(before, start, path, size, limit, client.objects, client.faults, retries)
    {
      ghost var now, faults := client.objects, client.faults;
      var s := TruncateAttempt(client, limit, onDisk, path, size);
      CourseGoes(before, start, path, size, limit, now, faults, retries, client.objects, client.faults, s);
      if s.Ok? {
        if size > limit {
          BigFlushed(before, start, path, size, limit, now, faults, retries);
        }
        return 0;
      }
      if s.code < 500 {
        return EIO;
      }
      retries := retries - 1;
    }
    CourseEnds(before, start, path, size, limit, client.objects, client.faults);
    r := EINVAL;
  }

  lemma BigFlushed(before: Objects, start: seq<Fault>, path: string, size: nat, m: nat, now: Objects,
                   faults: seq<Fault>, retries: nat)
    requires ValidLimit(m) && LogicalPath(path) && OnCourse(before, start, path, size, m, now, faults, retries)
    requires path in now && size > m
    ensures path in before && now[path] == before[path]
    ensures var c := Resize(before[path], size);
            Flushed(now, path, size, c, m) == Flushed(before, path, size, c, m)
  {
    hide LogicalPath, FlushKeys, Flushed, Resize, SameOutside;
    ResizeLength(before[path], size);
    FlushForgets(before, now, path, size, Resize(before[path], size), m);
  }

  // ---- what is visible of the stat cache ----

  /** No entry comes from the future. */
  predicate Dated(cache: map<string, CacheNode>, now: nat) {
    forall p :: p in cache ==> cache[p].cachedSince <= now
  }

  lemma CacheChanges(cache: map<string, CacheNode>, torn: set<string>, path: string, size: nat, now: nat)
    ensures (cache - {path}) - torn == (cache - torn) - {path} == cache - (torn + {path})
    ensures Updated(cache, path, size) - torn == Updated(cache - torn, path, size)
    ensures path in Updated(cache, path, size) ==> Updated(cache, path, size)[path].size == size
    ensures Dated(cache, now) ==> Dated(cache - {path}, now) && Dated(Updated(cache, path, size), now)
  {
  }

  /** Since when the path has been remembered, visibly or not. */
  function SinceOf(cache: map<string, CacheNode>, path: string): Option<nat> {
    if path in cache then Some(cache[path].cachedSince) else None
  }

  /** An entry becomes visible when its path is settled. */
  lemma SettledEntry(cache: map<string, CacheNode>, torn: set<string>, path: string, size: nat)
    requires path in torn
    ensures Updated(cache, path, size) - (torn - {path}) ==
            if SinceOf(cache, path).Some? then (cache - torn)[path := CacheNode(size, SinceOf(cache, path).value)]
            else cache - torn
  {
  }

  /** The files a listing shows, remembered as of now. */
  ghost function Remembered(cache: map<string, CacheNode>, names: set<string>, files: Files, now: nat)
    : map<string, CacheNode>
  {
    map p | p in cache.Keys + names ::
      if p in names && p in files then CacheNode(|files[p]|, now)
      else if p in cache then cache[p]
      else CacheNode(0, now)
  }

  ghost function NamesIn(dir: string, entries: seq<CloudFile>): set<string> {
    set f | f in entries :: dir + f.name
  }

  lemma RememberOne(cache: map<string, CacheNode>, visible: map<string, CacheNode>, files: Files, torn: set<string>,
                    dir: string, entries: seq<CloudFile>, i: nat, now: nat)
    requires i < |entries| && ShowsOrTorn(files, torn, dir, entries[i])
    requires cache - torn == Remembered(visible, NamesIn(dir, entries[..i]) - torn, files, now)
    ensures cache[dir + entries[i].name := CacheNode(entries[i].size, now)] - torn
            == Remembered(visible, NamesIn(dir, entries[..i + 1]) - torn, files, now)
  {
    assert entries[..i + 1] == entries[..i] + [entries[i]];
    var p := dir + entries[i].name;
    assert NamesIn(dir, entries[..i + 1]) == NamesIn(dir, entries[..i]) + {p};
    var names := NamesIn(dir, entries[..i]);
    hide NamesIn;
    if p in torn {
      assert names + {p} - torn == names - torn;
      assert cache[p := CacheNode(entries[i].size, now)] - torn == cache - torn;
    } else {
      assert names + {p} - torn == names - torn + {p};
      assert cache[p := CacheNode(entries[i].size, now)] - torn == (cache - torn)[p := CacheNode(entries[i].size, now)];
      RememberMore(visible, names - torn, files, p, now);
    }
  }

  lemma RememberMore(cache: map<string, CacheNode>, names: set<string>, files: Files, p: string, now: nat)
    requires p in files
    ensures Remembered(cache, names, files, now)[p := CacheNode(|files[p]|, now)]
            == Remembered(cache, names + {p}, files, now)
  {
  }

  lemma NamesAre(files: Files, torn: set<string>, dir: string, entries: seq<CloudFile>, p: string)
    requires IsDir(dir) && torn !! files.Keys && forall f :: f in entries ==> ShowsOrTorn(files, torn, dir, f)
    requires forall p :: p in files && DirOf(p) == dir ==> HasName(entries, NameOf(p))
    ensures p in NamesIn(dir, entries) - torn <==> p in files && DirOf(p) == dir
  {
    hide LastOf, IsDir;
    if p in NamesIn(dir, entries) && p !in torn {
      var f :| f in entries && p == dir + f.name;
      SplitJoin(dir, f.name);
    }
    if p in files && DirOf(p) == dir {
      var f :| f in entries && f.name == NameOf(p);
      assert p == dir + f.name;
    }
  }

  lemma RememberedIsListed(cache: map<string, CacheNode>, files: Files, torn: set<string>, dir: string,
                           entries: seq<CloudFile>, now: nat)
    requires IsDir(dir) && torn !! files.Keys && forall f :: f in entries ==> ShowsOrTorn(files, torn, dir, f)
    requires forall p :: p in files && DirOf(p) == dir ==> HasName(entries, NameOf(p))
    ensures Remembered(cache, NamesIn(dir, entries) - torn, files, now) == Listed(cache, files, dir, now)
  {
    var names := NamesIn(dir, entries) - torn;
    forall p
      ensures p in names <==> p in files && DirOf(p) == dir
    {
      NamesAre(files, torn, dir, entries, p);
    }
    hide NamesIn, DirOf, ShowsFile, HasName;
    var a, b := Remembered(cache, names, files, now), Listed(cache, files, dir, now);
    assert a.Keys == b.Keys;
    assert forall p :: p in a ==> a[p] == b[p];
  }

  lemma NothingRemembered(cache: map<string, CacheNode>, files: Files, torn: set<string>, dir: string,
                          entries: seq<CloudFile>, now: nat)
    ensures Remembered(cache, NamesIn(dir, entries[..0]) - torn, files, now) == cache
  {
  }

  class FuseHooks {
    const limit: nat
    const onDisk: bool          // a cache directory is configured
    const client: RestClient
    const cache: CacheManager
    var now: nat                // seconds
    ghost const folders: set<string>  // the folders there are
    ghost var files: Files      // what the cloud stores
    ghost var torn: set<string> // paths whose objects are in disarray
    ghost var states: States    // what the nodes open at each path hold

    constructor (limit: nat, onDisk: bool, links: string -> Content, ghost folders: set<string>)
      requires ValidLimit(limit)
      ensures Valid() && Quiet() && View() == World(limit, onDisk, links, folders, map[], map[], map[], 0, {})
      ensures states == map[] && fresh(client) && fresh(cache) && this.limit == limit
    {
      this.limit, this.onDisk := limit, onDisk;
      client := new RestClient(map[], links);
      cache := new CacheManager();
      this.folders := folders;
      now, files, torn, states := 0, map[], {}, map[];
    }

    ghost predicate Valid()
      reads `files, `torn, `states, `now, client, cache
    {
      ValidLimit(limit) && Consistent(client.objects, files, torn, states, limit) && Dated(cache.statCache, now)
    }

    /** `node` is the one open at `path`: what FUSE hands back in `fi->fh`. */
    ghost predicate OpenAt(path: string, node: MarcFileNode)
      reads `states, node
    {
      && path in states && Matches(states[path], node)
      && node.limit == limit && node.onDisk == onDisk && node.isOpen
    }

    /** No failures are pending. */
    ghost predicate Quiet()
      reads client
    {
      client.faults == []
    }

    /** What the user can see of the state. Nothing is said of what is remembered about paths in disarray. */
    ghost function View(): World
      reads this, cache
    {
      World(limit, onDisk, client.links, folders, files, states, cache.statCache - torn, now, torn)
    }

    /** Nothing but the objects of this path may have changed. */
    twostate predicate OnlyAt(path: string)
      reads this, client
    {
      forall k :: Owner(k) != path ==> Lookup(client.objects, k) == Lookup(old(client.objects), k)
    }

    /** Puts a collapsed listing into the cache and looks for one name in it. */
    method CacheEntries(dir: string, contents: seq<CloudFile>, filename: string) returns (found: Option<nat>)
      requires Dated(cache.statCache, now) && forall f :: f in contents ==> ShowsOrTorn(files, torn, dir, f)
      modifies cache
      ensures Dated(cache.statCache, now)
      ensures cache.statCache - torn
              == Remembered(old(cache.statCache) - torn, NamesIn(dir, contents) - torn, files, now)
      ensures found == SizeOf(contents, filename)
    {
      hide ShowsOrTorn, Remembered, NamesIn;
      found := None;
      ghost var visible := cache.statCache - torn;
      NothingRemembered(visible, files, torn, dir, contents, now);
      for i := 0 to |contents|
        invariant Dated(cache.statCache, now)
        invariant cache.statCache - torn == Remembered(visible, NamesIn(dir, contents[..i]) - torn, files, now)
        invariant found == SizeOf(contents[..i], filename)
      {
        var cf := contents[i];
        assert contents[..i + 1][..i] == contents[..i];
        RememberOne(cache.statCache, visible, files, torn, dir, contents, i, now);
        cache.Put(dir + cf.name, cf.size, now);
        if cf.name == filename {
          found := Some(cf.size);
        }
      }
      assert contents[..|contents|] == contents;
    }

    /** Lists a directory, collapses the listing and remembers it. */
    method ListInto(dir: string, filename: string) returns (contents: seq<CloudFile>, found: Option<nat>)
      requires Valid() && IsDir(dir)
      modifies cache
      ensures Valid()
      ensures cache.statCache - torn == Listed(old(cache.statCache) - torn, files, dir, now)
      ensures DistinctNames(KeepNamed(contents, WholeNames(dir, torn)))
      ensures (set f | f in contents) == EntriesOf(files, dir) + StraysIn(contents, torn, dir)
      ensures forall f :: f in contents ==> '/' !in f.name && ShowsOrTorn(files, torn, dir, f)
      ensures forall p :: p in files && DirOf(p) == dir ==>
                CloudFile(NameOf(p), |files[p]|) in contents && RememberedAt(cache.statCache, p, |files[p]|, now)
      ensures '/' !in filename && dir + filename !in torn ==>
                found == if dir + filename in files then Some(|files[dir + filename]|) else None
    {
      assert Stores(client.objects, files, torn, limit) && torn !! files.Keys;
      hide Stores, Consistent, ShowsFile, LastOf, Listed, EntriesOf, IsListing, Collapsed, StraysIn, Dated;
      var listing := client.Ls(dir);
      contents := HandleCompounds(listing);
      WholeListing(client.objects, files, torn, dir, listing, contents, limit);
      if '/' !in filename && dir + filename !in torn {
        WholeStat(client.objects, files, torn, dir, listing, contents, filename, limit);
      }
      ghost var visible := cache.statCache - torn;
      RememberedIsListed(visible, files, torn, dir, contents, now);
      found := CacheEntries(dir, contents, filename);
      SameEntries(files, torn, dir, contents);
      AllRemembered(visible, files, torn, dir, contents, cache.statCache, now);
    }

    method GetAttrCallback(path: string) returns (err: int, size: nat)
      requires Valid() && Statable(path) && (path == "/" || !Slashed(path) || path !in torn)
      modifies cache
      ensures Valid() && View() == old(View()).(cache := LookedUp(old(View()), path))
      ensures err == StatCode(old(View()), path) && (err == 0 ==> size == StatSize(old(View()), path))
      ensures path == "/" ==> err == 0
      ensures path != "/" && '/' !in path ==> err == -5
      ensures path != "/" && '/' in path ==>
                if path in old(cache.statCache) && now <= old(cache.statCache)[path].cachedSince + 60
                then err == 0 && size == old(cache.statCache)[path].size && cache.statCache == old(cache.statCache)
                else if path in files
                then err == 0 && size == |files[path]| && RememberedAt(cache.statCache, path, size, now)
                else err == -2
    {
      LookupCases(View(), path);
      SlashedIff(path);
      FreshIff(cache.statCache, path, now);
      Divided(path);
      CacheChanges(cache.statCache, torn, path, 0, now);
      hide Consistent, Listed, EntriesOf, IsDir, LookedUp, StatCode, StatSize, DirOf, NameOf, Dated, RememberedAt,
           ShowsOrTorn, Expired, Slashed;
      if path == "/" {
        return 0, 0;
      }
      if LastOf(path, "/") < 0 {
        return EIO, 0;
      }
      var dirPath, filename := DirOf(path), NameOf(path);
      var cached := cache.Get(path, now);
      if cached.Some? {
        return 0, cached.value;
      }
      var contents, found := ListInto(dirPath, filename);
      match found
      case Some(n) => err, size := 0, n;
      case None => err, size := ENOENT, 0;
    }

    method ReadDirCallback(dir: string) returns (entries: seq<CloudFile>)
      requires Valid() && IsDir(dir)
      modifies cache
      ensures Valid() && View() == old(View()).(cache := Listed(old(View()).cache, files, dir, now))
      ensures forall p :: p in files && DirOf(p) == dir ==>
                CloudFile(NameOf(p), |files[p]|) in entries && RememberedAt(cache.statCache, p, |files[p]|, now)
      ensures forall f :: f in entries ==> dir + f.name in torn || ShowsFile(files, dir, f)
      ensures DistinctNames(KeepNamed(entries, WholeNames(dir, torn)))
      ensures (set f | f in entries) == EntriesOf(files, dir) + StraysIn(entries, torn, dir)
      ensures forall f :: f in entries ==> '/' !in f.name
    {
      hide Consistent, Listed, EntriesOf, IsDir, Dated, RememberedAt, ShowsFile;
      var found;
      entries, found := ListInto(dir, "");
    }

    /** An open node is asked itself; it may be ahead of the cloud. */
    method GetAttrOpenCallback(path: string, node: MarcFileNode) returns (size: nat)
      requires Valid() && OpenAt(path, node)
      ensures size == |states[path].content|
    {
      NodeFacts(client.objects, files, torn, states, path, limit);
      size := node.GetSize();
    }

    /** A fresh node for a file of the size the cache shows, filled from the cloud. */
    method OpenNode(path: string, size: nat) returns (file: MarcFileNode)
      requires ValidLimit(limit) && Decode(client.objects, path, size, limit).Some?
      ensures fresh(file) && file.limit == limit && file.onDisk == onDisk && file.isOpen
      ensures file.cachedContent == Decode(client.objects, path, size, limit).value
      ensures !file.dirty && file.oldFileSize == size
    {
      hide Decode;
      file := new MarcFileNode(limit, size, onDisk);
      var s := file.Open(client, path);
    }

    /** Dereferences the cache entry without looking: there has to be one, and a true one. */
    method OpenCallback(path: string) returns (node: MarcFileNode)
      requires Valid() && path in files && path !in states
      requires Fresh(View(), path) && View().cache[path].size == |files[path]|
      modifies `states, cache
      ensures Valid() && fresh(node) && OpenAt(path, node)
      ensures node.cachedContent == files[path] && !node.dirty && node.oldFileSize == |files[path]|
      ensures states == old(states)[path := Opened(files[path])]
      ensures View() == AfterOpen(old(View()), path)
    {
      hide Consistent, Decode, Dated;
      OpenKeeps(client.objects, files, torn, states, path, limit);
      var cached := cache.Get(path, now);
      node := OpenNode(path, cached.value);
      states := states[path := Opened(files[path])];
    }

    method ReadCallback(path: string, node: MarcFileNode, size: nat, offset: nat) returns (buf: Content, count: int)
      requires Valid() && OpenAt(path, node) && InRange(offset, size)
      ensures buf == ReadAt(states[path].content, size, offset) && count == Int32(|buf|)
      ensures |buf| == Max(0, Min(size, |node.cachedContent| - offset))
      ensures forall j :: 0 <= j < |buf| ==> buf[j] == node.cachedContent[offset + j]
    {
      buf, count := node.Read(size, offset);
    }

    method WriteCallback(path: string, node: MarcFileNode, buf: Content, offset: nat) returns (count: int)
      requires Valid() && OpenAt(path, node) && InRange(offset, |buf|)
      modifies `states, node
      ensures Valid() && OpenAt(path, node) && count == Int32(|buf|)
      ensures node.cachedContent == Put(onDisk, old(node.cachedContent), buf, offset)
      ensures node.dirty == (old(node.dirty) || count > 0)
      ensures states == old(states)[path := states[path]]
      ensures View() == AfterWrite(old(View()), path, buf, offset)
    {
      hide Consistent, Put, Int32, InRange, Dated;
      WriteKeeps(client.objects, files, torn, states, onDisk, path, buf, offset, limit);
      count := node.Write(buf, offset);
      states := states[path := Written(onDisk, states[path], buf, offset)];
    }

    /** Cuts or grows the content of an open node. */
    method CutNode(path: string, node: MarcFileNode, size: nat)
      requires Valid() && OpenAt(path, node) && size <= OFF_MAX
      modifies `files, `torn, `states, node
      ensures Valid() && OpenAt(path, node) && node.GetSize() == size && node.dirty
      ensures node.cachedContent == Resize(old(node.cachedContent), size) && |node.cachedContent| == size
      ensures forall j :: 0 <= j < size ==>
                node.cachedContent[j] == if j < |old(node.cachedContent)| then old(node.cachedContent)[j] else 0
      ensures forall p :: p != path ==> Lookup(files, p) == Lookup(old(files), p)
      ensures states == old(states)[path := states[path]]
      ensures View() == AfterCut(old(View()), path, size)
    {
      hide Consistent, StillCovers, Resize, Dated;
      CutKeeps(client.objects, files, torn, states, path, size, limit);
      CacheChanges(cache.statCache, torn, path, size, now);
      ghost var covers := StillCovers(files, path, states[path], size, limit);
      node.Truncate(size);
      ResizeLength(states[path].content, size);
      files, torn, states := CutFiles(files, path, covers), CutTorn(torn, path, covers),
                             states[path := Cut(states[path], size, covers)];
    }

    /** If the new size does not use all the keys of the old one, the path is given up. */
    method TruncateCallback(path: string, node: MarcFileNode, size: nat)
      requires Valid() && OpenAt(path, node) && size <= OFF_MAX
      modifies `files, `torn, `states, node, cache
      ensures Valid() && OpenAt(path, node) && node.dirty && |node.cachedContent| == size
      ensures forall j :: 0 <= j < size ==>
                node.cachedContent[j] == if j < |old(node.cachedContent)| then old(node.cachedContent)[j] else 0
      ensures states == old(states)[path := states[path]]
      ensures View() == AfterTruncate(old(View()), path, size)
    {
      hide Consistent, AfterCut, Updated, Dated;
      CutNode(path, node, size);
      CacheChanges(cache.statCache, torn, path, size, now);
      cache.Update(path, node.GetSize());
    }

    method ReleaseCallback(path: string, node: MarcFileNode)
      requires Valid() && OpenAt(path, node)
      modifies `states, node
      ensures Valid() && states == old(states) - {path}
      ensures View() == AfterRelease(old(View()), path)
    {
      hide Consistent, Dated;
      ReleaseKeeps(client.objects, files, torn, states, path, limit);
      node.Release();
      states := states - {path};
    }

    /** Asks for the link of every object of a file; a missing one ends the text half-way. */
    method GatherLinks(origPath: string, size: nat) returns (link: Content)
      requires ValidLimit(limit)
      requires size <= limit || forall i :: 0 <= i < NParts(size, limit) ==> PartName(origPath, i) in client.objects
      ensures link == if size <= limit && origPath !in client.objects then LinkHead(origPath)
                      else LinkLines(origPath, size, NParts(size, limit), client.links, limit)
    {
      hide PartName, LinkHead, AsBytes;
      link := [];
      if size > limit {
        var partCount := size / limit + 1;
        var idx := 0;
        while idx < partCount
          invariant 0 <= idx <= partCount
          invariant link == LinkLines(origPath, size, idx, client.links, limit)
        {
          var extendedPath := PartName(origPath, idx);
          link := link + LinkHead(extendedPath);
          var s, name := client.Share(extendedPath);
          link := link + (AsBytes(PUBLICLINK_ENDPOINT + "/") + name + AsBytes("\n"));
          idx := idx + 1;
        }
      } else {
        link := link + LinkHead(origPath);
        var s, name := client.Share(origPath);
        if s.Ok? {
          link := link + (AsBytes(PUBLICLINK_ENDPOINT + "/") + name + AsBytes("\n"));
          assert LinkLines(origPath, size, 0, client.links, limit) == [];
          assert LinkLines(origPath, size, 1, client.links, limit) == link;
        }
      }
    }

    /** The content is cut to nothing and written anew. */
    method Refill(path: string, node: MarcFileNode, text: Content)
      requires Valid() && OpenAt(path, node) && |text| <= OFF_MAX
      modifies `files, `torn, `states, node
      ensures Valid() && OpenAt(path, node)
      ensures states == old(states)[path := states[path]]
      ensures View() == AfterWrite(AfterCut(old(View()), path, 0), path, text, 0)
      ensures node.cachedContent == text && node.dirty
      ensures forall p :: p != path ==> Lookup(files, p) == Lookup(old(files), p)
    {
      hide Consistent, AfterCut, AfterWrite, Dated, Resize, Put, Matches, Lookup;
      CutNode(path, node, 0);
      assert node.cachedContent == [];
      PutAtStart(onDisk, text);
      var _ := WriteCallback(path, node, text, 0);
    }

    /** Before a flush, a link file is filled with the links of the file it stands for. */
    method HandleLinks(path: string, node: MarcFileNode)
      requires Valid() && OpenAt(path, node)
      requires LinkTarget(path).Some? ==> Linkable(View(), LinkTarget(path).value)
      modifies `files, `torn, `states, node, cache
      ensures Valid() && OpenAt(path, node)
      ensures states == old(states)[path := states[path]]
      ensures View() == AfterLinks(old(View()), path)
      ensures node.cachedContent == match LinkTarget(path)
                                    case Some(orig) => LinkText(old(View()), orig)
                                    case None => old(node.cachedContent)
      ensures node.dirty == (old(node.dirty) || LinkTarget(path).Some?)
      ensures forall p :: p != path ==> Lookup(files, p) == Lookup(old(files), p)
    {
      hide Consistent, AfterCut, AfterWrite, LinkTarget, LookedUp, IsFolder, LinkLines, LinkHead, Dated, Lookup;
      match LinkTarget(path) {
        case None =>
          assert states[path := states[path]] == states;
        case Some(orig) =>
          ghost var w := View();
          LinkFacts(client.objects, w, states, orig);
          var err, size := GetAttrCallback(orig);
          var link := GatherLinks(orig, if err == 0 then size else 0);
          assert link == LinkText(w, orig);
          Refill(path, node, link);
      }
    }

    /** Gives up the path after a failure. */
    ghost method GiveUp(path: string)
      modifies `files, `torn
      ensures View() == Tear(old(View()), path)
      ensures files == old(files) - {path} && torn == old(torn) + {path}
    {
      CacheChanges(cache.statCache, torn, path, 0, now);
      files, torn := files - {path}, torn + {path};
    }

    /** The node's content goes to the cloud, with retries. */
    method UploadNode(path: string, node: MarcFileNode) returns (r: int, ghost since: Option<nat>)
      requires Valid() && OpenAt(path, node)
      modifies `files, `torn, `states, node`dirty, node`oldFileSize, cache, client
      ensures Valid() && OpenAt(path, node) && OnlyAt(path)
      ensures states == old(states)[path := states[path]]
      ensures View() == if r == 0 then AfterUpload(old(View()), path, since) else Tear(old(View()), path)
      ensures r == FlushCode(old(states[path]), old(client.faults), limit)
      ensures since.Some? ==> since.value <= now && path in old(torn) && old(states[path]).covers
      ensures node.cachedContent == old(node.cachedContent) && states[path].covers == old(states[path].covers)
      ensures r == 0 ==> !node.dirty
      ensures r == 0 && old(node.dirty) && states[path].covers ==>
                path in files && path !in torn && files[path] == Stored(node.cachedContent)
      ensures r == 0 && path in cache.statCache ==> cache.statCache[path].size == |node.cachedContent|
      ensures forall p :: p != path ==> Lookup(files, p) == Lookup(old(files), p)
    {
      hide Consistent, FlushKeys, SameOutside, LogicalPath, FlushedObjects, Updated, Storable, Owner, Lookup,
           Dated, FlushCode, FlushedFiles, FlushedTorn;
      ghost var h := states[path];
      NodeFacts(client.objects, files, torn, states, path, limit);
      FlushKeeps(client.objects, files, torn, states, path, limit);
      ghost var before := client.objects;
      FlushedWithin(before, path, h, limit);
      FlushedIs(files, torn, path, h);
      r := FlushNode(node, client, path, h);
      since := None;
      if r == 0 {
        since := SinceOfUpload(cache.statCache, torn, path, h);
        UploadShown(View(), cache.statCache, path, now);
        CacheChanges(cache.statCache, torn, path, |h.content|, now);
        cache.Update(path, node.GetSize());
        files, torn, states := FlushedFiles(files, path, h), FlushedTorn(torn, path, h), states[path := Clean(h)];
      } else {
        FlushFailed(before, client.objects, files, torn, states, path, limit);
        assert states[path := states[path]] == states;
        GiveUp(path);
      }
    }

    /** On failure nothing but the objects of this file may have changed, and the handle is as it was. */
    method FlushCallback(path: string, node: MarcFileNode) returns (r: int, ghost since: Option<nat>)
      requires Valid() && OpenAt(path, node)
      requires LinkTarget(path).Some? ==> Linkable(View(), LinkTarget(path).value)
      modifies `files, `torn, `states, node, cache, client
      ensures Valid() && OpenAt(path, node) && OnlyAt(path)
      ensures states == old(states)[path := states[path]]
      ensures View() == if r == 0 then AfterFlush(old(View()), path, since)
                        else Tear(AfterLinks(old(View()), path), path)
      ensures var w := AfterLinks(old(View()), path);
              path in w.handles && r == FlushCode(w.handles[path], old(client.faults), limit)
      ensures since.Some? ==> path in old(torn) && since.value <= now
      ensures r == 0 ==> !node.dirty
      ensures r == 0 && (old(node.dirty) || LinkTarget(path).Some?) && states[path].covers ==>
                path in files && path !in torn && files[path] == Stored(node.cachedContent)
      ensures r == 0 && path in cache.statCache ==> cache.statCache[path].size == |node.cachedContent|
      ensures forall p :: p != path ==> Lookup(files, p) == Lookup(old(files), p)
    {
      hide Consistent, AfterLinks, AfterUpload, Tear, Linkable, LinkTarget, Owner, Lookup, Dated, FlushCode, Matches;
      LinksTear(View(), path);
      HandleLinks(path, node);
      r, since := UploadNode(path, node);
    }

    method MknodCallback(path: string) returns (r: int)
      requires Valid() && LogicalPath(path) && path !in states
      modifies `files, `torn, client
      ensures Valid() && OnlyAt(path)
      ensures View() == if r == 0 then AfterMknod(old(View()), path) else Tear(old(View()), path)
      ensures r == RetryCode(old(client.faults), 1, true, RETRIES)
      ensures r == 0 && path !in old(torn) && (path in old(files) ==> |old(files)[path]| <= limit) ==>
                files == old(files)[path := []] && torn == old(torn)
    {
      hide Consistent, LogicalPath, Owner, SameOutside, Lookup, Dated, RetryCode;
      ghost var w, before := View(), client.objects;
      MknodKeeps(w, before, states, path);
      OwnerOfKey(path, 0, 0, limit);
      r := CreateWithRetry(client, path);
      OutsideOwned(before, client.objects, path, {path});
      if r == 0 {
        CacheChanges(cache.statCache, torn, path, 0, now);
        files, torn := AfterMknod(w, path).files, AfterMknod(w, path).torn;
      } else {
        ClosedTorn(before, client.objects, files, torn, states, path, {path}, limit);
        GiveUp(path);
      }
    }

    /** Removes the parts the shown size tells of; a retry may find some of them gone. */
    method UnlinkCallback(path: string) returns (r: int)
      requires Valid() && LogicalPath(path) && path !in states && path !in torn && Truthful(View(), path)
      modifies `files, `torn, cache, client
      ensures Valid() && OnlyAt(path)
      ensures path !in old(files) ==>
                r == -2 && View() == AfterUnlink(old(View()), path) && client.faults == old(client.faults)
      ensures r == 0 ==> files == old(files) - {path} && torn == old(torn) && path !in cache.statCache
      ensures path in old(files) ==>
                && r == RetryCode(old(client.faults), NParts(|old(files)[path]|, limit), true, RETRIES)
                && View() == (if r == 0 then AfterUnlink(old(View()), path)
                              else Tear(old(View()).(cache := LookedUp(old(View()), path)), path))
    {
      hide Consistent, Keys, LookedUp, Truthful, Owner, LogicalPath, Statable, Slashed, StatCode,
           StatSize, SameOutside, Lookup, Dated, RetryCode;
      StatFacts(View(), path);
      var err, size := GetAttrCallback(path);
      if err != 0 {
        return err;
      }
      ghost var before, keys := client.objects, Keys(path, size, limit);
      ClosedGone(before, files, torn, states, path, limit);
      CacheChanges(cache.statCache, torn, path, 0, now);
      r := RemoveWithRetry(client, limit, onDisk, path, size);
      KeysOwned(path, size, limit);
      OutsideOwned(before, client.objects, path, keys);
      if r == 0 {
        cache.Remove(path);
        files := files - {path};
      } else {
        ClosedTorn(before, client.objects, files, torn, states, path, keys, limit);
        GiveUp(path);
      }
    }

    /** A closed file is downloaded, cut or grown, and uploaded again, through failures too. This works for files
        stored as one object only: a compound one is not found. Grown beyond the limit it leaves its old object
        behind; and an attempt that fails after its removal has lost it. */
    method TruncateClosedCallback(path: string, size: nat) returns (r: int)
      requires Valid() && LogicalPath(path) && path !in states && path !in torn && size <= OFF_MAX
      modifies `files, `torn, cache, client
      ensures Valid() && OnlyAt(path)
      ensures r == TruncateClosedCode(old(View()), path, size, old(client.faults))
      ensures View() == AfterTruncateClosed(old(View()), path, size, old(client.faults))
      ensures path !in old(files) || |old(files)[path]| > limit ==>
                r == -5 && files == old(files) && client.objects == old(client.objects)
      ensures old(client.faults) == [] && path in old(files) && |old(files)[path]| <= limit && size <= limit
              && (size == 0 || size > 20) ==>
                && r == 0 && path in files && |files[path]| == size
                && forall j :: 0 <= j < size ==>
                     files[path][j] == if j < |old(files)[path]| then old(files)[path][j] else 0
      ensures r == 0 && size > limit ==>
                && path in old(files)
                && client.objects == Flushed(old(client.objects), path, size, Resize(old(files)[path], size), limit)
    {
      hide Consistent, FlushKeys, LogicalPath, Owner, SameOutside, AfterTruncateClosed, Lookup, TruncateClosedCode,
           Updated, Dated, Tried, Flushed, Resize;
      ghost var w, before, start := View(), client.objects, client.faults;
      r := TruncateWithRetry(client, limit, onDisk, path, size);
      TruncateCases(before, w, states, path, size, start, client.objects, r);
      TruncatedBytes(w, path, size);
      FlushKeysOwned(path, size, size, limit);
      OutsideOwned(before, client.objects, path, FlushKeys(path, size, size, limit));
      ghost var w' := AfterTruncateClosed(w, path, size, start);
      TruncateCache(w, cache.statCache, path, size, start, now);
      if r == 0 {
        cache.Update(path, size);
      }
      files, torn := w'.files, w'.torn;
    }

    method Exchange(sourceFile: MarcFileNode, targetFile: MarcFileNode, oldPath: string, newPath: string)
      requires ValidLimit(limit) && Quiet()
      requires sourceFile.limit == limit && targetFile.limit == limit
      requires Exchanged(client.objects, oldPath, newPath, sourceFile.oldFileSize, targetFile.oldFileSize, limit).Some?
      modifies client
      ensures Quiet()
      ensures Exchanged(old(client.objects), oldPath, newPath, sourceFile.oldFileSize, targetFile.oldFileSize, limit)
              == Some(client.objects)
    {
      hide RenameKeys, MoveAll, SameOutside;
      var s := targetFile.Rename(client, newPath, newPath + TEMP);
      s := sourceFile.Rename(client, oldPath, newPath);
      s := targetFile.Rename(client, newPath + TEMP, oldPath);
    }

    /** What a rename asks of the cloud once both paths are looked up. */
    method RenameObjects(oldPath: string, newPath: string, size: nat, target: Option<nat>, flags: RenameFlags)
      requires ValidLimit(limit) && Quiet()
      requires RenamedObjects(client.objects, oldPath, newPath, size, target, flags, limit).Some?
      modifies client
      ensures Quiet()
      ensures RenamedObjects(old(client.objects), oldPath, newPath, size, target, flags, limit) == Some(client.objects)
    {
      hide RenameKeys, MoveAll, SameOutside, Keys, Exchanged;
      var sourceFile := new MarcFileNode(limit, size, onDisk);
      if target.Some? {
        var targetFile := new MarcFileNode(limit, target.value, onDisk);
        if flags.exchange {
          Exchange(sourceFile, targetFile, oldPath, newPath);
          return;
        }
        var removed := targetFile.Remove(client, newPath);
      }
      var s := sourceFile.Rename(client, oldPath, newPath);
    }

    /** Source and target are looked up, then forgotten; not the target if there is no source. */
    method LookUpBoth(oldPath: string, newPath: string) returns (srcErr: int, size: nat, target: Option<nat>)
      requires Valid() && LogicalPath(oldPath) && LogicalPath(newPath) && oldPath !in torn && newPath !in torn
      requires Truthful(View(), oldPath) && Truthful(View(), newPath)
      modifies cache
      ensures Valid() && View() == old(View()).(cache := RenameCache(old(View()), oldPath, newPath))
      ensures srcErr == if oldPath in files then 0 else ENOENT
      ensures oldPath in files ==> size == |files[oldPath]| && target == Target(files, newPath)
      ensures oldPath in files ==> oldPath !in cache.statCache && newPath !in cache.statCache
    {
      RenameLookups(View(), oldPath, newPath);
      hide Consistent, LookedUp, Truthful, StatCode, StatSize, Statable, Slashed, Target, Dated, LogicalPath;
      target := None;
      srcErr, size := GetAttrCallback(oldPath);
      if srcErr != 0 {
        return;
      }
      var targetErr, targetSize := GetAttrCallback(newPath);
      CacheChanges(cache.statCache, torn, oldPath, 0, now);
      cache.Remove(oldPath);
      CacheChanges(cache.statCache, torn, newPath, 0, now);
      cache.Remove(newPath);
      if targetErr == 0 {
        target := Some(targetSize);
      }
    }

    /** Undisturbed, a rename replaces, exchanges or refuses as its flags say. */
    method RenameCallback(oldPath: string, newPath: string, flags: RenameFlags) returns (r: int)
      requires Valid() && Quiet() && RenameOk(files, oldPath, newPath, flags, limit)
      requires oldPath !in states && newPath !in states && RenamePaths(oldPath, newPath) !! torn
      requires Truthful(View(), oldPath) && Truthful(View(), newPath)
      modifies `files, cache, client
      ensures Valid() && Quiet()
      ensures View() == AfterRename(old(View()), oldPath, newPath, flags)
      ensures r == RenameCode(old(files), oldPath, newPath, flags)
      ensures r == 0 <==> oldPath in old(files) && !(newPath in old(files) && flags.noReplace)
      ensures r == -17 <==> oldPath in old(files) && newPath in old(files) && flags.noReplace
      ensures r == -2 <==> oldPath !in old(files)
      ensures r != 0 ==> files == old(files) && client.objects == old(client.objects)
      ensures r == 0 ==>
                && newPath in files && files[newPath] == old(files)[oldPath]
                && (if newPath in old(files) && flags.exchange
                    then oldPath in files && files[oldPath] == old(files)[newPath]
                    else oldPath !in files)
                && (forall p :: p != oldPath && p != newPath ==> Lookup(files, p) == Lookup(old(files), p))
      ensures oldPath in old(files) && r == 0 ==> oldPath !in cache.statCache && newPath !in cache.statCache
    {
      hide Consistent, Truthful, RenamedObjects, RenameOk, RenamePaths, Renamed, RenameCache, Dated, LogicalPath,
           Target;
      RenameFacts(client.objects, View(), states, oldPath, newPath, flags);
      RenamedFiles(files, oldPath, newPath, flags);
      var srcErr, size, target := LookUpBoth(oldPath, newPath);
      if srcErr != 0 {
        return srcErr;
      }
      if target.Some? && flags.noReplace {
        return EEXIST;
      }
      RenameObjects(oldPath, newPath, size, target, flags);
      files := Renamed(files, oldPath, newPath, flags);
      r := 0;
    }
  }

  /** Since when the path that a flush has settled has been remembered. */
  ghost function SinceOfUpload(cache: map<string, CacheNode>, torn: set<string>, path: string, h: Handle): Option<nat> {
    if h.dirty && h.covers && path in torn then SinceOf(cache, path) else None
  }

  /** The file gets what was written, if that was dirty and the handle covers it; no other file changes. */
  lemma FlushedIs(files: Files, torn: set<string>, path: string, h: Handle)
    ensures h.dirty && h.covers ==>
              && path in FlushedFiles(files, path, h) && FlushedFiles(files, path, h)[path] == Stored(h.content)
              && path !in FlushedTorn(torn, path, h)
    ensures forall p :: p != path ==> Lookup(FlushedFiles(files, path, h), p) == Lookup(files, p)
    ensures forall p :: p != path ==> Lookup(files - {path}, p) == Lookup(files, p)
  {
  }

  lemma FlushFailed(objs: Objects, objs': Objects, files: Files, torn: set<string>, states: States,
                    path: string, m: nat)
    requires Consistent(objs, files, torn, states, m) && path in states
    requires var h := states[path]; SameOutside(objs', objs, FlushKeys(path, h.size, |h.content|, m))
    ensures Consistent(objs', files - {path}, torn + {path}, states, m)
    ensures forall k :: Owner(k) != path ==> Lookup(objs', k) == Lookup(objs, k)
  {
    var h := states[path];
    NodeFacts(objs, files, torn, states, path, m);
    FlushTears(objs, objs', files, torn, states, path, m);
    hide Consistent, SameOutside, FlushKeys, LogicalPath, Owner, Lookup;
    FlushKeysOwned(path, h.size, |h.content|, m);
    OutsideOwned(objs, objs', path, FlushKeys(path, h.size, |h.content|, m));
  }

  /** What is visible of the cache after an upload. */
  lemma UploadShown(w: World, cache: map<string, CacheNode>, path: string, now: nat)
    requires path in w.handles && w.cache == cache - w.torn && Dated(cache, now)
    ensures var h := w.handles[path];
            var since := SinceOfUpload(cache, w.torn, path, h);
            && AfterUpload(w, path, since)
               == w.(handles := w.handles[path := Clean(h)], files := FlushedFiles(w.files, path, h),
                     torn := FlushedTorn(w.torn, path, h),
                     cache := Updated(cache, path, |h.content|) - FlushedTorn(w.torn, path, h))
            && (since.Some? ==> since.value <= now)
  {
    var h := w.handles[path];
    CacheChanges(cache, w.torn, path, |h.content|, now);
    if path in w.torn {
      SettledEntry(cache, w.torn, path, |h.content|);
    } else {
      assert w.torn - {path} == w.torn;
    }
    hide Clean, Updated, Stored;
  }

  /** Links cut a handle: it covers its path afterwards only if the path is in no more disarray than before. */
  lemma LinksTear(w: World, path: string)
    requires ValidLimit(w.limit)
    ensures var w' := AfterLinks(w, path);
            path in w'.handles && w'.handles[path].covers && path in w'.torn ==> path in w.torn
  {
    hide LookedUp, StillCovers, Put, Resize, LinkText, LinkTarget;
  }

  /** What the attempts at a truncation have led to is what the world shows. */
  lemma TruncateCases(objs: Objects, w: World, states: States, path: string, n: nat, faults: seq<Fault>,
                      objs': Objects, r: int)
    requires Consistent(objs, w.files, w.torn, states, w.limit) && LogicalPath(path)
    requires path !in states && path !in w.torn && n <= OFF_MAX
    requires Tried(objs, faults, path, n, w.limit, objs', r)
    ensures path in objs <==> path in w.files && |w.files[path]| <= w.limit
    ensures path in objs ==> objs[path] == w.files[path]
    ensures r == TruncateClosedCode(w, path, n, faults)
    ensures path !in objs ==>
              r == EIO && objs' == objs && AfterTruncateClosed(w, path, n, faults).files == w.files
    ensures var w' := AfterTruncateClosed(w, path, n, faults);
            Consistent(objs', w'.files, w'.torn, states, w.limit)
    ensures SameOutside(objs', objs, FlushKeys(path, n, n, w.limit))
  {
    assert ValidLimit(w.limit);
    hide Consistent, LogicalPath, FlushKeys, SameOutside, Lookup, Owner, Updated;
    FoundSingle(objs, w.files, w.torn, states, path, w.limit);
    if path in objs {
      if n <= w.limit {
        var (code, left) := TruncateTries(Some(objs[path]), n, faults, RETRIES);
        TriesWithin(Some(objs[path]), n, faults, RETRIES, w.limit);
        TriesWithin(Some(objs[path]), n, faults, RETRIES, OFF_MAX);
        LeftKeeps(objs, w.files, w.torn, states, path, left, w.limit);
      } else {
        FlushKeysOwned(path, n, n, w.limit);
        ClosedTorn(objs, objs', w.files, w.torn, states, path, FlushKeys(path, n, n, w.limit), w.limit);
      }
    }
  }

  /** Undisturbed, the file keeps its first bytes and grows by zeros, unless it becomes tiny. */
  lemma TruncatedBytes(w: World, path: string, n: nat)
    requires ValidLimit(w.limit)
    ensures path in w.files && |w.files[path]| <= w.limit && n <= w.limit && (n == 0 || n > 20) ==>
              var files := AfterTruncateClosed(w, path, n, []).files;
              && TruncateClosedCode(w, path, n, []) == 0 && path in files && |files[path]| == n
              && forall j :: 0 <= j < n ==> files[path][j] == if j < |w.files[path]| then w.files[path][j] else 0
  {
    hide Updated, RetryCode, TruncateTries, Tear;
    if path in w.files {
      TruncateCalm(w.files[path], n, RETRIES);
      assert n == 0 || n > 20 ==> Stored(Resize(w.files[path], n)) == Resize(w.files[path], n);
    }
  }

  lemma TruncateCache(w: World, cache: map<string, CacheNode>, path: string, n: nat, faults: seq<Fault>, now: nat)
    requires ValidLimit(w.limit) && w.cache == cache - w.torn && Dated(cache, now)
    ensures var w' := AfterTruncateClosed(w, path, n, faults);
            var cache' := if TruncateClosedCode(w, path, n, faults) == 0 then Updated(cache, path, n) else cache;
            && w' == w.(files := w'.files, torn := w'.torn, cache := cache' - w'.torn)
            && Dated(cache', now)
  {
    CacheChanges(cache, w.torn, path, n, now);
    CacheChanges(cache, w.torn + {path}, path, n, now);
    hide TruncateTries, RetryCode;
  }

  lemma FoundSingle(objs: Objects, files: Files, torn: set<string>, states: States, path: string, m: nat)
    requires Consistent(objs, files, torn, states, m) && LogicalPath(path) && path !in torn
    ensures path in objs <==> path in files && |files[path]| <= m
    ensures path in objs ==> objs[path] == files[path] && |files[path]| <= OFF_MAX
  {
    hide LogicalPath, Owner, AllFit;
    NotSingle(objs, files, torn, path, m);
    SingleDownload(objs, files, torn, path, m);
    WholeObject(objs, path, m);
  }

  lemma SameOutsideTwice(before: Objects, now: Objects, after: Objects, keys: set<string>)
    requires SameOutside(now, before, keys) && SameOutside(after, now, keys)
    ensures SameOutside(after, before, keys)
  {
  }

  /** Looking one path up changes nothing about the truth of what is shown of another. */
  lemma AfterLookup(w: World, p: string, q: string)
    ensures Truthful(w, q) ==> Truthful(w.(cache := LookedUp(w, p)), q)
  {
    hide LastOf, DirOf;
  }

  /** The size of the file at the target, if there is one. */
  function Target(files: Files, path: string): Option<nat> {
    if path in files then Some(|files[path]|) else None
  }

  /** What a rename does to the cloud; None if an object is missing on the way. */
  function RenamedObjects(objs: Objects, oldPath: string, newPath: string, size: nat, target: Option<nat>,
                          flags: RenameFlags, m: nat): Option<Objects>
    requires ValidLimit(m)
  {
    match target
    case None => Moved(objs, oldPath, newPath, size, m)
    case Some(n) =>
      if flags.exchange then Exchanged(objs, oldPath, newPath, size, n, m)
      else Moved(objs - Keys(newPath, n, m), oldPath, newPath, size, m)
  }

  /** Unless the rename is refused, the cloud can follow, and then stores the renamed files. */
  lemma RenameFacts(objs: Objects, w: World, states: States, a: string, b: string, flags: RenameFlags)
    requires Consistent(objs, w.files, w.torn, states, w.limit) && {a, b} !! states.Keys
    requires RenameOk(w.files, a, b, flags, w.limit) && RenamePaths(a, b) !! w.torn
    ensures LogicalPath(a) && LogicalPath(b) && a != b && a !in w.torn && b !in w.torn
    ensures Target(w.files, b).Some? <==> b in w.files
    ensures a in w.files && !(b in w.files && flags.noReplace) ==>
              var o := RenamedObjects(objs, a, b, |w.files[a]|, Target(w.files, b), flags, w.limit);
              o.Some? && Consistent(o.value, Renamed(w.files, a, b, flags), w.torn, states, w.limit)
    ensures a !in w.files || (b in w.files && flags.noReplace) ==> Renamed(w.files, a, b, flags) == w.files
  {
    assert a in RenamePaths(a, b) && b in RenamePaths(a, b);
    hide Consistent, LogicalPath, LastOf, Keys, Exchanged, Moved, FreeExchange, FreeWay, RenamePaths;
    if a in w.files && !(b in w.files && flags.noReplace) {
      if b in w.files && flags.exchange {
        ExchangeKeeps(objs, w.files, w.torn, states, a, b, w.limit);
      } else {
        ReplaceKeeps(objs, w.files, w.torn, states, a, b, w.limit);
      }
    }
  }

  /** What a rename that is not refused does, file by file. */
  lemma RenamedFiles(files: Files, a: string, b: string, flags: RenameFlags)
    requires a != b
    ensures a in files && !(b in files && flags.noReplace) ==>
              var renamed := Renamed(files, a, b, flags);
              && b in renamed && renamed[b] == files[a]
              && (if b in files && flags.exchange then a in renamed && renamed[a] == files[b] else a !in renamed)
              && (forall p :: p != a && p != b ==> Lookup(renamed, p) == Lookup(files, p))
  {
  }

  /** Both lookups of a rename tell the truth. */
  lemma RenameLookups(w: World, a: string, b: string)
    requires LogicalPath(a) && LogicalPath(b) && Truthful(w, a) && Truthful(w, b)
    ensures Statable(a) && StatCode(w, a) == (if a in w.files then 0 else ENOENT)
    ensures a in w.files ==> StatSize(w, a) == |w.files[a]|
    ensures var w' := w.(cache := LookedUp(w, a));
            && Statable(b) && StatCode(w', b) == (if b in w.files then 0 else ENOENT)
            && (if b in w.files then Target(w.files, b) == Some(StatSize(w', b)) else Target(w.files, b) == None)
  {
    AfterLookup(w, a, b);
    hide LogicalPath, LookedUp, Truthful, StatCode, StatSize, Statable;
    StatFacts(w, a);
    StatFacts(w.(cache := LookedUp(w, a)), b);
  }

  lemma Divided(path: string)
    ensures path == DirOf(path) + NameOf(path) && '/' !in NameOf(path)
    ensures Slashed(path) ==> IsDir(DirOf(path))
  {
  }

  /** The entry says so, as of now. */
  ghost predicate RememberedAt(cache: map<string, CacheNode>, path: string, size: nat, now: nat) {
    path in cache && cache[path] == CacheNode(size, now)
  }

  /** After a listing every file of the directory is shown and remembered. */
  lemma AllRemembered(visible: map<string, CacheNode>, files: Files, torn: set<string>, dir: string,
                      entries: seq<CloudFile>, cache: map<string, CacheNode>, now: nat)
    requires torn !! files.Keys && cache - torn == Listed(visible, files, dir, now)
    requires EntriesOf(files, dir) <= set f | f in entries
    ensures forall p :: p in files && DirOf(p) == dir ==>
              CloudFile(NameOf(p), |files[p]|) in entries && RememberedAt(cache, p, |files[p]|, now)
  {
    hide DirOf, NameOf;
    forall p | p in files && DirOf(p) == dir
      ensures CloudFile(NameOf(p), |files[p]|) in entries && RememberedAt(cache, p, |files[p]|, now)
    {
      assert p in cache - torn && (cache - torn)[p] == cache[p];
      assert CloudFile(NameOf(p), |files[p]|) in EntriesOf(files, dir);
    }
  }

  lemma SlashedIff(path: string)
    ensures Slashed(path) <==> '/' in path
  {
    if '/' in path {
      var i :| 0 <= i < |path| && path[i] == '/';
    }
  }

  lemma FreshIff(cache: map<string, CacheNode>, path: string, now: nat)
    ensures path in cache ==> (!Expired(cache[path], now) <==> now <= cache[path].cachedSince + 60)
  {
  }

  lemma PutAtStart(onDisk: bool, buf: Content)
    ensures Put(onDisk, [], buf, 0) == buf
  {
    hide Put;
    PutBytes(onDisk, [], buf, 0);
    assert |Put(onDisk, [], buf, 0)| == |buf|;
  }

  lemma LookupCases(w: World, path: string)
    ensures path == "/" || !Slashed(path) || Fresh(w, path) ==> LookedUp(w, path) == w.cache
    ensures path != "/" && Slashed(path) && !Fresh(w, path) ==>
              LookedUp(w, path) == Listed(w.cache - {path}, w.files, DirOf(path), w.now)
    ensures path == "/" ==> StatCode(w, path) == 0 && StatSize(w, path) == 0
    ensures path != "/" && !Slashed(path) ==> StatCode(w, path) == EIO
    ensures path != "/" && Slashed(path) && Fresh(w, path) ==>
              StatCode(w, path) == 0 && StatSize(w, path) == w.cache[path].size
    ensures path != "/" && Slashed(path) && !Fresh(w, path) ==>
              && StatCode(w, path) == (if path in w.files then 0 else ENOENT)
              && (path in w.files ==> StatSize(w, path) == |w.files[path]|)
  {
  }

  lemma CreatedOver(before: Objects, now: Objects, path: string)
    requires SameOutside(now, before, {path})
    ensures SameOutside(now[path := []], before, {path}) && now[path := []] == before[path := []]
  {
    assert now[path := []] - {path} == now - {path};
    assert now == before || now - {path} == before - {path};
    forall k | k != path
      ensures k in now <==> k in before
      ensures k in now ==> now[k] == before[k]
    {
      assert k in now <==> k in now - {path};
      assert k in before <==> k in before - {path};
    }
  }

  lemma RemovedFrom(before: Objects, now: Objects, after: Objects, keys: set<string>)
    requires SameOutside(now, before, keys) && SameOutside(after, now, keys)
    ensures SameOutside(after, before, keys)
    ensures now - keys == before - keys
  {
  }

  /** Truthfully shown: a stat tells whether the file is there and how big it is. */
  lemma StatFacts(w: World, path: string)
    requires LogicalPath(path) && Truthful(w, path)
    ensures Statable(path) && Slashed(path) && path != "/"
    ensures StatCode(w, path) == if path in w.files then 0 else ENOENT
    ensures path in w.files ==> StatSize(w, path) == |w.files[path]|
  {
  }

  lemma LinkFacts(objs: Objects, w: World, states: States, orig: string)
    requires Consistent(objs, w.files, w.torn, states, w.limit) && Linkable(w, orig)
    ensures Statable(orig) && orig !in w.torn
    ensures StatCode(w, orig) == (if orig in w.files then 0 else ENOENT)
    ensures orig in w.files ==> StatSize(w, orig) == |w.files[orig]|
    ensures orig in objs <==> orig in w.files && |w.files[orig]| <= w.limit
    ensures orig in w.files && |w.files[orig]| > w.limit ==>
              forall i :: 0 <= i < NParts(|w.files[orig]|, w.limit) ==> PartName(orig, i) in objs
  {
    hide Owner, Represents, IsFolder;
    StatFacts(w, orig);
    NotSingle(objs, w.files, w.torn, orig, w.limit);
    if orig in w.files && |w.files[orig]| > w.limit {
      IncludesAll(objs, w.files, w.torn, orig, w.limit);
      forall i | 0 <= i < NParts(|w.files[orig]|, w.limit)
        ensures PartName(orig, i) in objs
      {
        StoredAt(objs, orig, w.files[orig], i, w.limit);
      }
    }
  }
}
