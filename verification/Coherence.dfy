/** When the stat cache tells the truth: over which runs, of which files, and for how long. */
module Coherence {
  import opened Bytes
  import opened PartNames
  import opened Layout
  import opened HexHash
  import opened Listing
  import opened Storages
  import opened RestClient
  import opened Logical
  import opened FileNode
  import opened StatCache
  import opened ShareLinks
  import opened FileSystem

  /** An entry shows the size of its file, or what an open handle has truncated it to. */
  predicate EntryFits(w: World, p: string)
    requires p in w.cache
  {
    && p in w.files && p !in w.torn
    && (|| w.cache[p].size == |w.files[p]|
        || (p in w.handles && w.handles[p].truncated == Some(w.cache[p].size)))
  }

  /** A clean handle holds what the file is, and every handle covers its file unless the path is given up. */
  predicate HandleFits(w: World, p: string)
    requires p in w.handles
  {
    var h := w.handles[p];
    || p in w.torn
    || (&& p in w.files && h.covers
        && (!h.dirty ==> h.truncated == None && (w.files[p] == h.content || w.files[p] == Stored(h.content))))
  }

  ghost predicate CoherentBut(w: World, path: string) {
    && w.torn !! w.files.Keys
    && (forall p :: p in w.cache && p != path ==> EntryFits(w, p))
    && (forall p :: p in w.handles && p != path ==> HandleFits(w, p))
  }

  ghost predicate Coherent(w: World) {
    && w.torn !! w.files.Keys
    && (forall p :: p in w.cache ==> EntryFits(w, p))
    && (forall p :: p in w.handles ==> HandleFits(w, p))
  }

  /** A write changes nothing, or is flagged for upload. */
  predicate Noticed(onDisk: bool, h: Handle, buf: Content, offset: nat) {
    h.dirty || Put(onDisk, h.content, buf, offset) == h.content || Int32(|buf|) > 0
  }

  /** A truncation within the limit gets through, or leaves the file as it is. */
  predicate GoesWell(w: World, path: string, n: nat, faults: seq<Fault>) {
    path in w.files && |w.files[path]| <= w.limit && n <= w.limit ==>
      var (code, left) := TruncateTries(Some(w.files[path]), n, faults, RETRIES);
      code == 0 || left == Some(w.files[path])
  }

  /** The calls that leave the cache in order. */
  predicate Careful(w: World, call: Call) {
    match call
    case Mknod(path, _) => path !in w.files
    case Write(path, buf, offset) => path in w.handles && Noticed(w.onDisk, w.handles[path], buf, offset)
    case Release(path) => path in w.handles && (path in w.torn || w.handles[path].truncated == None)
    case TruncateClosed(path, n, faults) => GoesWell(w, path, n, faults)
    case _ => true
  }

  // ---- coherence is kept ----

  lemma ListedFits(w: World, cache: map<string, CacheNode>, dir: string)
    requires Coherent(w) && forall p :: p in cache ==> p in w.cache && cache[p] == w.cache[p]
    ensures Coherent(w.(cache := Listed(cache, w.files, dir, w.now)))
  {
    hide LastOf, Stored;
    var w' := w.(cache := Listed(cache, w.files, dir, w.now));
    forall p | p in w'.cache
      ensures EntryFits(w', p)
    {
      assert p in cache ==> EntryFits(w, p);
    }
    forall p | p in w'.handles
      ensures HandleFits(w', p)
    {
      assert HandleFits(w, p);
    }
  }

  lemma LookupFits(w: World, path: string)
    requires Coherent(w)
    ensures Coherent(w.(cache := LookedUp(w, path)))
  {
    hide Coherent, Listed, LastOf;
    if path == "/" || !Slashed(path) || Fresh(w, path) {
      assert w.(cache := LookedUp(w, path)) == w;
    } else {
      ListedFits(w, w.cache - {path}, DirOf(path));
    }
  }

  lemma TearFits(w: World, path: string)
    requires CoherentBut(w, path)
    ensures Coherent(Tear(w, path))
  {
    hide Stored;
    var w' := Tear(w, path);
    forall p | p in w'.cache
      ensures EntryFits(w', p)
    {
      assert p != path ==> EntryFits(w, p);
    }
    forall p | p in w'.handles
      ensures HandleFits(w', p)
    {
      assert p != path ==> HandleFits(w, p);
    }
  }

  lemma MknodFits(w: World, path: string)
    requires Coherent(w) && path !in w.files && path !in w.handles
    ensures Coherent(AfterMknod(w, path))
  {
    hide Stored;
    var w' := AfterMknod(w, path);
    forall p | p in w'.cache
      ensures EntryFits(w', p)
    {
      assert EntryFits(w, p);
    }
    forall p | p in w'.handles
      ensures HandleFits(w', p)
    {
      assert HandleFits(w, p);
    }
  }

  /** Only one handle and its cache entry changed. */
  lemma HandleChanged(w: World, path: string, h: Handle, cache: map<string, CacheNode>)
    requires CoherentBut(w, path)
    requires forall p :: p != path ==> (p in cache <==> p in w.cache) && (p in cache ==> cache[p] == w.cache[p])
    ensures CoherentBut(w.(handles := w.handles[path := h], cache := cache), path)
  {
    hide Stored;
    var w' := w.(handles := w.handles[path := h], cache := cache);
    forall p | p in w'.cache && p != path
      ensures EntryFits(w', p)
    {
      assert EntryFits(w, p);
    }
    forall p | p in w'.handles && p != path
      ensures HandleFits(w', p)
    {
      assert HandleFits(w, p);
    }
  }

  lemma OpenFits(w: World, path: string)
    requires Coherent(w) && path in w.files && path !in w.handles
    ensures Coherent(AfterOpen(w, path))
  {
    hide Stored;
    HandleChanged(w, path, Opened(w.files[path]), w.cache);
    assert path in w.cache ==> EntryFits(w, path);
  }

  lemma WriteFits(w: World, path: string, buf: Content, offset: nat)
    requires Coherent(w) && path in w.handles && Noticed(w.onDisk, w.handles[path], buf, offset)
    ensures Coherent(AfterWrite(w, path, buf, offset))
  {
    hide Stored, Put, Int32;
    HandleChanged(w, path, Written(w.onDisk, w.handles[path], buf, offset), w.cache);
    assert HandleFits(w, path) && (path in w.cache ==> EntryFits(w, path));
  }

  lemma CutFits(w: World, path: string, n: nat)
    requires ValidLimit(w.limit) && CoherentBut(w, path) && path in w.handles
    ensures CoherentBut(AfterCut(w, path, n), path)
    ensures path !in AfterCut(w, path, n).torn || path !in AfterCut(w, path, n).cache || path in w.cache.Keys * w.torn
    ensures path in AfterCut(w, path, n).handles && AfterCut(w, path, n).onDisk == w.onDisk
    ensures path in w.files.Keys + w.torn ==>
              var w' := AfterCut(w, path, n);
              HandleFits(w', path) && w'.handles[path].truncated == Some(n) && w'.handles[path].dirty
              && path in w'.files.Keys + w'.torn
  {
    hide Stored, StillCovers, Resize;
    var covers := StillCovers(w.files, path, w.handles[path], n, w.limit);
    HandleChanged(w, path, Cut(w.handles[path], n, covers), w.cache);
    if !covers {
      TearFits(w.(handles := w.handles[path := Cut(w.handles[path], n, covers)]), path);
    }
  }

  lemma TruncateFits(w: World, path: string, n: nat)
    requires ValidLimit(w.limit) && Coherent(w) && path in w.handles
    ensures Coherent(AfterTruncate(w, path, n))
  {
    hide Stored, AfterCut;
    assert HandleFits(w, path);
    assert path in w.cache ==> EntryFits(w, path);
    CutFits(w, path, n);
    var cut := AfterCut(w, path, n);
    HandleChanged(cut, path, cut.handles[path], Updated(cut.cache, path, n));
    assert cut.handles[path := cut.handles[path]] == cut.handles;
  }

  lemma LinksFit(w: World, path: string)
    requires ValidLimit(w.limit) && Coherent(w) && path in w.handles
    ensures var w' := AfterLinks(w, path);
            && CoherentBut(w', path) && path in w'.handles
            && (path in w'.torn || (path in w'.files && w'.handles[path].covers))
            && (path in w'.torn ==> path !in w'.cache)
            && (LinkTarget(path).None? ==> w' == w)
            && (LinkTarget(path).Some? ==> w'.handles[path].dirty)
  {
    hide Stored, AfterCut, LookedUp, LinkText, LinkTarget, Put, Int32;
    assert HandleFits(w, path) && (path in w.cache ==> EntryFits(w, path));
    match LinkTarget(path)
    case None =>
    case Some(orig) =>
      LookupFits(w, orig);
      var w1 := w.(cache := LookedUp(w, orig));
      assert path in w1.cache ==> EntryFits(w1, path);
      CutFits(w1, path, 0);
      var w2 := AfterCut(w1, path, 0);
      HandleChanged(w2, path, Written(w2.onDisk, w2.handles[path], LinkText(w, orig), 0), w2.cache);
  }

  lemma UploadFits(w: World, path: string, since: Option<nat>)
    requires CoherentBut(w, path) && path in w.handles
    requires path in w.torn || (path in w.files && w.handles[path].covers)
    requires w.handles[path].dirty || (HandleFits(w, path) && (path in w.cache ==> EntryFits(w, path)))
    requires path in w.torn ==> path !in w.cache
    ensures Coherent(AfterUpload(w, path, since))
  {
    hide Stored;
    var w' := AfterUpload(w, path, since);
    forall p | p in w'.cache
      ensures EntryFits(w', p)
    {
      assert p != path ==> EntryFits(w, p);
    }
    forall p | p in w'.handles
      ensures HandleFits(w', p)
    {
      assert p != path ==> HandleFits(w, p);
    }
  }

  lemma FlushFits(w: World, path: string, since: Option<nat>)
    requires ValidLimit(w.limit) && Coherent(w) && path in w.handles
    ensures Coherent(AfterFlush(w, path, since)) && Coherent(Tear(AfterLinks(w, path), path))
  {
    hide Stored, AfterLinks, AfterUpload, Tear, EntryFits, LinkTarget;
    LinksFit(w, path);
    UploadFits(AfterLinks(w, path), path, since);
    TearFits(AfterLinks(w, path), path);
  }

  lemma ReleaseFits(w: World, path: string)
    requires Coherent(w) && path in w.handles && (path in w.torn || w.handles[path].truncated == None)
    ensures Coherent(AfterRelease(w, path))
  {
    hide Stored;
    var w' := AfterRelease(w, path);
    forall p | p in w'.cache
      ensures EntryFits(w', p)
    {
      assert EntryFits(w, p);
    }
    forall p | p in w'.handles
      ensures HandleFits(w', p)
    {
      assert HandleFits(w, p);
    }
  }

  /** A closed file changed, and the cache with it. */
  lemma FileChanged(w: World, path: string, files: Files, cache: map<string, CacheNode>)
    requires CoherentBut(w, path) && path !in w.handles && w.torn !! files.Keys
    requires forall p :: p != path ==> Lookup(files, p) == Lookup(w.files, p)
    requires forall p :: p != path ==> (p in cache <==> p in w.cache) && (p in cache ==> cache[p] == w.cache[p])
    requires path in cache ==> path in files && cache[path].size == |files[path]|
    ensures Coherent(w.(files := files, cache := cache))
  {
    hide Stored;
    var w' := w.(files := files, cache := cache);
    forall p | p in w'.cache
      ensures EntryFits(w', p)
    {
      assert p != path ==> EntryFits(w, p) && Lookup(files, p) == Lookup(w.files, p);
    }
    forall p | p in w'.handles
      ensures HandleFits(w', p)
    {
      assert HandleFits(w, p) && Lookup(files, p) == Lookup(w.files, p);
    }
  }

  lemma TruncateClosedFits(w: World, path: string, n: nat, faults: seq<Fault>)
    requires Coherent(w) && path !in w.handles && GoesWell(w, path, n, faults)
    ensures Coherent(AfterTruncateClosed(w, path, n, faults))
  {
    hide HandleFits, Tear, TruncateTries;
    CoherentAll(w, path);
    assert path in w.cache ==> EntryFits(w, path);
    TearFits(w, path);
    if path in w.files && |w.files[path]| <= w.limit && n <= w.limit {
      var (code, left) := TruncateTries(Some(w.files[path]), n, faults, RETRIES);
      TriesSize(Some(w.files[path]), n, faults, RETRIES);
      FileChanged(w, path, w.files[path := left.value], if code == 0 then Updated(w.cache, path, n) else w.cache);
    }
  }

  /** A truncation that gets through leaves as much as it was asked for. */
  lemma {:induction false} TriesSize(left: Option<Content>, n: nat, faults: seq<Fault>, attempts: nat)
    ensures var (code, after) := TruncateTries(left, n, faults, attempts);
            code == 0 ==> after.Some? && |after.value| == n
    decreases attempts
  {
    hide Resize, Stored, Storable;
    if attempts > 0 && left.Some? {
      var cut := Resize(left.value, n);
      CutSize(left.value, n);
      PassedTwice(faults);
      TriesSize(AttemptLeft(left.value, cut, faults), n, RowRest(faults, 2), attempts - 1);
    }
  }

  lemma CutSize(c: Content, n: nat)
    ensures |Stored(Resize(c, n))| == n
  {
  }

  lemma PassedTwice(faults: seq<Fault>)
    ensures RowStatus(faults, 2).Ok? <==> Fate(faults).Pass? && Fate(Later(faults)).Pass?
  {
    RowSplit(faults, 1, 1);
    OneCallRow(faults);
    OneCallRow(Later(faults));
  }

  lemma UnlinkFits(w: World, path: string)
    requires Coherent(w) && path !in w.handles
    ensures Coherent(AfterUnlink(w, path)) && Coherent(Tear(w.(cache := LookedUp(w, path)), path))
  {
    hide EntryFits, HandleFits, LookedUp, Tear;
    LookupFits(w, path);
    var w1 := w.(cache := LookedUp(w, path));
    TearFits(w1, path);
    if path in w.files {
      FileChanged(w1, path, w.files - {path}, w1.cache - {path});
    }
  }

  lemma RenameFits(w: World, a: string, b: string, flags: RenameFlags)
    requires Coherent(w) && a !in w.handles && b !in w.handles && a != b && b !in w.torn
    ensures Coherent(AfterRename(w, a, b, flags))
  {
    LookupFits(w, a);
    var w1 := w.(cache := LookedUp(w, a));
    LookupFits(w1, b);
    var w2 := w1.(cache := LookedUp(w1, b));
    hide LookedUp, Stored;
    if a in w.files {
      var w' := AfterRename(w, a, b, flags);
      assert w'.cache == w2.cache - {a} - {b};
      forall p | p in w'.cache
        ensures EntryFits(w', p)
      {
        assert EntryFits(w2, p);
      }
      forall p | p in w'.handles
        ensures HandleFits(w', p)
      {
        assert HandleFits(w2, p);
      }
    } else {
      assert AfterRename(w, a, b, flags) == w1;
    }
  }

  /** Careful calls keep the cache coherent, whether they get through or give up. */
  lemma CoherentNext(w: World, call: Call, o: Outcome)
    requires ValidLimit(w.limit) && Coherent(w) && Enabled(w, call) && Careful(w, call) && Possible(w, call, o)
    ensures Coherent(Next(w, call, o))
  {
    hide Coherent, AfterMknod, AfterOpen, AfterWrite, AfterFlush, AfterRelease, AfterTruncate, AfterTruncateClosed,
         AfterUnlink, AfterRename, Tear, LookedUp, Listed, AfterLinks, LinkTarget, Truthful, LogicalPath,
         RenameOk, RenamePaths, Storable, Resize, Noticed, IsFolder, Possible, GoesWell;
    match call
    case GetAttr(path) => LookupFits(w, path);
    case ReadDir(dir) => ListedFits(w, w.cache, dir);
    case Mknod(path, _) =>
      MknodFits(w, path);
      CoherentAll(w, path);
      TearFits(w, path);
    case Open(path) => OpenFits(w, path);
    case Write(path, buf, offset) => WriteFits(w, path, buf, offset);
    case Flush(path, _) => FlushFits(w, path, o.since);
    case Release(path) => ReleaseFits(w, path);
    case Truncate(path, n) => TruncateFits(w, path, n);
    case TruncateClosed(path, n, faults) => TruncateClosedFits(w, path, n, faults);
    case Unlink(path, _) => UnlinkFits(w, path);
    case Rename(path, newPath, flags) =>
      DifferentPaths(w, path, newPath, flags);
      RenameFits(w, path, newPath, flags);
    case Wait(seconds) => Older(w, seconds);
    case GetAttrOpen(_) => Older(w, 0);
    case Read(_, _, _) => Older(w, 0);
  }

  lemma CoherentAll(w: World, path: string)
    requires Coherent(w)
    ensures CoherentBut(w, path)
  {
  }

  lemma DifferentPaths(w: World, a: string, b: string, flags: RenameFlags)
    requires ValidLimit(w.limit) && RenameOk(w.files, a, b, flags, w.limit) && RenamePaths(a, b) !! w.torn
    ensures a != b && b !in w.torn
  {
    assert b in RenamePaths(a, b);
  }

  lemma Older(w: World, seconds: nat)
    requires Coherent(w)
    ensures Coherent(Waited(w, seconds))
  {
    hide Stored;
    var w' := Waited(w, seconds);
    assert forall p :: p in w.cache ==> (EntryFits(w, p) <==> EntryFits(w', p));
    assert forall p :: p in w.handles ==> (HandleFits(w, p) <==> HandleFits(w', p));
  }

  /** Every call is careful when its turn comes. */
  ghost predicate AllCareful(w: World, calls: seq<Call>)
    requires ValidLimit(w.limit)
    decreases |calls|
  {
    calls == [] ||
    (&& Careful(w, calls[0])
     && forall o :: Possible(w, calls[0], o) ==> AllCareful(Next(w, calls[0], o), calls[1..]))
  }

  /** Over every careful run the cache is coherent at every moment. */
  lemma {:induction false} CoherentRun(w: World, calls: seq<Call>, outcomes: seq<Outcome>)
    requires ValidLimit(w.limit) && Coherent(w) && AllEnabled(w, calls) && AllCareful(w, calls)
    requires Feasible(w, calls, outcomes)
    ensures Coherent(RunWorld(w, calls, outcomes))
    decreases |outcomes|
  {
    hide Coherent, Enabled, Next, Careful, Possible;
    if outcomes != [] {
      var o := outcomes[0];
      CoherentNext(w, calls[0], o);
      CoherentRun(Next(w, calls[0], o), calls[1..], outcomes[1..]);
    }
  }

  // ---- what coherence is worth ----

  predicate Truncated(w: World, path: string) {
    path in w.handles && w.handles[path].truncated.Some?
  }

  /** A stat of anything but a truncated file tells whether the file is there and how big it is; of a truncated
      one, its size in the cloud or the one it was truncated to. */
  lemma StatIsTrue(w: World, path: string)
    requires Coherent(w) && Slashed(path) && path != "/" && path !in w.torn
    ensures StatCode(w, path) == if path in w.files then 0 else ENOENT
    ensures path in w.files && !Truncated(w, path) ==> StatSize(w, path) == |w.files[path]|
    ensures !Truncated(w, path) ==> Truthful(w, path)
    ensures path in w.files && Truncated(w, path) ==>
              StatSize(w, path) == |w.files[path]| || StatSize(w, path) == w.handles[path].truncated.value
  {
    assert path in w.cache ==> EntryFits(w, path);
  }

  /** A remembered size is the one the collapsed listing of the cloud shows. */
  lemma CachedIsListed(objs: Objects, w: World, listing: seq<CloudFile>, collapsed: seq<CloudFile>, path: string)
    requires Coherent(w) && Stores(objs, w.files, w.torn, w.limit) && LogicalPath(path)
    requires IsListing(objs, DirOf(path), listing) && Collapsed(listing, collapsed)
    requires path in w.cache && !Truncated(w, path)
    ensures SizeOf(collapsed, NameOf(path)) == Some(w.cache[path].size)
  {
    assert EntryFits(w, path) && path == DirOf(path) + NameOf(path);
    hide Stores, IsListing, Collapsed, LastOf;
    WholeStat(objs, w.files, w.torn, DirOf(path), listing, collapsed, NameOf(path), w.limit);
  }

  /** After a truncation a stat shows the new size exactly as long as the entry that was there at that time
      lasts; before and after that, and once the directory is listed, the size in the cloud. */
  lemma TruncateShown(w: World, path: string, n: nat, d: nat)
    requires ValidLimit(w.limit) && Coherent(w) && Slashed(path) && path != "/" && path !in w.torn
    requires path in w.handles && StillCovers(w.files, path, w.handles[path], n, w.limit)
    ensures path in w.files
    ensures var w' := Next(Next(w, Call.Truncate(path, n), Ended(0)), Wait(d), Ended(0));
            && StatSize(w', path) == (if path in w.cache && w.now + d <= w.cache[path].cachedSince + CACHE_TTL then n
                                      else |w.files[path]|)
            && StatSize(Next(w', ReadDir(DirOf(path)), Ended(0)), path) == |w.files[path]|
  {
    hide StillCovers, LastOf;
    assert HandleFits(w, path);
  }

  /** Opening needs a remembered size: a listing makes it possible for a minute, and stats that are answered from
      the cache do not prolong that. */
  lemma OpenWindow(w: World, path: string, d: nat, e: nat)
    requires ValidLimit(w.limit) && path in w.files && path !in w.handles && Slashed(path) && path != "/"
    requires d <= CACHE_TTL
    ensures var listed := Next(w, ReadDir(DirOf(path)), Ended(0));
            var asked := Next(Next(listed, Wait(d), Ended(0)), GetAttr(path), Ended(0));
            && Reply(Next(listed, Wait(d), Ended(0)), GetAttr(path), Ended(0)) == Stat(|w.files[path]|)
            && (Enabled(Next(asked, Wait(e), Ended(0)), Open(path)) <==> d + e <= CACHE_TTL)
  {
    hide LastOf;
  }

  /** A stat that has to look a file up makes it possible to open it for 60 seconds, the last one included. */
  lemma OpenAfterStat(w: World, path: string, d: nat)
    requires ValidLimit(w.limit) && path in w.files && path !in w.handles && Slashed(path) && path != "/"
    requires path in w.cache ==> w.cache[path].cachedSince + 60 < w.now
    ensures var asked := Next(w, GetAttr(path), Ended(0));
            && Reply(w, GetAttr(path), Ended(0)) == Stat(|w.files[path]|)
            && (Enabled(Next(asked, Wait(d), Ended(0)), Open(path)) <==> d <= 60)
  {
    hide LastOf;
  }

  /** A stat is answered from the cache up to an age of 60 seconds, and looks the file up from 61 seconds on. */
  lemma LastFreshSecond(w: World, path: string, node: CacheNode)
    requires ValidLimit(w.limit) && path in w.files && Slashed(path) && path != "/"
    requires path in w.cache && w.cache[path] == node && node.size != |w.files[path]| && node.cachedSince <= w.now
    ensures Reply(w, GetAttr(path), Ended(0)) == Stat(node.size) <==> w.now - node.cachedSince <= 60
    ensures Reply(w, GetAttr(path), Ended(0)) == Stat(|w.files[path]|) <==> w.now - node.cachedSince >= 61
  {
    hide LastOf;
  }

  /** So an open can come too late, although a stat has just found the file: a listing, 50 seconds, a stat that is
      answered from the cache, 30 seconds more, and the source dereferences a null pointer. */
  lemma OpenTooLate(w: World, path: string)
    requires ValidLimit(w.limit) && path in w.files && path !in w.handles && path != "/"
    requires NamesFile(w, path) && path !in w.torn
    ensures var waited := Next(Next(w, ReadDir(DirOf(path)), Ended(0)), Wait(50), Ended(0));
            var late := Next(Next(waited, GetAttr(path), Ended(0)), Wait(30), Ended(0));
            && Enabled(w, ReadDir(DirOf(path)))
            && Enabled(waited, GetAttr(path)) && Reply(waited, GetAttr(path), Ended(0)) == Stat(|w.files[path]|)
            && path in late.files && path !in late.handles && !Enabled(late, Open(path))
  {
    hide LastOf;
    var listed := Next(w, ReadDir(DirOf(path)), Ended(0));
    assert IsFolder(listed, path) <==> IsFolder(w, path);
    assert IsFolder(Next(listed, Wait(50), Ended(0)), path) <==> IsFolder(w, path);
    assert Slashed(path);
  }
}
