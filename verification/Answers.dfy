/** What the answers of calls mean: what one call has written, cut, renamed or linked, the next ones find. */
module Answers {
  import opened Bytes
  import opened PartNames
  import opened Layout
  import opened HexHash
  import opened Listing
  import opened Storages
  import opened RestClient
  import opened Logical
  import opened FileNode
  import opened StatCache
  import opened ShareLinks
  import opened FileSystem

  // ---- reading what was written ----

  /** The answer to a read of an open file. */
  function ReadReply(w: World, path: string, size: nat, offset: nat): Answer {
    Reply(w, Call.Read(path, size, offset), Ended(0))
  }

  /** A read answers the bytes there are from the offset on, and how many. */
  lemma ReadAnswers(w: World, path: string, size: nat, offset: nat)
    requires path in w.handles
    ensures var a, c := ReadReply(w, path, size, offset), w.handles[path].content;
            && a.Bytes? && a.count == Int32(|a.bytes|)
            && |a.bytes| == Max(0, Min(size, |c| - offset))
            && forall j :: 0 <= j < |a.bytes| ==> a.bytes[j] == c[offset + j]
  {
    ReadAtBytes(w.handles[path].content, size, offset);
    hide ReadAt;
  }

  /** What is written is read back, by that handle and no other, and counted. */
  lemma WriteThenRead(w: World, path: string, buf: Content, offset: nat, other: string, size: nat, at: nat)
    requires ValidLimit(w.limit) && path in w.handles
    ensures var call := Call.Write(path, buf, offset);
            var w', c := Next(w, call, Ended(0)), w.handles[path].content;
            && Reply(w, call, Ended(0)) == Answer.Count(Int32(|buf|))
            && (buf != [] ==> ReadReply(w', path, |buf|, offset) == Answer.Bytes(buf, Int32(|buf|)))
            && Reply(w', GetAttrOpen(path), Ended(0))
               == Stat(if w.onDisk && buf == [] then |c| else Max(|c|, offset + |buf|))
            && (other != path ==> ReadReply(w', other, size, at) == ReadReply(w, other, size, at))
  {
    hide Put, ReadAt;
    var c, c' := w.handles[path].content, Put(w.onDisk, w.handles[path].content, buf, offset);
    PutBytes(w.onDisk, c, buf, offset);
    ReadAtBytes(c', |buf|, offset);
    if buf != [] {
      assert ReadAt(c', |buf|, offset) == buf;
    }
  }

  /** Bytes the write has not reached are read as before. */
  lemma WriteKeepsRest(w: World, path: string, buf: Content, offset: nat, size: nat, at: nat)
    requires ValidLimit(w.limit) && path in w.handles
    requires at + size <= |w.handles[path].content| && (at + size <= offset || offset + |buf| <= at)
    ensures ReadReply(Next(w, Call.Write(path, buf, offset), Ended(0)), path, size, at) == ReadReply(w, path, size, at)
  {
    hide Put, ReadAt;
    var c, c' := w.handles[path].content, Put(w.onDisk, w.handles[path].content, buf, offset);
    PutBytes(w.onDisk, c, buf, offset);
    ReadAtBytes(c, size, at);
    ReadAtBytes(c', size, at);
    assert ReadAt(c', size, at) == ReadAt(c, size, at);
  }

  /** After a truncation the file has the size asked for, and what is within it is read as before. */
  lemma TruncateThenRead(w: World, path: string, n: nat, size: nat, at: nat)
    requires ValidLimit(w.limit) && path in w.handles
    ensures var w', c := Next(w, Call.Truncate(path, n), Ended(0)), w.handles[path].content;
            && Reply(w', GetAttrOpen(path), Ended(0)) == Stat(n)
            && (at + size <= n && at + size <= |c| ==> ReadReply(w', path, size, at) == ReadReply(w, path, size, at))
            && (|c| <= at && at + size <= n ==> ReadReply(w', path, size, at).bytes == Zeros(size))
  {
    hide ReadAt, StillCovers, Updated;
    var c := w.handles[path].content;
    if at + size <= n {
      KeptIsRead(c, n, size, at);
      ReadAtBytes(Resize(c, n), size, at);
      assert |c| <= at ==> ReadAt(Resize(c, n), size, at) == Zeros(size);
    }
  }

  // ---- closing and opening again ----

  /** A handle that covers its file is flushed, be it with failures that are survived, and closed; the directory is
      listed, and within a minute the file is opened: it shows its size and reads what was written, byte for byte
      unless that is tiny. */
  lemma CloseToOpen(w: World, path: string, faults: seq<Fault>, since: Option<nat>, strays: set<CloudFile>, d: nat)
    requires ValidLimit(w.limit) && path in w.handles && LogicalPath(path) && LinkTarget(path).None?
    requires w.handles[path].dirty && w.handles[path].covers && d <= 60
    requires Possible(w, Call.Flush(path, faults), Outcome(0, {}, since))
    ensures var c, listing := w.handles[path].content, Outcome(0, strays, None);
            var closed := Next(Next(w, Call.Flush(path, faults), Outcome(0, {}, since)), Release(path), Ended(0));
            var later := Next(Next(closed, ReadDir(DirOf(path)), listing), Wait(d), Ended(0));
            && Storable(c) && (|c| > 20 ==> Stored(c) == c)
            && Enabled(closed, ReadDir(DirOf(path)))
            && CloudFile(NameOf(path), |c|) in Reply(closed, ReadDir(DirOf(path)), listing).entries
            && Enabled(later, Call.Open(path))
            && ReadReply(Next(later, Call.Open(path), Ended(0)), path, |c|, 0) == Answer.Bytes(Stored(c), Int32(|c|))
  {
    hide Next, Possible, Enabled, Reply, Storable, Stored, LogicalPath, LinkTarget;
    var c := w.handles[path].content;
    FlushGetsThrough(w, path, faults, since);
    var flushed := Next(w, Call.Flush(path, faults), Outcome(0, {}, since));
    Reopened(Next(flushed, Release(path), Ended(0)), path, Stored(c), strays, d);
  }

  lemma FlushGetsThrough(w: World, path: string, faults: seq<Fault>, since: Option<nat>)
    requires ValidLimit(w.limit) && path in w.handles && LinkTarget(path).None?
    requires w.handles[path].dirty && w.handles[path].covers
    requires Possible(w, Call.Flush(path, faults), Outcome(0, {}, since))
    ensures var c, closed := w.handles[path].content,
                             Next(Next(w, Call.Flush(path, faults), Outcome(0, {}, since)), Release(path), Ended(0));
            && Storable(c) && (|c| > 20 ==> Stored(c) == c)
            && path in closed.files && closed.files[path] == Stored(c) && path !in closed.handles
  {
    hide RetryCode, Storable, LinkTarget, FlushCalls, Stored, Updated;
    var h := w.handles[path];
    RetryCodeIs(faults, FlushCalls(h.size, |h.content|, w.limit), Storable(h.content), RETRIES);
    BigIsKept(h.content);
  }

  lemma BigIsKept(c: Content)
    ensures |c| > 20 ==> Stored(c) == c
  {
  }

  lemma Reopened(w: World, path: string, c: Content, strays: set<CloudFile>, d: nat)
    requires ValidLimit(w.limit) && LogicalPath(path) && path in w.files && w.files[path] == c
    requires path !in w.handles && d <= 60
    ensures var listing := Outcome(0, strays, None);
            var later := Next(Next(w, ReadDir(DirOf(path)), listing), Wait(d), Ended(0));
            && Enabled(w, ReadDir(DirOf(path)))
            && CloudFile(NameOf(path), |c|) in Reply(w, ReadDir(DirOf(path)), listing).entries
            && Enabled(later, Call.Open(path))
            && ReadReply(Next(later, Call.Open(path), Ended(0)), path, |c|, 0) == Answer.Bytes(c, Int32(|c|))
  {
    hide DirOf, NameOf, LogicalPath, ReadAt, Enabled, Reply, Next;
    var listed := w.(cache := Listed(w.cache, w.files, DirOf(path), w.now));
    JustListed(w, path, strays);
    Waiting(listed, d);
    OpenedAndRead(listed.(now := w.now + d), path, c);
  }

  lemma JustListed(w: World, path: string, strays: set<CloudFile>)
    requires ValidLimit(w.limit) && LogicalPath(path) && path in w.files
    ensures var listing, cache := Outcome(0, strays, None), Listed(w.cache, w.files, DirOf(path), w.now);
            && Enabled(w, ReadDir(DirOf(path))) && Next(w, ReadDir(DirOf(path)), listing) == w.(cache := cache)
            && CloudFile(NameOf(path), |w.files[path]|) in Reply(w, ReadDir(DirOf(path)), listing).entries
            && path in cache && cache[path] == CacheNode(|w.files[path]|, w.now)
  {
    assert IsDir(DirOf(path));
    hide DirOf, NameOf, IsDir, LogicalPath, EntriesOf;
    EntryOf(w.files, path);
  }

  lemma Waiting(w: World, d: nat)
    requires ValidLimit(w.limit)
    ensures Next(w, Wait(d), Ended(0)) == w.(now := w.now + d)
  {
  }

  lemma OpenedAndRead(w: World, path: string, c: Content)
    requires ValidLimit(w.limit) && path in w.files && w.files[path] == c && path !in w.handles
    requires path in w.cache && w.cache[path].size == |c| && w.now <= w.cache[path].cachedSince + 60
    ensures Enabled(w, Call.Open(path))
    ensures ReadReply(Next(w, Call.Open(path), Ended(0)), path, |c|, 0) == Answer.Bytes(c, Int32(|c|))
  {
    hide ReadAt;
    AllRead(c);
  }

  lemma EntryOf(files: Files, path: string)
    requires path in files
    ensures CloudFile(NameOf(path), |files[path]|) in EntriesOf(files, DirOf(path))
  {
    hide DirOf, NameOf;
  }

  lemma AllRead(c: Content)
    ensures ReadAt(c, |c|, 0) == c
  {
  }

  // ---- a whole program ----

  /** The program can be run to its end, and whatever comes to light on the way, it gets these answers. */
  ghost predicate Plays(w: World, calls: seq<Call>, answers: seq<Answer>)
    requires ValidLimit(w.limit)
  {
    && AllEnabled(w, calls)
    && forall outcomes :: |outcomes| == |calls| && Feasible(w, calls, outcomes) ==>
         RunAnswers(w, calls, outcomes) == answers
  }

  lemma PlaysNothing(w: World)
    requires ValidLimit(w.limit)
    ensures Plays(w, [], [])
  {
  }

  lemma PlaysFirst(w: World, call: Call, rest: seq<Call>, answer: Answer, answers: seq<Answer>)
    requires ValidLimit(w.limit) && w.torn == {} && Enabled(w, call) && CodeOf(w, call) == 0
    requires Reply(w, call, Ended(0)) == answer && Plays(Next(w, call, Ended(0)), rest, answers)
    ensures Plays(w, [call] + rest, [answer] + answers)
  {
    hide Enabled, Next, Reply, Possible, CodeOf, AllEnabled, Feasible, RunAnswers;
    var calls := [call] + rest;
    assert calls[0] == call && calls[1..] == rest;
    forall o | Possible(w, call, o)
      ensures o == Ended(0)
    {
      OneOutcome(w, call, o);
    }
    EnabledFirst(w, calls);
    forall outcomes | |outcomes| == |calls| && Feasible(w, calls, outcomes)
      ensures RunAnswers(w, calls, outcomes) == [answer] + answers
    {
      FirstAnswer(w, calls, outcomes);
    }
  }

  lemma EnabledFirst(w: World, calls: seq<Call>)
    requires ValidLimit(w.limit) && calls != [] && Enabled(w, calls[0])
    requires forall o :: Possible(w, calls[0], o) ==> o == Ended(0)
    requires AllEnabled(Next(w, calls[0], Ended(0)), calls[1..])
    ensures AllEnabled(w, calls)
  {
    hide Enabled, Next, Possible;
  }

  lemma FirstAnswer(w: World, calls: seq<Call>, outcomes: seq<Outcome>)
    requires ValidLimit(w.limit) && calls != [] && |outcomes| == |calls| && Feasible(w, calls, outcomes)
    ensures Possible(w, calls[0], outcomes[0])
    ensures Feasible(Next(w, calls[0], outcomes[0]), calls[1..], outcomes[1..])
    ensures RunAnswers(w, calls, outcomes)
            == [Reply(w, calls[0], outcomes[0])]
               + RunAnswers(Next(w, calls[0], outcomes[0]), calls[1..], outcomes[1..])
  {
    hide Next, Possible, Reply;
  }

  /** While no path is in disarray nothing comes to light but the code. */
  lemma OneOutcome(w: World, call: Call, o: Outcome)
    requires ValidLimit(w.limit) && w.torn == {} && Possible(w, call, o)
    ensures o == Ended(CodeOf(w, call))
  {
    hide CodeOf;
    assert o.strays == {} by {
      assert forall f :: f !in o.strays;
    }
  }

  /** An empty mount. */
  function Mounted(limit: nat, onDisk: bool, links: string -> Content, folders: set<string>): World {
    World(limit, onDisk, links, folders, map[], map[], map[], 0, {})
  }

  /** A file is looked for in its directory, opened and read. */
  function Reading(path: string, n: nat): seq<Call> {
    [ReadDir(DirOf(path))] + ([Call.Open(path)] + ([Call.Read(path, n, 0)] + []))
  }

  function ReadingAnswers(path: string, c: Content): seq<Answer> {
    [Entries({CloudFile(NameOf(path), |c|)})] + ([Success] + ([Answer.Bytes(c, |c|)] + []))
  }

  /** For every limit and every content below 2 GiB that the cloud takes, be it stored in parts: a new file is created,
      written, flushed and closed; whoever lists its directory finds it with its size, and opening it reads it. */
  lemma WholeLife(w: World, path: string, c: Content)
    requires ValidLimit(w.limit) && w == Mounted(w.limit, w.onDisk, w.links, w.folders)
    requires LogicalPath(path) && path !in w.folders && LinkTarget(path).None?
    requires |c| < 0x8000_0000 && Storable(c)
    ensures Plays(w, [Mknod(path, []), ReadDir(DirOf(path)), Call.Open(path), Call.Write(path, c, 0),
                      Call.Flush(path, []), Release(path), ReadDir(DirOf(path)), Call.Open(path),
                      Call.Read(path, |c|, 0)],
                  [Success, Entries({CloudFile(NameOf(path), 0)}), Success, Answer.Count(|c|),
                   Success, Success, Entries({CloudFile(NameOf(path), |c|)}), Success,
                   Answer.Bytes(Stored(c), |c|)])
    ensures |c| > 20 ==> Stored(c) == c
  {
    hide *;
    var w1 := w.(files := map[path := []]);
    Creation(w, path);
    BigIsKept(c);
    Filling(w1, path, c);
    var calls, answers := Fill(path, c), FillAnswers(path, c);
    PlaysFirst(w, Mknod(path, []), calls, Success, answers);
    LifeIs(path, c);
  }

  /** From the first listing on. */
  function Fill(path: string, c: Content): seq<Call> {
    [ReadDir(DirOf(path))] + ([Call.Open(path)] + ([Call.Write(path, c, 0)] + Closing(path, c)))
  }

  function FillAnswers(path: string, c: Content): seq<Answer> {
    [Entries({CloudFile(NameOf(path), 0)})] + ([Success] + ([Answer.Count(|c|)] + ClosingAnswers(path, c)))
  }

  /** From the flush on. */
  function Closing(path: string, c: Content): seq<Call> {
    [Call.Flush(path, [])] + ([Release(path)] + Reading(path, |c|))
  }

  function ClosingAnswers(path: string, c: Content): seq<Answer> {
    [Success] + ([Success] + ReadingAnswers(path, Stored(c)))
  }

  lemma LifeIs(path: string, c: Content)
    ensures [Mknod(path, [])] + Fill(path, c)
            == [Mknod(path, []), ReadDir(DirOf(path)), Call.Open(path), Call.Write(path, c, 0),
                Call.Flush(path, []), Release(path), ReadDir(DirOf(path)), Call.Open(path), Call.Read(path, |c|, 0)]
    ensures [Success] + FillAnswers(path, c)
            == [Success, Entries({CloudFile(NameOf(path), 0)}), Success, Answer.Count(|c|),
                Success, Success, Entries({CloudFile(NameOf(path), |c|)}), Success, Answer.Bytes(Stored(c), |c|)]
  {
    hide Stored, DirOf, NameOf;
  }

  lemma Filling(w: World, path: string, c: Content)
    requires ValidLimit(w.limit) && w.files == map[path := []] && w.torn == {} && w.cache == map[] && w.handles == map[]
    requires LogicalPath(path) && LinkTarget(path).None? && Storable(c) && |c| < 0x8000_0000
    ensures Plays(w, Fill(path, c), FillAnswers(path, c))
  {
    hide Plays, Enabled, CodeOf, Reply, Next, LogicalPath, DirOf, NameOf, Storable, Stored, LinkTarget, Closing,
         ClosingAnswers, Opened;
    var w2 := w.(cache := map[path := CacheNode(0, w.now)]);
    var w3 := w2.(handles := map[path := Opened([])]);
    var w4 := w3.(handles := map[path := Handle(c, c != [], 0, true, None)]);
    FirstListing(w, path, []);
    FirstOpen(w2, path, []);
    FirstWrite(w3, path, c);
    ClosingPlays(w4, path, c);
    PlaysFirst(w3, Call.Write(path, c, 0), Closing(path, c), Answer.Count(|c|), ClosingAnswers(path, c));
    PlaysFirst(w2, Call.Open(path), [Call.Write(path, c, 0)] + Closing(path, c), Success,
               [Answer.Count(|c|)] + ClosingAnswers(path, c));
    PlaysFirst(w, ReadDir(DirOf(path)), [Call.Open(path)] + ([Call.Write(path, c, 0)] + Closing(path, c)),
               Entries({CloudFile(NameOf(path), 0)}), [Success] + ([Answer.Count(|c|)] + ClosingAnswers(path, c)));
  }

  lemma ClosingPlays(w: World, path: string, c: Content)
    requires ValidLimit(w.limit) && w.files == map[path := []] && w.torn == {}
    requires w.cache == map[path := CacheNode(0, w.now)] && w.handles == map[path := Handle(c, c != [], 0, true, None)]
    requires LogicalPath(path) && LinkTarget(path).None? && Storable(c) && |c| < 0x8000_0000
    ensures Plays(w, Closing(path, c), ClosingAnswers(path, c))
  {
    hide Plays, Enabled, CodeOf, Reply, Next, LogicalPath, DirOf, NameOf, Storable, Stored, LinkTarget, Clean,
         Reading, ReadingAnswers;
    var clean := Clean(Handle(c, c != [], 0, true, None));
    var w1 := w.(files := map[path := Stored(c)], handles := map[path := clean],
                 cache := map[path := CacheNode(|c|, w.now)]);
    FirstFlush(w, path, c);
    FirstRelease(w1, path);
    ReadingPlays(w1.(handles := map[]), path, Stored(c));
    PlaysFirst(w1, Release(path), Reading(path, |c|), Success, ReadingAnswers(path, Stored(c)));
    PlaysFirst(w, Call.Flush(path, []), [Release(path)] + Reading(path, |c|), Success,
               [Success] + ReadingAnswers(path, Stored(c)));
  }

  lemma ReadingPlays(w: World, path: string, c: Content)
    requires ValidLimit(w.limit) && w.files == map[path := c] && w.torn == {} && w.cache.Keys <= {path}
    requires w.handles == map[] && LogicalPath(path) && |c| < 0x8000_0000
    ensures Plays(w, Reading(path, |c|), ReadingAnswers(path, c))
  {
    hide Plays, Enabled, CodeOf, Reply, Next, LogicalPath, DirOf, NameOf, Opened;
    var w2 := w.(cache := map[path := CacheNode(|c|, w.now)]);
    var w3 := w2.(handles := map[path := Opened(c)]);
    FirstListing(w, path, c);
    FirstOpen(w2, path, c);
    LastRead(w3, path, c);
    PlaysNothing(Next(w3, Call.Read(path, |c|, 0), Ended(0)));
    PlaysFirst(w3, Call.Read(path, |c|, 0), [], Answer.Bytes(c, |c|), []);
    PlaysFirst(w2, Call.Open(path), [Call.Read(path, |c|, 0)] + [], Success, [Answer.Bytes(c, |c|)] + []);
    PlaysFirst(w, ReadDir(DirOf(path)), [Call.Open(path)] + ([Call.Read(path, |c|, 0)] + []),
               Entries({CloudFile(NameOf(path), |c|)}), [Success] + ([Answer.Bytes(c, |c|)] + []));
  }

  lemma FirstRelease(w: World, path: string)
    requires ValidLimit(w.limit) && path in w.handles && w.handles.Keys == {path}
    ensures Enabled(w, Release(path)) && CodeOf(w, Release(path)) == 0
    ensures Reply(w, Release(path), Ended(0)) == Success
    ensures Next(w, Release(path), Ended(0)) == w.(handles := map[])
  {
    assert w.handles - {path} == map[];
  }

  lemma SmallInt(c: Content)
    requires |c| < 0x8000_0000
    ensures Int32(|c|) == |c|
  {
  }

  lemma NoFolder(w: World, path: string)
    requires w.files.Keys + w.torn <= {path} && path !in w.folders
    ensures !IsFolder(w, path)
  {
  }

  lemma Creation(w: World, path: string)
    requires ValidLimit(w.limit) && w == Mounted(w.limit, w.onDisk, w.links, w.folders)
    requires LogicalPath(path) && path !in w.folders
    ensures Enabled(w, Mknod(path, [])) && CodeOf(w, Mknod(path, [])) == 0
    ensures Reply(w, Mknod(path, []), Ended(0)) == Success
    ensures Next(w, Mknod(path, []), Ended(0)) == w.(files := map[path := []])
    ensures w.torn == {} && w.cache == map[] && w.handles == map[]
  {
    hide LogicalPath;
    NoFolder(w, path);
    assert RowStatus([], 1) == Ok;
  }

  lemma FirstListing(w: World, path: string, c: Content)
    requires ValidLimit(w.limit) && w.files == map[path := c] && w.cache.Keys <= {path} && LogicalPath(path)
    ensures Enabled(w, ReadDir(DirOf(path))) && CodeOf(w, ReadDir(DirOf(path))) == 0
    ensures Reply(w, ReadDir(DirOf(path)), Ended(0)) == Entries({CloudFile(NameOf(path), |c|)})
    ensures Next(w, ReadDir(DirOf(path)), Ended(0)) == w.(cache := map[path := CacheNode(|c|, w.now)])
  {
    assert IsDir(DirOf(path));
    hide DirOf, NameOf, LogicalPath, EntriesOf, Listed, IsDir;
    OneEntry(path, c);
    OneListed(w.cache, path, c, w.now);
    assert {CloudFile(NameOf(path), |c|)} + {} == {CloudFile(NameOf(path), |c|)};
  }

  lemma OneEntry(path: string, c: Content)
    ensures EntriesOf(map[path := c], DirOf(path)) == {CloudFile(NameOf(path), |c|)}
  {
    hide DirOf, NameOf;
  }

  lemma OneListed(cache: map<string, CacheNode>, path: string, c: Content, now: nat)
    requires cache.Keys <= {path}
    ensures Listed(cache, map[path := c], DirOf(path), now) == map[path := CacheNode(|c|, now)]
  {
    hide DirOf;
  }

  lemma FirstOpen(w: World, path: string, c: Content)
    requires ValidLimit(w.limit) && w.files == map[path := c] && w.cache == map[path := CacheNode(|c|, w.now)]
    requires w.handles == map[]
    ensures Enabled(w, Call.Open(path)) && CodeOf(w, Call.Open(path)) == 0
    ensures Reply(w, Call.Open(path), Ended(0)) == Success
    ensures Next(w, Call.Open(path), Ended(0)) == w.(handles := map[path := Opened(c)])
  {
  }

  lemma FirstWrite(w: World, path: string, c: Content)
    requires ValidLimit(w.limit) && w.handles == map[path := Opened([])] && |c| < 0x8000_0000
    ensures Enabled(w, Call.Write(path, c, 0)) && CodeOf(w, Call.Write(path, c, 0)) == 0
    ensures Reply(w, Call.Write(path, c, 0), Ended(0)) == Answer.Count(|c|)
    ensures Next(w, Call.Write(path, c, 0), Ended(0))
            == w.(handles := map[path := Handle(c, c != [], 0, true, None)])
  {
    hide Put;
    PutBytes(w.onDisk, [], c, 0);
    assert Put(w.onDisk, [], c, 0) == c;
    SmallInt(c);
  }

  lemma FirstFlush(w: World, path: string, c: Content)
    requires ValidLimit(w.limit) && w.files == map[path := []] && w.torn == {}
    requires w.cache == map[path := CacheNode(0, w.now)] && w.handles == map[path := Handle(c, c != [], 0, true, None)]
    requires LinkTarget(path).None? && Storable(c)
    ensures var clean := Clean(Handle(c, c != [], 0, true, None));
            && Enabled(w, Call.Flush(path, [])) && CodeOf(w, Call.Flush(path, [])) == 0
            && Reply(w, Call.Flush(path, []), Ended(0)) == Success
            && Next(w, Call.Flush(path, []), Ended(0))
               == w.(files := map[path := Stored(c)], handles := map[path := clean],
                     cache := map[path := CacheNode(|c|, w.now)])
  {
    hide LinkTarget, Storable, FlushCalls, RetryCode, AfterUpload, AfterFlush;
    var calls := FlushCalls(0, |c|, w.limit);
    NoFailures();
    RetryCodeIs([], calls, true, RETRIES);
    FirstUpload(w, path, c);
    assert AfterFlush(w, path, None) == AfterUpload(w, path, None) by {
      NoLinks(w, path);
    }
  }

  lemma NoLinks(w: World, path: string)
    requires ValidLimit(w.limit) && LinkTarget(path).None?
    ensures AfterFlush(w, path, None) == AfterUpload(w, path, None) && AfterLinks(w, path) == w
  {
    hide AfterUpload, LinkTarget;
  }

  lemma FirstUpload(w: World, path: string, c: Content)
    requires w.files == map[path := []] && w.torn == {} && w.cache == map[path := CacheNode(0, w.now)]
    requires w.handles == map[path := Handle(c, c != [], 0, true, None)]
    ensures AfterUpload(w, path, None)
            == w.(files := map[path := Stored(c)], handles := map[path := Clean(Handle(c, c != [], 0, true, None))],
                  cache := map[path := CacheNode(|c|, w.now)])
  {
    NothingStored();
    hide Stored, Clean;
  }

  lemma NothingStored()
    ensures Stored([]) == []
  {
  }

  lemma NoFailures()
    ensures Failures([]) == [] && AllServerErrors([])
  {
  }

  lemma LastRead(w: World, path: string, c: Content)
    requires ValidLimit(w.limit) && w.handles == map[path := Opened(c)] && |c| < 0x8000_0000
    ensures Enabled(w, Call.Read(path, |c|, 0)) && CodeOf(w, Call.Read(path, |c|, 0)) == 0
    ensures Reply(w, Call.Read(path, |c|, 0), Ended(0)) == Answer.Bytes(c, |c|)
  {
    SmallInt(c);
    AllRead(c);
  }

  // ---- renaming and linking ----

  /** A file that was renamed, over another one or not, is found and read at its new path. */
  lemma RenameThenRead(w: World, a: string, b: string, flags: RenameFlags, strays: set<CloudFile>)
    requires ValidLimit(w.limit) && a in w.files && !(b in w.files && flags.noReplace)
    requires LogicalPath(b) && b !in w.handles && a != b
    ensures var w', c := Next(w, Call.Rename(a, b, flags), Ended(0)), w.files[a];
            var listed := Next(w', ReadDir(DirOf(b)), Outcome(0, strays, None));
            && CodeOf(w, Call.Rename(a, b, flags)) == 0
            && Enabled(w', ReadDir(DirOf(b))) && Enabled(listed, Call.Open(b))
            && ReadReply(Next(listed, Call.Open(b), Ended(0)), b, |c|, 0) == Answer.Bytes(c, Int32(|c|))
            && (!(b in w.files && flags.exchange) ==> a !in w'.files)
  {
    hide Next, CodeOf, Enabled, ReadReply, LogicalPath, DirOf;
    var w' := Next(w, Call.Rename(a, b, flags), Ended(0));
    RenamedWorld(w, a, b, flags);
    Reopened(w', b, w.files[a], strays, 0);
    Waiting(Next(w', ReadDir(DirOf(b)), Outcome(0, strays, None)), 0);
  }

  lemma RenamedWorld(w: World, a: string, b: string, flags: RenameFlags)
    requires ValidLimit(w.limit) && a in w.files && !(b in w.files && flags.noReplace) && a != b
    ensures CodeOf(w, Call.Rename(a, b, flags)) == 0
    ensures var w' := Next(w, Call.Rename(a, b, flags), Ended(0));
            && b in w'.files && w'.files[b] == w.files[a] && w'.handles == w.handles && w'.limit == w.limit
            && (!(b in w.files && flags.exchange) ==> a !in w'.files)
  {
    hide RenameCache;
  }

  /** A file that was unlinked is not found any more. */
  lemma UnlinkThenStat(w: World, path: string, faults: seq<Fault>)
    requires ValidLimit(w.limit) && path in w.files && LogicalPath(path)
    requires CodeOf(w, Call.Unlink(path, faults)) == 0
    ensures var w' := Next(w, Call.Unlink(path, faults), Ended(0));
            CodeOf(w', GetAttr(path)) == -2 && Reply(w', GetAttr(path), Ended(-2)) == Error(-2)
  {
    hide RetryCode, LookedUp, LastOf;
    assert Slashed(path) && path != "/" by {
      HasSlash(path);
    }
  }

  lemma HasSlash(path: string)
    requires LogicalPath(path)
    ensures Slashed(path) && path != "/"
  {
  }

  /** A rename answers -2 without a source, -17 if there is a target that may not be replaced, and else succeeds. */
  lemma RenameAnswers(w: World, a: string, b: string, flags: RenameFlags)
    requires ValidLimit(w.limit)
    ensures var call := Call.Rename(a, b, flags);
            var o := Ended(CodeOf(w, call));
            && Reply(w, call, o) == (if a !in w.files then Error(-2)
                                     else if b in w.files && flags.noReplace then Error(-17)
                                     else Success)
            && (o.code != 0 ==> Next(w, call, o).files == w.files)
  {
    hide RenameCache;
  }

  /** Flushing a link file leaves one line in it for each object of the file it stands for, in order, which names
      the object and then its link; half a line if there is no such file. */
  lemma LinksAreRead(w: World, path: string)
    requires ValidLimit(w.limit) && path in w.handles && LinkTarget(path).Some? && SevenBit(path)
    requires forall key :: 10 !in w.links(key)
    ensures var orig, text := LinkTarget(path).value, AfterLinks(w, path).handles[path].content;
            if orig !in w.files then |text| == |orig| + 2 && Spells(text, 0, orig + ": ")
            else
              var size := |w.files[orig]|;
              && text[|text| - 1] == 10 && |Lines(text)| == NParts(size, w.limit)
              && forall i :: 0 <= i < NParts(size, w.limit) ==>
                   NamesObject(Lines(text)[i], KeyAt(orig, size, i, w.limit), w.links(KeyAt(orig, size, i, w.limit)))
  {
    var orig := LinkTarget(path).value;
    TargetPlain(path);
    FilledAnew(w, path);
    hide LinkTarget, AfterLinks, SevenBit, Spells, NamesObject, Lines, LinkLines, LinkHead;
    if orig in w.files {
      LinkLinesAre(orig, |w.files[orig]|, NParts(|w.files[orig]|, w.limit), w.links, w.limit);
      NotNothing(LinkText(w, orig), NParts(|w.files[orig]|, w.limit));
    } else {
      HalfLine(orig);
    }
  }

  lemma NotNothing(text: Content, n: nat)
    requires |Lines(text)| == n && n > 0
    ensures text != []
  {
  }

  lemma TargetPlain(path: string)
    requires LinkTarget(path).Some? && SevenBit(path)
    ensures SevenBit(LinkTarget(path).value) && '\n' !in LinkTarget(path).value
  {
    hide LastLink;
    NoLineEndIff(path);
  }

  /** A link file holds the text and nothing of what was there before. */
  lemma FilledAnew(w: World, path: string)
    requires ValidLimit(w.limit) && path in w.handles && LinkTarget(path).Some?
    ensures path in AfterLinks(w, path).handles
    ensures AfterLinks(w, path).handles[path].content == LinkText(w, LinkTarget(path).value)
    ensures AfterLinks(w, path).handles[path].dirty
  {
    hide LinkTarget, LinkText, LookedUp, StillCovers, Put;
    var text := LinkText(w, LinkTarget(path).value);
    PutBytes(w.onDisk, [], text, 0);
    assert Put(w.onDisk, [], text, 0) == text;
  }
}
