/** The state between callbacks as plain values, and what each callback does to it. */
module FuseState {
  import opened Bytes
  import opened PartNames
  import opened Layout
  import opened HexHash
  import opened Listing
  import opened Storages
  import opened RestClient
  import opened Logical
  import opened FileNode
  import opened StatCache
  import opened FS = FileSystem
  import opened Renames

  type States = map<string, Handle>

  ghost predicate Matches(h: Handle, node: MarcFileNode)
    reads node
  {
    h.content == node.cachedContent && h.dirty == node.dirty && h.size == node.oldFileSize
  }

  /** How an open node relates to the cloud: unless its path is given up, its flush reaches all objects. */
  ghost predicate NodeFits(objs: Objects, files: Files, torn: set<string>, path: string, s: Handle, m: nat)
    requires ValidLimit(m)
  {
    var c := s.content;
    && LogicalPath(path) && |c| <= OFF_MAX && s.size <= |c|
    && (path in files || path in torn)
    && (s.covers || path in torn)
    && (s.covers ==> OwnedWithin(objs, path, FlushKeys(path, s.size, |c|, m)))
  }

  ghost predicate AllFit(objs: Objects, files: Files, torn: set<string>, states: States, m: nat)
    requires ValidLimit(m)
  {
    forall p :: p in states ==> NodeFits(objs, files, torn, p, states[p], m)
  }

  ghost predicate Bounded(files: Files) {
    forall p :: p in files ==> |files[p]| <= OFF_MAX
  }

  /** What holds between calls: the cloud stores the files, and the open nodes know their objects. */
  ghost predicate Consistent(objs: Objects, files: Files, torn: set<string>, states: States, m: nat) {
    && ValidLimit(m)
    && Stores(objs, files, torn, m)
    && Bounded(files)
    && AllFit(objs, files, torn, states, m)
  }

  /** One node changed, the cloud did not. */
  lemma NodeChanged(objs: Objects, files: Files, torn: set<string>, states: States, path: string, s: Handle, m: nat)
    requires Consistent(objs, files, torn, states - {path}, m)
    requires NodeFits(objs, files, torn, path, s, m)
    ensures Consistent(objs, files, torn, states[path := s], m)
  {
    hide Stores, NodeFits, Bounded;
    var states' := states[path := s];
    forall p | p in states'
      ensures NodeFits(objs, files, torn, p, states'[p], m)
    {
      assert p != path ==> p in states - {path} && (states - {path})[p] == states[p];
    }
  }

  lemma NodeGone(objs: Objects, files: Files, torn: set<string>, states: States, path: string, m: nat)
    requires Consistent(objs, files, torn, states, m)
    ensures Consistent(objs, files, torn, states - {path}, m)
  {
    hide Stores, NodeFits, Bounded;
  }

  lemma NotOpen(states: States, path: string)
    requires path !in states
    ensures states - {path} == states
  {
  }

  lemma NodeFacts(objs: Objects, files: Files, torn: set<string>, states: States, path: string, m: nat)
    requires Consistent(objs, files, torn, states, m) && path in states
    ensures NodeFits(objs, files, torn, path, states[path], m)
    ensures LogicalPath(path) && states[path].size <= |states[path].content| <= OFF_MAX
  {
    hide Stores, Bounded, LogicalPath, OwnedWithin;
  }

  /** The cloud changed at the objects of some paths only; nothing is said yet about nodes open there. */
  lemma Elsewhere(objs: Objects, objs': Objects, files: Files, files': Files, torn: set<string>, torn': set<string>,
                  states: States, paths: set<string>, m: nat)
    requires Consistent(objs, files, torn, states, m)
    requires Stores(objs', files', torn', m) && Bounded(files')
    requires forall k :: Owner(k) !in paths ==> Lookup(objs', k) == Lookup(objs, k)
    requires forall p :: p !in paths ==> (p in files <==> p in files') && (p in torn <==> p in torn')
    ensures Consistent(objs', files', torn', states - paths, m)
  {
    hide Stores, Owner, Keys, FlushKeys, LogicalPath;
    forall p | p in states - paths
      ensures NodeFits(objs', files', torn', p, states[p], m)
    {
      assert NodeFits(objs, files, torn, p, states[p], m);
      OwnedSame(objs, objs', p, FlushKeys(p, states[p].size, |states[p].content|, m));
    }
  }

  lemma OwnedSame(objs: Objects, objs': Objects, path: string, keys: set<string>)
    requires forall k :: Owner(k) == path ==> Lookup(objs', k) == Lookup(objs, k)
    ensures OwnedWithin(objs, path, keys) ==> OwnedWithin(objs', path, keys)
  {
    hide Owner;
    if OwnedWithin(objs, path, keys) {
      forall k | k in objs' && Owner(k) == path
        ensures k in keys
      {
        assert Lookup(objs', k) == Lookup(objs, k);
      }
    }
  }

  lemma OutsideOwned(objs: Objects, objs': Objects, path: string, keys: set<string>)
    requires SameOutside(objs', objs, keys) && forall k :: k in keys ==> Owner(k) == path
    ensures forall k :: Owner(k) != path ==> Lookup(objs', k) == Lookup(objs, k)
  {
    hide Owner;
    forall k | Owner(k) != path
      ensures Lookup(objs', k) == Lookup(objs, k)
    {
      assert k in objs' <==> k in objs' - keys;
      assert k in objs <==> k in objs - keys;
    }
  }

  lemma FlushKeysOwned(path: string, oldSize: nat, size: nat, m: nat)
    requires ValidLimit(m) && LogicalPath(path)
    ensures forall k :: k in FlushKeys(path, oldSize, size, m) ==> Owner(k) == path
  {
    hide Owner, Keys, LogicalPath;
    KeysOwned(path, oldSize, m);
    KeysOwned(path, size, m);
  }

  // ---- paths in disarray ----

  /** The objects of one path are in disarray; a node open there may still reach them all. */
  lemma PathTorn(objs: Objects, objs': Objects, files: Files, torn: set<string>, states: States, path: string, m: nat)
    requires Consistent(objs, files, torn, states, m)
    requires forall k :: Owner(k) != path ==> Lookup(objs', k) == Lookup(objs, k)
    ensures Consistent(objs', files - {path}, torn + {path}, states - {path}, m)
  {
    hide Represents, Owner, Keys, LogicalPath, AllFit, Stores;
    assert Bounded(files - {path});
    StoresOthers(objs, objs', files, torn, {path}, m);
    Elsewhere(objs, objs', files, files - {path}, torn, torn + {path}, states, {path}, m);
  }

  /** A flush that gave up leaves a node that covers all that may be there now. */
  lemma FlushTears(objs: Objects, objs': Objects, files: Files, torn: set<string>, states: States,
                   path: string, m: nat)
    requires Consistent(objs, files, torn, states, m) && path in states
    requires var s := states[path];
             SameOutside(objs', objs, FlushKeys(path, s.size, |s.content|, m))
    ensures Consistent(objs', files - {path}, torn + {path}, states, m)
  {
    hide Stores, Owner, LogicalPath, FlushKeys, AllFit, Bounded;
    var s := states[path];
    var keys := FlushKeys(path, s.size, |s.content|, m);
    assert AllFit(objs, files, torn, states, m);
    NodeFacts(objs, files, torn, states, path, m);
    FlushKeysOwned(path, s.size, |s.content|, m);
    OutsideOwned(objs, objs', path, keys);
    PathTorn(objs, objs', files, torn, states, path, m);
    assert s.covers ==> OwnedWithin(objs', path, keys) by {
      StillWithin(objs, objs', path, keys);
    }
    hide Consistent;
    NodeChanged(objs', files - {path}, torn + {path}, states, path, s, m);
    assert states[path := s] == states;
  }

  lemma StillWithin(objs: Objects, objs': Objects, path: string, keys: set<string>)
    requires SameOutside(objs', objs, keys)
    ensures OwnedWithin(objs, path, keys) ==> OwnedWithin(objs', path, keys)
  {
    hide Owner;
    if OwnedWithin(objs, path, keys) {
      forall k | k in objs' && Owner(k) == path
        ensures k in keys
      {
        assert k in keys || (k in objs' - keys && k in objs - keys);
      }
    }
  }

  /** A closed path in disarray. */
  lemma ClosedTorn(objs: Objects, objs': Objects, files: Files, torn: set<string>, states: States,
                   path: string, keys: set<string>, m: nat)
    requires Consistent(objs, files, torn, states, m) && path !in states
    requires SameOutside(objs', objs, keys) && forall k :: k in keys ==> Owner(k) == path
    ensures Consistent(objs', files - {path}, torn + {path}, states, m)
  {
    hide Consistent, Owner;
    OutsideOwned(objs, objs', path, keys);
    PathTorn(objs, objs', files, torn, states, path, m);
    NotOpen(states, path);
  }

  // ---- calls on an open node ----

  lemma OpenKeeps(objs: Objects, files: Files, torn: set<string>, states: States, path: string, m: nat)
    requires Consistent(objs, files, torn, states, m) && path in files && path !in states
    ensures Consistent(objs, files, torn, states[path := Opened(files[path])], m)
    ensures Decode(objs, path, |files[path]|, m) == Some(files[path])
  {
    hide Owner, LogicalPath, Keys, AllFit;
    IncludesAll(objs, files, torn, path, m);
    OwnedOf(objs, files, torn, path, m);
    hide Stores;
    NotOpen(states, path);
    NodeChanged(objs, files, torn, states, path, Opened(files[path]), m);
  }

  lemma OwnedMore(objs: Objects, path: string, keys: set<string>, more: set<string>)
    requires OwnedWithin(objs, path, keys) && keys <= more
    ensures OwnedWithin(objs, path, more)
  {
  }

  lemma WriteKeeps(objs: Objects, files: Files, torn: set<string>, states: States,
                   onDisk: bool, path: string, buf: Content, offset: nat, m: nat)
    requires Consistent(objs, files, torn, states, m) && path in states && InRange(offset, |buf|)
    ensures var s := Written(onDisk, states[path], buf, offset);
            Consistent(objs, files, torn, states[path := s], m)
  {
    hide Stores, LogicalPath, Put, Owner, FlushKeys, AllFit, Bounded;
    var s, s' := states[path], Written(onDisk, states[path], buf, offset);
    NodeFacts(objs, files, torn, states, path, m);
    if s.covers {
      var first, size, more := s.size, |s.content|, |s'.content|;
      FlushKeysGrow(path, first, size, more, m);
      OwnedMore(objs, path, FlushKeys(path, first, size, m), FlushKeys(path, first, more, m));
    }
    NodeGone(objs, files, torn, states, path, m);
    NodeChanged(objs, files, torn, states, path, s', m);
  }

  lemma ResizeLength(c: Content, n: nat)
    ensures |Resize(c, n)| == n
  {
  }

  /** A size uses all the keys of another exactly if the kind stays and there are as many parts at least. */
  lemma SafeTruncateIff(path: string, size: nat, n: nat, m: nat)
    requires ValidLimit(m) && LogicalPath(path)
    ensures Keys(path, size, m) <= Keys(path, n, m) <==> SafeTruncate(size, n, m)
  {
    if SafeTruncate(size, n, m) {
      forall k | k in Keys(path, size, m)
        ensures k in Keys(path, n, m)
      {
        var i :| 0 <= i < NParts(size, m) && k == KeyAt(path, size, i, m);
        assert k == KeyAt(path, n, i, m);
      }
    } else {
      var last := NParts(size, m) - 1;
      assert KeyAt(path, size, last, m) in Keys(path, size, m);
      SlotOfKey(path, size, last, m);
      KeyBySlot(KeyAt(path, size, last, m), path, n, m);
      OwnerOfPart(path, last);
    }
  }

  /** All that a flush of a handle would reach is reached after a truncation exactly if both sizes are safe. */
  lemma ReachIff(path: string, size: nat, content: nat, n: nat, m: nat)
    requires ValidLimit(m) && LogicalPath(path)
    ensures FlushKeys(path, size, content, m) <= FlushKeys(path, n, n, m) <==>
            SafeTruncate(size, n, m) && SafeTruncate(content, n, m)
  {
    hide LogicalPath, Keys, SafeTruncate;
    SafeTruncateIff(path, size, n, m);
    SafeTruncateIff(path, content, n, m);
    assert FlushKeys(path, n, n, m) == Keys(path, n, m);
  }

  lemma SmallKeys(path: string, oldSize: nat, size: nat, m: nat)
    requires ValidLimit(m) && oldSize <= m && size <= m
    ensures Keys(path, oldSize, m) == Keys(path, size, m) == FlushKeys(path, oldSize, size, m) == {path}
  {
    assert KeyAt(path, oldSize, 0, m) == path && KeyAt(path, size, 0, m) == path;
  }

  /** A truncated node covers what is in the cloud if `StillCovers` says so. */
  lemma CutCovers(objs: Objects, files: Files, torn: set<string>, path: string, s: Handle, n: nat, m: nat)
    requires ValidLimit(m) && Stores(objs, files, torn, m) && NodeFits(objs, files, torn, path, s, m)
    requires StillCovers(files, path, s, n, m)
    ensures OwnedWithin(objs, path, FlushKeys(path, n, n, m))
  {
    hide Owner, LogicalPath, Keys, SafeTruncate;
    if path in files {
      OwnedOf(objs, files, torn, path, m);
      SafeTruncateIff(path, |files[path]|, n, m);
      OwnedMore(objs, path, Keys(path, |files[path]|, m), Keys(path, n, m));
      assert FlushKeys(path, n, n, m) == Keys(path, n, m);
    } else {
      ReachIff(path, s.size, |s.content|, n, m);
      OwnedMore(objs, path, FlushKeys(path, s.size, |s.content|, m), FlushKeys(path, n, n, m));
    }
  }

  function CutFiles(files: Files, path: string, covers: bool): Files {
    if covers then files else files - {path}
  }

  function CutTorn(torn: set<string>, path: string, covers: bool): set<string> {
    if covers then torn else torn + {path}
  }

  lemma CutKeeps(objs: Objects, files: Files, torn: set<string>, states: States, path: string, n: nat, m: nat)
    requires Consistent(objs, files, torn, states, m) && path in states && n <= OFF_MAX
    ensures var covers := StillCovers(files, path, states[path], n, m);
            var s := Cut(states[path], n, covers);
            Consistent(objs, CutFiles(files, path, covers), CutTorn(torn, path, covers), states[path := s], m)
  {
    hide Stores, LogicalPath, Owner, FlushKeys, AllFit, Bounded, Resize, StillCovers, Keys;
    var covers := StillCovers(files, path, states[path], n, m);
    var s := Cut(states[path], n, covers);
    ResizeLength(states[path].content, n);
    NodeFacts(objs, files, torn, states, path, m);
    if covers {
      CutCovers(objs, files, torn, path, states[path], n, m);
      NodeGone(objs, files, torn, states, path, m);
    } else {
      PathTorn(objs, objs, files, torn, states, path, m);
    }
    hide Consistent;
    NodeChanged(objs, CutFiles(files, path, covers), CutTorn(torn, path, covers), states, path, s, m);
  }

  lemma ReleaseKeeps(objs: Objects, files: Files, torn: set<string>, states: States, path: string, m: nat)
    requires Consistent(objs, files, torn, states, m)
    ensures Consistent(objs, files, torn, states - {path}, m)
  {
    NodeGone(objs, files, torn, states, path, m);
  }

  // ---- a flush that got through ----

  ghost function FlushedObjects(objs: Objects, path: string, s: Handle, m: nat): Objects
    requires ValidLimit(m) && LogicalPath(path)
  {
    if s.dirty then Flushed(objs, path, s.size, s.content, m) else objs
  }

  function FlushedFiles(files: Files, path: string, h: Handle): Files {
    if h.dirty && h.covers then files[path := Stored(h.content)] else files
  }

  function FlushedTorn(torn: set<string>, path: string, h: Handle): set<string> {
    if h.dirty && h.covers then torn - {path} else torn
  }

  lemma FlushedWithin(objs: Objects, path: string, s: Handle, m: nat)
    requires ValidLimit(m) && LogicalPath(path)
    ensures forall k :: Owner(k) != path ==> Lookup(FlushedObjects(objs, path, s, m), k) == Lookup(objs, k)
    ensures var c := s.content;
            s.dirty && OwnedWithin(objs, path, FlushKeys(path, s.size, |c|, m)) ==>
              OwnedWithin(FlushedObjects(objs, path, s, m), path, Keys(path, |c|, m))
  {
    hide Owner, LogicalPath, Keys, Stored, Encode;
    KeysOwned(path, s.size, m);
    KeysOwned(path, |s.content|, m);
  }

  /** The flush stores the content, and what was in disarray is settled. */
  lemma FlushSettles(objs: Objects, files: Files, torn: set<string>, path: string, s: Handle, m: nat)
    requires Stores(objs, files, torn, m) && NodeFits(objs, files, torn, path, s, m)
    ensures Stores(FlushedObjects(objs, path, s, m), FlushedFiles(files, path, s),
                   FlushedTorn(torn, path, s), m)
  {
    hide Owner, LogicalPath, Keys, Stored, Encode, Lookup, Expected;
    var h := s;
    if h.dirty && h.covers {
      KeysOwned(path, s.size, m);
      Settles(objs, files, torn, path, Keys(path, s.size, m), Stored(h.content), m);
    } else if h.dirty {
      FlushedWithin(objs, path, s, m);
      StoresOthers(objs, FlushedObjects(objs, path, s, m), files, torn, {path}, m);
      assert torn + {path} == torn && files - {path} == files;
    }
  }

  lemma FlushKeeps(objs: Objects, files: Files, torn: set<string>, states: States, path: string, m: nat)
    requires Consistent(objs, files, torn, states, m) && path in states && LogicalPath(path)
    ensures var s := states[path];
            Consistent(FlushedObjects(objs, path, s, m), FlushedFiles(files, path, s),
                          FlushedTorn(torn, path, s), states[path := Clean(s)], m)
  {
    hide Stores, LogicalPath, Owner, Keys, Stored, AllFit, FlushedObjects;
    var s := states[path];
    var objs', files', torn' := FlushedObjects(objs, path, s, m), FlushedFiles(files, path, s),
                                FlushedTorn(torn, path, s);
    NodeFacts(objs, files, torn, states, path, m);
    FlushSettles(objs, files, torn, path, s, m);
    FlushedWithin(objs, path, s, m);
    assert Bounded(files');
    Elsewhere(objs, objs', files, files', torn, torn', states, {path}, m);
    FlushedFits(objs, files, torn, path, s, m);
    hide Consistent, NodeFits, FlushedFiles, FlushedTorn;
    NodeChanged(objs', files', torn', states, path, Clean(s), m);
  }

  lemma FlushedFits(objs: Objects, files: Files, torn: set<string>, path: string, s: Handle, m: nat)
    requires ValidLimit(m) && NodeFits(objs, files, torn, path, s, m)
    ensures NodeFits(FlushedObjects(objs, path, s, m), FlushedFiles(files, path, s),
                     FlushedTorn(torn, path, s), path, Clean(s), m)
  {
    hide Owner, LogicalPath, Keys, FlushedObjects, OwnedWithin, Stored;
    FlushedWithin(objs, path, s, m);
    if s.dirty {
      assert FlushKeys(path, |s.content|, |s.content|, m) == Keys(path, |s.content|, m);
    } else {
      assert FlushedObjects(objs, path, s, m) == objs by {
        SameObjects(objs, path, s, m);
      }
    }
  }

  lemma SameObjects(objs: Objects, path: string, s: Handle, m: nat)
    requires ValidLimit(m) && LogicalPath(path) && !s.dirty
    ensures FlushedObjects(objs, path, s, m) == objs
  {
  }

  // ---- calls on closed paths ----

  /** One closed path gets a new content, its old objects all removed or overwritten. */
  lemma ClosedSettles(objs: Objects, files: Files, torn: set<string>, states: States,
                      path: string, size: nat, c: Content, m: nat)
    requires Consistent(objs, files, torn, states, m) && LogicalPath(path) && path !in states && path !in torn
    requires |c| <= OFF_MAX
    requires OwnedWithin(objs, path, FlushKeys(path, size, |c|, m))
    ensures Consistent(objs - Keys(path, size, m) + Encode(path, c, m), files[path := c], torn, states, m)
  {
    hide Owner, LogicalPath, Keys, Encode, Lookup, Expected;
    var objs' := objs - Keys(path, size, m) + Encode(path, c, m);
    KeysOwned(path, size, m);
    KeysOwned(path, |c|, m);
    Settles(objs, files, torn, path, Keys(path, size, m), c, m);
    assert torn - {path} == torn;
    assert Bounded(files[path := c]);
    assert forall k :: Owner(k) != path ==> Lookup(objs', k) == Lookup(objs, k) by {
      OverlayWithin(objs, path, Keys(path, size, m), Encode(path, c, m));
    }
    Elsewhere(objs, objs', files, files[path := c], torn, torn, states, {path}, m);
    NotOpen(states, path);
  }

  lemma OverlayWithin(objs: Objects, path: string, keys: set<string>, e: Objects)
    requires forall k :: k in keys || k in e ==> Owner(k) == path
    ensures forall k :: Owner(k) != path ==> Lookup(objs - keys + e, k) == Lookup(objs, k)
  {
    hide Owner;
  }

  /** One closed file is gone with all its objects. */
  lemma ClosedGone(objs: Objects, files: Files, torn: set<string>, states: States, path: string, m: nat)
    requires Consistent(objs, files, torn, states, m) && path in files && path !in states
    ensures LogicalPath(path)
    ensures Consistent(objs - Keys(path, |files[path]|, m), files - {path}, torn, states, m)
  {
    assert LogicalPath(path) && ValidLimit(m) && Stores(objs, files, torn, m);
    assert Bounded(files - {path});
    hide *;
    var keys := Keys(path, |files[path]|, m);
    KeysOwned(path, |files[path]|, m);
    Unstored(objs, files, torn, path, m);
    OverlayWithin(objs, path, keys, map[]);
    assert objs - keys + map[] == objs - keys;
    Elsewhere(objs, objs - keys, files, files - {path}, torn, torn, states, {path}, m);
    NotOpen(states, path);
  }

  /** A fresh empty object, whether something is there or not. */
  lemma MknodKeeps(w: World, objs: Objects, states: States, path: string)
    requires Consistent(objs, w.files, w.torn, states, w.limit) && LogicalPath(path) && path !in states
    ensures var w' := AfterMknod(w, path);
            Consistent(objs[path := []], w'.files, w'.torn, states, w.limit)
  {
    hide LogicalPath, Owner, Encode, Stores, AllFit;
    var m, files, torn := w.limit, w.files, w.torn;
    assert Owner(path) == path by {
      OwnerOfKey(path, 0, 0, m);
    }
    assert SameOutside(objs[path := []], objs, {path}) by {
      assert objs[path := []] - {path} == objs - {path};
    }
    if path in torn || (path in files && |files[path]| > m) {
      ClosedTorn(objs, objs[path := []], files, torn, states, path, {path}, m);
      assert path in torn ==> files - {path} == files && torn + {path} == torn by {
        TornNotThere(objs, files, torn, m);
      }
    } else {
      SingleObject(path, [], m);
      assert Stored([]) == [];
      OwnedOf(objs, files, torn, path, m);
      SmallKeys(path, 0, 0, m);
      if path in files {
        SmallKeys(path, 0, |files[path]|, m);
      }
      ClosedSettles(objs, files, torn, states, path, 0, [], m);
      assert objs - {path} + map[path := []] == objs[path := []];
    }
  }

  lemma TornNotThere(objs: Objects, files: Files, torn: set<string>, m: nat)
    requires Stores(objs, files, torn, m)
    ensures torn !! files.Keys
  {
  }

  // ---- renames ----

  lemma MoveFrame(objs: Objects, a: string, b: string, keys: set<string>, e: Objects)
    requires forall k :: k in keys ==> Owner(k) == a
    requires forall k :: k in e.Keys ==> Owner(k) == b
    ensures forall k :: Owner(k) != a && Owner(k) != b ==> Lookup(objs - keys + e, k) == Lookup(objs, k)
  {
    hide Owner;
  }

  /** Renaming a closed file over whatever is at the new path. */
  lemma ReplaceKeeps(objs: Objects, files: Files, torn: set<string>, states: States, a: string, b: string, m: nat)
    requires Consistent(objs, files, torn, states, m) && {a, b} !! states.Keys
    requires LogicalPath(a) && LogicalPath(b) && a != b && a in files && FreeWay(files - {b}, a, b, m)
    requires RenamePaths(a, b) !! torn
    ensures var flags := RenameFlags(false, false);
            var removed := if b in files then objs - Keys(b, |files[b]|, m) else objs;
            var moved := Moved(removed, a, b, |files[a]|, m);
            moved.Some? && Consistent(moved.value, Renamed(files, a, b, flags), torn, states, m)
  {
    assert ValidLimit(m);
    RenamedIsMoved(files, a, b);
    hide *;
    var removed := if b in files then objs - Keys(b, |files[b]|, m) else objs;
    TargetRemoved(objs, files, torn, states, b, m);
    MoveConsistent(removed, files - {b}, torn, states, a, b, m);
  }

  lemma RenamedIsMoved(files: Files, a: string, b: string)
    requires a in files && a != b
    ensures MovedFile(files - {b}, a, b) == Renamed(files, a, b, RenameFlags(false, false))
    ensures (files - {b})[a] == files[a]
  {
  }

  lemma TargetRemoved(objs: Objects, files: Files, torn: set<string>, states: States, b: string, m: nat)
    requires Consistent(objs, files, torn, states, m) && b !in states
    ensures Consistent(if b in files then objs - Keys(b, |files[b]|, m) else objs, files - {b}, torn, states, m)
  {
    hide Consistent, LogicalPath, Keys;
    if b in files {
      ClosedGone(objs, files, torn, states, b, m);
    } else {
      assert files - {b} == files;
    }
  }

  /** Moving a closed file to a free path. */
  lemma MoveConsistent(objs: Objects, files: Files, torn: set<string>, states: States, a: string, b: string, m: nat)
    requires Consistent(objs, files, torn, states, m) && {a, b} !! states.Keys
    requires LogicalPath(a) && LogicalPath(b) && a != b && a in files && b !in files && FreeWay(files, a, b, m)
    requires RenamePaths(a, b) !! torn
    ensures var moved := Moved(objs, a, b, |files[a]|, m);
            moved.Some? && Consistent(moved.value, MovedFile(files, a, b), torn, states, m)
  {
    assert LogicalPath(a) && LogicalPath(b) && Stores(objs, files, torn, m) && ValidLimit(m);
    assert {b, MidPath(a, b)} !! torn;
    BoundedRename(files, a, b);
    MovedElsewhere(files, a, b);
    hide *;
    MoveStores(objs, files, torn, a, b, m);
    var c := files[a];
    KeysOwned(a, |c|, m);
    KeysOfEncode(b, c, m);
    KeysOwned(b, |c|, m);
    MoveFrame(objs, a, b, Keys(a, |c|, m), Encode(b, c, m));
    var o := objs - Keys(a, |c|, m) + Encode(b, c, m);
    PairChanged(objs, o, files, MovedFile(files, a, b), torn, states, a, b, m);
  }

  lemma MovedElsewhere(files: Files, a: string, b: string)
    requires a in files
    ensures forall p :: p != a && p != b ==> (p in files <==> p in MovedFile(files, a, b))
  {
  }

  lemma BoundedRename(files: Files, a: string, b: string)
    requires Bounded(files) && a in files
    ensures Bounded(MovedFile(files, a, b))
    ensures b in files ==> Bounded(Swapped(files, a, b))
  {
  }

  /** The files at two closed paths changed places or contents. */
  lemma PairChanged(objs: Objects, objs': Objects, files: Files, files': Files, torn: set<string>, states: States,
                    a: string, b: string, m: nat)
    requires Consistent(objs, files, torn, states, m) && {a, b} !! states.Keys
    requires Stores(objs', files', torn, m) && Bounded(files')
    requires forall k :: Owner(k) != a && Owner(k) != b ==> Lookup(objs', k) == Lookup(objs, k)
    requires forall p :: p != a && p != b ==> (p in files <==> p in files')
    ensures Consistent(objs', files', torn, states, m)
  {
    hide Consistent, Stores, Owner, Bounded, Lookup;
    Elsewhere(objs, objs', files, files', torn, torn, states, {a, b}, m);
    assert states - {a, b} == states;
  }

  /** Exchanging two closed files. */
  lemma ExchangeKeeps(objs: Objects, files: Files, torn: set<string>, states: States, a: string, b: string, m: nat)
    requires Consistent(objs, files, torn, states, m) && {a, b} !! states.Keys
    requires LogicalPath(a) && LogicalPath(b) && a != b && a in files && b in files && FreeExchange(files, a, b, m)
    requires RenamePaths(a, b) !! torn
    ensures var o := Exchanged(objs, a, b, |files[a]|, |files[b]|, m);
            o.Some? && Consistent(o.value, Swapped(files, a, b), torn, states, m)
  {
    assert LogicalPath(a) && LogicalPath(b) && Clear(files, b + TEMP, |files[b]| > m, m);
    assert Stores(objs, files, torn, m) && b + TEMP !in torn && ValidLimit(m);
    BoundedRename(files, a, b);
    assert forall p :: p != a && p != b ==> (p in files <==> p in Swapped(files, a, b));
    hide *;
    ExchangeStores(objs, files, torn, a, b, m);
    SwappedFrame(objs, files, torn, a, b, m);
    PairChanged(objs, SwappedObjects(objs, files, a, b, m), files, Swapped(files, a, b), torn, states, a, b, m);
  }

  lemma SwappedFrame(objs: Objects, files: Files, torn: set<string>, a: string, b: string, m: nat)
    requires Stores(objs, files, torn, m) && a in files && b in files && a != b && LogicalPath(a) && LogicalPath(b)
    requires LogicalPath(b + TEMP) && b + TEMP !in torn && Clear(files, b + TEMP, |files[b]| > m, m)
    ensures forall k :: Owner(k) != a && Owner(k) != b ==>
              Lookup(SwappedObjects(objs, files, a, b, m), k) == Lookup(objs, k)
  {
    assert LogicalPath(a) && LogicalPath(b);
    hide Stores, LogicalPath, Owner, Keys, Lookup, Overlaid;
    StoresLimit(objs, files, torn, m);
    ClearKeys(objs, files, torn, b + TEMP, |files[b]|, m);
    var ka, kb := Keys(a, |files[a]|, m), Keys(b, |files[b]|, m);
    var e1, e2, e3 := Encode(b + TEMP, files[b], m), Encode(b, files[a], m), Encode(a, files[b], m);
    KeysOwned(a, |files[a]|, m);
    KeysOwned(b, |files[b]|, m);
    KeysOwned(b, |files[a]|, m);
    KeysOwned(a, |files[b]|, m);
    assert e1.Keys !! objs.Keys && (forall k :: k in e2 || k in kb ==> Owner(k) == b)
           && (forall k :: k in e3 || k in ka ==> Owner(k) == a);
    hide Encode;
    forall k | Owner(k) != a && Owner(k) != b
      ensures Lookup(SwappedObjects(objs, files, a, b, m), k) == Lookup(objs, k)
    {
      OverlaidAt(objs, ka, kb, e1, e2, e3, k);
      NotThere(objs, e1, k);
    }
  }

  lemma NotThere(objs: Objects, e: Objects, k: string)
    requires e.Keys !! objs.Keys
    ensures k in e ==> Lookup(objs, k) == None
  {
  }

  // ---- truncating a closed file ----

  /** What is left at a path with a single object. */
  function LeftObjects(objs: Objects, path: string, left: Option<Content>): Objects {
    match left
    case Some(c) => objs[path := c]
    case None => objs - {path}
  }

  function LeftFiles(files: Files, path: string, left: Option<Content>): Files {
    match left
    case Some(c) => files[path := c]
    case None => files - {path}
  }

  /** A closed file stored as one object is replaced by another such file, or is gone. */
  lemma LeftKeeps(objs: Objects, files: Files, torn: set<string>, states: States, path: string,
                  left: Option<Content>, m: nat)
    requires Consistent(objs, files, torn, states, m) && path in files && path !in states
    requires |files[path]| <= m && (left.Some? ==> |left.value| <= m && |left.value| <= OFF_MAX)
    ensures Consistent(LeftObjects(objs, path, left), LeftFiles(files, path, left), torn, states, m)
  {
    hide *;
    match left {
      case Some(c) =>
        ReplacedKeeps(objs, files, torn, states, path, c, m);
      case None =>
        GoneKeeps(objs, files, torn, states, path, m);
    }
    LeftCases(objs, files, path, left);
  }

  lemma LeftCases(objs: Objects, files: Files, path: string, left: Option<Content>)
    ensures left.Some? ==> LeftObjects(objs, path, left) == objs[path := left.value]
    ensures left.Some? ==> LeftFiles(files, path, left) == files[path := left.value]
    ensures left.None? ==> LeftObjects(objs, path, left) == objs - {path}
    ensures left.None? ==> LeftFiles(files, path, left) == files - {path}
  {
  }

  lemma GoneKeeps(objs: Objects, files: Files, torn: set<string>, states: States, path: string, m: nat)
    requires Consistent(objs, files, torn, states, m) && path in files && path !in states && |files[path]| <= m
    ensures Consistent(objs - {path}, files - {path}, torn, states, m)
  {
    assert ValidLimit(m);
    hide Consistent, LogicalPath;
    SmallKeys(path, |files[path]|, |files[path]|, m);
    ClosedGone(objs, files, torn, states, path, m);
  }

  lemma ReplacedKeeps(objs: Objects, files: Files, torn: set<string>, states: States, path: string, c: Content, m: nat)
    requires Consistent(objs, files, torn, states, m) && path in files && path !in states && |files[path]| <= m
    requires |c| <= m && |c| <= OFF_MAX
    ensures Consistent(objs[path := c], files[path := c], torn, states, m)
  {
    hide *;
    SingleOwned(objs, files, torn, states, path, m);
    SmallKeys(path, |files[path]|, |c|, m);
    SingleEncoded(path, c, m);
    ClosedSettles(objs, files, torn, states, path, |files[path]|, c, m);
    assert objs - {path} + map[path := c] == objs[path := c];
  }

  lemma SingleOwned(objs: Objects, files: Files, torn: set<string>, states: States, path: string, m: nat)
    requires Consistent(objs, files, torn, states, m) && path in files && |files[path]| <= m
    ensures ValidLimit(m) && LogicalPath(path) && path !in torn && OwnedWithin(objs, path, {path})
  {
    assert Stores(objs, files, torn, m) && ValidLimit(m);
    hide Consistent, Stores, LogicalPath, Owner, Encode, Includes;
    NotTorn(objs, files, torn, path, m);
    IncludesAll(objs, files, torn, path, m);
    OwnedOf(objs, files, torn, path, m);
    SmallKeys(path, |files[path]|, |files[path]|, m);
  }

  lemma SingleEncoded(path: string, c: Content, m: nat)
    requires ValidLimit(m) && LogicalPath(path) && |c| <= m
    ensures Encode(path, c, m) == map[path := c]
  {
    hide LogicalPath, Encode;
    SmallKeys(path, |c|, |c|, m);
    EncodeAt(path, c, 0, m);
  }

  /** No attempt at a truncation within the limit leaves more than the limit. */
  lemma {:induction false} TriesWithin(left: Option<Content>, n: nat, faults: seq<Fault>, attempts: nat, most: nat)
    requires n <= most && (left.Some? ==> |left.value| <= most)
    ensures var after := TruncateTries(left, n, faults, attempts).1; after.Some? ==> |after.value| <= most
    decreases attempts
  {
    hide Resize, Stored, Storable;
    if attempts > 0 && left.Some? {
      ResizeLength(left.value, n);
      StoredLength(Resize(left.value, n));
      TriesWithin(AttemptLeft(left.value, Resize(left.value, n), faults), n, RowRest(faults, 2), attempts - 1, most);
    }
  }

  lemma StoredLength(c: Content)
    ensures |Stored(c)| == |c|
  {
  }

  lemma NotTorn(objs: Objects, files: Files, torn: set<string>, path: string, m: nat)
    requires Stores(objs, files, torn, m) && path in files
    ensures path !in torn
  {
  }

  lemma FlushOutside(objs: Objects, path: string, size: nat, c: Content, m: nat)
    requires ValidLimit(m) && LogicalPath(path)
    ensures SameOutside(Flushed(objs, path, size, c, m), objs, FlushKeys(path, size, |c|, m))
  {
    hide Keys, LogicalPath, Encode, Stored;
    var o := Flushed(objs, path, size, c, m);
    assert Encode(path, Stored(c), m).Keys == Keys(path, |c|, m) by {
      KeysOfEncode(path, Stored(c), m);
    }
    assert o - FlushKeys(path, size, |c|, m) == objs - FlushKeys(path, size, |c|, m);
  }

  lemma KeysOfEncode(path: string, c: Content, m: nat)
    requires ValidLimit(m) && LogicalPath(path)
    ensures Encode(path, c, m).Keys == Keys(path, |c|, m)
  {
  }

  /** What a download of the bare path finds: the whole of a file stored as one object, and else nothing. */
  lemma SingleDownload(objs: Objects, files: Files, torn: set<string>, path: string, m: nat)
    requires Stores(objs, files, torn, m) && LogicalPath(path) && path !in torn
    ensures Decode(objs, path, 0, m) == if path in files && |files[path]| <= m then Some(files[path]) else None
  {
    NotSingle(objs, files, torn, path, m);
    assert KeyAt(path, 0, 0, m) == path;
    if path in files && |files[path]| <= m {
      IncludesAll(objs, files, torn, path, m);
      SingleDecode(objs, path, |files[path]|, 0, m);
    } else {
      assert Fetch(objs, path, 0, 0, m) == Some([]);
    }
  }

  lemma SingleDecode(objs: Objects, path: string, size: nat, size': nat, m: nat)
    requires ValidLimit(m) && size <= m && size' <= m
    ensures Decode(objs, path, size, m) == Decode(objs, path, size', m)
  {
    assert Fetch(objs, path, size, 0, m) == Fetch(objs, path, size', 0, m);
  }

  // ---- listings ----

  /** The entry shows a file, or belongs to a path in disarray. */
  ghost predicate ShowsOrTorn(files: Files, torn: set<string>, dir: string, f: CloudFile) {
    dir + f.name in torn || ShowsFile(files, dir, f)
  }

  /** What a listing shows besides the files. */
  ghost function StraysIn(entries: seq<CloudFile>, torn: set<string>, dir: string): set<CloudFile> {
    set f | f in entries && dir + f.name in torn
  }

  lemma SameEntries(files: Files, torn: set<string>, dir: string, entries: seq<CloudFile>)
    requires IsDir(dir)
    requires forall f :: f in entries ==> ShowsOrTorn(files, torn, dir, f)
    requires torn !! files.Keys
    requires forall p :: p in files && DirOf(p) == dir ==> HasName(entries, NameOf(p))
    ensures (set f | f in entries) == EntriesOf(files, dir) + StraysIn(entries, torn, dir)
  {
    hide LastOf, IsDir;
    forall f | f in entries && ShowsFile(files, dir, f)
      ensures f in EntriesOf(files, dir)
    {
      SplitJoin(dir, f.name);
      assert DirOf(dir + f.name) == dir;
    }
    forall p | p in files && DirOf(p) == dir
      ensures CloudFile(NameOf(p), |files[p]|) in entries
    {
      var f :| f in entries && f.name == NameOf(p);
      assert p == dir + f.name;
    }
  }
}
