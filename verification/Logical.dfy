/** The cloud read as a map from logical files to contents, and what cloud updates do to that map. */
module Logical {
  import opened Bytes
  import opened PartNames
  import opened Layout
  import opened Listing
  import opened RestClient

  type Files = map<string, Content>

  /** What a key should hold if the cloud stores exactly `files`. */
  ghost function Expected(files: Files, key: string, m: nat): Option<Content>
    requires ValidLimit(m)
  {
    var p := Owner(key);
    if p in files && LogicalPath(p) && key in Encode(p, files[p], m)
    then Some(Encode(p, files[p], m)[key])
    else None
  }

  function Lookup(objs: Objects, key: string): Option<Content> {
    if key in objs then Some(objs[key]) else None
  }

  /** The cloud stores exactly these files: every object of each of them, and no other object. */
  ghost predicate Represents(objs: Objects, files: Files, m: nat) {
    && ValidLimit(m)
    && (forall p :: p in files ==> LogicalPath(p))
    && (forall k :: Lookup(objs, k) == Expected(files, k, m))
  }

  /** The keys a file really occupies are among those of the size some node believes in. */
  ghost predicate Covered(files: Files, path: string, size: nat, m: nat)
    requires ValidLimit(m)
  {
    path in files ==> Keys(path, |files[path]|, m) <= Keys(path, size, m)
  }

  lemma LimitOf(objs: Objects, files: Files, m: nat)
    requires Represents(objs, files, m)
    ensures ValidLimit(m)
  {
  }

  lemma FileIsLogical(objs: Objects, files: Files, path: string, m: nat)
    requires Represents(objs, files, m) && path in files
    ensures LogicalPath(path)
  {
  }

  lemma ExpectedOf(files: Files, path: string, key: string, m: nat)
    requires ValidLimit(m) && LogicalPath(path) && path in files
    requires key in Keys(path, |files[path]|, m)
    ensures Owner(key) == path && Expected(files, key, m) == Some(Encode(path, files[path], m)[key])
  {
    KeysOwned(path, |files[path]|, m);
  }

  /** All objects of a stored file are there. */
  lemma StoredFully(objs: Objects, files: Files, path: string, m: nat)
    requires Represents(objs, files, m) && path in files
    ensures Includes(objs, Encode(path, files[path], m))
  {
    var e := Encode(path, files[path], m);
    forall k | k in e
      ensures k in objs && objs[k] == e[k]
    {
      ExpectedOf(files, path, k, m);
      assert Lookup(objs, k) == Expected(files, k, m);
    }
  }

  /** Reading a stored file part by part gives its content. */
  lemma DecodeStored(objs: Objects, files: Files, path: string, m: nat)
    requires Represents(objs, files, m) && path in files
    ensures Decode(objs, path, |files[path]|, m) == Some(files[path])
  {
    StoredFully(objs, files, path, m);
    DecodeEncode(objs, path, files[path], m);
  }

  lemma ExpectedWithout(files: Files, path: string, key: string, m: nat)
    requires ValidLimit(m)
    ensures Expected(files - {path}, key, m) == if Owner(key) == path then None else Expected(files, key, m)
  {
    hide Owner, LogicalPath, Encode;
  }

  lemma ExpectedWith(files: Files, path: string, c: Content, key: string, m: nat)
    requires ValidLimit(m) && LogicalPath(path)
    ensures Expected(files[path := c], key, m) ==
            if Owner(key) == path then Lookup(Encode(path, c, m), key) else Expected(files, key, m)
  {
  }

  /** Deleting the keys of a file, or more keys of the same file, removes just that file. */
  lemma Deleted(objs: Objects, files: Files, path: string, size: nat, m: nat)
    requires Represents(objs, files, m) && LogicalPath(path) && Covered(files, path, size, m)
    ensures Represents(objs - Keys(path, size, m), files - {path}, m)
  {
    hide LogicalPath, Owner, Keys, Encode;
    var keys := Keys(path, size, m);
    KeysOwned(path, size, m);
    forall k
      ensures Lookup(objs - keys, k) == Expected(files - {path}, k, m)
    {
      assert Lookup(objs, k) == Expected(files, k, m);
      ExpectedWithout(files, path, k, m);
    }
  }

  /** Adding the objects of a file that is not there adds just that file. */
  lemma Added(objs: Objects, files: Files, path: string, c: Content, m: nat)
    requires Represents(objs, files, m) && LogicalPath(path) && path !in files
    ensures Represents(objs + Encode(path, c, m), files[path := c], m)
  {
    hide LogicalPath, Owner, Keys, Encode;
    var e := Encode(path, c, m);
    KeysOwned(path, |c|, m);
    forall k
      ensures Lookup(objs + e, k) == Expected(files[path := c], k, m)
    {
      assert Lookup(objs, k) == Expected(files, k, m);
      ExpectedWith(files, path, c, k, m);
    }
  }

  /** Replacing the old objects of a file by the new encoding changes just that file. */
  lemma Replaced(objs: Objects, files: Files, path: string, size: nat, c: Content, m: nat)
    requires Represents(objs, files, m) && LogicalPath(path) && Covered(files, path, size, m)
    ensures Represents(objs - Keys(path, size, m) + Encode(path, c, m), files[path := c], m)
  {
    Deleted(objs, files, path, size, m);
    Added(objs - Keys(path, size, m), files - {path}, path, c, m);
    assert (files - {path})[path := c] == files[path := c];
  }

  // ---- clouds in which some paths are in disarray ----

  /** The cloud stores exactly these files, but nothing is known of what it holds for the `torn` paths. */
  ghost predicate Stores(objs: Objects, files: Files, torn: set<string>, m: nat) {
    && ValidLimit(m)
    && torn !! files.Keys
    && (forall p :: p in files ==> LogicalPath(p))
    && (forall k :: Owner(k) !in torn ==> Lookup(objs, k) == Expected(files, k, m))
  }

  /** The cloud without what belongs to the torn paths. */
  function Settled(objs: Objects, torn: set<string>): Objects {
    map k | k in objs && Owner(k) !in torn :: objs[k]
  }

  /** All objects of the path are among these keys. */
  ghost predicate OwnedWithin(objs: Objects, path: string, keys: set<string>) {
    forall k :: k in objs && Owner(k) == path ==> k in keys
  }

  lemma SettledRepresents(objs: Objects, files: Files, torn: set<string>, m: nat)
    requires Stores(objs, files, torn, m)
    ensures Represents(Settled(objs, torn), files, m)
  {
    hide Owner, Encode, LogicalPath;
    forall k
      ensures Lookup(Settled(objs, torn), k) == Expected(files, k, m)
    {
      assert Owner(k) !in torn ==> Lookup(objs, k) == Expected(files, k, m);
    }
  }

  lemma StoresAll(objs: Objects, files: Files, m: nat)
    ensures Stores(objs, files, {}, m) <==> Represents(objs, files, m)
  {
  }

  /** Whatever happens to the objects of some paths, the cloud still stores all other files. */
  lemma StoresOthers(objs: Objects, objs': Objects, files: Files, torn: set<string>, paths: set<string>, m: nat)
    requires Stores(objs, files, torn, m)
    requires forall k :: Owner(k) !in torn + paths ==> Lookup(objs', k) == Lookup(objs, k)
    ensures Stores(objs', files - paths, torn + paths, m)
  {
    hide Owner, Encode, LogicalPath;
    forall k | Owner(k) !in torn + paths
      ensures Lookup(objs', k) == Expected(files - paths, k, m)
    {
      assert Lookup(objs, k) == Expected(files, k, m);
    }
  }

  /** A file whose old objects are all removed or overwritten is whole again, torn or not before. */
  lemma Settles(objs: Objects, files: Files, torn: set<string>, path: string, keys: set<string>, c: Content, m: nat)
    requires Stores(objs, files, torn, m) && LogicalPath(path)
    requires forall k :: k in keys ==> Owner(k) == path
    requires OwnedWithin(objs, path, keys + Keys(path, |c|, m))
    ensures Stores(objs - keys + Encode(path, c, m), files[path := c], torn - {path}, m)
  {
    hide Owner, Encode, LogicalPath, Keys;
    var objs' := objs - keys + Encode(path, c, m);
    KeysOwned(path, |c|, m);
    forall k | Owner(k) !in torn - {path}
      ensures Lookup(objs', k) == Expected(files[path := c], k, m)
    {
      ExpectedWith(files, path, c, k, m);
      if Owner(k) != path {
        assert Lookup(objs, k) == Expected(files, k, m);
      }
    }
  }

  lemma Unstored(objs: Objects, files: Files, torn: set<string>, path: string, m: nat)
    requires Stores(objs, files, torn, m) && path in files
    ensures Stores(objs - Keys(path, |files[path]|, m), files - {path}, torn, m)
  {
    hide Owner, Encode, LogicalPath;
    var keys := Keys(path, |files[path]|, m);
    KeysOwned(path, |files[path]|, m);
    forall k | Owner(k) !in torn
      ensures Lookup(objs - keys, k) == Expected(files - {path}, k, m)
    {
      assert Lookup(objs, k) == Expected(files, k, m);
      ExpectedWithout(files, path, k, m);
    }
  }

  /** A file that is not torn has its own keys in the cloud and no others. */
  lemma OwnedOf(objs: Objects, files: Files, torn: set<string>, path: string, m: nat)
    requires Stores(objs, files, torn, m) && path !in torn
    ensures OwnedWithin(objs, path, if path in files then Keys(path, |files[path]|, m) else {})
  {
    hide Owner, LogicalPath, Keys;
    forall k | k in objs && Owner(k) == path
      ensures path in files && k in Keys(path, |files[path]|, m)
    {
      assert Lookup(objs, k) == Expected(files, k, m);
    }
  }

  lemma IncludesAll(objs: Objects, files: Files, torn: set<string>, path: string, m: nat)
    requires Stores(objs, files, torn, m) && path in files
    ensures LogicalPath(path) && Includes(objs, Encode(path, files[path], m))
    ensures Decode(objs, path, |files[path]|, m) == Some(files[path])
  {
    SettledRepresents(objs, files, torn, m);
    StoredFully(Settled(objs, torn), files, path, m);
    DecodeEncode(objs, path, files[path], m);
  }

  /** No single object lies at the path unless a file is stored there as one. */
  lemma NotSingle(objs: Objects, files: Files, torn: set<string>, path: string, m: nat)
    requires Stores(objs, files, torn, m) && LogicalPath(path) && path !in torn
    ensures path in objs <==> path in files && |files[path]| <= m
  {
    OwnedOf(objs, files, torn, path, m);
    assert Owner(path) == path;
    if path in files {
      IncludesAll(objs, files, torn, path, m);
      KeyBySlot(path, path, |files[path]|, m);
      OwnerOfPart(path, 0);
      if |files[path]| <= m {
        StoredAt(objs, path, files[path], 0, m);
      }
    }
  }

  // ---- the collapsed listing shows the logical files ----

  lemma OwnerInDir(dir: string, name: string)
    requires IsDir(dir) && '/' !in name
    ensures Owner(dir + name) == match BaseOf(name) case Some(base) => dir + base case None => dir + name
    ensures SlotOf(dir + name) == if BaseOf(name).Some? then IndexOf(dir + name) else 0
  {
    SplitJoin(dir, name);
  }

  /** A listed name that is not a part is a file stored as one object. */
  lemma SingleEntry(objs: Objects, files: Files, dir: string, f: CloudFile, m: nat)
    requires Represents(objs, files, m) && IsDir(dir) && '/' !in f.name
    requires dir + f.name in objs && f.size == |objs[dir + f.name]| && BaseOf(f.name) == None
    ensures dir + f.name in files && f.size == |files[dir + f.name]| && f.size <= m
  {
    var k := dir + f.name;
    OwnerInDir(dir, f.name);
    assert Lookup(objs, k) == Expected(files, k, m);
    KeyBySlot(k, k, |files[k]|, m);
    OwnerOfPart(k, SlotOf(k));
    EncodeAt(k, files[k], 0, m);
  }

  /** An object owned by another key is a numbered part of a file bigger than the limit. */
  lemma ForeignKey(objs: Objects, files: Files, k: string, m: nat)
    requires Represents(objs, files, m) && k in objs && BaseOf(NameOf(k)).Some?
    ensures var p := Owner(k); p in files && |files[p]| > m && SlotOf(k) < NParts(|files[p]|, m)
    ensures k == PartName(Owner(k), SlotOf(k))
    ensures objs[k] == PartAt(files[Owner(k)], SlotOf(k), m)
  {
    var p := Owner(k);
    assert Lookup(objs, k) == Expected(files, k, m);
    assert BaseOf(NameOf(p)) != BaseOf(NameOf(k));
    KeyBySlot(k, p, |files[p]|, m);
    EncodeAt(p, files[p], SlotOf(k), m);
  }

  lemma SameFront(front: string, a: string, b: string)
    ensures front + a == front + b <==> a == b
  {
    if front + a == front + b {
      assert a == (front + a)[|front|..] && b == (front + b)[|front|..];
    }
  }

  lemma NameInDir(dir: string, name: string, base: string, i: nat)
    requires dir + name == PartName(dir + base, i)
    ensures name == PartName(base, i) && IndexOf(name) == i
  {
    assert PartName(dir + base, i) == dir + PartName(base, i);
    SameFront(dir, name, PartName(base, i));
    IndexOfPartName(base, i);
  }

  /** A listed name that is a part belongs to a file stored in parts, and is one of them. */
  lemma PartEntry(objs: Objects, files: Files, dir: string, f: CloudFile, base: string, m: nat)
    requires Represents(objs, files, m) && IsDir(dir) && '/' !in f.name
    requires dir + f.name in objs && f.size == |objs[dir + f.name]| && BaseOf(f.name) == Some(base)
    ensures dir + base in files && |files[dir + base]| > m
    ensures IndexOf(f.name) < NParts(|files[dir + base]|, m)
    ensures f.name == PartName(base, IndexOf(f.name))
    ensures f.size == |PartAt(files[dir + base], IndexOf(f.name), m)|
  {
    var k := dir + f.name;
    OwnerInDir(dir, f.name);
    SplitJoin(dir, f.name);
    ForeignKey(objs, files, k, m);
    NameInDir(dir, f.name, base, SlotOf(k));
  }

  /** The part objects of `p` are exactly its parts 0, 1, ... with these sizes. */
  ghost predicate HasParts(objs: Objects, p: string, sizes: seq<nat>) {
    && (forall k :: k in objs && BaseOf(NameOf(k)).Some? && Owner(k) == p ==>
          SlotOf(k) < |sizes| && k == PartName(p, SlotOf(k)) && |objs[k]| == sizes[SlotOf(k)])
    && (forall i :: 0 <= i < |sizes| ==> PartName(p, i) in objs)
  }

  lemma PartsOfFile(objs: Objects, files: Files, p: string, m: nat)
    requires Represents(objs, files, m) && p in files && |files[p]| > m
    ensures HasParts(objs, p, PartSizes(files[p], NParts(|files[p]|, m), m))
  {
    StoredFully(objs, files, p, m);
    forall k | k in objs && BaseOf(NameOf(k)).Some? && Owner(k) == p
      ensures SlotOf(k) < NParts(|files[p]|, m) && k == PartName(p, SlotOf(k))
      ensures objs[k] == PartAt(files[p], SlotOf(k), m)
    {
      ForeignKey(objs, files, k, m);
    }
    forall i | 0 <= i < NParts(|files[p]|, m)
      ensures PartName(p, i) in objs
    {
      StoredAt(objs, p, files[p], i, m);
    }
  }

  /** The parts of a file are listed in its directory, and nothing else under its base. */
  lemma ListedParts(objs: Objects, dir: string, listing: seq<CloudFile>, base: string, sizes: seq<nat>)
    requires IsDir(dir) && IsListing(objs, dir, listing)
    requires LogicalName(base) && HasParts(objs, dir + base, sizes)
    ensures ListsParts(listing, base, sizes)
  {
    var p := dir + base;
    SplitJoin(dir, base);
    forall f | f in listing && BaseOf(f.name) == Some(base)
      ensures IndexOf(f.name) < |sizes| && f.name == PartName(base, IndexOf(f.name))
      ensures f.size == sizes[IndexOf(f.name)]
    {
      var k := dir + f.name;
      OwnerInDir(dir, f.name);
      SplitJoin(dir, f.name);
      NameInDir(dir, f.name, base, SlotOf(k));
    }
    forall i | 0 <= i < |sizes|
      ensures HasName(listing, PartName(base, i))
    {
      OwnerOfPart(p, i);
      assert PartName(p, i) in objs;
    }
  }

  /** A stat of a name that has part objects gives their total size. */
  lemma StatOfParts(objs: Objects, dir: string, listing: seq<CloudFile>, collapsed: seq<CloudFile>,
                    base: string, sizes: seq<nat>)
    requires IsDir(dir) && IsListing(objs, dir, listing) && Collapsed(listing, collapsed)
    requires LogicalName(base) && HasParts(objs, dir + base, sizes) && sizes != []
    ensures base in Bases(listing) && PartSum(listing, base) == Sum(sizes)
    ensures SizeOf(collapsed, base) == Some(Sum(sizes))
  {
    ListedParts(objs, dir, listing, base, sizes);
    PartSumIsSize(listing, base, sizes);
    BaseOfPartName(base, 0);
    assert HasName(listing, PartName(base, 0));
    StatAfterCollapse(listing, collapsed, base);
  }

  lemma CompoundListed(objs: Objects, files: Files, dir: string,
                       listing: seq<CloudFile>, collapsed: seq<CloudFile>, name: string, m: nat)
    requires Represents(objs, files, m) && IsDir(dir) && '/' !in name
    requires IsListing(objs, dir, listing) && Collapsed(listing, collapsed)
    ensures dir + name in files && |files[dir + name]| > m ==>
              name in Bases(listing) && PartSum(listing, name) == |files[dir + name]|
  {
    var p := dir + name;
    if p in files && |files[p]| > m {
      SplitJoin(dir, name);
      PartsOfFile(objs, files, p, m);
      StatOfParts(objs, dir, listing, collapsed, name, PartSizes(files[p], NParts(|files[p]|, m), m));
      SizesAddUp(files[p], m);
    }
  }

  /** What the collapsed listing says about one name is what the logical files say. */
  lemma StatIsLogical(objs: Objects, files: Files, dir: string,
                      listing: seq<CloudFile>, collapsed: seq<CloudFile>, name: string, m: nat)
    requires Represents(objs, files, m) && IsDir(dir) && '/' !in name
    requires IsListing(objs, dir, listing) && Collapsed(listing, collapsed)
    ensures SizeOf(collapsed, name) ==
            if dir + name in files then Some(|files[dir + name]|) else None
  {
    var p := dir + name;
    StatAfterCollapse(listing, collapsed, name);
    SplitJoin(dir, name);
    if name in Bases(listing) {
      var f :| f in listing && BaseOf(f.name) == Some(name);
      PartEntry(objs, files, dir, f, name, m);
      CompoundListed(objs, files, dir, listing, collapsed, name, m);
    } else {
      NotCompound(objs, files, dir, listing, collapsed, name, m);
    }
  }

  lemma NotCompound(objs: Objects, files: Files, dir: string,
                    listing: seq<CloudFile>, collapsed: seq<CloudFile>, name: string, m: nat)
    requires Represents(objs, files, m) && IsDir(dir) && '/' !in name
    requires IsListing(objs, dir, listing) && Collapsed(listing, collapsed) && name !in Bases(listing)
    ensures SizeOf(Singles(listing), name) ==
            if dir + name in files then Some(|files[dir + name]|) else None
  {
    var p := dir + name;
    SplitJoin(dir, name);
    SinglesAre(listing);
    SinglesDistinct(listing);
    SizeOfMember(Singles(listing), name);
    hide Represents, LogicalPath, LastOf, Singles;
    if HasName(Singles(listing), name) {
      var f :| f in Singles(listing) && f.name == name;
      SingleEntry(objs, files, dir, f, m);
      SizeOfDistinct(Singles(listing), f);
    }
    CompoundListed(objs, files, dir, listing, collapsed, name, m);
    if p in files {
      StoredFully(objs, files, p, m);
      StoredAt(objs, p, files[p], 0, m);
      assert HasName(listing, name);
    }
  }

  /** An entry of a collapsed listing shows a file of the directory with its size. */
  ghost predicate ShowsFile(files: Files, dir: string, f: CloudFile) {
    '/' !in f.name && dir + f.name in files && f.size == |files[dir + f.name]|
  }

  lemma EntryIsLogical(objs: Objects, files: Files, dir: string,
                       listing: seq<CloudFile>, collapsed: seq<CloudFile>, f: CloudFile, m: nat)
    requires Represents(objs, files, m) && IsDir(dir)
    requires IsListing(objs, dir, listing) && Collapsed(listing, collapsed) && f in collapsed
    ensures ShowsFile(files, dir, f)
  {
    var singles := Singles(listing);
    var tail := collapsed[|singles|..];
    assert collapsed == singles + tail;
    if f in singles {
      SinglesAre(listing);
      SingleEntry(objs, files, dir, f, m);
    } else {
      assert f in tail;
      var g :| g in listing && BaseOf(g.name) == Some(f.name);
      PartEntry(objs, files, dir, g, f.name, m);
      BaseOfIsMatch(g.name, f.name);
      CompoundListed(objs, files, dir, listing, collapsed, f.name, m);
    }
  }

  /** A collapsed listing shows every file of its directory exactly once, and nothing else. */
  lemma ListingIsLogical(objs: Objects, files: Files, dir: string,
                         listing: seq<CloudFile>, collapsed: seq<CloudFile>, m: nat)
    requires Represents(objs, files, m) && IsDir(dir)
    requires IsListing(objs, dir, listing) && Collapsed(listing, collapsed)
    ensures DistinctNames(collapsed)
    ensures forall f :: f in collapsed ==> ShowsFile(files, dir, f)
    ensures forall p :: p in files && DirOf(p) == dir ==> HasName(collapsed, NameOf(p))
  {
    hide Represents, Owner, LogicalPath;
    forall f | f in listing && BaseOf(f.name) == None
      ensures f.name !in Bases(listing)
    {
      SingleEntry(objs, files, dir, f, m);
      if f.name in Bases(listing) {
        var g :| g in listing && BaseOf(g.name) == Some(f.name);
        PartEntry(objs, files, dir, g, f.name, m);
      }
    }
    CollapseDistinct(listing, collapsed);
    forall f | f in collapsed
      ensures ShowsFile(files, dir, f)
    {
      EntryIsLogical(objs, files, dir, listing, collapsed, f, m);
    }
    forall p | p in files && DirOf(p) == dir
      ensures HasName(collapsed, NameOf(p))
    {
      assert p == dir + NameOf(p);
      StatIsLogical(objs, files, dir, listing, collapsed, NameOf(p), m);
      SizeOfMember(collapsed, NameOf(p));
    }
  }

  // ---- and shows them rightly beside paths in disarray ----

  /** The names in a directory whose objects are in order. */
  function WholeNames(dir: string, torn: set<string>): string -> bool {
    (name: string) => dir + name !in torn
  }

  /** Without the entries of torn paths, a listing is one of what is known. */
  lemma SettledListing(objs: Objects, torn: set<string>, dir: string, listing: seq<CloudFile>)
    requires IsDir(dir) && IsListing(objs, dir, listing)
    ensures IsListing(Settled(objs, torn), dir, KeepShown(listing, WholeNames(dir, torn)))
  {
    hide LastOf, IsDir, BaseOf;
    var wanted := WholeNames(dir, torn);
    var kept := KeepShown(listing, wanted);
    KeepShownAre(listing, wanted);
    KeepShownDistinct(listing, wanted);
    forall f | f in kept
      ensures dir + f.name in Settled(objs, torn)
    {
      OwnerInDir(dir, f.name);
    }
    forall k | k in Settled(objs, torn) && DirOf(k) == dir
      ensures HasName(kept, NameOf(k))
    {
      assert HasName(listing, NameOf(k));
      var f :| f in listing && f.name == NameOf(k);
      OwnerInDir(dir, f.name);
      assert k == dir + NameOf(k);
    }
  }

  /** What a collapsed listing says about a name whose objects are in order is what the files say. */
  lemma WholeStat(objs: Objects, files: Files, torn: set<string>, dir: string,
                  listing: seq<CloudFile>, collapsed: seq<CloudFile>, name: string, m: nat)
    requires Stores(objs, files, torn, m) && IsDir(dir) && '/' !in name && dir + name !in torn
    requires IsListing(objs, dir, listing) && Collapsed(listing, collapsed)
    ensures SizeOf(collapsed, name) == if dir + name in files then Some(|files[dir + name]|) else None
  {
    hide Stores, IsListing, Collapsed, IsDir, Represents;
    var wanted := WholeNames(dir, torn);
    SettledRepresents(objs, files, torn, m);
    SettledListing(objs, torn, dir, listing);
    CollapseKeep(listing, collapsed, wanted);
    StatIsLogical(Settled(objs, torn), files, dir, KeepShown(listing, wanted), KeepNamed(collapsed, wanted), name, m);
    SizeOfKeep(collapsed, wanted, name);
  }

  /** A collapsed listing shows every file of its directory once, and otherwise nothing but torn paths. */
  lemma WholeListing(objs: Objects, files: Files, torn: set<string>, dir: string,
                     listing: seq<CloudFile>, collapsed: seq<CloudFile>, m: nat)
    requires Stores(objs, files, torn, m) && IsDir(dir)
    requires IsListing(objs, dir, listing) && Collapsed(listing, collapsed)
    ensures forall f :: f in collapsed ==> dir + f.name in torn || ShowsFile(files, dir, f)
    ensures forall f :: f in collapsed ==> '/' !in f.name
    ensures forall p :: p in files && DirOf(p) == dir ==> HasName(collapsed, NameOf(p))
    ensures DistinctNames(KeepNamed(collapsed, WholeNames(dir, torn)))
  {
    var wanted := WholeNames(dir, torn);
    assert forall f :: f in listing ==> '/' !in f.name;
    CollapsedNames(listing, collapsed);
    SettledRepresents(objs, files, torn, m);
    SettledListing(objs, torn, dir, listing);
    CollapseKeep(listing, collapsed, wanted);
    hide Stores, IsListing, Collapsed, IsDir, Represents, ShowsFile;
    ListingIsLogical(Settled(objs, torn), files, dir, KeepShown(listing, wanted), KeepNamed(collapsed, wanted), m);
    KeepNamedAre(collapsed, wanted);
  }

  lemma CollapsedNames(listing: seq<CloudFile>, collapsed: seq<CloudFile>)
    requires Collapsed(listing, collapsed) && forall f :: f in listing ==> '/' !in f.name
    ensures forall f :: f in collapsed ==> '/' !in f.name
  {
    SinglesAre(listing);
    var singles, tail := Singles(listing), collapsed[|Singles(listing)|..];
    assert collapsed == singles + tail;
    forall f | f in collapsed
      ensures '/' !in f.name
    {
      if f !in singles {
        assert f in tail;
        var g :| g in listing && BaseOf(g.name) == Some(f.name);
        BaseOfIsMatch(g.name, f.name);
      }
    }
  }

  // ---- the cloud determines the files ----

  lemma OwnedKeys(objs: Objects, files: Files, path: string, k: string, m: nat)
    requires Represents(objs, files, m) && path in files && Owner(k) == path
    ensures LogicalPath(path) && (k in objs <==> k in Keys(path, |files[path]|, m))
  {
    assert Lookup(objs, k) == Expected(files, k, m);
  }

  lemma SameKeysSameCount(objs: Objects, f1: Files, f2: Files, path: string, m: nat)
    requires Represents(objs, f1, m) && Represents(objs, f2, m) && path in f1 && path in f2
    ensures |f1[path]| > m ==> |f2[path]| > m && NParts(|f1[path]|, m) <= NParts(|f2[path]|, m)
  {
    hide Represents, LogicalPath, Keys;
    LimitOf(objs, f1, m);
    FileIsLogical(objs, f1, path, m);
    var n := NParts(|f1[path]|, m);
    var last := KeyAt(path, |f1[path]|, n - 1, m);
    KeyIsKey(path, |f1[path]|, n - 1, m);
    OwnerOfKey(path, |f1[path]|, n - 1, m);
    OwnedKeys(objs, f1, path, last, m);
    OwnedKeys(objs, f2, path, last, m);
    KeyBySlot(last, path, |f2[path]|, m);
    SlotOfKey(path, |f1[path]|, n - 1, m);
    OwnerOfPart(path, n - 1);
  }

  lemma KeyIsKey(path: string, size: nat, i: nat, m: nat)
    requires ValidLimit(m) && i < NParts(size, m)
    ensures KeyAt(path, size, i, m) in Keys(path, size, m)
  {
  }

  lemma {:induction false} FetchSameLayout(objs: Objects, path: string, s1: nat, s2: nat, n: nat, m: nat)
    requires s1 > m <==> s2 > m
    ensures Fetch(objs, path, s1, n, m) == Fetch(objs, path, s2, n, m)
  {
    if n > 0 {
      FetchSameLayout(objs, path, s1, s2, n - 1, m);
    }
  }

  lemma SameContent(objs: Objects, f1: Files, f2: Files, path: string, m: nat)
    requires Represents(objs, f1, m) && Represents(objs, f2, m) && path in f1
    ensures path in f2 && f1[path] == f2[path]
  {
    hide LogicalPath, Keys, Encode;
    var first := KeyAt(path, |f1[path]|, 0, m);
    KeyIsKey(path, |f1[path]|, 0, m);
    OwnerOfKey(path, |f1[path]|, 0, m);
    OwnedKeys(objs, f1, path, first, m);
    assert Lookup(objs, first) == Expected(f2, first, m);
    SameKeysSameCount(objs, f1, f2, path, m);
    SameKeysSameCount(objs, f2, f1, path, m);
    DecodeStored(objs, f1, path, m);
    DecodeStored(objs, f2, path, m);
    FetchSameLayout(objs, path, |f1[path]|, |f2[path]|, NParts(|f1[path]|, m), m);
  }

  /** No cloud can be read as two different sets of files. */
  lemma RepresentsUnique(objs: Objects, f1: Files, f2: Files, m: nat)
    requires Represents(objs, f1, m) && Represents(objs, f2, m)
    ensures f1 == f2
  {
    hide Represents;
    forall p | p in f1 || p in f2
      ensures p in f1 && p in f2 && f1[p] == f2[p]
    {
      if p in f1 {
        SameContent(objs, f1, f2, p, m);
      } else {
        SameContent(objs, f2, f1, p, m);
      }
    }
  }
}
