/** Renaming and exchanging whole files, whatever they are stored as, and exactly when that works. */
module Renames {
  import opened Bytes
  import opened PartNames
  import opened Layout
  import opened RestClient
  import opened Logical
  import opened FileNode
  import opened FileSystem

  // ---- names on the way ----

  lemma MidNames(a: string, b: string)
    requires LogicalPath(a) && LogicalPath(b)
    ensures LogicalPath(MidPath(a, b))
    ensures DirOf(MidPath(a, b)) == DirOf(a) && NameOf(MidPath(a, b)) == NameOf(b)
    ensures NameOf(a) == NameOf(b) <==> MidPath(a, b) == a
    ensures DirOf(a) == DirOf(b) <==> MidPath(a, b) == b
  {
    MidIsLogical(a, b);
    assert a == DirOf(a) + NameOf(a) && b == DirOf(b) + NameOf(b);
  }

  lemma TempIsLogical(path: string)
    requires LogicalPath(path)
    ensures LogicalPath(path + TEMP) && DirOf(path + TEMP) == DirOf(path) && NameOf(path + TEMP) != NameOf(path)
    ensures PlainName(path + TEMP) <==> PlainName(path)
    ensures path + TEMP != path
  {
    hide LastOf;
    var dir, name := DirOf(path), NameOf(path);
    assert path + TEMP == dir + (name + TEMP);
    TempName(name);
    SplitJoin(dir, name + TEMP);
  }

  lemma TempName(name: string)
    requires LogicalName(name)
    ensures LogicalName(name + TEMP)
    ensures '\\' in name <==> '\\' in name + TEMP
  {
    hide BaseOf;
    var tempName := name + TEMP;
    assert forall i :: 0 <= i < |tempName| ==> tempName[i] == if i < |name| then name[i] else TEMP[i - |name|];
    assert tempName[|tempName| - 1] == 'p';
    PartEndsInDigit(tempName);
  }

  /** The way back from the temporary name passes where the way from the target would. */
  lemma TempMid(a: string, b: string)
    requires LogicalPath(a) && LogicalPath(b)
    ensures MidPath(b + TEMP, a) == MidPath(b, a)
  {
    TempIsLogical(b);
  }

  // ---- keys in the way ----

  /** Parts and a single object of the same path do not get in each other's way. */
  lemma KindsApart(path: string, s1: nat, s2: nat, m: nat)
    requires ValidLimit(m) && LogicalPath(path) && (s1 > m) != (s2 > m)
    ensures Keys(path, s1, m) !! Keys(path, s2, m)
  {
    forall k | k in Keys(path, s1, m) && k in Keys(path, s2, m)
      ensures false
    {
      KeyBySlot(k, path, s1, m);
      KeyBySlot(k, path, s2, m);
      OwnerOfPart(path, SlotOf(k));
    }
  }

  lemma ClearKeys(objs: Objects, files: Files, torn: set<string>, path: string, size: nat, m: nat)
    requires Stores(objs, files, torn, m) && LogicalPath(path) && path !in torn && Clear(files, path, size > m, m)
    ensures Keys(path, size, m) !! objs.Keys
  {
    hide Stores, LogicalPath, Owner, Keys;
    assert ValidLimit(m) by {
      StoresLimit(objs, files, torn, m);
    }
    KeysOwned(path, size, m);
    OwnedOf(objs, files, torn, path, m);
    if path in files {
      KindsApart(path, size, |files[path]|, m);
    }
  }

  lemma StoresLimit(objs: Objects, files: Files, torn: set<string>, m: nat)
    requires Stores(objs, files, torn, m)
    ensures ValidLimit(m)
  {
  }

  // ---- moving one file ----

  function MovedFile(files: Files, oldPath: string, newPath: string): Files
    requires oldPath in files
  {
    (files - {oldPath})[newPath := files[oldPath]]
  }

  /** All objects of a file renamed. */
  function Moved(objs: Objects, oldPath: string, newPath: string, size: nat, m: nat): Option<Objects>
    requires ValidLimit(m)
  {
    MoveAll(objs, oldPath, newPath, size, NParts(size, m), m)
  }

  /** Through a free way to a free path the file gets there, and nothing else changes. */
  lemma MoveStores(objs: Objects, files: Files, torn: set<string>, oldPath: string, newPath: string, m: nat)
    requires Stores(objs, files, torn, m) && LogicalPath(oldPath) && LogicalPath(newPath) && oldPath != newPath
    requires oldPath in files && newPath !in files && FreeWay(files, oldPath, newPath, m)
    requires {newPath, MidPath(oldPath, newPath)} !! torn
    ensures ValidLimit(m)
    ensures var c := files[oldPath];
            var o := objs - Keys(oldPath, |c|, m) + Encode(newPath, c, m);
            Moved(objs, oldPath, newPath, |c|, m) == Some(o) && Stores(o, MovedFile(files, oldPath, newPath), torn, m)
  {
    hide Stores, LogicalPath, Owner, Keys, Encode, MidPath, MoveAll, FreeWay, WayIsFree, MovedFile, Includes;
    StoresLimit(objs, files, torn, m);
    var c := files[oldPath];
    IncludesAll(objs, files, torn, oldPath, m);
    WayFree(objs, files, torn, oldPath, newPath, m);
    MoveAllMoves(objs, oldPath, newPath, c, m);
    MovedIsStored(objs, files, torn, oldPath, newPath, m);
  }

  lemma MovedIsStored(objs: Objects, files: Files, torn: set<string>, oldPath: string, newPath: string, m: nat)
    requires Stores(objs, files, torn, m) && LogicalPath(newPath) && oldPath in files
    requires newPath !in files && newPath !in torn && ValidLimit(m)
    ensures var c := files[oldPath];
            Stores(objs - Keys(oldPath, |c|, m) + Encode(newPath, c, m), MovedFile(files, oldPath, newPath), torn, m)
  {
    hide Stores, LogicalPath, Owner, Keys, Encode;
    var c := files[oldPath];
    Unstored(objs, files, torn, oldPath, m);
    var between := objs - Keys(oldPath, |c|, m);
    OwnedOf(between, files - {oldPath}, torn, newPath, m);
    Settles(between, files - {oldPath}, torn, newPath, {}, c, m);
    assert between - {} == between && torn - {newPath} == torn;
  }

  lemma WayFree(objs: Objects, files: Files, torn: set<string>, oldPath: string, newPath: string, m: nat)
    requires Stores(objs, files, torn, m) && LogicalPath(oldPath) && LogicalPath(newPath)
    requires oldPath in files && FreeWay(files, oldPath, newPath, m) && MidPath(oldPath, newPath) !in torn
    ensures WayIsFree(objs, oldPath, newPath, |files[oldPath]|, m)
  {
    hide *;
    StoresLimit(objs, files, torn, m);
    if PlainName(oldPath) && PlainName(newPath) {
      PlainWayFree(objs, files, torn, oldPath, newPath, m);
    } else {
      AccidentalWay(objs, files, torn, oldPath, newPath, m);
    }
  }

  lemma PlainWayFree(objs: Objects, files: Files, torn: set<string>, oldPath: string, newPath: string, m: nat)
    requires Stores(objs, files, torn, m) && LogicalPath(oldPath) && LogicalPath(newPath) && ValidLimit(m)
    requires oldPath in files && FreeWay(files, oldPath, newPath, m) && MidPath(oldPath, newPath) !in torn
    requires PlainName(oldPath) && PlainName(newPath)
    ensures WayIsFree(objs, oldPath, newPath, |files[oldPath]|, m)
  {
    hide Stores, LogicalPath, DirOf, NameOf, Keys, Occupied, PlainName, Sought, Clear, KeyAt, MidPath;
    MidIsLogical(oldPath, newPath);
    if Clear(files, MidPath(oldPath, newPath), |files[oldPath]| > m, m) {
      ClearKeys(objs, files, torn, MidPath(oldPath, newPath), |files[oldPath]|, m);
    }
  }

  lemma AccidentalWay(objs: Objects, files: Files, torn: set<string>, oldPath: string, newPath: string, m: nat)
    requires Stores(objs, files, torn, m) && ValidLimit(m) && oldPath in files && FreeWay(files, oldPath, newPath, m)
    requires !(PlainName(oldPath) && PlainName(newPath))
    ensures WayIsFree(objs, oldPath, newPath, |files[oldPath]|, m)
  {
    hide Stores, DirOf, Keys, Occupied, PlainName, Sought, Clear, KeyAt, MidPath, NameOf, NParts;
    AllOccupied(objs, files, torn, Sought(oldPath, newPath), |files[oldPath]|, m);
  }

  lemma AllOccupied(objs: Objects, files: Files, torn: set<string>, path: string, size: nat, m: nat)
    requires Stores(objs, files, torn, m) && ValidLimit(m)
    requires forall i :: 0 <= i < NParts(size, m) ==> Occupied(files, KeyAt(path, size, i, m), m)
    ensures Keys(path, size, m) <= objs.Keys
  {
    hide Stores, Occupied, KeyAt, NParts;
    forall k | k in Keys(path, size, m)
      ensures k in objs
    {
      assert Occupied(files, k, m);
      OccupiedIff(objs, files, torn, k, m);
    }
  }

  lemma OccupiedIff(objs: Objects, files: Files, torn: set<string>, key: string, m: nat)
    requires Stores(objs, files, torn, m) && ValidLimit(m)
    ensures Occupied(files, key, m) ==> key in objs
    ensures key in objs && Owner(key) !in torn ==> Occupied(files, key, m)
  {
    hide Owner, LogicalPath, Keys;
    if Owner(key) !in torn {
      assert Lookup(objs, key) == Expected(files, key, m);
    }
  }

  // ---- what a rename leaves ----

  /** No object of a renamed file stays at a key of this path. */
  predicate Left(oldPath: string, newPath: string, path: string) {
    var landing, sought, beyond := Landing(oldPath, newPath), Sought(oldPath, newPath), Beyond(oldPath, newPath);
    if ParentOf(oldPath) == ParentOf(newPath) then path != landing
    else if path == landing then path == sought && path != beyond
    else path == beyond ==> path == sought
  }

  /** One client rename: where it adds, and what it takes away. */
  lemma TwoPhaseKeys(o: Objects, from: string, to: string, landing: string, sought: string, beyond: string, k: string)
    requires from in o && TwoPhase(o, from, to).Some?
    requires landing == Landing(from, to) && sought == Sought(from, to) && beyond == ParentOf(to) + NameOf(sought)
    ensures var o' := TwoPhase(o, from, to).value;
            if ParentOf(from) == ParentOf(to) then k in o' <==> k == landing || (k != from && k in o)
            else
              && (sought == landing || (sought in o && sought != from))
              && (k in o' <==> k == beyond || (k != sought && (k == landing || (k != from && k in o))))
  {
    hide LastOf, ParentOf, FileOf, DirOf, NameOf, IsDir;
  }

  /** Where renamed objects do not stay nothing is added. */
  lemma {:induction false} NotAdded(objs: Objects, p: string, q: string, size: nat, n: nat,
                                    path: string, i: nat, m: nat)
    requires MoveAll(objs, p, q, size, n, m).Some? && Left(p, q, path)
    ensures KeyAt(path, size, i, m) in MoveAll(objs, p, q, size, n, m).value ==> KeyAt(path, size, i, m) in objs
  {
    hide KeyAt, TwoPhase, Left;
    if n > 0 {
      NotAdded(objs, p, q, size, n - 1, path, i, m);
      var o := MoveAll(objs, p, q, size, n - 1, m).value;
      StepAdds(o, p, q, size, n - 1, path, i, m);
    }
  }

  lemma StepAdds(o: Objects, p: string, q: string, size: nat, n: nat, path: string, i: nat, m: nat)
    requires var from, to := KeyAt(p, size, n, m), KeyAt(q, size, n, m); from in o && TwoPhase(o, from, to).Some?
    requires Left(p, q, path)
    ensures var o', key := TwoPhase(o, KeyAt(p, size, n, m), KeyAt(q, size, n, m)).value, KeyAt(path, size, i, m);
            && (key in o' ==> key in o)
            && (i == n && path == p ==> key !in o')
            && (i == n && path == Sought(p, q) && ParentOf(p) != ParentOf(q) ==> path == Beyond(p, q) || key !in o')
  {
    hide KeyAt, TwoPhase, Landing, Sought, Beyond, ParentOf, NameOf;
    var from, to, key := KeyAt(p, size, n, m), KeyAt(q, size, n, m), KeyAt(path, size, i, m);
    var landing, sought, beyond := Landing(p, q), Sought(p, q), Beyond(p, q);
    LandingKey(p, q, size, n, m);
    KeyParts(p, size, n, m);
    KeyParts(q, size, n, m);
    TwoPhaseKeys(o, from, to, KeyAt(landing, size, n, m), KeyAt(sought, size, n, m), KeyAt(beyond, size, n, m), key);
    SameKeySamePath(path, landing, size, i, n, m);
    SameKeySamePath(path, beyond, size, i, n, m);
    SameKeySamePath(p, sought, size, n, n, m);
    SameKeySamePath(landing, sought, size, n, n, m);
  }

  lemma SameKeySamePath(p: string, q: string, size: nat, i: nat, j: nat, m: nat)
    ensures KeyAt(p, size, i, m) == KeyAt(q, size, j, m) ==> p == q
  {
    if KeyAt(p, size, i, m) == KeyAt(q, size, j, m) {
      KeyInjective(p, q, size, i, j, m);
    }
  }

  /** The first object of a renamed file is gone from where it was, and from where it was looked for. */
  lemma {:induction false} MoveAllDrops(objs: Objects, p: string, q: string, size: nat, n: nat, path: string, m: nat)
    requires 0 < n && MoveAll(objs, p, q, size, n, m).Some? && Left(p, q, path)
    requires path == p || (path == Sought(p, q) && ParentOf(p) != ParentOf(q) && path != Beyond(p, q))
    ensures KeyAt(path, size, 0, m) !in MoveAll(objs, p, q, size, n, m).value
  {
    hide KeyAt, TwoPhase, Left, Sought, Beyond, ParentOf;
    StepAdds(MoveAll(objs, p, q, size, n - 1, m).value, p, q, size, n - 1, path, 0, m);
    if n > 1 {
      MoveAllDrops(objs, p, q, size, n - 1, path, m);
    }
  }

  /** Where the client looks, if not where the objects land, objects must have been before. */
  lemma {:induction false} SoughtBefore(objs: Objects, p: string, q: string, size: nat, n: nat, i: nat, m: nat)
    requires i < n && MoveAll(objs, p, q, size, n, m).Some?
    requires ParentOf(p) != ParentOf(q) && Sought(p, q) != Landing(p, q)
    ensures KeyAt(Sought(p, q), size, i, m) in objs && Sought(p, q) != p
  {
    hide KeyAt, TwoPhase, Landing, Sought, Beyond, ParentOf, NameOf;
    if i < n - 1 {
      SoughtBefore(objs, p, q, size, n - 1, i, m);
    } else {
      var o := MoveAll(objs, p, q, size, i, m).value;
      var from, to, sought := KeyAt(p, size, i, m), KeyAt(q, size, i, m), KeyAt(Sought(p, q), size, i, m);
      var landing, beyond := KeyAt(Landing(p, q), size, i, m), KeyAt(Beyond(p, q), size, i, m);
      LandingKey(p, q, size, i, m);
      KeyParts(p, size, i, m);
      KeyParts(q, size, i, m);
      TwoPhaseKeys(o, from, to, landing, sought, beyond, sought);
      SameKeySamePath(Landing(p, q), Sought(p, q), size, i, i, m);
      NotAdded(objs, p, q, size, i, Sought(p, q), i, m);
    }
  }

  lemma {:induction false} MoveAllWithin(objs: Objects, p: string, q: string, size: nat, n: nat, m: nat)
    requires ValidLimit(m) && LogicalPath(p) && LogicalPath(q) && n <= NParts(size, m)
    ensures MoveAll(objs, p, q, size, n, m).Some? ==>
              SameOutside(MoveAll(objs, p, q, size, n, m).value, objs, RenameKeys(p, q, size, m))
  {
    hide LogicalPath, KeyAt, TwoPhase, SameOutside, RenameKeys, MidPath, Landing, Sought, Beyond, MoveKey;
    if n == 0 {
      SameAsItself(objs, RenameKeys(p, q, size, m));
    } else if MoveAll(objs, p, q, size, n, m).Some? {
      MoveAllWithin(objs, p, q, size, n - 1, m);
      RenameStaysWithin(objs, MoveAll(objs, p, q, size, n - 1, m).value, MoveAll(objs, p, q, size, n, m).value,
                        p, q, size, n - 1, m);
    }
  }

  /** Without backslashes objects land, and are looked for, half-way. */
  lemma PlainWay(p: string, q: string)
    requires LogicalPath(p) && LogicalPath(q) && PlainName(p) && PlainName(q)
    ensures Landing(p, q) == Sought(p, q) == MidPath(p, q) && Beyond(p, q) == q
    ensures ParentOf(p) == ParentOf(q) <==> DirOf(p) == DirOf(q)
    ensures p != q ==> Left(p, q, p)
    ensures DirOf(p) != DirOf(q) ==> Left(p, q, MidPath(p, q)) && MidPath(p, q) != q
  {
    MidNames(p, q);
    hide LogicalPath, LastOf, PlainName;
    PlainIff(p);
    PlainIff(q);
  }

  /** The objects of other files stay, be it that the rename succeeds in part only. */
  lemma MoveKeeps(objs: Objects, p: string, q: string, size: nat, k: string, m: nat)
    requires ValidLimit(m) && LogicalPath(p) && LogicalPath(q) && Moved(objs, p, q, size, m).Some?
    requires PlainName(p) && PlainName(q) && Owner(k) != p && Owner(k) != q && Owner(k) != MidPath(p, q)
    ensures k in Moved(objs, p, q, size, m).value <==> k in objs
  {
    hide LogicalPath, Owner, Keys, MoveAll, Landing, Sought, Beyond, PlainName;
    MidIsLogical(p, q);
    MoveAllWithin(objs, p, q, size, NParts(size, m), m);
    PlainWay(p, q);
    KeysOwned(p, size, m);
    KeysOwned(q, size, m);
    KeysOwned(MidPath(p, q), size, m);
    var keys := RenameKeys(p, q, size, m);
    assert k !in keys;
    assert k in objs <==> k in objs - keys;
    var o := Moved(objs, p, q, size, m).value;
    assert k in o <==> k in o - keys;
  }

  /** A stored file has a first object, whose key depends on what it is stored as only. */
  lemma FirstKey(objs: Objects, files: Files, path: string, size: nat, m: nat)
    requires Represents(objs, files, m) && path in files && (|files[path]| > m <==> size > m)
    ensures KeyAt(path, size, 0, m) in objs
  {
    hide Represents, LogicalPath, Encode;
    LimitOf(objs, files, m);
    FileIsLogical(objs, files, path, m);
    StoredFully(objs, files, path, m);
    StoredAt(objs, path, files[path], 0, m);
  }

  /** Renaming a file to a free path moves just that file exactly if the directory or the name stays, or no file
      stored in the same way has the new name in the old directory; or by accident, with backslashes. */
  lemma MoveStoresIff(objs: Objects, files: Files, oldPath: string, newPath: string, m: nat)
    requires Represents(objs, files, m) && LogicalPath(oldPath) && LogicalPath(newPath) && oldPath != newPath
    requires oldPath in files && newPath !in files
    ensures ValidLimit(m)
    ensures var moved := Moved(objs, oldPath, newPath, |files[oldPath]|, m);
            moved.Some? && Represents(moved.value, MovedFile(files, oldPath, newPath), m)
            <==> FreeWay(files, oldPath, newPath, m)
  {
    hide Represents, LogicalPath, PlainName, Moved, FreeWay, MidPath, ParentOf;
    LimitOf(objs, files, m);
    var moved := Moved(objs, oldPath, newPath, |files[oldPath]|, m);
    if FreeWay(files, oldPath, newPath, m) {
      StoresAll(objs, files, m);
      MoveStores(objs, files, {}, oldPath, newPath, m);
      StoresAll(moved.value, MovedFile(files, oldPath, newPath), m);
    } else if PlainName(oldPath) && PlainName(newPath) {
      PlainMoveFails(objs, files, oldPath, newPath, m);
    } else if PlainName(newPath) {
      OldBackslashFails(objs, files, oldPath, newPath, m);
    } else if ParentOf(oldPath) == ParentOf(newPath) {
      SameParentFails(objs, files, oldPath, newPath, m);
    } else {
      MoveRefused(objs, oldPath, newPath, |files[oldPath]|, m);
    }
  }

  lemma PlainMoveFails(objs: Objects, files: Files, p: string, q: string, m: nat)
    requires Represents(objs, files, m) && LogicalPath(p) && LogicalPath(q) && p != q && p in files && ValidLimit(m)
    requires PlainName(p) && PlainName(q) && !FreeWay(files, p, q, m)
    ensures var moved := Moved(objs, p, q, |files[p]|, m);
            moved.Some? ==> !Represents(moved.value, MovedFile(files, p, q), m)
  {
    hide Represents, LogicalPath, PlainName, MoveAll, Left, KeyAt;
    var size, mid, moved := |files[p]|, MidPath(p, q), Moved(objs, p, q, |files[p]|, m);
    if moved.Some? && Represents(moved.value, MovedFile(files, p, q), m) {
      MidNames(p, q);
      PlainWay(p, q);
      MoveAllDrops(objs, p, q, size, NParts(size, m), mid, m);
      FirstKey(moved.value, MovedFile(files, p, q), mid, size, m);
    }
  }

  /** No object ever gets to a new name with a backslash. */
  lemma SameParentFails(objs: Objects, files: Files, p: string, q: string, m: nat)
    requires Represents(objs, files, m) && LogicalPath(p) && LogicalPath(q) && p in files && q !in files
    requires ValidLimit(m) && !PlainName(q) && ParentOf(p) == ParentOf(q)
    ensures var moved := Moved(objs, p, q, |files[p]|, m);
            moved.Some? ==> !Represents(moved.value, MovedFile(files, p, q), m)
  {
    hide LogicalPath, PlainName, MoveAll, KeyAt, ParentOf, Represents;
    var size, moved := |files[p]|, Moved(objs, p, q, |files[p]|, m);
    if moved.Some? && Represents(moved.value, MovedFile(files, p, q), m) {
      KeyPlain(q, size, 0, m);
      NoneLands(objs, p, q, size, NParts(size, m), KeyAt(q, size, 0, m), m);
      FirstKey(moved.value, MovedFile(files, p, q), q, size, m);
      OwnerOfKey(q, size, 0, m);
      NothingOwned(objs, files, KeyAt(q, size, 0, m), m);
    }
  }

  lemma NothingOwned(objs: Objects, files: Files, key: string, m: nat)
    requires Represents(objs, files, m) && Owner(key) !in files
    ensures key !in objs
  {
    assert Lookup(objs, key) == Expected(files, key, m);
  }

  /** Objects renamed within their directory do not land at names with a backslash. */
  lemma {:induction false} NoneLands(objs: Objects, p: string, q: string, size: nat, n: nat, k: string, m: nat)
    requires MoveAll(objs, p, q, size, n, m).Some? && ParentOf(p) == ParentOf(q) && !PlainName(k)
    ensures k in MoveAll(objs, p, q, size, n, m).value ==> k in objs
  {
    hide KeyAt, PlainName, TwoPhase, ParentOf, NameOf, Landing, Sought;
    if n > 0 {
      NoneLands(objs, p, q, size, n - 1, k, m);
      var from, to := KeyAt(p, size, n - 1, m), KeyAt(q, size, n - 1, m);
      KeyParts(p, size, n - 1, m);
      KeyParts(q, size, n - 1, m);
      LandsPlain(from, to);
      TwoPhaseKeys(MoveAll(objs, p, q, size, n - 1, m).value, from, to, Landing(from, to), Sought(from, to),
                   ParentOf(to) + NameOf(Sought(from, to)), k);
    }
  }

  lemma LandsPlain(p: string, q: string)
    ensures PlainName(Landing(p, q))
  {
    hide LastOf, PlainName;
    PlainIff(q);
    NameOfJoin(DirOf(p), FileOf(q), p);
    JoinIsPlain(Landing(p, q), FileOf(q));
  }

  lemma MoveRefused(objs: Objects, p: string, q: string, size: nat, m: nat)
    requires ValidLimit(m) && !PlainName(q) && ParentOf(p) != ParentOf(q)
    ensures Moved(objs, p, q, size, m) == None
  {
    hide PlainName, ParentOf, KeyAt, Landing, Sought, LastOf;
    KeyParts(p, size, 0, m);
    KeyParts(q, size, 0, m);
    NewBackslash(q);
    assert MoveAll(objs, p, q, size, 1, m) == None by {
      assert MoveAll(objs, p, q, size, 0, m) == Some(objs);
    }
    MoveAllStops(objs, p, q, size, 1, NParts(size, m), m);
  }

  /** The client has to find objects where none has landed; in another directory it takes them along. */
  lemma OldBackslashFails(objs: Objects, files: Files, p: string, q: string, m: nat)
    requires Represents(objs, files, m) && LogicalPath(p) && LogicalPath(q) && p in files && q !in files
    requires ValidLimit(m) && !PlainName(p) && PlainName(q) && !FreeWay(files, p, q, m)
    ensures var moved := Moved(objs, p, q, |files[p]|, m);
            moved.Some? ==> !Represents(moved.value, MovedFile(files, p, q), m)
  {
    hide LogicalPath, PlainName, MoveAll, KeyAt, Represents, Landing, Sought, Beyond, ParentOf, Left, Occupied, LastOf;
    var size, moved := |files[p]|, Moved(objs, p, q, |files[p]|, m);
    var sought := Sought(p, q);
    if moved.Some? {
      BackslashWay(p, q);
      SoughtBefore(objs, p, q, size, NParts(size, m), 0, m);
      if DirOf(p) == DirOf(q) {
        forall i | 0 <= i < NParts(size, m)
          ensures Occupied(files, KeyAt(sought, size, i, m), m)
        {
          SoughtBefore(objs, p, q, size, NParts(size, m), i, m);
          StoresAll(objs, files, m);
          OccupiedIff(objs, files, {}, KeyAt(sought, size, i, m), m);
        }
      } else {
        MoveAllDrops(objs, p, q, size, NParts(size, m), sought, m);
        SoughtExpected(objs, files, p, q, KeyAt(sought, size, 0, m), sought, moved.value, m);
      }
    }
  }

  lemma BackslashWay(p: string, q: string)
    requires !PlainName(p) && PlainName(q)
    ensures ParentOf(p) != ParentOf(q) && Sought(p, q) != Landing(p, q)
    ensures DirOf(p) != DirOf(q) ==> Sought(p, q) != Beyond(p, q) && Left(p, q, Sought(p, q))
  {
    hide LastOf, PlainName;
    PlainIff(p);
    PlainIff(q);
    SoughtDir(p, FileOf(q));
    if ParentOf(p) == ParentOf(q) {
      ParentsDir(p, q);
    }
    assert |Landing(p, q)| < |Sought(p, q)|;
    SameTail(DirOf(p), DirOf(q), NameOf(Sought(p, q)));
  }

  /** A key of some third path was stored, and has to be. */
  lemma SoughtExpected(objs: Objects, files: Files, p: string, q: string, key: string, path: string,
                       o: Objects, m: nat)
    requires Represents(objs, files, m) && LogicalPath(p) && LogicalPath(q) && p in files && q !in files
    requires ValidLimit(m) && path != p && key == KeyAt(path, |files[p]|, 0, m) && key in objs && key !in o
    ensures !Represents(o, MovedFile(files, p, q), m)
  {
    hide LogicalPath, Owner, Keys, KeyAt;
    assert Lookup(objs, key) == Expected(files, key, m);
    ExpectedWithout(files, p, key, m);
    ExpectedWith(files - {p}, q, files[p], key, m);
    if Owner(key) == p {
      NotKeyOf(p, path, |files[p]|, m);
    }
    assert Lookup(o, key) == None;
  }

  lemma NotKeyOf(p: string, path: string, size: nat, m: nat)
    requires ValidLimit(m) && path != p
    ensures KeyAt(path, size, 0, m) !in Keys(p, size, m)
  {
    if KeyAt(path, size, 0, m) in Keys(p, size, m) {
      var i :| 0 <= i < NParts(size, m) && KeyAt(path, size, 0, m) == KeyAt(p, size, i, m);
      KeyInjective(path, p, size, 0, i, m);
    }
  }

  /** The same for a rename that removes a file at the target first. */
  lemma ReplaceStoresIff(objs: Objects, files: Files, oldPath: string, newPath: string, m: nat)
    requires Represents(objs, files, m) && oldPath != newPath && oldPath in files && newPath in files
    ensures ValidLimit(m)
    ensures var moved := Moved(objs - Keys(newPath, |files[newPath]|, m), oldPath, newPath, |files[oldPath]|, m);
            moved.Some? && Represents(moved.value, MovedFile(files, oldPath, newPath), m)
            <==> FreeWay(files - {newPath}, oldPath, newPath, m)
  {
    LimitOf(objs, files, m);
    FileIsLogical(objs, files, oldPath, m);
    FileIsLogical(objs, files, newPath, m);
    hide Represents, LogicalPath, Moved, FreeWay;
    Deleted(objs, files, newPath, |files[newPath]|, m);
    MoveStoresIff(objs - Keys(newPath, |files[newPath]|, m), files - {newPath}, oldPath, newPath, m);
    assert MovedFile(files - {newPath}, oldPath, newPath) == MovedFile(files, oldPath, newPath);
  }

  // ---- exchanging two files ----

  /** The three renames of an exchange, through a temporary name next to the target. */
  function Exchanged(objs: Objects, a: string, b: string, aSize: nat, bSize: nat, m: nat): Option<Objects>
    requires ValidLimit(m)
  {
    match Moved(objs, b, b + TEMP, bSize, m)
    case None => None
    case Some(o1) =>
      match Moved(o1, a, b, aSize, m)
      case None => None
      case Some(o2) => Moved(o2, b + TEMP, a, bSize, m)
  }

  function Swapped(files: Files, a: string, b: string): Files
    requires a in files && b in files
  {
    files[a := files[b]][b := files[a]]
  }

  /** Objects taken away and put in place, three times. */
  function Overlaid(objs: Objects, ka: set<string>, kb: set<string>, e1: Objects, e2: Objects, e3: Objects): Objects {
    ((objs - kb + e1) - ka + e2) - e1.Keys + e3
  }

  lemma OverlaidAt(objs: Objects, ka: set<string>, kb: set<string>, e1: Objects, e2: Objects, e3: Objects, k: string)
    ensures Lookup(Overlaid(objs, ka, kb, e1, e2, e3), k) ==
            if k in e3 then Some(e3[k])
            else if k in e1 then None
            else if k in e2 then Some(e2[k])
            else if k in ka || k in kb then None
            else Lookup(objs, k)
  {
  }

  /** What an exchange leaves, written with the objects of the two files. */
  ghost function SwappedObjects(objs: Objects, files: Files, a: string, b: string, m: nat): Objects
    requires ValidLimit(m) && LogicalPath(a) && LogicalPath(b) && LogicalPath(b + TEMP) && a in files && b in files
  {
    Overlaid(objs, Keys(a, |files[a]|, m), Keys(b, |files[b]|, m),
             Encode(b + TEMP, files[b], m), Encode(b, files[a], m), Encode(a, files[b], m))
  }

  lemma SwappedStores(objs: Objects, files: Files, torn: set<string>, a: string, b: string, m: nat)
    requires Stores(objs, files, torn, m) && a in files && b in files && a != b && b + TEMP != b
    requires LogicalPath(a) && LogicalPath(b) && LogicalPath(b + TEMP)
    requires Keys(b + TEMP, |files[b]|, m) !! objs.Keys
    ensures Stores(SwappedObjects(objs, files, a, b, m), Swapped(files, a, b), torn, m)
  {
    hide Owner, LogicalPath, Keys, Overlaid;
    var files', o := Swapped(files, a, b), SwappedObjects(objs, files, a, b, m);
    var ka, kb := Keys(a, |files[a]|, m), Keys(b, |files[b]|, m);
    var e1, e2, e3 := Encode(b + TEMP, files[b], m), Encode(b, files[a], m), Encode(a, files[b], m);
    KeysOwned(a, |files[a]|, m);
    KeysOwned(b, |files[b]|, m);
    KeysOwned(b + TEMP, |files[b]|, m);
    KeysOwned(b, |files[a]|, m);
    KeysOwned(a, |files[b]|, m);
    hide Encode;
    forall k | Owner(k) !in torn
      ensures Lookup(o, k) == Expected(files', k, m)
    {
      OverlaidAt(objs, ka, kb, e1, e2, e3, k);
      assert Lookup(objs, k) == Expected(files, k, m);
      ExpectedWith(files, a, files[b], k, m);
      ExpectedWith(files[a := files[b]], b, files[a], k, m);
      SwapKey(objs, files, a, b, k, m);
    }
  }

  /** Key by key, the objects of the two files end up in each other's place. */
  lemma SwapKey(objs: Objects, files: Files, a: string, b: string, k: string, m: nat)
    requires ValidLimit(m) && a in files && b in files && a != b && b + TEMP != b
    requires LogicalPath(a) && LogicalPath(b) && LogicalPath(b + TEMP)
    requires Lookup(objs, k) == Expected(files, k, m)
    requires Keys(b + TEMP, |files[b]|, m) !! objs.Keys
    ensures Owner(k) == a && k !in Encode(a, files[b], m) ==>
              k !in Encode(b, files[a], m) && (k in objs ==> k in Keys(a, |files[a]|, m))
    ensures Owner(k) == b && k !in Encode(b, files[a], m) ==> (k in objs ==> k in Keys(b, |files[b]|, m))
    ensures Owner(k) != a ==> k !in Encode(a, files[b], m) && k !in Keys(a, |files[a]|, m)
    ensures Owner(k) != b ==> k !in Encode(b, files[a], m) && k !in Keys(b, |files[b]|, m)
    ensures Owner(k) != b + TEMP ==> k !in Encode(b + TEMP, files[b], m)
    ensures k in Encode(b + TEMP, files[b], m) ==> k !in objs
  {
    hide Owner, LogicalPath, Keys;
    KeysOwned(a, |files[a]|, m);
    KeysOwned(b, |files[b]|, m);
    KeysOwned(b + TEMP, |files[b]|, m);
    KeysOwned(b, |files[a]|, m);
    KeysOwned(a, |files[b]|, m);
  }

  /** The way from `a` to `b` is free once `b` has left for the temporary name. */
  lemma SecondWay(objs: Objects, files: Files, torn: set<string>, a: string, b: string, o1: Objects, m: nat)
    requires Stores(objs, files, torn, m) && a in files && b in files && a != b
    requires LogicalPath(a) && LogicalPath(b) && RenamePaths(a, b) !! torn && FreeExchange(files, a, b, m)
    requires LogicalPath(b + TEMP)
    requires o1 == objs - Keys(b, |files[b]|, m) + Encode(b + TEMP, files[b], m)
    ensures WayIsFree(o1, a, b, |files[a]|, m)
  {
    hide Stores, LogicalPath, LastOf, Owner, Keys, Encode;
    StoresLimit(objs, files, torn, m);
    TempIsLogical(b);
    MidNames(a, b);
    if DirOf(a) != DirOf(b) && NameOf(a) != NameOf(b) {
      var mid := MidPath(a, b);
      ClearKeys(objs, files, torn, mid, |files[a]|, m);
      KeysDisjoint(mid, |files[a]|, b + TEMP, |files[b]|, m);
    }
  }

  /** The way from the temporary name to `a` is free once `a` has become `b`. */
  lemma ThirdWay(objs: Objects, files: Files, torn: set<string>, a: string, b: string, o2: Objects, m: nat)
    requires Stores(objs, files, torn, m) && a in files && b in files && a != b
    requires LogicalPath(a) && LogicalPath(b) && RenamePaths(a, b) !! torn && FreeExchange(files, a, b, m)
    requires LogicalPath(b + TEMP)
    requires o2.Keys <= objs.Keys - Keys(b, |files[b]|, m) + Keys(b + TEMP, |files[b]|, m) + Keys(b, |files[a]|, m)
    ensures WayIsFree(o2, b + TEMP, a, |files[b]|, m)
  {
    hide Stores, LogicalPath, LastOf, Keys;
    StoresLimit(objs, files, torn, m);
    TempIsLogical(b);
    TempMid(a, b);
    MidNames(b, a);
    var temp, mid, size := b + TEMP, MidPath(b, a), |files[b]|;
    if DirOf(temp) != DirOf(a) && NameOf(temp) != NameOf(a) {
      MidNames(temp, a);
      KeysDisjoint(mid, size, temp, size, m);
      if NameOf(a) == NameOf(b) {
        KindsApart(b, size, |files[a]|, m);
        ThirdWayBack(objs, files, torn, b, m);
      } else {
        ClearKeys(objs, files, torn, mid, size, m);
        KeysDisjoint(mid, size, b, |files[a]|, m);
      }
    }
  }

  lemma ThirdWayBack(objs: Objects, files: Files, torn: set<string>, b: string, m: nat)
    requires Stores(objs, files, torn, m) && b in files
    ensures Keys(b, |files[b]|, m) !! objs.Keys - Keys(b, |files[b]|, m)
  {
  }

  /** Taking one file's objects away leaves those of another. */
  lemma StillIncluded(objs: Objects, e: Objects, keys: set<string>, more: Objects)
    requires Includes(objs, e) && keys !! e.Keys && more.Keys !! e.Keys
    ensures Includes(objs - keys + more, e)
  {
  }

  lemma JustAdded(objs: Objects, keys: set<string>, e: Objects)
    ensures Includes(objs - keys + e, e)
  {
  }

  lemma FirstMove(objs: Objects, files: Files, torn: set<string>, a: string, b: string, m: nat)
    requires Stores(objs, files, torn, m) && a in files && b in files && a != b
    requires LogicalPath(a) && LogicalPath(b) && RenamePaths(a, b) !! torn && FreeExchange(files, a, b, m)
    ensures ValidLimit(m) && LogicalPath(b + TEMP)
    ensures var o1 := objs - Keys(b, |files[b]|, m) + Encode(b + TEMP, files[b], m);
            && Moved(objs, b, b + TEMP, |files[b]|, m) == Some(o1)
            && Includes(o1, Encode(b + TEMP, files[b], m)) && Includes(o1, Encode(a, files[a], m))
            && WayIsFree(o1, a, b, |files[a]|, m)
  {
    StoresLimit(objs, files, torn, m);
    TempIsLogical(b);
    assert LogicalPath(a) && LogicalPath(b) && LogicalPath(b + TEMP);
    hide Stores, LogicalPath, Owner, LastOf, MoveAll, Keys, Encode, FreeExchange, Includes;
    var o1 := objs - Keys(b, |files[b]|, m) + Encode(b + TEMP, files[b], m);
    IncludesAll(objs, files, torn, a, m);
    IncludesAll(objs, files, torn, b, m);
    MoveAllMoves(objs, b, b + TEMP, files[b], m);
    JustAdded(objs, Keys(b, |files[b]|, m), Encode(b + TEMP, files[b], m));
    KeysDisjoint(a, |files[a]|, b, |files[b]|, m);
    TempApart(files, a, b, m);
    StillIncluded(objs, Encode(a, files[a], m), Keys(b, |files[b]|, m), Encode(b + TEMP, files[b], m));
    SecondWay(objs, files, torn, a, b, o1, m);
  }

  /** Even if the temporary name is that of `a`, the objects do not meet. */
  lemma TempApart(files: Files, a: string, b: string, m: nat)
    requires ValidLimit(m) && a in files && b in files && LogicalPath(a) && LogicalPath(b + TEMP)
    requires FreeExchange(files, a, b, m)
    ensures Keys(a, |files[a]|, m) !! Keys(b + TEMP, |files[b]|, m)
  {
    hide LogicalPath, Keys, MidPath, LastOf;
    if a == b + TEMP {
      KindsApart(a, |files[a]|, |files[b]|, m);
    } else {
      KeysDisjoint(a, |files[a]|, b + TEMP, |files[b]|, m);
    }
  }

  lemma SecondMove(objs: Objects, files: Files, torn: set<string>, a: string, b: string, o1: Objects, m: nat)
    requires Stores(objs, files, torn, m) && a in files && b in files && a != b
    requires LogicalPath(a) && LogicalPath(b) && RenamePaths(a, b) !! torn && FreeExchange(files, a, b, m)
    requires ValidLimit(m) && LogicalPath(b + TEMP)
    requires o1 == objs - Keys(b, |files[b]|, m) + Encode(b + TEMP, files[b], m)
    requires Includes(o1, Encode(a, files[a], m)) && Includes(o1, Encode(b + TEMP, files[b], m))
    requires WayIsFree(o1, a, b, |files[a]|, m)
    ensures var o2 := o1 - Keys(a, |files[a]|, m) + Encode(b, files[a], m);
            && Moved(o1, a, b, |files[a]|, m) == Some(o2)
            && Includes(o2, Encode(b + TEMP, files[b], m))
            && WayIsFree(o2, b + TEMP, a, |files[b]|, m)
  {
    TempIsLogical(b);
    assert LogicalPath(a) && LogicalPath(b) && LogicalPath(b + TEMP);
    hide Stores, LogicalPath, Owner, LastOf, MoveAll, Keys, Encode, FreeExchange, Includes, RenamePaths,
         WayIsFree;
    var o2 := o1 - Keys(a, |files[a]|, m) + Encode(b, files[a], m);
    MoveAllMoves(o1, a, b, files[a], m);
    TempApart(files, a, b, m);
    KeysDisjoint(b + TEMP, |files[b]|, b, |files[a]|, m);
    StillIncluded(o1, Encode(b + TEMP, files[b], m), Keys(a, |files[a]|, m), Encode(b, files[a], m));
    ThirdWay(objs, files, torn, a, b, o2, m);
  }

  lemma ThirdMove(files: Files, a: string, b: string, o2: Objects, m: nat)
    requires ValidLimit(m) && a in files && b in files && LogicalPath(a) && LogicalPath(b + TEMP) && PlainName(a)
    requires Includes(o2, Encode(b + TEMP, files[b], m)) && WayIsFree(o2, b + TEMP, a, |files[b]|, m)
    ensures var e1 := Encode(b + TEMP, files[b], m);
            Moved(o2, b + TEMP, a, |files[b]|, m) == Some(o2 - e1.Keys + Encode(a, files[b], m))
  {
    assert LogicalPath(a) && LogicalPath(b + TEMP);
    hide LogicalPath, LastOf, MoveAll, Keys, Encode, WayIsFree, Includes;
    if a == b + TEMP {
      MoveToSelf(o2, a, files[b], NParts(|files[b]|, m), m);
      PutBack(o2, Encode(a, files[b], m));
    } else {
      MoveAllMoves(o2, b + TEMP, a, files[b], m);
    }
  }

  lemma PutBack(objs: Objects, e: Objects)
    requires Includes(objs, e)
    ensures objs - e.Keys + e == objs
  {
  }

  lemma {:induction false} MoveToSelf(objs: Objects, path: string, c: Content, n: nat, m: nat)
    requires ValidLimit(m) && LogicalPath(path) && PlainName(path)
    requires n <= NParts(|c|, m) && Includes(objs, Encode(path, c, m))
    ensures MoveAll(objs, path, path, |c|, n, m) == Some(objs)
  {
    assert NameOf(path) != [];
    hide LogicalPath, KeyAt, Encode, PlainName;
    if n > 0 {
      MoveToSelf(objs, path, c, n - 1, m);
      StoredAt(objs, path, c, n - 1, m);
      var key := KeyAt(path, |c|, n - 1, m);
      KeyPlain(path, |c|, n - 1, m);
      KeyNotEmpty(path, |c|, n - 1, m);
      RenamedToSelf(objs, key);
    }
  }

  lemma RenamedToSelf(objs: Objects, key: string)
    requires key in objs && PlainName(key) && FileOf(key) != []
    ensures TwoPhase(objs, key, key) == Some(objs)
  {
    hide LastOf, PlainName;
    PlainIff(key);
    assert MoveKey(objs, key, key) == objs;
  }

  /** Under these circumstances an exchange swaps the two files, whatever they are stored as. */
  lemma ExchangeStores(objs: Objects, files: Files, torn: set<string>, a: string, b: string, m: nat)
    requires Stores(objs, files, torn, m) && a in files && b in files && a != b
    requires LogicalPath(a) && LogicalPath(b) && RenamePaths(a, b) !! torn && FreeExchange(files, a, b, m)
    ensures ValidLimit(m) && LogicalPath(b + TEMP)
    ensures var o := SwappedObjects(objs, files, a, b, m);
            && Exchanged(objs, a, b, |files[a]|, |files[b]|, m) == Some(o)
            && Stores(o, Swapped(files, a, b), torn, m)
  {
    FirstMove(objs, files, torn, a, b, m);
    assert LogicalPath(a) && LogicalPath(b) && LogicalPath(b + TEMP);
    TempIsLogical(b);
    hide Stores, LogicalPath, LastOf, Owner, Moved, Keys, Encode, Includes, WayIsFree, MidPath, Swapped;
    var o1 := objs - Keys(b, |files[b]|, m) + Encode(b + TEMP, files[b], m);
    SecondMove(objs, files, torn, a, b, o1, m);
    ThirdMove(files, a, b, o1 - Keys(a, |files[a]|, m) + Encode(b, files[a], m), m);
    ClearKeys(objs, files, torn, b + TEMP, |files[b]|, m);
    SwappedStores(objs, files, torn, a, b, m);
  }

  /** In any other circumstances it does not: some file has lost its first object. */
  lemma ExchangeLosesSome(objs: Objects, files: Files, a: string, b: string, m: nat)
    requires Represents(objs, files, m) && a in files && b in files && a != b && LogicalPath(a) && LogicalPath(b)
    requires ValidLimit(m) && !FreeExchange(files, a, b, m)
    ensures var o := Exchanged(objs, a, b, |files[a]|, |files[b]|, m);
            o.Some? ==> !Represents(o.value, Swapped(files, a, b), m)
  {
    var o := Exchanged(objs, a, b, |files[a]|, |files[b]|, m);
    if o.Some? {
      var lost, size := LostFile(objs, files, a, b, m);
      hide Exchanged, Swapped, LogicalPath;
      if Represents(o.value, Swapped(files, a, b), m) {
        FirstKey(o.value, Swapped(files, a, b), lost, size, m);
        assert false;
      }
    }
  }

  lemma LostFile(objs: Objects, files: Files, a: string, b: string, m: nat) returns (lost: string, size: nat)
    requires Represents(objs, files, m) && a in files && b in files && a != b && LogicalPath(a) && LogicalPath(b)
    requires ValidLimit(m) && !FreeExchange(files, a, b, m)
    requires Exchanged(objs, a, b, |files[a]|, |files[b]|, m).Some?
    ensures lost in Swapped(files, a, b) && (|Swapped(files, a, b)[lost]| > m <==> size > m)
    ensures KeyAt(lost, size, 0, m) !in Exchanged(objs, a, b, |files[a]|, |files[b]|, m).value
  {
    hide Represents, LogicalPath, PlainName, Moved, FreeExchange, ParentOf;
    if PlainName(a) && PlainName(b) {
      lost, size := PlainLost(objs, files, a, b, m);
    } else {
      TempIsLogical(b);
      var temp, sa, sb := b + TEMP, |files[a]|, |files[b]|;
      var o1 := Moved(objs, b, temp, sb, m).value;
      var o2 := Moved(o1, a, b, sa, m).value;
      if PlainName(b) {
        PlainIff(a);
        PlainIff(temp);
        if ParentOf(temp) == ParentOf(a) {
          ParentsDir(temp, a);
        }
        MoveRefused(o2, temp, a, sb, m);
        assert false;
      } else {
        if ParentOf(a) != ParentOf(b) {
          MoveRefused(o1, a, b, sa, m);
        }
        lost, size := temp, sb;
        TempLost(objs, a, b, sa, sb, m);
        OwnerOfKey(temp, sb, 0, m);
        StoredKind(objs, files, temp, sb, m);
      }
    }
  }

  /** An object under the first key of a path belongs to a file there, stored as the key says. */
  lemma StoredKind(objs: Objects, files: Files, path: string, size: nat, m: nat)
    requires Represents(objs, files, m) && ValidLimit(m) && LogicalPath(path) && KeyAt(path, size, 0, m) in objs
    ensures path in files && (|files[path]| > m <==> size > m)
  {
    hide LogicalPath, KeyAt, Owner, SlotOf;
    var key := KeyAt(path, size, 0, m);
    OwnerOfKey(path, size, 0, m);
    assert Lookup(objs, key) == Expected(files, key, m);
    KeyOfKind(path, size, |files[path]|, m);
  }

  lemma KeyOfKind(path: string, size: nat, other: nat, m: nat)
    requires ValidLimit(m) && LogicalPath(path) && KeyAt(path, size, 0, m) in Keys(path, other, m)
    ensures size > m <==> other > m
  {
    assert KeyAt(path, size, 0, m) in Keys(path, size, m);
    if (size > m) != (other > m) {
      KindsApart(path, size, other, m);
    }
  }

  /** With a backslash in the target, the temporary name only serves if a file has it, which is then lost. */
  lemma TempLost(objs: Objects, a: string, b: string, sa: nat, sb: nat, m: nat)
    requires ValidLimit(m) && LogicalPath(b) && !PlainName(b) && ParentOf(a) == ParentOf(b)
    requires Exchanged(objs, a, b, sa, sb, m).Some?
    ensures KeyAt(b + TEMP, sb, 0, m) in objs
    ensures KeyAt(b + TEMP, sb, 0, m) !in Exchanged(objs, a, b, sa, sb, m).value
  {
    hide LogicalPath, PlainName, MoveAll, KeyAt, ParentOf, LastOf;
    TempIsLogical(b);
    var temp := b + TEMP;
    TempParent(b);
    var o1 := Moved(objs, b, temp, sb, m).value;
    var o2 := Moved(o1, a, b, sa, m).value;
    var key := KeyAt(temp, sb, 0, m);
    KeyPlain(temp, sb, 0, m);
    NoneLands(objs, b, temp, sb, NParts(sb, m), key, m);
    NoneLands(o1, a, b, sa, NParts(sa, m), key, m);
    LandsPlain(temp, a);
    FirstNeeded(o2, temp, a, sb, m);
    MoveAllDrops(o2, temp, a, sb, NParts(sb, m), temp, m);
  }

  lemma TempParent(path: string)
    ensures ParentOf(path + TEMP) == ParentOf(path)
  {
    hide LastOf;
    forall j | 0 <= j < |TEMP|
      ensures TEMP[j] !in SEPARATORS
    {
      SeparatorsAre(TEMP[j]);
    }
    CutTail(path, TEMP, SEPARATORS);
  }

  lemma FirstNeeded(o: Objects, p: string, q: string, size: nat, m: nat)
    requires ValidLimit(m) && Moved(o, p, q, size, m).Some?
    ensures KeyAt(p, size, 0, m) in o
  {
    hide TwoPhase;
    if KeyAt(p, size, 0, m) !in o {
      assert MoveAll(o, p, q, size, 1, m) == None by {
        assert MoveAll(o, p, q, size, 0, m) == Some(o);
      }
      MoveAllStops(o, p, q, size, 1, NParts(size, m), m);
    }
  }

  lemma PlainLost(objs: Objects, files: Files, a: string, b: string, m: nat) returns (lost: string, size: nat)
    requires Represents(objs, files, m) && a in files && b in files && a != b && LogicalPath(a) && LogicalPath(b)
    requires ValidLimit(m) && !FreeExchange(files, a, b, m) && PlainName(a) && PlainName(b)
    requires Exchanged(objs, a, b, |files[a]|, |files[b]|, m).Some?
    ensures lost in Swapped(files, a, b) && (|Swapped(files, a, b)[lost]| > m <==> size > m)
    ensures KeyAt(lost, size, 0, m) !in Exchanged(objs, a, b, |files[a]|, |files[b]|, m).value
  {
    hide Represents, DirOf, NameOf, LogicalPath, Moved, KeyAt, PlainName, Left, Landing, Sought, Beyond, ParentOf;
    TempIsLogical(b);
    TempMid(a, b);
    MidNames(a, b);
    MidNames(b, a);
    var temp, sa, sb := b + TEMP, |files[a]|, |files[b]|;
    var o1 := Moved(objs, b, temp, sb, m).value;
    var o2 := Moved(o1, a, b, sa, m).value;
    PlainWay(a, b);
    PlainWay(temp, a);
    PlainDrops(o1, a, b, sa, m);
    PlainDrops(o2, temp, a, sb, m);
    if !Clear(files, temp, sb > m, m) {
      lost, size := temp, sb;
      if temp == a {
        FirstNeeded(o2, a, a, sb, m);
        FirstSame(a, sa, sb, m);
      }
    } else if NameOf(a) == NameOf(b) {
      lost, size := b, sb;
    } else if !Clear(files, MidPath(a, b), sa > m, m) {
      lost, size := MidPath(a, b), sa;
      OwnerOfKey(lost, sa, 0, m);
      assert LogicalPath(lost);
      MoveKeeps(o2, temp, a, sb, KeyAt(lost, sa, 0, m), m);
    } else {
      lost, size := MidPath(b, a), sb;
    }
  }

  lemma FirstSame(path: string, s1: nat, s2: nat, m: nat)
    requires s1 > m <==> s2 > m
    ensures KeyAt(path, s1, 0, m) == KeyAt(path, s2, 0, m)
  {
  }

  /** A file that has moved is gone from its old place, and from half-way. */
  lemma PlainDrops(objs: Objects, p: string, q: string, size: nat, m: nat)
    requires ValidLimit(m) && LogicalPath(p) && LogicalPath(q) && PlainName(p) && PlainName(q)
    requires Moved(objs, p, q, size, m).Some?
    ensures p != q ==> KeyAt(p, size, 0, m) !in Moved(objs, p, q, size, m).value
    ensures DirOf(p) != DirOf(q) ==> KeyAt(MidPath(p, q), size, 0, m) !in Moved(objs, p, q, size, m).value
  {
    hide LogicalPath, PlainName, MoveAll, KeyAt, Left;
    PlainWay(p, q);
    if p != q {
      MoveAllDrops(objs, p, q, size, NParts(size, m), p, m);
    }
    if DirOf(p) != DirOf(q) {
      MoveAllDrops(objs, p, q, size, NParts(size, m), MidPath(p, q), m);
    }
  }

  /** An exchange of any two files swaps them and changes nothing else, exactly if no file stored like the target
      has the temporary name, and, across directories, the names are equal and the kinds are not, or neither way
      is blocked. */
  lemma ExchangeSwapsIff(objs: Objects, files: Files, a: string, b: string, m: nat)
    requires Represents(objs, files, m) && a in files && b in files && a != b && LogicalPath(a) && LogicalPath(b)
    ensures ValidLimit(m)
    ensures var o := Exchanged(objs, a, b, |files[a]|, |files[b]|, m);
            o.Some? && Represents(o.value, Swapped(files, a, b), m) <==> FreeExchange(files, a, b, m)
  {
    hide Represents, LogicalPath, LastOf, Exchanged;
    LimitOf(objs, files, m);
    if FreeExchange(files, a, b, m) {
      StoresAll(objs, files, m);
      ExchangeStores(objs, files, {}, a, b, m);
      StoresAll(Exchanged(objs, a, b, |files[a]|, |files[b]|, m).value, Swapped(files, a, b), m);
    } else {
      ExchangeLosesSome(objs, files, a, b, m);
    }
  }
}
