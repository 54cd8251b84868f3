/** A regular file, open or about to be opened: its cached content and what it believes is in the cloud. */
module FileNode {
  import opened Bytes
  import opened PartNames
  import opened Layout
  import opened HexHash
  import opened Storages
  import opened RestClient

  // ---- specification of the cloud updates ----

  /** The first `n` keys of a file. */
  function KeysUpTo(path: string, size: nat, n: nat, m: nat): set<string> {
    if n == 0 then {} else KeysUpTo(path, size, n - 1, m) + {KeyAt(path, size, n - 1, m)}
  }

  /** The first `n` objects of a file. */
  function EncodeUpTo(path: string, c: Content, n: nat, m: nat): Objects
    requires ValidLimit(m) && n <= NParts(|c|, m)
  {
    if n == 0 then map[]
    else EncodeUpTo(path, c, n - 1, m)[KeyAt(path, |c|, n - 1, m) := PartAt(c, n - 1, m)]
  }

  lemma {:induction false} KeysUpToWithin(path: string, size: nat, n: nat, m: nat)
    requires ValidLimit(m) && n <= NParts(size, m)
    ensures KeysUpTo(path, size, n, m) <= Keys(path, size, m)
    ensures forall i :: 0 <= i < n ==> KeyAt(path, size, i, m) in KeysUpTo(path, size, n, m)
  {
    if n > 0 {
      KeysUpToWithin(path, size, n - 1, m);
      assert KeyAt(path, size, n - 1, m) in Keys(path, size, m);
    }
  }

  lemma AllKeys(path: string, size: nat, m: nat)
    requires ValidLimit(m)
    ensures KeysUpTo(path, size, NParts(size, m), m) == Keys(path, size, m)
  {
    KeysUpToWithin(path, size, NParts(size, m), m);
  }

  lemma {:induction false} EncodeUpToWithin(path: string, c: Content, n: nat, m: nat)
    requires ValidLimit(m) && LogicalPath(path) && n <= NParts(|c|, m)
    ensures EncodeUpTo(path, c, n, m).Keys == KeysUpTo(path, |c|, n, m)
    ensures Includes(Encode(path, c, m), EncodeUpTo(path, c, n, m))
  {
    hide PartName, LogicalPath, PartAt, KeyAt, Encode;
    if n > 0 {
      EncodeUpToWithin(path, c, n - 1, m);
      EncodeAt(path, c, n - 1, m);
    }
  }

  lemma AllEncoded(path: string, c: Content, m: nat)
    requires ValidLimit(m) && LogicalPath(path)
    ensures EncodeUpTo(path, c, NParts(|c|, m), m) == Encode(path, c, m)
  {
    hide PartName, LogicalPath, PartAt, KeyAt, Encode, Keys, EncodeUpTo, KeysUpTo;
    EncodeUpToWithin(path, c, NParts(|c|, m), m);
    AllKeys(path, |c|, m);
  }

  /** The cloud after a flush: old objects gone, the content as uploaded in their place, the rest untouched. */
  ghost function Flushed(objs: Objects, path: string, oldSize: nat, c: Content, m: nat): Objects
    requires ValidLimit(m) && LogicalPath(path)
  {
    objs - Keys(path, oldSize, m) + Encode(path, Stored(c), m)
  }

  /** Both clouds hold the same under all other keys. */
  predicate SameOutside(a: Objects, b: Objects, keys: set<string>) {
    a - keys == b - keys
  }

  /** The keys a flush may touch. */
  function FlushKeys(path: string, oldSize: nat, size: nat, m: nat): set<string>
    requires ValidLimit(m)
  {
    Keys(path, oldSize, m) + Keys(path, size, m)
  }

  /** The keys of a smaller size lie within those of the old size and a bigger one. */
  lemma FlushKeysGrow(path: string, oldSize: nat, size: nat, more: nat, m: nat)
    requires ValidLimit(m) && oldSize <= size <= more
    ensures FlushKeys(path, oldSize, size, m) <= FlushKeys(path, oldSize, more, m)
  {
    forall k | k in Keys(path, size, m)
      ensures k in FlushKeys(path, oldSize, more, m)
    {
      var i :| 0 <= i < NParts(size, m) && k == KeyAt(path, size, i, m);
      if size > m {
        PartsGrow(size, more, m);
        assert k == KeyAt(path, more, i, m);
      } else {
        assert k == KeyAt(path, oldSize, 0, m);
      }
    }
  }

  lemma PartsGrow(size: nat, more: nat, m: nat)
    requires ValidLimit(m) && m < size <= more
    ensures NParts(size, m) <= NParts(more, m)
  {
    DivFacts(size, m);
    DivFacts(more, m);
    if more / m < size / m {
      MulMono(more / m + 1, size / m, m);
    }
  }

  /** Whatever failed attempts did to those keys, a flush that gets through has the same outcome. */
  lemma FlushForgets(objs: Objects, torn: Objects, path: string, oldSize: nat, c: Content, m: nat)
    requires ValidLimit(m) && LogicalPath(path)
    requires SameOutside(torn, objs, FlushKeys(path, oldSize, |c|, m))
    ensures Flushed(torn, path, oldSize, c, m) == Flushed(objs, path, oldSize, c, m)
  {
    OverlayForgets(objs, torn, Keys(path, oldSize, m), Encode(path, Stored(c), m));
  }

  lemma OverlayForgets(a: Objects, b: Objects, keys: set<string>, e: Objects)
    requires SameOutside(a, b, keys + e.Keys)
    ensures a - keys + e == b - keys + e
  {
    var touched := keys + e.Keys;
    forall k | k !in touched
      ensures k in a <==> k in b
      ensures k in a ==> a[k] == b[k]
    {
      assert k in a <==> k in a - touched;
      assert k in b <==> k in b - touched;
    }
  }

  /** An uploaded slice is the part it should be. */
  lemma UploadedPart(c: Content, i: nat, m: nat)
    requires ValidLimit(m) && |c| > m && i < NParts(|c|, m)
    ensures i * m <= |c| && Uploaded(c, i * m, m) == PartAt(Stored(c), i, m)
  {
    PartBounds(|c|, i, m);
    assert (i + 1) * m == i * m + m;
  }

  lemma UploadStart(before: Objects, path: string, data: Content, m: nat)
    requires ValidLimit(m) && LogicalPath(path)
    ensures before + EncodeUpTo(path, Stored(data), 0, m) == before
    ensures EncodeUpTo(path, Stored(data), NParts(|data|, m), m) == Encode(path, Stored(data), m)
  {
    AllEncoded(path, Stored(data), m);
  }

  /** Uploading one more part to a cloud that has the first `n` gives one that has the first `n + 1`. */
  lemma UploadStep(before: Objects, path: string, data: Content, n: nat, m: nat)
    requires ValidLimit(m) && LogicalPath(path) && |data| > m && n < NParts(|data|, m)
    ensures n * m <= |data| && (n + 1) * m == n * m + m
    ensures (before + EncodeUpTo(path, Stored(data), n, m))[PartName(path, n) := Uploaded(data, n * m, m)]
            == before + EncodeUpTo(path, Stored(data), n + 1, m)
    ensures before + EncodeUpTo(path, Stored(data), n + 1, m) - Keys(path, |data|, m)
            == before - Keys(path, |data|, m)
  {
    hide PartName, LogicalPath, PartAt, Encode, Uploaded, Stored, Keys;
    UploadedPart(data, n, m);
    EncodeUpToWithin(path, Stored(data), n + 1, m);
    KeysUpToWithin(path, |data|, n + 1, m);
    assert (n + 1) * m == n * m + m;
  }

  lemma SingleObject(path: string, c: Content, m: nat)
    requires ValidLimit(m) && LogicalPath(path) && |c| <= m
    ensures Keys(path, |c|, m) == {path} && Encode(path, Stored(c), m) == map[path := Stored(c)]
    ensures |c| <= OFF_MAX ==> Uploaded(c, 0, OFF_MAX) == Stored(c)
  {
    hide LogicalPath, PartName, FromHex, Hash, Encode;
    assert KeyAt(path, |c|, 0, m) == path;
    EncodeAt(path, Stored(c), 0, m);
  }

  /** The largest `off_t`, the default for how much to upload. */
  const OFF_MAX := 0x7FFF_FFFF_FFFF_FFFF

  // ---- renaming whole files ----

  /** The new name in the old directory. */
  function MidPath(oldPath: string, newPath: string): string {
    DirOf(oldPath) + NameOf(newPath)
  }

  /** The objects of the file can pass: no object of a third file sits half-way; or, if only the old name has a
      backslash and the directory stays, some object sits at every key the client looks for. */
  predicate WayIsFree(objs: Objects, oldPath: string, newPath: string, size: nat, m: nat)
    requires ValidLimit(m)
  {
    if PlainName(oldPath) && PlainName(newPath) then
      || DirOf(oldPath) == DirOf(newPath)
      || NameOf(oldPath) == NameOf(newPath)
      || Keys(MidPath(oldPath, newPath), size, m) !! objs.Keys
    else
      && !PlainName(oldPath) && PlainName(newPath) && DirOf(oldPath) == DirOf(newPath)
      && Sought(oldPath, newPath) != oldPath
      && Keys(Sought(oldPath, newPath), size, m) <= objs.Keys
  }

  lemma LastOfAppend(path: string, tail: string, seps: string)
    requires forall j :: 0 <= j < |tail| ==> tail[j] !in seps
    ensures LastOf(path + tail, seps) == LastOf(path, seps)
  {
    hide LastOf;
    var whole := path + tail;
    assert forall j :: |path| <= j < |whole| ==> whole[j] == tail[j - |path|];
    assert forall j :: 0 <= j < |path| ==> whole[j] == path[j];
    LastOfIs(whole, seps, LastOf(path, seps));
  }

  lemma PartTail(i: nat)
    ensures forall j :: 0 <= j < |SUFFIX + Decimal(i)| ==>
              (SUFFIX + Decimal(i))[j] != '/' && (SUFFIX + Decimal(i))[j] != '\\'
  {
    ValueOfDecimal(i);
    var d := Decimal(i);
    assert forall j :: 0 <= j < |d| ==> IsDigit(d[j]);
    hide Decimal;
    var tail := SUFFIX + d;
    assert forall j :: |SUFFIX| <= j < |tail| ==> tail[j] == d[j - |SUFFIX|];
  }

  lemma CutTail(path: string, tail: string, seps: string)
    requires forall j :: 0 <= j < |tail| ==> tail[j] !in seps
    ensures var k := LastOf(path, seps) + 1;
            && LastOf(path + tail, seps) + 1 == k
            && (path + tail)[..k] == path[..k] && (path + tail)[k..] == path[k..] + tail
  {
    hide LastOf;
    LastOfAppend(path, tail, seps);
  }

  lemma TailPlain(i: nat)
    ensures forall j :: 0 <= j < |SUFFIX + Decimal(i)| ==> (SUFFIX + Decimal(i))[j] !in "/"
    ensures forall j :: 0 <= j < |SUFFIX + Decimal(i)| ==> (SUFFIX + Decimal(i))[j] !in SEPARATORS
  {
    PartTail(i);
    hide Decimal;
    var tail := SUFFIX + Decimal(i);
    forall j | 0 <= j < |tail|
      ensures tail[j] !in "/" && tail[j] !in SEPARATORS
    {
      SeparatorsAre(tail[j]);
    }
  }

  lemma PartIsAppended(path: string, i: nat)
    ensures PartName(path, i) == path + (SUFFIX + Decimal(i))
  {
    hide Decimal;
  }

  /** A key is cut where the path of its file is. */
  lemma KeyParts(path: string, size: nat, i: nat, m: nat)
    ensures DirOf(KeyAt(path, size, i, m)) == DirOf(path)
    ensures NameOf(KeyAt(path, size, i, m)) == KeyAt(NameOf(path), size, i, m)
    ensures ParentOf(KeyAt(path, size, i, m)) == ParentOf(path)
    ensures FileOf(KeyAt(path, size, i, m)) == KeyAt(FileOf(path), size, i, m)
  {
    hide LastOf, Decimal, PartName;
    if size > m {
      var tail := SUFFIX + Decimal(i);
      TailPlain(i);
      PartIsAppended(path, i);
      PartIsAppended(NameOf(path), i);
      PartIsAppended(FileOf(path), i);
      CutTail(path, tail, "/");
      CutTail(path, tail, SEPARATORS);
    }
  }

  lemma KeyPlain(path: string, size: nat, i: nat, m: nat)
    ensures PlainName(KeyAt(path, size, i, m)) <==> PlainName(path)
  {
    hide *;
    KeyParts(path, size, i, m);
    PlainIff(path);
    PlainIff(KeyAt(path, size, i, m));
  }

  lemma KeyInDir(dir: string, name: string, size: nat, i: nat, m: nat)
    ensures dir + KeyAt(name, size, i, m) == KeyAt(dir + name, size, i, m)
  {
    assert dir + (name + SUFFIX + Decimal(i)) == dir + name + SUFFIX + Decimal(i);
  }

  /** Where the objects of a renamed file land, and where they are looked for. */
  lemma LandingKey(oldPath: string, newPath: string, size: nat, i: nat, m: nat)
    ensures var from, to := KeyAt(oldPath, size, i, m), KeyAt(newPath, size, i, m);
            && Landing(from, to) == KeyAt(Landing(oldPath, newPath), size, i, m)
            && Sought(from, to) == KeyAt(Sought(oldPath, newPath), size, i, m)
            && ParentOf(to) + NameOf(Sought(from, to)) == KeyAt(Beyond(oldPath, newPath), size, i, m)
  {
    hide KeyAt, ParentOf, FileOf, DirOf, NameOf;
    KeyParts(oldPath, size, i, m);
    KeyParts(newPath, size, i, m);
    KeyParts(Sought(oldPath, newPath), size, i, m);
    KeyInDir(DirOf(oldPath), FileOf(newPath), size, i, m);
    KeyInDir(ParentOf(oldPath), FileOf(newPath), size, i, m);
    KeyInDir(ParentOf(newPath), NameOf(Sought(oldPath, newPath)), size, i, m);
  }

  /** Where what is found there is moved. */
  function Beyond(oldPath: string, newPath: string): string {
    ParentOf(newPath) + NameOf(Sought(oldPath, newPath))
  }

  lemma MidIsLogical(oldPath: string, newPath: string)
    requires LogicalPath(oldPath) && LogicalPath(newPath)
    ensures LogicalPath(MidPath(oldPath, newPath))
    ensures DirOf(MidPath(oldPath, newPath)) == DirOf(oldPath) && NameOf(MidPath(oldPath, newPath)) == NameOf(newPath)
    ensures PlainName(MidPath(oldPath, newPath)) <==> PlainName(newPath)
  {
    SplitJoin(DirOf(oldPath), NameOf(newPath));
  }

  /** The cloud after the first `n` objects of a file have been moved. */
  function MovedUpTo(objs: Objects, oldPath: string, newPath: string, c: Content, n: nat, m: nat): Objects
    requires ValidLimit(m) && n <= NParts(|c|, m)
  {
    objs - KeysUpTo(oldPath, |c|, n, m) + EncodeUpTo(newPath, c, n, m)
  }

  lemma NotYetMoved(oldPath: string, newPath: string, c: Content, n: nat, m: nat)
    requires ValidLimit(m) && LogicalPath(oldPath) && LogicalPath(newPath) && oldPath != newPath && n < NParts(|c|, m)
    ensures KeyAt(oldPath, |c|, n, m) !in EncodeUpTo(newPath, c, n, m)
    ensures forall k :: k in KeysUpTo(oldPath, |c|, n, m) ==> k != KeyAt(oldPath, |c|, n, m)
  {
    var from := KeyAt(oldPath, |c|, n, m);
    EncodeUpToWithin(newPath, c, n, m);
    KeysUpToWithin(newPath, |c|, n, m);
    KeysDisjoint(oldPath, |c|, newPath, |c|, m);
    assert from in Keys(oldPath, |c|, m);
    EarlierKeysDiffer(oldPath, |c|, n, n, m);
  }

  lemma {:induction false} EarlierKeysDiffer(path: string, size: nat, j: nat, n: nat, m: nat)
    requires ValidLimit(m) && LogicalPath(path) && j <= n < NParts(size, m)
    ensures KeyAt(path, size, n, m) !in KeysUpTo(path, size, j, m)
  {
    hide PartName, LogicalPath, KeyAt, SlotOf;
    if j > 0 {
      EarlierKeysDiffer(path, size, j - 1, n, m);
      SlotOfKey(path, size, j - 1, m);
      SlotOfKey(path, size, n, m);
    }
  }

  lemma MidFree(objs: Objects, oldPath: string, newPath: string, c: Content, n: nat, m: nat)
    requires ValidLimit(m) && LogicalPath(oldPath) && LogicalPath(newPath) && n < NParts(|c|, m)
    requires Keys(MidPath(oldPath, newPath), |c|, m) !! objs.Keys
    requires DirOf(oldPath) != DirOf(newPath) && NameOf(oldPath) != NameOf(newPath)
    ensures KeyAt(MidPath(oldPath, newPath), |c|, n, m) !in MovedUpTo(objs, oldPath, newPath, c, n, m)
  {
    var mid := MidPath(oldPath, newPath);
    MidIsLogical(oldPath, newPath);
    assert KeyAt(mid, |c|, n, m) in Keys(mid, |c|, m);
    KeysDisjoint(mid, |c|, newPath, |c|, m);
    EncodeUpToWithin(newPath, c, n, m);
    KeysUpToWithin(newPath, |c|, n, m);
  }

  /** Keys of different paths differ, whatever the paths are. */
  lemma KeyInjective(p: string, q: string, size: nat, i: nat, j: nat, m: nat)
    requires KeyAt(p, size, i, m) == KeyAt(q, size, j, m)
    ensures p == q
  {
    if size > m {
      PartNameInjective(p, i, q, j);
    }
  }

  /** What the client looks for is still there when its turn comes. */
  lemma SoughtStays(objs: Objects, oldPath: string, newPath: string, c: Content, n: nat, m: nat)
    requires ValidLimit(m) && LogicalPath(newPath) && n < NParts(|c|, m)
    requires Sought(oldPath, newPath) != oldPath && Keys(Sought(oldPath, newPath), |c|, m) <= objs.Keys
    ensures KeyAt(Sought(oldPath, newPath), |c|, n, m) in MovedUpTo(objs, oldPath, newPath, c, n, m)
    ensures KeyAt(Sought(oldPath, newPath), |c|, n, m) != KeyAt(oldPath, |c|, n, m)
  {
    hide LogicalPath, KeyAt, Sought;
    var key := KeyAt(Sought(oldPath, newPath), |c|, n, m);
    assert key in Keys(Sought(oldPath, newPath), |c|, m);
    if key == KeyAt(oldPath, |c|, n, m) {
      KeyInjective(Sought(oldPath, newPath), oldPath, |c|, n, n, m);
    }
    NotUpTo(oldPath, Sought(oldPath, newPath), |c|, n, n, m);
  }

  lemma {:induction false} NotUpTo(path: string, other: string, size: nat, n: nat, i: nat, m: nat)
    requires path != other
    ensures KeyAt(other, size, i, m) !in KeysUpTo(path, size, n, m)
  {
    hide KeyAt;
    if n > 0 {
      NotUpTo(path, other, size, n - 1, i, m);
      if KeyAt(other, size, i, m) == KeyAt(path, size, n - 1, m) {
        KeyInjective(other, path, size, i, n - 1, m);
      }
    }
  }

  lemma StepIsMove(objs: Objects, oldPath: string, newPath: string, c: Content, n: nat, m: nat)
    requires ValidLimit(m) && LogicalPath(oldPath) && LogicalPath(newPath)
    requires n < NParts(|c|, m) && WayIsFree(objs, oldPath, newPath, |c|, m)
    requires KeyAt(oldPath, |c|, n, m) in MovedUpTo(objs, oldPath, newPath, c, n, m)
    ensures var o := MovedUpTo(objs, oldPath, newPath, c, n, m);
            var from, to := KeyAt(oldPath, |c|, n, m), KeyAt(newPath, |c|, n, m);
            TwoPhase(o, from, to) == Some(MoveKey(o, from, to))
  {
    assert IsDir(DirOf(newPath)) && NameOf(newPath) != [];
    hide LogicalPath, LastOf, TwoPhase, MoveKey, KeyAt, MovedUpTo, ParentOf, FileOf, DirOf, NameOf, Keys, PlainName,
         IsDir, Sought, Landing;
    var o := MovedUpTo(objs, oldPath, newPath, c, n, m);
    var from, to := KeyAt(oldPath, |c|, n, m), KeyAt(newPath, |c|, n, m);
    TwoPhaseIsMoveIff(o, from, to);
    LandingKey(oldPath, newPath, |c|, n, m);
    KeyParts(oldPath, |c|, n, m);
    KeyParts(newPath, |c|, n, m);
    KeyPlain(oldPath, |c|, n, m);
    KeyPlain(newPath, |c|, n, m);
    KeyNotEmpty(newPath, |c|, n, m);
    if PlainName(oldPath) && PlainName(newPath) {
      PlainLanding(oldPath, newPath);
      if DirOf(oldPath) != DirOf(newPath) && NameOf(oldPath) != NameOf(newPath) {
        MidFree(objs, oldPath, newPath, c, n, m);
      }
    } else {
      SoughtStays(objs, oldPath, newPath, c, n, m);
      PlainIff(oldPath);
      PlainIff(newPath);
    }
  }

  lemma PlainLanding(oldPath: string, newPath: string)
    requires PlainName(newPath)
    ensures Landing(oldPath, newPath) == MidPath(oldPath, newPath)
    ensures NameOf(oldPath) == NameOf(newPath) ==> Landing(oldPath, newPath) == oldPath
  {
    hide LastOf, PlainName;
    PlainIff(newPath);
    PlainIff(oldPath);
  }

  lemma KeyNotEmpty(path: string, size: nat, i: nat, m: nat)
    requires NameOf(path) != [] && PlainName(path)
    ensures FileOf(KeyAt(path, size, i, m)) != []
  {
    hide LastOf, PlainName;
    PlainIff(path);
    KeyParts(path, size, i, m);
  }

  /** Renaming object `n` of a file moves just that object, untouched so far, to its new place. */
  lemma RenameStep(objs: Objects, oldPath: string, newPath: string, c: Content, n: nat, m: nat)
    requires ValidLimit(m) && LogicalPath(oldPath) && LogicalPath(newPath) && oldPath != newPath
    requires n < NParts(|c|, m) && Includes(objs, Encode(oldPath, c, m)) && WayIsFree(objs, oldPath, newPath, |c|, m)
    ensures var o := MovedUpTo(objs, oldPath, newPath, c, n, m);
            var from, to := KeyAt(oldPath, |c|, n, m), KeyAt(newPath, |c|, n, m);
            from in o && TwoPhase(o, from, to) == Some(MovedUpTo(objs, oldPath, newPath, c, n + 1, m))
  {
    hide LogicalPath, TwoPhase, KeyAt, PartAt, Keys, WayIsFree, Encode;
    var o := MovedUpTo(objs, oldPath, newPath, c, n, m);
    var from, to := KeyAt(oldPath, |c|, n, m), KeyAt(newPath, |c|, n, m);
    StoredAt(objs, oldPath, c, n, m);
    NotYetMoved(oldPath, newPath, c, n, m);
    assert from in o && o[from] == PartAt(c, n, m);
    StepIsMove(objs, oldPath, newPath, c, n, m);
    assert MoveKey(o, from, to) == MovedUpTo(objs, oldPath, newPath, c, n + 1, m);
  }

  /** Renaming the objects of a file one by one; None if one of them is not there, or its rename is refused. */
  function MoveAll(objs: Objects, oldPath: string, newPath: string, size: nat, n: nat, m: nat): Option<Objects> {
    if n == 0 then Some(objs)
    else
      var from := KeyAt(oldPath, size, n - 1, m);
      match MoveAll(objs, oldPath, newPath, size, n - 1, m)
      case None => None
      case Some(o) => if from in o then TwoPhase(o, from, KeyAt(newPath, size, n - 1, m)) else None
  }

  lemma {:induction false} MoveAllUpTo(objs: Objects, oldPath: string, newPath: string, c: Content, n: nat, m: nat)
    requires ValidLimit(m) && LogicalPath(oldPath) && LogicalPath(newPath) && oldPath != newPath
    requires n <= NParts(|c|, m) && Includes(objs, Encode(oldPath, c, m))
    requires WayIsFree(objs, oldPath, newPath, |c|, m)
    ensures MoveAll(objs, oldPath, newPath, |c|, n, m) == Some(MovedUpTo(objs, oldPath, newPath, c, n, m))
  {
    hide LogicalPath, TwoPhase, KeyAt, PartAt, Keys, WayIsFree, Encode, MovedUpTo;
    if n == 0 {
      NothingMoved(objs, oldPath, newPath, c, m);
    } else {
      MoveAllUpTo(objs, oldPath, newPath, c, n - 1, m);
      RenameStep(objs, oldPath, newPath, c, n - 1, m);
    }
  }

  lemma NothingMoved(objs: Objects, oldPath: string, newPath: string, c: Content, m: nat)
    requires ValidLimit(m)
    ensures MovedUpTo(objs, oldPath, newPath, c, 0, m) == objs
  {
  }

  /** Through a free way every object of the file gets to its new key, and nothing else changes. */
  lemma MoveAllMoves(objs: Objects, oldPath: string, newPath: string, c: Content, m: nat)
    requires ValidLimit(m) && LogicalPath(oldPath) && LogicalPath(newPath) && oldPath != newPath
    requires Includes(objs, Encode(oldPath, c, m)) && WayIsFree(objs, oldPath, newPath, |c|, m)
    ensures MoveAll(objs, oldPath, newPath, |c|, NParts(|c|, m), m)
            == Some(objs - Keys(oldPath, |c|, m) + Encode(newPath, c, m))
  {
    hide LogicalPath, Keys, WayIsFree, Encode, MoveAll, EncodeUpTo, KeysUpTo;
    MoveAllUpTo(objs, oldPath, newPath, c, NParts(|c|, m), m);
    AllEncoded(newPath, c, m);
    AllKeys(oldPath, |c|, m);
  }

  /** The keys a rename may touch, through failures too. */
  function RenameKeys(oldPath: string, newPath: string, size: nat, m: nat): set<string>
    requires ValidLimit(m)
  {
    Keys(oldPath, size, m) + Keys(Landing(oldPath, newPath), size, m) + Keys(Sought(oldPath, newPath), size, m)
    + Keys(Beyond(oldPath, newPath), size, m)
  }

  /** One client rename, however it ends, stays within the keys of its file. */
  lemma RenameStaysWithin(before: Objects, o: Objects, o': Objects, oldPath: string, newPath: string,
                          size: nat, n: nat, m: nat)
    requires ValidLimit(m) && n < NParts(size, m)
    requires SameOutside(o, before, RenameKeys(oldPath, newPath, size, m))
    requires var from, to := KeyAt(oldPath, size, n, m), KeyAt(newPath, size, n, m);
             || o' == o
             || (from in o && (o' == MoveKey(o, from, Landing(from, to)) || TwoPhase(o, from, to) == Some(o')))
    ensures SameOutside(o', before, RenameKeys(oldPath, newPath, size, m))
  {
    hide KeyAt, Landing, Sought, Beyond, ParentOf, NameOf, MoveKey;
    var from, to := KeyAt(oldPath, size, n, m), KeyAt(newPath, size, n, m);
    var landing, sought := KeyAt(Landing(oldPath, newPath), size, n, m), KeyAt(Sought(oldPath, newPath), size, n, m);
    var beyond := KeyAt(Beyond(oldPath, newPath), size, n, m);
    LandingKey(oldPath, newPath, size, n, m);
    var keys := RenameKeys(oldPath, newPath, size, m);
    assert {from, landing, sought, beyond} <= keys by {
      assert from in Keys(oldPath, size, m) && landing in Keys(Landing(oldPath, newPath), size, m);
      assert sought in Keys(Sought(oldPath, newPath), size, m) && beyond in Keys(Beyond(oldPath, newPath), size, m);
    }
    hide RenameKeys, Keys;
    if from in o {
      MoveWithin(o, from, landing, keys);
      var o1 := MoveKey(o, from, landing);
      if sought in o1 {
        MoveWithin(o1, sought, beyond, keys);
      }
    }
  }

  /** The first `n` objects have been moved, and the next one is where it was, half-way, or moved. */
  ghost predicate PartWay(before: Objects, objs: Objects, oldPath: string, newPath: string, size: nat, n: nat, m: nat) {
    var from, to := KeyAt(oldPath, size, n, m), KeyAt(newPath, size, n, m);
    match MoveAll(before, oldPath, newPath, size, n, m)
    case None => false
    case Some(o) =>
      || objs == o
      || (from in o && (objs == MoveKey(o, from, Landing(from, to)) || TwoPhase(o, from, to) == Some(objs)))
  }

  lemma MoveWithin(o: Objects, from: string, to: string, keys: set<string>)
    requires from in o && from in keys && to in keys
    ensures MoveKey(o, from, to) - keys == o - keys
  {
  }

  // ---- how the rows of calls of a flush end ----

  /** How many calls a flush makes if all pass. */
  function FlushCalls(oldSize: nat, size: nat, m: nat): nat
    requires ValidLimit(m)
  {
    NParts(oldSize, m) + NParts(size, m)
  }

  /** How an attempt at a row of calls ends that uploads some content last; it has to be taken, too. */
  function AttemptStatus(faults: seq<Fault>, calls: nat, taken: bool): Status {
    var s := RowStatus(faults, calls);
    if s.Ok? && !taken then Failed(BAD_REQUEST) else s
  }

  /** The cloud after a flush of small contents met these faults. */
  function SmallFlush(objs: Objects, path: string, c: Content, faults: seq<Fault>): Objects {
    var f1, f2 := Fate(faults), Fate(Later(faults));
    if f1.Refused? then objs
    else if f1.Torn? || f2.Refused? || !Storable(c) then objs - {path}
    else (objs - {path})[path := Stored(c)]
  }

  class MarcFileNode {
    const limit: nat            // MARCFS_MAX_FILE_SIZE
    var cachedContent: Content  // the byte string its backing storage is
    var dirty: bool             // a later upload is needed
    var oldFileSize: nat        // size as last seen in the cloud, or as set by truncate
    var isOpen: bool
    const onDisk: bool          // a cache directory is configured

    constructor (limit: nat, size: nat, onDisk: bool)
      requires ValidLimit(limit)
      ensures this.limit == limit && this.onDisk == onDisk && oldFileSize == size && !dirty && !isOpen
      ensures cachedContent == []
    {
      this.limit, this.onDisk, oldFileSize, dirty, isOpen := limit, onDisk, size, false, false;
      cachedContent := [];
    }

    method Open(client: RestClient, path: string) returns (s: Status)
      requires ValidLimit(limit)
      modifies `isOpen, `cachedContent
      ensures isOpen
      ensures old(isOpen) ==> s.Ok? && cachedContent == old(cachedContent)
      ensures !old(isOpen) ==>
                match Decode(client.objects, path, oldFileSize, limit)
                case Some(c) => s.Ok? && cachedContent == old(cachedContent) + c
                case None => s == Failed(NOT_FOUND) && old(cachedContent) <= cachedContent
    {
      hide PartName, LogicalPath;
      if isOpen {
        return Ok;
      }
      isOpen := true;
      ghost var before := cachedContent;
      if oldFileSize > limit {
        var partCount := oldFileSize / limit + 1;
        var idx := 0;
        while idx < partCount
          invariant isOpen && 0 <= idx <= partCount
          invariant Fetch(client.objects, path, oldFileSize, idx, limit).Some?
          invariant cachedContent == before + Fetch(client.objects, path, oldFileSize, idx, limit).value
        {
          s, cachedContent := client.Download(PartName(path, idx), cachedContent);
          if s.Failed? {
            FetchStops(client.objects, path, oldFileSize, idx + 1, partCount, limit);
            return;
          }
          idx := idx + 1;
        }
        s := Ok;
      } else {
        s, cachedContent := client.Download(path, cachedContent);
        assert Fetch(client.objects, path, oldFileSize, 0, limit) == Some([]);
      }
    }

    method DeleteParts(client: RestClient, path: string) returns (s: Status)
      requires ValidLimit(limit) && oldFileSize > limit
      modifies client
      ensures s == RowStatus(old(client.faults), NParts(oldFileSize, limit))
      ensures client.faults == RowRest(old(client.faults), NParts(oldFileSize, limit))
      ensures s.Ok? ==> client.objects == old(client.objects) - Keys(path, oldFileSize, limit)
      ensures SameOutside(client.objects, old(client.objects), Keys(path, oldFileSize, limit))
    {
      hide PartName, Keys;
      ghost var before, faults := client.objects, client.faults;
      var partCount := oldFileSize / limit + 1;
      var idx := 0;
      while idx < partCount
        invariant 0 <= idx <= partCount
        invariant RowStatus(faults, partCount) == RowStatus(client.faults, partCount - idx)
        invariant RowRest(faults, partCount) == RowRest(client.faults, partCount - idx)
        invariant client.objects == before - KeysUpTo(path, oldFileSize, idx, limit)
      {
        KeysUpToWithin(path, oldFileSize, idx + 1, limit);
        s := client.Remove(PartName(path, idx));
        if s.Failed? {
          return;
        }
        idx := idx + 1;
      }
      AllKeys(path, oldFileSize, limit);
      s := Ok;
    }

    /** Deletes the objects of a file of the remembered size. */
    method DeleteObjects(client: RestClient, path: string) returns (s: Status)
      requires ValidLimit(limit)
      modifies client
      ensures s == RowStatus(old(client.faults), NParts(oldFileSize, limit))
      ensures client.faults == RowRest(old(client.faults), NParts(oldFileSize, limit))
      ensures s.Ok? ==> client.objects == old(client.objects) - Keys(path, oldFileSize, limit)
      ensures SameOutside(client.objects, old(client.objects), Keys(path, oldFileSize, limit))
      ensures oldFileSize <= limit ==>
                client.objects == if Fate(old(client.faults)).Refused? then old(client.objects)
                                  else old(client.objects) - {path}
    {
      if oldFileSize > limit {
        s := DeleteParts(client, path);
      } else {
        assert Keys(path, oldFileSize, limit) == {path} by {
          assert KeyAt(path, oldFileSize, 0, limit) == path;
        }
        OneCallRow(client.faults);
        s := client.Remove(path);
      }
    }

    method UploadParts(client: RestClient, path: string) returns (s: Status)
      requires ValidLimit(limit) && LogicalPath(path) && limit < |cachedContent| <= OFF_MAX
      modifies client
      ensures s == RowStatus(old(client.faults), NParts(|cachedContent|, limit))
      ensures client.faults == RowRest(old(client.faults), NParts(|cachedContent|, limit))
      ensures s.Ok? ==> client.objects == old(client.objects) + Encode(path, Stored(cachedContent), limit)
      ensures SameOutside(client.objects, old(client.objects), Keys(path, |cachedContent|, limit))
    {
      hide PartName, LogicalPath, PartAt, Encode, Uploaded, Stored, Keys, EncodeUpTo;
      var data := cachedContent;
      ghost var c := Stored(data);
      ghost var before, faults := client.objects, client.faults;
      UploadStart(before, path, data, limit);
      var partCount := |data| / limit + 1;
      var offset, idx := 0, 0;
      while idx < partCount
        invariant 0 <= idx <= partCount && offset == idx * limit
        invariant RowStatus(faults, partCount) == RowStatus(client.faults, partCount - idx)
        invariant RowRest(faults, partCount) == RowRest(client.faults, partCount - idx)
        invariant client.objects == before + EncodeUpTo(path, c, idx, limit)
        invariant client.objects - Keys(path, |data|, limit) == before - Keys(path, |data|, limit)
      {
        UploadStep(before, path, data, idx, limit);
        s := client.Upload(PartName(path, idx), data, offset, limit);
        if s.Failed? {
          return;
        }
        offset := offset + limit;
        idx := idx + 1;
      }
      s := Ok;
    }

    /** Uploads the cached content as one object or as parts. */
    method UploadObjects(client: RestClient, path: string) returns (s: Status)
      requires ValidLimit(limit) && LogicalPath(path) && |cachedContent| <= OFF_MAX
      modifies client
      ensures s == AttemptStatus(old(client.faults), NParts(|cachedContent|, limit), Storable(cachedContent))
      ensures client.faults == RowRest(old(client.faults), NParts(|cachedContent|, limit))
      ensures s.Ok? ==> client.objects == old(client.objects) + Encode(path, Stored(cachedContent), limit)
      ensures SameOutside(client.objects, old(client.objects), Keys(path, |cachedContent|, limit))
      ensures !Storable(cachedContent) ==> client.objects == old(client.objects)
      ensures |cachedContent| <= limit ==>
                client.objects == if Fate(old(client.faults)).Refused? || !Storable(cachedContent)
                                  then old(client.objects)
                                  else old(client.objects)[path := Stored(cachedContent)]
    {
      hide PartName, LogicalPath, Encode, Uploaded, Stored, Keys, Storable;
      if |cachedContent| > limit {
        TakenIfBig(cachedContent);
        s := UploadParts(client, path);
      } else {
        SingleObject(path, cachedContent, limit);
        OneCallRow(client.faults);
        s := client.Upload(path, cachedContent, 0, OFF_MAX);
      }
    }

    method Flush(client: RestClient, path: string) returns (s: Status)
      requires ValidLimit(limit) && LogicalPath(path) && |cachedContent| <= OFF_MAX
      modifies `dirty, `oldFileSize, client
      ensures !old(dirty) ==>
                && s.Ok? && !dirty && oldFileSize == old(oldFileSize)
                && client.objects == old(client.objects) && client.faults == old(client.faults)
      ensures old(dirty) ==>
                var calls := FlushCalls(old(oldFileSize), |cachedContent|, limit);
                && s == AttemptStatus(old(client.faults), calls, Storable(cachedContent))
                && client.faults == RowRest(old(client.faults), calls)
      ensures old(dirty) && s.Ok? ==>
                && !dirty && oldFileSize == |cachedContent|
                && client.objects == Flushed(old(client.objects), path, old(oldFileSize), cachedContent, limit)
      ensures old(dirty) && s.Failed? ==>
                && dirty && oldFileSize == old(oldFileSize)
                && SameOutside(client.objects, old(client.objects),
                               FlushKeys(path, oldFileSize, |cachedContent|, limit))
      ensures old(dirty) && old(oldFileSize) <= limit && |cachedContent| <= limit ==>
                client.objects == SmallFlush(old(client.objects), path, cachedContent, old(client.faults))
    {
      hide Storable;
      if !dirty {
        return Ok;
      }
      ghost var k1, k2 := Keys(path, oldFileSize, limit), Keys(path, |cachedContent|, limit);
      ghost var before, faults := client.objects, client.faults;
      RowSplit(faults, NParts(oldFileSize, limit), NParts(|cachedContent|, limit));
      OneCallRow(faults);
      s := DeleteObjects(client, path);
      ghost var between := client.objects;
      SubtractMore(between, before, k1, k2);
      if s.Failed? {
        return;
      }
      s := UploadObjects(client, path);
      SubtractMore(client.objects, between, k2, k1);
      assert k2 + k1 == k1 + k2;
      if s.Failed? {
        return;
      }
      dirty := false;
      oldFileSize := |cachedContent|;
    }

    method Read(size: nat, offset: nat) returns (buf: Content, count: int)
      requires InRange(offset, size)
      ensures buf == ReadAt(cachedContent, size, offset) && count == Int32(|buf|)
      ensures |buf| == Max(0, Min(size, |cachedContent| - offset))
      ensures forall j :: 0 <= j < |buf| ==> buf[j] == cachedContent[offset + j]
    {
      buf := ReadAt(cachedContent, size, offset);
      count := Int32(|buf|);
    }

    method Write(buf: Content, offset: nat) returns (count: int)
      requires InRange(offset, |buf|)
      modifies `dirty, `cachedContent
      ensures cachedContent == Put(onDisk, old(cachedContent), buf, offset) && count == Int32(|buf|)
      ensures dirty == (old(dirty) || count > 0)
      ensures |cachedContent| ==
              if onDisk && buf == [] then |old(cachedContent)| else Max(|old(cachedContent)|, offset + |buf|)
      ensures forall j :: 0 <= j < |cachedContent| ==>
                cachedContent[j] ==
                if offset <= j < offset + |buf| then buf[j - offset]
                else if j < |old(cachedContent)| then old(cachedContent)[j]
                else 0
    {
      PutBytes(onDisk, cachedContent, buf, offset);
      cachedContent := Put(onDisk, cachedContent, buf, offset);
      count := Int32(|buf|);
      if count > 0 {
        dirty := true;
      }
    }

    method Remove(client: RestClient, path: string) returns (s: Status)
      requires ValidLimit(limit)
      modifies client
      ensures s == RowStatus(old(client.faults), NParts(oldFileSize, limit))
      ensures client.faults == RowRest(old(client.faults), NParts(oldFileSize, limit))
      ensures s.Ok? ==> client.objects == old(client.objects) - Keys(path, oldFileSize, limit)
      ensures SameOutside(client.objects, old(client.objects), Keys(path, oldFileSize, limit))
    {
      s := DeleteObjects(client, path);
    }

    /** Renames the objects of a file of the remembered size, one by one. */
    method Rename(client: RestClient, oldPath: string, newPath: string) returns (s: Status)
      requires ValidLimit(limit)
      modifies client
      ensures var all := MoveAll(old(client.objects), oldPath, newPath, oldFileSize, NParts(oldFileSize, limit), limit);
              && (s.Ok? ==> all == Some(client.objects))
              && (old(client.faults) == [] ==> client.faults == [] && (s.Ok? <==> all.Some?))
      ensures s.Failed? ==>
                exists n :: 0 <= n < NParts(oldFileSize, limit)
                            && PartWay(old(client.objects), client.objects, oldPath, newPath, oldFileSize, n, limit)
      ensures SameOutside(client.objects, old(client.objects), RenameKeys(oldPath, newPath, oldFileSize, limit))
    {
      hide PartName, TwoPhase, RenameKeys, SameOutside, MoveKey, Landing;
      ghost var before := client.objects;
      assert SameOutside(before, before, RenameKeys(oldPath, newPath, oldFileSize, limit)) by {
        SameAsItself(before, RenameKeys(oldPath, newPath, oldFileSize, limit));
      }
      s := Ok;
      if oldFileSize > limit {
        var partCount := oldFileSize / limit + 1;
        var idx := 0;
        while idx < partCount
          invariant 0 <= idx <= partCount && s.Ok?
          invariant old(client.faults) == [] ==> client.faults == []
          invariant MoveAll(before, oldPath, newPath, oldFileSize, idx, limit) == Some(client.objects)
          invariant SameOutside(client.objects, before, RenameKeys(oldPath, newPath, oldFileSize, limit))
        {
          ghost var o := client.objects;
          s := client.Rename(PartName(oldPath, idx), PartName(newPath, idx));
          RenameStaysWithin(before, o, client.objects, oldPath, newPath, oldFileSize, idx, limit);
          if s.Failed? {
            MoveAllStops(before, oldPath, newPath, oldFileSize, idx + 1, partCount, limit);
            assert PartWay(before, client.objects, oldPath, newPath, oldFileSize, idx, limit);
            return;
          }
          idx := idx + 1;
        }
      } else {
        assert MoveAll(before, oldPath, newPath, oldFileSize, 0, limit) == Some(before);
        s := client.Rename(oldPath, newPath);
        RenameStaysWithin(before, before, client.objects, oldPath, newPath, oldFileSize, 0, limit);
        assert s.Failed? ==> PartWay(before, client.objects, oldPath, newPath, oldFileSize, 0, limit);
      }
    }

    method Truncate(size: nat)
      modifies `dirty, `oldFileSize, `cachedContent
      ensures cachedContent == Resize(old(cachedContent), size) && oldFileSize == size && dirty
      ensures |cachedContent| == size
      ensures forall j :: 0 <= j < size ==>
                cachedContent[j] == if j < |old(cachedContent)| then old(cachedContent)[j] else 0
    {
      cachedContent := Resize(cachedContent, size);
      oldFileSize := size;
      dirty := true;
    }

    method Release()
      modifies `oldFileSize, `isOpen, `cachedContent
      ensures oldFileSize == |old(cachedContent)| && cachedContent == [] && !isOpen
    {
      oldFileSize := |cachedContent|;
      cachedContent := [];
      isOpen := false;
    }

    function GetSize(): nat
      reads this
    {
      if cachedContent != [] then |cachedContent| else oldFileSize
    }
  }

  lemma {:induction false} FetchStops(objs: Objects, path: string, size: nat, n: nat, total: nat, m: nat)
    requires n <= total && Fetch(objs, path, size, n, m) == None
    ensures Fetch(objs, path, size, total, m) == None
  {
    if n < total {
      FetchStops(objs, path, size, n, total - 1, m);
    }
  }

  lemma OneCallRow(faults: seq<Fault>)
    ensures RowStatus(faults, 1) == StatusOf(Fate(faults)) && RowRest(faults, 1) == Later(faults)
  {
    if faults != [] {
      assert RowStatus(faults[1..], 0) == Ok && RowRest(faults[1..], 0) == faults[1..];
    }
  }

  lemma TakenIfBig(c: Content)
    requires |c| > TINY
    ensures Storable(c)
  {
  }

  lemma {:induction false} MoveAllStops(objs: Objects, oldPath: string, newPath: string, size: nat,
                                        n: nat, total: nat, m: nat)
    requires n <= total
    ensures MoveAll(objs, oldPath, newPath, size, n, m) == None ==>
              MoveAll(objs, oldPath, newPath, size, total, m) == None
  {
    hide TwoPhase, KeyAt;
    if n < total {
      MoveAllStops(objs, oldPath, newPath, size, n, total - 1, m);
    }
  }

  lemma SameAsItself(objs: Objects, keys: set<string>)
    ensures SameOutside(objs, objs, keys)
  {
  }

  lemma SubtractMore(a: Objects, b: Objects, keys: set<string>, more: set<string>)
    requires SameOutside(a, b, keys)
    ensures SameOutside(a, b, keys + more)
  {
    assert a - (keys + more) == (a - keys) - more;
    assert b - (keys + more) == (b - keys) - more;
  }
}
