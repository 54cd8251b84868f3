/** Where truncation, empty writes and exchange fall short of what they promise, and exactly when they do not. */
module Anomalies {
  import opened Bytes
  import opened PartNames
  import opened Layout
  import opened HexHash
  import opened Listing
  import opened RestClient
  import opened Storages
  import opened Logical
  import opened FileNode
  import opened FileSystem
  import opened Renames
  import opened FuseState

  // ---- truncating an open file ----

  /** A node that truncates overwrites what it knows of the cloud. It still covers what is there exactly when
      the new size uses all the keys of the old one. */
  lemma TruncateCoversIff(files: Files, path: string, n: nat, m: nat)
    requires ValidLimit(m) && path in files && LogicalPath(path)
    ensures Covered(files, path, n, m) <==> SafeTruncate(|files[path]|, n, m)
  {
    SafeTruncateIff(path, |files[path]|, n, m);
  }

  /** The cloud after a file with content `c` was truncated to `n` and flushed, be it open or closed. */
  ghost function Truncated(objs: Objects, path: string, c: Content, n: nat, m: nat): Objects
    requires ValidLimit(m) && LogicalPath(path)
  {
    Flushed(objs, path, n, Resize(c, n), m)
  }

  /** Of the truncated file's keys, those of the new size hold new parts and the others what they held before. */
  lemma TruncatedKeys(objs: Objects, files: Files, path: string, n: nat, k: string, m: nat)
    requires Represents(objs, files, m) && path in files && Owner(k) == path
    ensures LogicalPath(path) && |Stored(Resize(files[path], n))| == n
    ensures Lookup(Truncated(objs, path, files[path], n, m), k) ==
            if k in Keys(path, n, m) then Lookup(Encode(path, Stored(Resize(files[path], n)), m), k)
            else Lookup(Encode(path, files[path], m), k)
  {
    hide Stored, Resize, Keys, Encode, Owner;
    FileIsLogical(objs, files, path, m);
    ResizeLength(files[path], n);
    assert Lookup(objs, k) == Expected(files, k, m);
  }

  /** How many parts a file of this size has; a single object is none. */
  function PartCount(size: nat, m: nat): nat
    requires ValidLimit(m)
  {
    if size > m then NParts(size, m) else 0
  }

  /** What a part-named key of the truncated file holds: a new part, else an old one left over. */
  lemma TruncatedPart(objs: Objects, files: Files, path: string, n: nat, k: string, m: nat)
    requires Represents(objs, files, m) && path in files && LogicalPath(path)
    requires Owner(k) == path && BaseOf(NameOf(k)).Some?
    ensures var c, c' := files[path], Stored(Resize(files[path], n));
            var i := SlotOf(k);
            && |c'| == n
            && Lookup(Truncated(objs, path, c, n, m), k) ==
               if k != PartName(path, i) then None
               else if i < PartCount(n, m) then Some(PartAt(c', i, m))
               else if i < PartCount(|c|, m) then Some(PartAt(c, i, m))
               else None
  {
    hide Stored, Resize, Truncated, Encode;
    var c, c' := files[path], Stored(Resize(files[path], n));
    var i := SlotOf(k);
    TruncatedKeys(objs, files, path, n, k, m);
    KeyBySlot(k, path, n, m);
    KeyBySlot(k, path, |c|, m);
    assert BaseOf(NameOf(path)) != BaseOf(NameOf(k));
    if i < NParts(n, m) {
      EncodeAt(path, c', i, m);
    }
    if i < NParts(|c|, m) {
      EncodeAt(path, c, i, m);
    }
  }

  /** The sizes of the parts in the cloud: all new ones, then whatever old ones lie beyond them. */
  function PartsLeft(c: Content, c': Content, m: nat): seq<nat>
    requires ValidLimit(m)
  {
    (if |c'| > m then PartSizes(c', NParts(|c'|, m), m) else [])
    + (if PartCount(|c|, m) > PartCount(|c'|, m) then PartSizes(c, NParts(|c|, m), m)[PartCount(|c'|, m)..] else [])
  }

  lemma PartsLeftAt(c: Content, c': Content, i: nat, m: nat)
    requires ValidLimit(m)
    ensures |PartsLeft(c, c', m)| == Max(PartCount(|c|, m), PartCount(|c'|, m))
    ensures i < PartCount(|c'|, m) ==> PartsLeft(c, c', m)[i] == |PartAt(c', i, m)|
    ensures PartCount(|c'|, m) <= i < PartCount(|c|, m) ==> PartsLeft(c, c', m)[i] == |PartAt(c, i, m)|
  {
  }

  lemma TruncatedHasParts(objs: Objects, files: Files, path: string, n: nat, m: nat)
    requires Represents(objs, files, m) && path in files && LogicalPath(path)
    ensures HasParts(Truncated(objs, path, files[path], n, m), path,
                     PartsLeft(files[path], Stored(Resize(files[path], n)), m))
  {
    hide Stored, Resize, Truncated, PartsLeft, PartCount, PartAt, PartName, LogicalPath, Represents, BaseOf;
    LimitOf(objs, files, m);
    var c, c' := files[path], Stored(Resize(files[path], n));
    var o := Truncated(objs, path, c, n, m);
    var sizes := PartsLeft(c, c', m);
    ResizeLength(c, n);
    forall k | k in o && BaseOf(NameOf(k)).Some? && Owner(k) == path
      ensures SlotOf(k) < |sizes| && k == PartName(path, SlotOf(k)) && |o[k]| == sizes[SlotOf(k)]
    {
      TruncatedPart(objs, files, path, n, k, m);
      PartsLeftAt(c, c', SlotOf(k), m);
    }
    forall i | 0 <= i < |sizes|
      ensures PartName(path, i) in o
    {
      PartsLeftAt(c, c', i, m);
      PartSlot(path, i);
      TruncatedPart(objs, files, path, n, PartName(path, i), m);
    }
  }

  lemma PartSlot(path: string, i: nat)
    requires LogicalPath(path)
    ensures Owner(PartName(path, i)) == path && BaseOf(NameOf(PartName(path, i))).Some?
    ensures SlotOf(PartName(path, i)) == i
  {
    OwnerOfPart(path, i);
    BaseOfPartName(NameOf(path), i);
    IndexOfPartName(path, i);
  }

  /** How many bytes the parts of a compound file of `n` bytes have room for. */
  function Room(n: nat, m: nat): nat
    requires ValidLimit(m)
  {
    (n / m + 1) * m
  }

  lemma RoomFits(size: nat, n: nat, m: nat)
    requires ValidLimit(m) && size > m && n > m && NParts(size, m) <= NParts(n, m)
    ensures size <= Room(n, m)
  {
  }

  lemma RoomFull(size: nat, n: nat, m: nat)
    requires ValidLimit(m) && size > m && n > m && NParts(size, m) > NParts(n, m)
    ensures Room(n, m) == NParts(n, m) * m <= size
  {
    PartBounds(size, NParts(n, m), m);
  }

  /** The sizes of the parts from number `k` on. */
  lemma TailSizes(c: Content, k: nat, m: nat)
    requires ValidLimit(m) && |c| > m && k < NParts(|c|, m)
    ensures Sum(PartSizes(c, NParts(|c|, m), m)[k..]) == |c| - k * m
  {
    hide Sum, PartSizes, PartAt;
    var all := PartSizes(c, NParts(|c|, m), m);
    SizesAddUp(c, m);
    SizesUpTo(c, k, m);
    assert all[..k] == PartSizes(c, k, m) by {
      FirstSizes(c, k, m);
    }
    SumConcat(all[..k], all[k..]);
    assert all == all[..k] + all[k..];
  }

  lemma FirstSizes(c: Content, k: nat, m: nat)
    requires ValidLimit(m) && k <= NParts(|c|, m)
    ensures PartSizes(c, NParts(|c|, m), m)[..k] == PartSizes(c, k, m)
  {
  }

  lemma PartsLeftSum(c: Content, c': Content, m: nat)
    requires ValidLimit(m) && (|c| > m || |c'| > m)
    ensures PartsLeft(c, c', m) != []
    ensures Sum(PartsLeft(c, c', m)) ==
            if |c'| > m then |c'| + Max(0, if |c| > m then |c| - Room(|c'|, m) else 0) else |c|
  {
    hide PartSizes, Room, Sum, PartAt;
    SizesAddUp(c', m);
    if |c| > m {
      SizesAddUp(c, m);
      if |c'| <= m {
        PartsLeftOld(c, c', m);
      } else if NParts(|c|, m) > NParts(|c'|, m) {
        RoomFull(|c|, |c'|, m);
        TailSizes(c, NParts(|c'|, m), m);
        SumConcat(PartSizes(c', NParts(|c'|, m), m), PartSizes(c, NParts(|c|, m), m)[NParts(|c'|, m)..]);
      } else {
        RoomFits(|c|, |c'|, m);
        assert PartsLeft(c, c', m) == PartSizes(c', NParts(|c'|, m), m);
      }
    } else {
      assert PartsLeft(c, c', m) == PartSizes(c', NParts(|c'|, m), m);
    }
    PartsLeftSome(c, c', m);
  }

  lemma PartsLeftOld(c: Content, c': Content, m: nat)
    requires ValidLimit(m) && |c'| <= m < |c|
    ensures PartsLeft(c, c', m) == PartSizes(c, NParts(|c|, m), m)
  {
  }

  lemma PartsLeftSome(c: Content, c': Content, m: nat)
    requires ValidLimit(m) && (|c| > m || |c'| > m)
    ensures PartsLeft(c, c', m) != []
  {
  }

  /** After truncate and flush, a stat shows the new size exactly if the file was a single object, or stays
      compound and the old parts beyond the new ones are empty. */
  lemma TruncateShowsIff(objs: Objects, files: Files, path: string, n: nat,
                         listing: seq<CloudFile>, collapsed: seq<CloudFile>, m: nat)
    requires Represents(objs, files, m) && path in files && LogicalPath(path)
    requires IsListing(Truncated(objs, path, files[path], n, m), DirOf(path), listing) && Collapsed(listing, collapsed)
    ensures SizeOf(collapsed, NameOf(path)) == Some(n) <==>
            |files[path]| <= m || (n > m && |files[path]| <= Room(n, m))
  {
    hide Stored, Resize, Truncated, PartsLeft, Represents, Keys, BaseOf, LastOf, Room, Sum, HasParts, IsListing,
         Collapsed;
    var c, c' := files[path], Stored(Resize(files[path], n));
    ResizeLength(c, n);
    LimitOf(objs, files, m);
    var o := Truncated(objs, path, c, n, m);
    assert path == DirOf(path) + NameOf(path);
    if |c| > m || n > m {
      TruncatedHasParts(objs, files, path, n, m);
      PartsLeftSum(c, c', m);
      StatOfParts(o, DirOf(path), listing, collapsed, NameOf(path), PartsLeft(c, c', m));
    } else {
      SmallTruncated(objs, files, path, n, m);
      StatIsLogical(o, files[path := c'], DirOf(path), listing, collapsed, NameOf(path), m);
    }
  }

  lemma SmallTruncated(objs: Objects, files: Files, path: string, n: nat, m: nat)
    requires Represents(objs, files, m) && path in files && LogicalPath(path) && SafeTruncate(|files[path]|, n, m)
    ensures Represents(Truncated(objs, path, files[path], n, m), files[path := Stored(Resize(files[path], n))], m)
  {
    hide Stored, Resize, Represents, LogicalPath, Keys, Encode;
    LimitOf(objs, files, m);
    ResizeLength(files[path], n);
    TruncateCoversIff(files, path, n, m);
    Replaced(objs, files, path, n, Stored(Resize(files[path], n)), m);
  }

  /** Then the cloud stores the truncated file, and all others as before, exactly if the new size uses all the keys
      of the old one: the first of the others is left behind. */
  lemma TruncateStoresIff(objs: Objects, files: Files, path: string, n: nat, m: nat)
    requires Represents(objs, files, m) && path in files && LogicalPath(path)
    ensures Represents(Truncated(objs, path, files[path], n, m), files[path := Stored(Resize(files[path], n))], m)
            <==> SafeTruncate(|files[path]|, n, m)
  {
    hide Stored, Resize, Represents, LogicalPath, Keys, Encode, Truncated;
    LimitOf(objs, files, m);
    if SafeTruncate(|files[path]|, n, m) {
      SmallTruncated(objs, files, path, n, m);
    } else {
      var k := LeftBehind(objs, files, path, n, m);
      if Represents(Truncated(objs, path, files[path], n, m), files[path := Stored(Resize(files[path], n))], m) {
        NotAKey(Truncated(objs, path, files[path], n, m), files, path, Stored(Resize(files[path], n)), k, m);
        assert false;
      }
    }
  }

  lemma LeftBehind(objs: Objects, files: Files, path: string, n: nat, m: nat) returns (k: string)
    requires Represents(objs, files, m) && path in files && LogicalPath(path) && !SafeTruncate(|files[path]|, n, m)
    ensures Owner(k) == path && k in Truncated(objs, path, files[path], n, m)
    ensures k !in Keys(path, |Stored(Resize(files[path], n))|, m)
  {
    hide Stored, Resize, Represents, LogicalPath, Encode, SafeTruncate, Truncated, Keys;
    LimitOf(objs, files, m);
    var c := files[path];
    TruncateCoversIff(files, path, n, m);
    assert !(Keys(path, |c|, m) <= Keys(path, n, m));
    k :| k in Keys(path, |c|, m) && k !in Keys(path, n, m);
    KeysOwned(path, |c|, m);
    TruncatedKeys(objs, files, path, n, k, m);
    KeysOfEncode(path, c, m);
  }

  lemma NotAKey(objs: Objects, files: Files, path: string, c: Content, k: string, m: nat)
    requires Represents(objs, files[path := c], m) && LogicalPath(path) && Owner(k) == path
    requires k !in Keys(path, |c|, m)
    ensures k !in objs
  {
    hide LogicalPath, Owner, Keys;
    assert Lookup(objs, k) == Expected(files[path := c], k, m);
  }

  /** When the shown size is right, so is the content. */
  lemma TruncateReadsBack(objs: Objects, path: string, c: Content, n: nat, m: nat)
    requires ValidLimit(m) && LogicalPath(path)
    ensures Decode(Truncated(objs, path, c, n, m), path, n, m) == Some(Stored(Resize(c, n)))
  {
    hide Stored, Resize, Encode;
    ResizeLength(c, n);
    DecodeEncode(Truncated(objs, path, c, n, m), path, Stored(Resize(c, n)), m);
  }

  /** A compound file cut down to a single object comes back whole: size and content are the old ones. */
  lemma TruncateComesBack(objs: Objects, files: Files, path: string, n: nat,
                          listing: seq<CloudFile>, collapsed: seq<CloudFile>, m: nat)
    requires Represents(objs, files, m) && path in files && LogicalPath(path) && n <= m < |files[path]|
    requires IsListing(Truncated(objs, path, files[path], n, m), DirOf(path), listing) && Collapsed(listing, collapsed)
    ensures SizeOf(collapsed, NameOf(path)) == Some(|files[path]|)
    ensures Decode(Truncated(objs, path, files[path], n, m), path, |files[path]|, m) == Some(files[path])
  {
    hide Stored, Resize, PartsLeft, Represents, BaseOf, LastOf, Encode, Room, Sum;
    var c, c' := files[path], Stored(Resize(files[path], n));
    ResizeLength(c, n);
    LimitOf(objs, files, m);
    var o := Truncated(objs, path, c, n, m);
    assert path == DirOf(path) + NameOf(path);
    TruncatedHasParts(objs, files, path, n, m);
    PartsLeftSum(c, c', m);
    StatOfParts(o, DirOf(path), listing, collapsed, NameOf(path), PartsLeft(c, c', m));
    OldPartsStay(objs, files, path, n, m);
    DecodeEncode(o, path, c, m);
  }

  lemma OldPartsStay(objs: Objects, files: Files, path: string, n: nat, m: nat)
    requires Represents(objs, files, m) && path in files && LogicalPath(path) && n <= m < |files[path]|
    ensures Includes(Truncated(objs, path, files[path], n, m), Encode(path, files[path], m))
  {
    hide Stored, Resize, Represents, LogicalPath, Encode;
    var c := files[path];
    LimitOf(objs, files, m);
    ResizeLength(c, n);
    StoredFully(objs, files, path, m);
    assert Keys(path, n, m) == {path} by {
      assert KeyAt(path, n, 0, m) == path;
    }
    forall k | k in Encode(path, c, m)
      ensures k != path
    {
      KeyBySlot(k, path, |c|, m);
      OwnerOfPart(path, SlotOf(k));
    }
  }

  /** A single object grown beyond the limit is left behind: once the new file is removed, the old one is back. */
  lemma TruncateLeavesOld(objs: Objects, files: Files, path: string, n: nat, m: nat)
    requires Represents(objs, files, m) && path in files && LogicalPath(path) && |files[path]| <= m < n
    ensures Truncated(objs, path, files[path], n, m) - Keys(path, n, m) == objs
  {
    hide Stored, Resize, LogicalPath, Encode;
    ResizeLength(files[path], n);
    forall k | k in Keys(path, n, m)
      ensures k !in objs
    {
      KeyBySlot(k, path, n, m);
      OwnerOfPart(path, SlotOf(k));
      assert Lookup(objs, k) == Expected(files, k, m);
      KeyBySlot(k, path, |files[path]|, m);
    }
  }

  // ---- writing nothing, or too much at once ----

  /** A write that changes nothing: its bytes are there already. */
  predicate Rewrites(c: Content, buf: Content, offset: nat) {
    offset + |buf| <= |c| && c[offset..offset + |buf|] == buf
  }

  /** A write changes nothing or is flagged for upload, exactly if it rewrites what is there, or writes nothing to
      a storage on disk, or the low 32 bits of its size are positive as an `int`. Otherwise the change will never be
      uploaded: so it is with an empty write beyond the end in memory, and with 2 GiB at once. */
  lemma WriteNoticedIff(onDisk: bool, c: Content, buf: Content, offset: nat)
    ensures (Put(onDisk, c, buf, offset) == c || Int32(|buf|) > 0) <==>
            || Rewrites(c, buf, offset) || (onDisk && buf == [])
            || 0 < |buf| % 0x1_0000_0000 < 0x8000_0000
  {
    WritesAgreeIff(c, buf, offset);
    OverlaySame(c, buf, offset);
    PositiveInt(|buf|);
    hide WriteAt, StreamWrite, Int32;
  }

  lemma OverlaySame(c: Content, buf: Content, offset: nat)
    ensures WriteAt(c, buf, offset) == c <==> Rewrites(c, buf, offset)
  {
    var r := WriteAt(c, buf, offset);
    if offset + |buf| <= |c| {
      assert r[offset..offset + |buf|] == buf;
      if c[offset..offset + |buf|] == buf {
        assert c == c[..offset] + c[offset..offset + |buf|] + c[offset + |buf|..];
      }
    }
  }

  lemma PositiveInt(n: nat)
    ensures Int32(n) > 0 <==> 0 < n % 0x1_0000_0000 < 0x8000_0000
  {
  }

  // ---- renaming again after a failure ----

  /** After `n` parts of a file have been moved to a free path, these are the parts found there. */
  lemma MovedHasParts(objs: Objects, files: Files, a: string, b: string, n: nat, m: nat)
    requires Represents(objs, files, m) && ValidLimit(m) && a in files && b !in files && a != b
    requires LogicalPath(a) && LogicalPath(b) && |files[a]| > m && n <= NParts(|files[a]|, m)
    ensures HasParts(MovedUpTo(objs, a, b, files[a], n, m), b, PartSizes(files[a], n, m))
  {
    hide Represents, LogicalPath, PartAt, PartName, BaseOf, KeyAt, Owner, SlotOf;
    var c := files[a];
    var o := MovedUpTo(objs, a, b, c, n, m);
    forall k | k in o && BaseOf(NameOf(k)).Some? && Owner(k) == b
      ensures SlotOf(k) < n && k == PartName(b, SlotOf(k)) && o[k] == PartAt(c, SlotOf(k), m)
    {
      NothingOwned(objs, files, k, m);
      EncodedUpTo(b, c, k, n, m);
    }
    forall i | 0 <= i < n
      ensures PartName(b, i) in o
    {
      EncodeUpToWithin(b, c, n, m);
      KeysUpToWithin(b, |c|, n, m);
      assert KeyAt(b, |c|, i, m) == PartName(b, i) by {
        PartKey(b, |c|, i, m);
      }
    }
  }

  lemma PartKey(path: string, size: nat, i: nat, m: nat)
    requires size > m
    ensures KeyAt(path, size, i, m) == PartName(path, i)
  {
  }

  lemma {:induction false} EncodedUpTo(path: string, c: Content, k: string, n: nat, m: nat)
    requires ValidLimit(m) && LogicalPath(path) && |c| > m && n <= NParts(|c|, m)
    ensures k in EncodeUpTo(path, c, n, m) ==>
              && SlotOf(k) < n && k == PartName(path, SlotOf(k))
              && EncodeUpTo(path, c, n, m)[k] == PartAt(c, SlotOf(k), m)
  {
    hide LogicalPath, PartAt, PartName, SlotOf;
    if n > 0 {
      EncodedUpTo(path, c, k, n - 1, m);
      SlotOfKey(path, |c|, n - 1, m);
    }
  }

  /** A rename that failed after two parts or more and is tried again takes what has arrived for an old target: it
      removes it, does not find the first part at the source, and gives up. The parts already moved are lost. */
  lemma RetriedRenameLoses(objs: Objects, files: Files, a: string, b: string, n: nat,
                           listing: seq<CloudFile>, collapsed: seq<CloudFile>, m: nat)
    requires Represents(objs, files, m) && ValidLimit(m) && a in files && b !in files && a != b
    requires LogicalPath(a) && LogicalPath(b) && |files[a]| > m && 2 <= n < NParts(|files[a]|, m)
    requires IsListing(MovedUpTo(objs, a, b, files[a], n, m), DirOf(b), listing) && Collapsed(listing, collapsed)
    ensures SizeOf(collapsed, NameOf(b)) == Some(n * m)
    ensures var left := MovedUpTo(objs, a, b, files[a], n, m) - Keys(b, n * m, m);
            && left == objs - KeysUpTo(a, |files[a]|, n, m)
            && Moved(left, a, b, |files[a]|, m) == None
  {
    hide Represents, LogicalPath, PartAt, PartName, BaseOf, Owner, IsListing, Collapsed, LastOf, HasParts, MovedUpTo,
         Sum, PartSizes, KeyAt, KeysUpTo, Keys, MoveAll;
    var c := files[a];
    MovedHasParts(objs, files, a, b, n, m);
    assert b == DirOf(b) + NameOf(b);
    SomeSizes(c, n, m);
    LogicalParts(b);
    StatOfParts(MovedUpTo(objs, a, b, c, n, m), DirOf(b), listing, collapsed, NameOf(b), PartSizes(c, n, m));
    SizesUpTo(c, n, m);
    ArrivedGone(objs, files, a, b, n, m);
    FirstGone(objs, a, b, |c|, n, m);
  }

  lemma LogicalParts(path: string)
    requires LogicalPath(path)
    ensures IsDir(DirOf(path)) && LogicalName(NameOf(path))
  {
  }

  lemma SomeSizes(c: Content, n: nat, m: nat)
    requires ValidLimit(m) && 0 < n <= NParts(|c|, m)
    ensures PartSizes(c, n, m) != []
  {
  }

  /** Removing what has arrived removes just that. */
  lemma ArrivedGone(objs: Objects, files: Files, a: string, b: string, n: nat, m: nat)
    requires Represents(objs, files, m) && ValidLimit(m) && a in files && b !in files
    requires LogicalPath(a) && LogicalPath(b) && |files[a]| > m && 2 <= n < NParts(|files[a]|, m)
    ensures MovedUpTo(objs, a, b, files[a], n, m) - Keys(b, n * m, m) == objs - KeysUpTo(a, |files[a]|, n, m)
  {
    hide Represents, LogicalPath, PartAt, Owner, EncodeUpTo, KeysUpTo, KeyAt;
    var c, keys := files[a], Keys(b, n * m, m);
    EncodeUpToWithin(b, c, n, m);
    ArrivedKeys(b, |c|, n, n, m);
    KeysOwned(b, n * m, m);
    forall k | k in keys
      ensures k !in objs
    {
      NothingOwned(objs, files, k, m);
    }
    hide Keys;
    OverlayGone(objs, KeysUpTo(a, |c|, n, m), EncodeUpTo(b, c, n, m), keys);
  }

  lemma OverlayGone(objs: Objects, gone: set<string>, e: Objects, keys: set<string>)
    requires keys !! objs.Keys && e.Keys <= keys
    ensures objs - gone + e - keys == objs - gone
  {
  }

  lemma {:induction false} ArrivedKeys(path: string, size: nat, i: nat, n: nat, m: nat)
    requires ValidLimit(m) && size > m && i <= n && 2 <= n
    ensures KeysUpTo(path, size, i, m) <= Keys(path, n * m, m)
  {
    hide PartName;
    if i > 0 {
      ArrivedKeys(path, size, i - 1, n, m);
      MulMono(2, n, m);
      assert NParts(n * m, m) == n + 1 by {
        WholeParts(n, m);
      }
      assert KeyAt(path, size, i - 1, m) == KeyAt(path, n * m, i - 1, m);
    }
  }

  lemma WholeParts(n: nat, m: nat)
    requires ValidLimit(m)
    ensures n * m / m == n
  {
    DivFacts(n * m, m);
    if n * m / m < n {
      MulMono(n * m / m + 1, n, m);
    } else if n * m / m > n {
      MulMono(n + 1, n * m / m, m);
    }
  }

  lemma FirstGone(objs: Objects, a: string, b: string, size: nat, n: nat, m: nat)
    requires ValidLimit(m) && size > m && 0 < n < NParts(size, m)
    ensures Moved(objs - KeysUpTo(a, size, n, m), a, b, size, m) == None
  {
    hide MoveAll, KeyAt, KeysUpTo;
    var left := objs - KeysUpTo(a, size, n, m);
    KeysUpToWithin(a, size, n, m);
    if Moved(left, a, b, size, m).Some? {
      FirstNeeded(left, a, b, size, m);
      assert false;
    }
  }

  // ---- exchanging equally named files ----

  /** Exchanging equally named single objects of different directories leaves one of them, with the other's
      content. */
  lemma ExchangeLoses(objs: Objects, a: string, b: string, aSize: nat, bSize: nat, m: nat)
    requires ValidLimit(m) && aSize <= m && bSize <= m && a in objs && b in objs && b + ".marcfs-temp" !in objs
    requires LogicalPath(a) && LogicalPath(b) && PlainName(a) && PlainName(b) && a != b && NameOf(a) == NameOf(b)
    ensures Exchanged(objs, a, b, aSize, bSize, m) == Some((objs - {b})[a := objs[b]])
  {
    hide LastOf, LogicalPath, TwoPhase, PlainName;
    assert a == DirOf(a) + NameOf(a) && b == DirOf(b) + NameOf(b);
    TempIsLogical(b);
    MovedSingle(objs, b, b + TEMP, bSize, m);
    var o1 := MoveKey(objs, b, b + TEMP);
    MidNames(a, b);
    MovedSingle(o1, a, b, aSize, m);
    var o2 := MoveKey(o1, a, b);
    TempMid(a, b);
    MidNames(b, a);
    assert b + TEMP != a && b + TEMP in o2;
    MovedSingle(o2, b + TEMP, a, bSize, m);
    assert MidPath(b + TEMP, a) == b;
    assert DirOf(a) != DirOf(b + TEMP);
    ThroughTheTarget(objs, a, b, b + TEMP);
  }

  lemma ThroughTheTarget(objs: Objects, a: string, b: string, temp: string)
    requires a in objs && b in objs && temp !in objs && a != b
    ensures var o1 := MoveKey(objs, b, temp);
            a in o1 && temp in MoveKey(o1, a, b) && b in MoveKey(MoveKey(o1, a, b), temp, b)
            && MoveKey(MoveKey(MoveKey(o1, a, b), temp, b), b, a) == (objs - {b})[a := objs[b]]
  {
  }

  /** One client rename, spelled out with the object it passes through. */
  lemma MovedSingle(objs: Objects, a: string, b: string, size: nat, m: nat)
    requires ValidLimit(m) && size <= m && a in objs
    requires LogicalPath(a) && LogicalPath(b) && PlainName(a) && PlainName(b)
    ensures Moved(objs, a, b, size, m) ==
            Some(if DirOf(a) == DirOf(b) || MidPath(a, b) == a then MoveKey(objs, a, b)
                 else MoveKey(MoveKey(objs, a, MidPath(a, b)), MidPath(a, b), b))
  {
    assert IsDir(DirOf(b)) && NameOf(b) != [];
    hide LastOf, LogicalPath, PlainName, TwoPhase;
    assert KeyAt(a, size, 0, m) == a && KeyAt(b, size, 0, m) == b;
    assert MoveAll(objs, a, b, size, 0, m) == Some(objs);
    TwoPhaseSpelled(objs, a, b);
    SamePlace(objs, a, MidPath(a, b), b);
  }

  lemma TwoPhaseSpelled(objs: Objects, a: string, b: string)
    requires a in objs && PlainName(a) && PlainName(b) && LogicalPath(a) && LogicalPath(b)
    ensures var mid := MidPath(a, b);
            TwoPhase(objs, a, b) ==
            Some(if DirOf(a) == DirOf(b) then MoveKey(objs, a, mid) else MoveKey(MoveKey(objs, a, mid), mid, b))
    ensures DirOf(a) == DirOf(b) ==> MidPath(a, b) == b
  {
    assert IsDir(DirOf(b)) && NameOf(b) != [];
    hide LastOf, LogicalPath, PlainName, MoveKey, Landing, Sought, MidPath;
    PlainWay(a, b);
    PlainIff(b);
    MidNames(a, b);
  }

  lemma SamePlace(objs: Objects, a: string, mid: string, b: string)
    requires a in objs
    ensures mid == a || mid == b ==> MoveKey(MoveKey(objs, a, mid), mid, b) == MoveKey(objs, a, b)
  {
  }
}
