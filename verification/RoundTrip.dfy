/** What was flushed is what a later listing, stat and open find. */
module RoundTrip {
  import opened Bytes
  import opened PartNames
  import opened Layout
  import opened HexHash
  import opened Listing
  import opened RestClient
  import opened Logical
  import opened FileNode

  /** Over a cloud that stores `files`, flush content `c` of any length, list the directory, collapse the
      listing, stat the name and open a fresh node of the size shown: it reads exactly what was registered, which
      is `c` unless the tiny-file hash spoils it. No object of another file changes. */
  lemma FlushThenOpen(objs: Objects, files: Files, path: string, oldSize: nat, c: Content,
                      listing: seq<CloudFile>, collapsed: seq<CloudFile>, m: nat)
    requires Represents(objs, files, m) && LogicalPath(path) && Covered(files, path, oldSize, m)
    requires IsListing(Flushed(objs, path, oldSize, c, m), DirOf(path), listing) && Collapsed(listing, collapsed)
    ensures SizeOf(collapsed, NameOf(path)) == Some(|c|)
    ensures var shown := SizeOf(collapsed, NameOf(path)).value;
            Decode(Flushed(objs, path, oldSize, c, m), path, shown, m) == Some(Stored(c))
    ensures Registered(c) == Some(c) <==> |c| == 0 || |c| > 20 || (DigitCount(c) <= 40 && Survives(c))
    ensures forall k :: Owner(k) != path ==> Lookup(Flushed(objs, path, oldSize, c, m), k) == Lookup(objs, k)
  {
    hide Represents, LogicalPath, Covered, Stored, Flushed, Survives, DirOf, NameOf, Collapsed, IsListing, Owner,
         SizeOf, DigitCount;
    var files' := files[path := Stored(c)];
    LimitOf(objs, files, m);
    FlushStores(objs, files, path, oldSize, c, m);
    PathParts(path);
    StatIsLogical(Flushed(objs, path, oldSize, c, m), files', DirOf(path), listing, collapsed, NameOf(path), m);
    DecodeStored(Flushed(objs, path, oldSize, c, m), files', path, m);
    StoredIff(c);
    FlushFrame(objs, path, oldSize, c, m);
  }

  lemma FlushStores(objs: Objects, files: Files, path: string, oldSize: nat, c: Content, m: nat)
    requires Represents(objs, files, m) && LogicalPath(path) && Covered(files, path, oldSize, m)
    ensures Represents(Flushed(objs, path, oldSize, c, m), files[path := Stored(c)], m)
  {
    hide Represents, LogicalPath, Covered, Stored, Encode, Keys;
    Replaced(objs, files, path, oldSize, Stored(c), m);
  }

  lemma FlushFrame(objs: Objects, path: string, oldSize: nat, c: Content, m: nat)
    requires ValidLimit(m) && LogicalPath(path)
    ensures forall k :: Owner(k) != path ==> Lookup(Flushed(objs, path, oldSize, c, m), k) == Lookup(objs, k)
  {
    hide LogicalPath, Stored, Owner, Keys, Encode;
    KeysOwned(path, oldSize, m);
    KeysOwned(path, |c|, m);
  }

  lemma PathParts(path: string)
    requires LogicalPath(path)
    ensures IsDir(DirOf(path)) && '/' !in NameOf(path) && path == DirOf(path) + NameOf(path)
  {
  }

  /** The same for the limit the source is built with: 2 GiB less 1 KiB. */
  lemma FlushThenOpenActual(objs: Objects, files: Files, path: string, c: Content,
                            listing: seq<CloudFile>, collapsed: seq<CloudFile>)
    requires Represents(objs, files, MAX_FILE_SIZE) && path in files && |c| > 20
    requires LogicalPath(path)
    requires IsListing(Flushed(objs, path, |files[path]|, c, MAX_FILE_SIZE), DirOf(path), listing)
    requires Collapsed(listing, collapsed)
    ensures SizeOf(collapsed, NameOf(path)) == Some(|c|)
    ensures Decode(Flushed(objs, path, |files[path]|, c, MAX_FILE_SIZE), path, |c|, MAX_FILE_SIZE) == Some(c)
  {
    hide Represents, LogicalPath, Encode, LastOf, Collapsed, IsListing;
    ActualLimitIsValid();
    FlushThenOpen(objs, files, path, |files[path]|, c, listing, collapsed, MAX_FILE_SIZE);
  }
}
