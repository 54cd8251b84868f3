/** Where the bytes of a logical file live in the cloud: one object, or numbered parts of `m` bytes. */
module Layout {
  import opened Bytes
  import opened PartNames

  /** MARCFS_MAX_FILE_SIZE. */
  const MAX_FILE_SIZE := 0x8000_0000 - 0x400

  /** Limits the splitting rule works for: tiny uploads ignore the slice they are asked for. */
  predicate ValidLimit(m: nat) {
    20 <= m
  }

  lemma ActualLimitIsValid()
    ensures ValidLimit(MAX_FILE_SIZE) && MAX_FILE_SIZE == 2147482624
  {
  }

  /** Number of cloud objects that make up a file of the given size. */
  function NParts(size: nat, m: nat): (n: nat)
    requires ValidLimit(m)
    ensures 0 < n
  {
    if size > m then size / m + 1 else 1
  }

  /** A whole number of parts is followed by an empty one. */
  lemma EmptyLastPart(c: Content, k: nat, m: nat)
    requires ValidLimit(m) && 2 <= k && |c| == k * m
    ensures NParts(|c|, m) == k + 1 && PartAt(c, k, m) == []
  {
    DivFacts(|c|, m);
    if |c| / m < k {
      MulMono(|c| / m + 1, k, m);
    } else if |c| / m > k {
      MulMono(k + 1, |c| / m, m);
    }
    MulMono(2, k, m);
    PartBounds(|c|, k, m);
  }

  function KeyAt(path: string, size: nat, i: nat, m: nat): string {
    if size > m then PartName(path, i) else path
  }

  function Keys(path: string, size: nat, m: nat): set<string>
    requires ValidLimit(m)
  {
    set i | 0 <= i < NParts(size, m) :: KeyAt(path, size, i, m)
  }

  // ---- split arithmetic ----

  lemma MulMono(a: nat, b: nat, m: nat)
    requires a <= b
    ensures a * m <= b * m
  {
  }

  lemma DivFacts(size: nat, m: nat)
    requires 0 < m
    ensures (size / m) * m <= size < (size / m + 1) * m
  {
  }

  /** Where part `i` ends; the last part may be cut short or empty. */
  function PartEnd(size: nat, i: nat, m: nat): nat {
    Min(size, (i + 1) * m)
  }

  lemma PartBounds(size: nat, i: nat, m: nat)
    requires ValidLimit(m) && size > m && i < NParts(size, m)
    ensures i * m <= PartEnd(size, i, m) <= size
    ensures i + 1 < NParts(size, m) ==> PartEnd(size, i, m) == (i + 1) * m
    ensures i + 1 == NParts(size, m) ==> PartEnd(size, i, m) == size
  {
    DivFacts(size, m);
    MulMono(i, size / m, m);
    MulMono(i, i + 1, m);
    if i + 1 < NParts(size, m) {
      MulMono(i + 1, size / m, m);
    }
  }

  function PartAt(c: Content, i: nat, m: nat): Content
    requires ValidLimit(m) && i < NParts(|c|, m)
  {
    if |c| > m then
      PartBounds(|c|, i, m);
      c[i * m..PartEnd(|c|, i, m)]
    else c
  }

  function PartsUpTo(c: Content, n: nat, m: nat): seq<Content>
    requires ValidLimit(m) && n <= NParts(|c|, m)
  {
    seq(n, i requires 0 <= i < n => PartAt(c, i, m))
  }

  lemma Abut(c: Content, i: nat, j: nat)
    requires i <= j <= |c|
    ensures c[..i] + c[i..j] == c[..j] && c[..|c|] == c
  {
  }

  lemma GlueOneMore(c: Content, n: nat, m: nat)
    requires ValidLimit(m) && 0 < n <= NParts(|c|, m)
    ensures Concat(PartsUpTo(c, n, m)) == Concat(PartsUpTo(c, n - 1, m)) + PartAt(c, n - 1, m)
  {
    assert PartsUpTo(c, n, m) == PartsUpTo(c, n - 1, m) + [PartAt(c, n - 1, m)];
    ConcatSnoc(PartsUpTo(c, n - 1, m), PartAt(c, n - 1, m));
  }

  lemma {:induction false} PartsGlue(c: Content, n: nat, m: nat)
    requires ValidLimit(m) && |c| > m && n <= NParts(|c|, m)
    ensures n < NParts(|c|, m) ==> n * m <= |c|
    ensures Concat(PartsUpTo(c, n, m)) == if n == NParts(|c|, m) then c else c[..n * m]
  {
    hide Concat, PartsUpTo, PartEnd, PartAt, NParts;
    if n < NParts(|c|, m) {
      PartBounds(|c|, n, m);
    }
    if n == 0 {
      NoParts(c, m);
    } else {
      var i := n - 1;
      PartsGlue(c, i, m);
      PartBounds(|c|, i, m);
      PartIs(c, i, m);
      GlueOneMore(c, n, m);
      Abut(c, i * m, PartEnd(|c|, i, m));
    }
  }

  lemma NoParts(c: Content, m: nat)
    requires ValidLimit(m)
    ensures Concat(PartsUpTo(c, 0, m)) == c[..0] && 0 < NParts(|c|, m)
  {
  }

  lemma PartIs(c: Content, i: nat, m: nat)
    requires ValidLimit(m) && |c| > m && i < NParts(|c|, m)
    ensures i * m <= PartEnd(|c|, i, m) <= |c| && PartAt(c, i, m) == c[i * m..PartEnd(|c|, i, m)]
  {
    PartBounds(|c|, i, m);
  }

  /** The parts tile the content: in order, nothing lost, nothing twice. */
  lemma PartsTile(c: Content, m: nat)
    requires ValidLimit(m)
    ensures Concat(PartsUpTo(c, NParts(|c|, m), m)) == c
  {
    if |c| > m {
      PartsGlue(c, NParts(|c|, m), m);
    } else {
      assert PartsUpTo(c, 1, m) == [c];
      assert Concat([c]) == c + Concat([]);
    }
  }

  /** The sizes of the first `n` objects. */
  function PartSizes(c: Content, n: nat, m: nat): (sizes: seq<nat>)
    requires ValidLimit(m) && n <= NParts(|c|, m)
    ensures |sizes| == n
  {
    seq(n, i requires 0 <= i < n => |PartAt(c, i, m)|)
  }

  lemma {:induction false} SizesUpTo(c: Content, n: nat, m: nat)
    requires ValidLimit(m) && |c| > m && n <= NParts(|c|, m)
    ensures Sum(PartSizes(c, n, m)) == if n == NParts(|c|, m) then |c| else n * m
  {
    if n > 0 {
      SizesUpTo(c, n - 1, m);
      PartBounds(|c|, n - 1, m);
      assert PartSizes(c, n, m)[..n - 1] == PartSizes(c, n - 1, m);
    }
  }

  /** The sizes of the parts add up to the size of the file, so the part count can be derived again from the sum. */
  lemma SizesAddUp(c: Content, m: nat)
    requires ValidLimit(m)
    ensures Sum(PartSizes(c, NParts(|c|, m), m)) == |c|
  {
    if |c| > m {
      SizesUpTo(c, NParts(|c|, m), m);
    } else {
      assert PartSizes(c, 1, m) == [|c|];
      SumConcat([], [|c|]);
      assert Sum([|c|]) == Sum([]) + |c|;
    }
  }

  // ---- paths ----

  /** `find_last_of`: the last position holding one of `seps`, or -1. */
  function LastOf(path: string, seps: string): (pos: int)
    ensures -1 <= pos < |path|
    ensures pos >= 0 ==> path[pos] in seps
    ensures forall j :: pos < j < |path| ==> path[j] !in seps
  {
    if path == [] then -1
    else if path[|path| - 1] in seps then |path| - 1
    else LastOf(path[..|path| - 1], seps)
  }

  function DirOf(path: string): string {
    path[..LastOf(path, "/") + 1]
  }

  function NameOf(path: string): string {
    path[LastOf(path, "/") + 1..]
  }

  /** A directory as it is passed to a listing: with its trailing slash. */
  predicate IsDir(dir: string) {
    dir != [] && dir[|dir| - 1] == '/'
  }

  lemma SplitJoin(dir: string, name: string)
    requires IsDir(dir) && '/' !in name
    ensures DirOf(dir + name) == dir && NameOf(dir + name) == name
  {
    var path := dir + name;
    assert path[|dir| - 1] == '/';
    assert forall j :: |dir| <= j < |path| ==> path[j] == name[j - |dir|];
    assert LastOf(path, "/") == |dir| - 1;
  }

  /** A file name that is not itself read as a part of something else. */
  predicate LogicalName(name: string) {
    && name != []
    && '/' !in name
    && NoLineEnd(name)
    && BaseOf(name) == None
  }

  predicate LogicalPath(path: string) {
    IsDir(DirOf(path)) && LogicalName(NameOf(path))
  }

  /** The logical file a cloud key belongs to, as the collapsed listing shows it. */
  function Owner(key: string): string {
    match BaseOf(NameOf(key))
    case Some(base) => DirOf(key) + base
    case None => key
  }

  lemma NoSlashInPartName(name: string, i: nat)
    requires '/' !in name
    ensures '/' !in PartName(name, i)
  {
    ValueOfDecimal(i);
    var d := Decimal(i);
    assert forall j :: 0 <= j < |d| ==> IsDigit(d[j]);
  }

  lemma OwnerOfPart(path: string, i: nat)
    requires LogicalPath(path)
    ensures Owner(PartName(path, i)) == path && PartName(path, i) != path
    ensures DirOf(PartName(path, i)) == DirOf(path)
    ensures NameOf(PartName(path, i)) == PartName(NameOf(path), i)
  {
    var dir, name := DirOf(path), NameOf(path);
    assert path == dir + name;
    assert PartName(path, i) == dir + PartName(name, i);
    NoSlashInPartName(name, i);
    SplitJoin(dir, PartName(name, i));
    BaseOfPartName(name, i);
  }

  /** Every key a file uses leads back to that file. */
  lemma OwnerOfKey(path: string, size: nat, i: nat, m: nat)
    requires LogicalPath(path)
    ensures Owner(KeyAt(path, size, i, m)) == path
  {
    OwnerOfPart(path, i);
  }

  lemma KeysOwned(path: string, size: nat, m: nat)
    requires ValidLimit(m) && LogicalPath(path)
    ensures forall k :: k in Keys(path, size, m) ==> Owner(k) == path
  {
    forall k | k in Keys(path, size, m)
      ensures Owner(k) == path
    {
      var i :| 0 <= i < NParts(size, m) && k == KeyAt(path, size, i, m);
      OwnerOfKey(path, size, i, m);
    }
  }

  /** Distinct logical files never share a cloud key, whatever their sizes. */
  lemma KeysDisjoint(p: string, psize: nat, q: string, qsize: nat, m: nat)
    requires ValidLimit(m) && LogicalPath(p) && LogicalPath(q) && p != q
    ensures Keys(p, psize, m) !! Keys(q, qsize, m)
  {
    KeysOwned(p, psize, m);
    KeysOwned(q, qsize, m);
  }

  // ---- encoding ----

  /** Which object of its file a key is; plain keys count as object 0. */
  function SlotOf(key: string): nat {
    if BaseOf(NameOf(key)).Some? then IndexOf(key) else 0
  }

  lemma SlotOfKey(path: string, size: nat, i: nat, m: nat)
    requires ValidLimit(m) && LogicalPath(path) && i < NParts(size, m)
    ensures SlotOf(KeyAt(path, size, i, m)) == i
  {
    if size > m {
      OwnerOfPart(path, i);
      BaseOfPartName(NameOf(path), i);
      IndexOfPartName(path, i);
    }
  }

  /** `key` is one of the keys of a file: decided from the key alone. */
  lemma KeyBySlot(key: string, path: string, size: nat, m: nat)
    requires ValidLimit(m) && LogicalPath(path)
    ensures key in Keys(path, size, m) <==>
            SlotOf(key) < NParts(size, m) && key == KeyAt(path, size, SlotOf(key), m)
  {
    if key in Keys(path, size, m) {
      var i :| 0 <= i < NParts(size, m) && key == KeyAt(path, size, i, m);
      SlotOfKey(path, size, i, m);
    }
  }

  /** The objects a file with content `c` is stored as. */
  ghost function Encode(path: string, c: Content, m: nat): (objs: map<string, Content>)
    requires ValidLimit(m) && LogicalPath(path)
    ensures objs.Keys == Keys(path, |c|, m)
  {
    map k | k in Keys(path, |c|, m) :: KeyBySlot(k, path, |c|, m); PartAt(c, SlotOf(k), m)
  }

  lemma EncodeAt(path: string, c: Content, i: nat, m: nat)
    requires ValidLimit(m) && LogicalPath(path) && i < NParts(|c|, m)
    ensures KeyAt(path, |c|, i, m) in Encode(path, c, m)
    ensures Encode(path, c, m)[KeyAt(path, |c|, i, m)] == PartAt(c, i, m)
  {
    SlotOfKey(path, |c|, i, m);
  }

  /** What downloading the first `n` objects of a file of the given size yields; None when one is missing. */
  function Fetch(objs: map<string, Content>, path: string, size: nat, n: nat, m: nat): Option<Content>
  {
    if n == 0 then Some([])
    else
      var front := Fetch(objs, path, size, n - 1, m);
      var key := KeyAt(path, size, n - 1, m);
      if front.Some? && key in objs then Some(front.value + objs[key]) else None
  }

  /** Downloading all objects of a file. */
  function Decode(objs: map<string, Content>, path: string, size: nat, m: nat): Option<Content>
    requires ValidLimit(m)
  {
    Fetch(objs, path, size, NParts(size, m), m)
  }

  /** `objs` holds at least the objects of `sub`. */
  ghost predicate Includes(objs: map<string, Content>, sub: map<string, Content>) {
    forall k :: k in sub ==> k in objs && objs[k] == sub[k]
  }

  lemma StoredAt(objs: map<string, Content>, path: string, c: Content, i: nat, m: nat)
    requires ValidLimit(m) && LogicalPath(path) && i < NParts(|c|, m)
    requires Includes(objs, Encode(path, c, m))
    ensures KeyAt(path, |c|, i, m) in objs
    ensures objs[KeyAt(path, |c|, i, m)] == PartAt(c, i, m)
  {
    EncodeAt(path, c, i, m);
  }

  lemma {:induction false} FetchEncoded(objs: map<string, Content>, path: string, c: Content, n: nat, m: nat)
    requires ValidLimit(m) && LogicalPath(path) && n <= NParts(|c|, m)
    requires Includes(objs, Encode(path, c, m))
    ensures Fetch(objs, path, |c|, n, m) == Some(Concat(PartsUpTo(c, n, m)))
  {
    hide PartName, LogicalPath, PartAt, Encode;
    if n > 0 {
      FetchEncoded(objs, path, c, n - 1, m);
      StoredAt(objs, path, c, n - 1, m);
      GlueOneMore(c, n, m);
    }
  }

  /** Decoding undoes encoding, whatever else is in the cloud. */
  lemma DecodeEncode(objs: map<string, Content>, path: string, c: Content, m: nat)
    requires ValidLimit(m) && LogicalPath(path)
    requires Includes(objs, Encode(path, c, m))
    ensures Decode(objs, path, |c|, m) == Some(c)
  {
    FetchEncoded(objs, path, c, NParts(|c|, m), m);
    PartsTile(c, m);
  }
}
