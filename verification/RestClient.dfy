/** The cloud as the client sees it: named objects, and calls that may fail before or after taking effect. */
module RestClient {
  import opened Bytes
  import opened PartNames
  import opened Layout
  import opened HexHash
  import opened Listing
  import Transfer

  type Objects = map<string, Content>

  /** What happens to one call: it passes, is refused, or takes effect although an error is reported. */
  datatype Fault = Pass | Refused(code: int) | Torn(code: int)

  /** How a call ends for its caller: normally, or with an exception carrying the response code. */
  datatype Status = Ok | Failed(code: int)

  const NOT_FOUND := 404
  const BAD_REQUEST := 400

  function Fate(faults: seq<Fault>): Fault {
    if faults == [] then Pass else faults[0]
  }

  function Later(faults: seq<Fault>): seq<Fault> {
    if faults == [] then [] else faults[1..]
  }

  function StatusOf(f: Fault): Status {
    match f
    case Pass => Ok
    case Refused(code) => Failed(code)
    case Torn(code) => Failed(code)
  }

  // ---- a row of calls, given up at the first failure ----

  /** How a row of `calls` calls ends. */
  function RowStatus(faults: seq<Fault>, calls: nat): Status {
    if calls == 0 || faults == [] then Ok
    else if faults[0].Pass? then RowStatus(faults[1..], calls - 1)
    else StatusOf(faults[0])
  }

  /** What is to happen after it. */
  function RowRest(faults: seq<Fault>, calls: nat): seq<Fault> {
    if calls == 0 || faults == [] then faults
    else if faults[0].Pass? then RowRest(faults[1..], calls - 1)
    else faults[1..]
  }

  lemma {:induction false} RowSplit(faults: seq<Fault>, a: nat, b: nat)
    ensures RowStatus(faults, a + b) ==
            if RowStatus(faults, a).Ok? then RowStatus(RowRest(faults, a), b) else RowStatus(faults, a)
    ensures RowRest(faults, a + b) ==
            if RowStatus(faults, a).Ok? then RowRest(RowRest(faults, a), b) else RowRest(faults, a)
    decreases a
  {
    if a > 0 && faults != [] && faults[0].Pass? {
      RowSplit(faults[1..], a - 1, b);
    } else if faults == [] {
      assert RowStatus(faults, b) == Ok && RowRest(faults, b) == [];
    }
  }

  /** A failed row has used up one failure, the last of what it used, and reports that. */
  lemma {:induction false} RowFailure(faults: seq<Fault>, calls: nat) returns (i: nat)
    requires RowStatus(faults, calls).Failed?
    ensures i < calls && i < |faults| && !faults[i].Pass? && forall j :: 0 <= j < i ==> faults[j].Pass?
    ensures RowStatus(faults, calls) == StatusOf(faults[i]) && RowRest(faults, calls) == faults[i + 1..]
  {
    if faults[0].Pass? {
      var k := RowFailure(faults[1..], calls - 1);
      i := k + 1;
      assert forall j :: 0 < j < i ==> faults[j] == faults[1..][j - 1];
      assert faults[1..][k + 1..] == faults[i + 1..];
    } else {
      i := 0;
    }
  }

  /** The bytes an upload leaves in the cloud. Tiny bodies go through the hash, whatever slice was asked for. */
  function Uploaded(body: Content, start: nat, count: nat): Content
    requires start <= |body|
  {
    if |body| <= TINY then Stored(body) else body[start..Min(|body|, start + count)]
  }

  /** How an upload ends: a hash of the wrong width is never taken. */
  function UploadStatus(body: Content, f: Fault): Status {
    if f.Pass? && !Storable(body) then Failed(BAD_REQUEST) else StatusOf(f)
  }

  // ---- two-phase rename ----

  const SEPARATORS := "/\\"

  /** Parent directory and file name as the client cuts them: at the last slash or backslash. */
  function ParentOf(path: string): string {
    path[..LastOf(path, SEPARATORS) + 1]
  }

  function FileOf(path: string): string {
    path[LastOf(path, SEPARATORS) + 1..]
  }

  /** One object under a new key, replacing what was there. */
  function MoveKey(objs: Objects, from: string, to: string): Objects
    requires from in objs
  {
    (objs - {from})[to := objs[from]]
  }

  /** Where a server-side rename puts the object: under the new name, as the client cuts it, in the directory the
      object is in. A backslash separates nothing there. */
  function Landing(oldPath: string, newPath: string): string {
    DirOf(oldPath) + FileOf(newPath)
  }

  /** Where the client looks for it afterwards. */
  function Sought(oldPath: string, newPath: string): string {
    ParentOf(oldPath) + FileOf(newPath)
  }

  /** First a rename inside the old directory, then a move to the new one; None if either is refused. */
  function TwoPhase(objs: Objects, oldPath: string, newPath: string): Option<Objects>
    requires oldPath in objs
  {
    if FileOf(newPath) == [] then None
    else
      var renamed := MoveKey(objs, oldPath, Landing(oldPath, newPath));
      var sought := Sought(oldPath, newPath);
      if ParentOf(oldPath) == ParentOf(newPath) then Some(renamed)
      else if IsDir(ParentOf(newPath)) && sought in renamed then
        Some(MoveKey(renamed, sought, ParentOf(newPath) + NameOf(sought)))
      else None
  }

  /** The client cuts the path where the cloud does. */
  predicate PlainName(path: string) {
    '\\' !in NameOf(path)
  }

  lemma PlainIff(path: string)
    ensures PlainName(path) <==> ParentOf(path) == DirOf(path)
    ensures |DirOf(path)| <= |ParentOf(path)| && path == DirOf(path) + NameOf(path) == ParentOf(path) + FileOf(path)
    ensures '\\' !in FileOf(path) && '/' !in FileOf(path)
  {
    hide *;
    CutsOrdered(path);
    PlainCut(path);
    FileIsPlain(path);
  }

  lemma CutsOrdered(path: string)
    ensures |DirOf(path)| <= |ParentOf(path)| && path == DirOf(path) + NameOf(path) == ParentOf(path) + FileOf(path)
  {
    hide LastOf;
    SlashFirst(path);
  }

  lemma SeparatorsAre(c: char)
    ensures c in SEPARATORS <==> c == '/' || c == '\\'
  {
    assert SEPARATORS[0] == '/' && SEPARATORS[1] == '\\';
  }

  lemma FileIsPlain(path: string)
    ensures '\\' !in FileOf(path) && '/' !in FileOf(path)
  {
    hide LastOf;
    var p := LastOf(path, SEPARATORS);
    var file := FileOf(path);
    hide FileOf;
    forall j | 0 <= j < |file|
      ensures file[j] != '/' && file[j] != '\\'
    {
      assert file[j] == path[p + 1 + j] by {
        FileAt(path, j);
      }
      SeparatorsAre(file[j]);
    }
  }

  lemma FileAt(path: string, j: nat)
    requires j < |FileOf(path)|
    ensures LastOf(path, SEPARATORS) + 1 + j < |path|
    ensures FileOf(path)[j] == path[LastOf(path, SEPARATORS) + 1 + j]
  {
    hide LastOf;
  }

  lemma PlainCut(path: string)
    ensures PlainName(path) <==> ParentOf(path) == DirOf(path)
  {
    hide LastOf;
    var d, p := LastOf(path, "/"), LastOf(path, SEPARATORS);
    SlashFirst(path);
    if p > d {
      assert NameOf(path)[p - d - 1] == path[p];
      assert |ParentOf(path)| != |DirOf(path)|;
    } else {
      FileIsPlain(path);
      assert NameOf(path) == FileOf(path);
    }
  }

  lemma LastOfIs(s: string, seps: string, d: int)
    requires -1 <= d < |s| && (d >= 0 ==> s[d] in seps) && forall j :: d < j < |s| ==> s[j] !in seps
    ensures LastOf(s, seps) == d
  {
    hide LastOf;
  }

  lemma SlashFirst(path: string)
    ensures LastOf(path, "/") <= LastOf(path, SEPARATORS)
    ensures LastOf(path, SEPARATORS) > LastOf(path, "/") ==> path[LastOf(path, SEPARATORS)] == '\\'
  {
    hide LastOf;
    var d, p := LastOf(path, "/"), LastOf(path, SEPARATORS);
    if d >= 0 {
      SeparatorsAre(path[d]);
    }
    if p > d {
      SeparatorsAre(path[p]);
    }
  }

  /** Circumstances under which the two phases amount to one move: the usual ones; two equal copies where the
      object lands and where it should; and, if only the old name has a backslash and the directory stays, some
      third object where the client looks. */
  predicate OneMove(objs: Objects, oldPath: string, newPath: string)
    requires oldPath in objs
  {
    var landing, sought := Landing(oldPath, newPath), Sought(oldPath, newPath);
    && FileOf(newPath) != []
    && if PlainName(oldPath) && PlainName(newPath) then
         || DirOf(oldPath) == DirOf(newPath)
         || (IsDir(DirOf(newPath)) && (landing == oldPath || landing !in objs))
       else if ParentOf(oldPath) == ParentOf(newPath) then
         && oldPath != newPath && landing in objs && newPath in objs
         && objs[landing] == objs[newPath] == objs[oldPath]
       else
         && PlainName(newPath) && DirOf(oldPath) == DirOf(newPath) && IsDir(DirOf(newPath))
         && sought in objs && sought != oldPath
  }

  lemma SameTail(a: string, b: string, tail: string)
    ensures a + tail == b + tail <==> a == b
  {
    if a + tail == b + tail {
      assert a == (a + tail)[..|a|] && b == (b + tail)[..|b|];
    }
  }

  /** For all names, the two phases amount to one move exactly under these circumstances. */
  lemma TwoPhaseIsMoveIff(objs: Objects, oldPath: string, newPath: string)
    requires oldPath in objs
    ensures TwoPhase(objs, oldPath, newPath) == Some(MoveKey(objs, oldPath, newPath)) <==>
            OneMove(objs, oldPath, newPath)
  {
    hide LastOf, PlainName, DirOf, NameOf, ParentOf, FileOf;
    PlainIff(oldPath);
    PlainIff(newPath);
    if FileOf(newPath) != [] {
      if PlainName(oldPath) && PlainName(newPath) {
        PlainTwoPhase(objs, oldPath, newPath);
      } else if ParentOf(oldPath) == ParentOf(newPath) {
        ParentsDir(oldPath, newPath);
        SameParent(objs, oldPath, newPath);
      } else if PlainName(newPath) {
        OldBackslash(objs, oldPath, newPath);
      } else {
        NewBackslash(newPath);
      }
    }
  }

  lemma PlainTwoPhase(objs: Objects, oldPath: string, newPath: string)
    requires oldPath in objs && FileOf(newPath) != [] && PlainName(oldPath) && PlainName(newPath)
    ensures TwoPhase(objs, oldPath, newPath) == Some(MoveKey(objs, oldPath, newPath)) <==>
            OneMove(objs, oldPath, newPath)
  {
    hide LastOf, PlainName;
    PlainIff(oldPath);
    PlainIff(newPath);
    var mid := Landing(oldPath, newPath);
    assert mid == Sought(oldPath, newPath) && ParentOf(newPath) + FileOf(newPath) == newPath;
    if DirOf(oldPath) != DirOf(newPath) {
      SameTail(DirOf(oldPath), DirOf(newPath), FileOf(newPath));
      if IsDir(DirOf(newPath)) {
        NameOfJoin(DirOf(oldPath), FileOf(newPath), oldPath);
        var o1 := MoveKey(objs, oldPath, mid);
        assert mid != newPath && TwoPhase(objs, oldPath, newPath) == Some(MoveKey(o1, mid, newPath));
        if mid != oldPath && mid in objs {
          assert mid in MoveKey(objs, oldPath, newPath);
          assert mid !in MoveKey(o1, mid, newPath);
        } else {
          assert MoveKey(o1, mid, newPath) == MoveKey(objs, oldPath, newPath);
        }
      }
    }
  }

  /** A name without slash in a directory of some path is found there again. */
  lemma NameOfJoin(dir: string, name: string, path: string)
    requires dir == DirOf(path) && '/' !in name
    ensures DirOf(dir + name) == dir && NameOf(dir + name) == name
  {
    hide LastOf;
    var joined := dir + name;
    assert forall j :: |dir| <= j < |joined| ==> joined[j] == name[j - |dir|];
    assert dir != [] ==> joined[|dir| - 1] == '/';
    assert LastOf(joined, "/") == |dir| - 1;
  }

  lemma SameParent(objs: Objects, oldPath: string, newPath: string)
    requires oldPath in objs && FileOf(newPath) != [] && !PlainName(newPath)
    requires ParentOf(oldPath) == ParentOf(newPath)
    ensures Landing(oldPath, newPath) != newPath && Landing(oldPath, newPath) != oldPath
    ensures TwoPhase(objs, oldPath, newPath) == Some(MoveKey(objs, oldPath, newPath)) <==>
            OneMove(objs, oldPath, newPath)
  {
    hide LastOf, PlainName;
    PlainIff(oldPath);
    PlainIff(newPath);
    var landing := Landing(oldPath, newPath);
    ParentsDir(oldPath, newPath);
    assert |landing| < |newPath|;
    assert landing != oldPath by {
      NameOfJoin(DirOf(oldPath), FileOf(newPath), oldPath);
      assert PlainName(landing) by {
        JoinIsPlain(landing, FileOf(newPath));
      }
    }
    var a, b := MoveKey(objs, oldPath, landing), MoveKey(objs, oldPath, newPath);
    if a == b {
      assert landing in b && newPath in a && oldPath !in a;
    }
  }

  lemma JoinIsPlain(path: string, name: string)
    requires NameOf(path) == name && '\\' !in name
    ensures PlainName(path)
  {
  }

  /** Equal parents lie in equal directories. */
  lemma ParentsDir(a: string, b: string)
    requires ParentOf(a) == ParentOf(b)
    ensures DirOf(a) == DirOf(b) && (PlainName(a) <==> PlainName(b))
  {
    PlainIff(a);
    PlainIff(b);
    DirOfParent(a);
    DirOfParent(b);
  }

  lemma DirOfParent(path: string)
    ensures DirOf(ParentOf(path)) == DirOf(path)
  {
    hide LastOf;
    var parent := ParentOf(path);
    var d := LastOf(path, "/");
    SlashFirst(path);
    assert d < |parent|;
    assert forall j :: 0 <= j < |parent| ==> parent[j] == path[j];
    assert LastOf(parent, "/") == d;
  }

  lemma OldBackslash(objs: Objects, oldPath: string, newPath: string)
    requires oldPath in objs && FileOf(newPath) != [] && !PlainName(oldPath) && PlainName(newPath)
    ensures ParentOf(oldPath) != ParentOf(newPath)
    ensures TwoPhase(objs, oldPath, newPath) == Some(MoveKey(objs, oldPath, newPath)) <==>
            OneMove(objs, oldPath, newPath)
  {
    hide LastOf, PlainName;
    PlainIff(oldPath);
    PlainIff(newPath);
    if ParentOf(oldPath) == ParentOf(newPath) {
      ParentsDir(oldPath, newPath);
    }
    var landing, sought := Landing(oldPath, newPath), Sought(oldPath, newPath);
    assert |landing| < |sought|;
    SoughtDir(oldPath, FileOf(newPath));
    var o1 := MoveKey(objs, oldPath, landing);
    var to := ParentOf(newPath) + NameOf(sought);
    if DirOf(oldPath) == DirOf(newPath) {
      assert landing == newPath && to == sought;
      assert sought in o1 ==> MoveKey(o1, sought, to) == o1;
    } else if IsDir(ParentOf(newPath)) && sought in o1 {
      SameTail(DirOf(oldPath), DirOf(newPath), NameOf(sought));
      NameOfJoin(DirOf(newPath), FileOf(newPath), newPath);
      assert sought != newPath && sought in MoveKey(objs, oldPath, newPath);
      assert sought !in MoveKey(o1, sought, to);
    }
  }

  lemma SoughtDir(path: string, name: string)
    requires '/' !in name
    ensures DirOf(ParentOf(path) + name) == DirOf(path)
    ensures ParentOf(path) + name == DirOf(path) + NameOf(ParentOf(path) + name)
  {
    hide LastOf;
    var sought, parent, d := ParentOf(path) + name, ParentOf(path), LastOf(path, "/");
    SlashFirst(path);
    assert forall j :: 0 <= j < |parent| ==> sought[j] == path[j];
    assert forall j :: |parent| <= j < |sought| ==> sought[j] == name[j - |parent|];
    LastOfIs(sought, "/", d);
    assert sought[..d + 1] == path[..d + 1];
  }

  /** There is no folder behind a backslash. */
  lemma NewBackslash(newPath: string)
    requires !PlainName(newPath)
    ensures !IsDir(ParentOf(newPath))
  {
    hide LastOf;
    PlainIff(newPath);
    SlashFirst(newPath);
  }

  /** With a backslash in both names the object ends up under a wrong one, and success is reported. */
  lemma WrongName(objs: Objects, oldPath: string, newPath: string)
    requires oldPath in objs && FileOf(newPath) != [] && !PlainName(newPath)
    requires ParentOf(oldPath) == ParentOf(newPath)
    ensures TwoPhase(objs, oldPath, newPath) == Some(MoveKey(objs, oldPath, DirOf(oldPath) + FileOf(newPath)))
    ensures DirOf(oldPath) + FileOf(newPath) != newPath
  {
    SameParent(objs, oldPath, newPath);
  }

  /** With a backslash in the old name only, the object gets where it should, and the client does not find it. */
  lemma MovedUnnoticed(objs: Objects, oldPath: string, newPath: string)
    requires oldPath in objs && FileOf(newPath) != [] && !PlainName(oldPath) && PlainName(newPath)
    requires DirOf(oldPath) == DirOf(newPath) && Sought(oldPath, newPath) !in objs
    ensures MoveKey(objs, oldPath, Landing(oldPath, newPath)) == MoveKey(objs, oldPath, newPath)
    ensures TwoPhase(objs, oldPath, newPath) == None
  {
    hide LastOf, PlainName;
    PlainIff(oldPath);
    PlainIff(newPath);
    OldBackslash(objs, oldPath, newPath);
  }

  /** For example: the object ends up as "/d/z"; and "/x\y" becomes "/z", which is reported as a failure. */
  lemma BackslashExamples(objs: Objects)
    ensures "/d/x\\y" in objs ==> TwoPhase(objs, "/d/x\\y", "/d/x\\z") == Some(MoveKey(objs, "/d/x\\y", "/d/z"))
    ensures "/x\\y" in objs && "/x\\z" !in objs ==> TwoPhase(objs, "/x\\y", "/z") == None
  {
    hide LastOf, DirOf, ParentOf, FileOf, TwoPhase, MoveKey;
    CutsAt("/d/", "x\\", "y");
    CutsAt("/d/", "x\\", "z");
    CutsAt("/", "x\\", "y");
    CutsAt("/", "", "z");
    assert "/d/" + "x\\" + "y" == "/d/x\\y" && "/d/" + "x\\" + "z" == "/d/x\\z";
    assert "/" + "x\\" + "y" == "/x\\y" && "/" + "" + "z" == "/z";
    assert "/d/" + "z" == "/d/z" && "/" + "x\\" + "z" == "/x\\z";
    PhasesAre(objs, "/d/x\\y", "/d/x\\z");
    PhasesAre(objs, "/x\\y", "/z");
  }

  lemma PhasesAre(objs: Objects, oldPath: string, newPath: string)
    ensures oldPath in objs && FileOf(newPath) != [] && ParentOf(oldPath) == ParentOf(newPath) ==>
              TwoPhase(objs, oldPath, newPath) == Some(MoveKey(objs, oldPath, DirOf(oldPath) + FileOf(newPath)))
    ensures oldPath in objs && ParentOf(oldPath) != ParentOf(newPath) && ParentOf(oldPath) + FileOf(newPath) !in objs
            && |DirOf(oldPath)| < |ParentOf(oldPath)| ==>
              TwoPhase(objs, oldPath, newPath) == None
  {
    hide LastOf, DirOf, ParentOf, FileOf;
  }

  /** A name in a directory, cut at its last backslash. */
  lemma CutsAt(dir: string, front: string, file: string)
    requires IsDir(dir) && '/' !in front && '/' !in file && '\\' !in file && (front == [] || front[|front| - 1] == '\\')
    ensures var path := dir + front + file;
            DirOf(path) == dir && ParentOf(path) == dir + front && FileOf(path) == file
  {
    hide LastOf;
    var path, k := dir + front + file, |dir + front|;
    assert forall j :: |dir| <= j < k ==> path[j] == front[j - |dir|];
    assert forall j :: k <= j < |path| ==> path[j] == file[j - k];
    assert path[|dir| - 1] == '/' && (front != [] ==> path[k - 1] == '\\');
    LastOfIs(path, "/", |dir| - 1);
    SeparatorsAre(path[k - 1]);
    forall j | k <= j < |path|
      ensures path[j] !in SEPARATORS
    {
      SeparatorsAre(path[j]);
    }
    LastOfIs(path, SEPARATORS, k - 1);
  }

  // ---- listings ----

  /** `files` lists the directory: every object in it once, in any order, with its size. */
  ghost predicate IsListing(objs: Objects, dir: string, files: seq<CloudFile>) {
    && DistinctNames(files)
    && (forall f :: f in files ==>
          '/' !in f.name && dir + f.name in objs && f.size == |objs[dir + f.name]|)
    && (forall k :: k in objs && DirOf(k) == dir ==> HasName(files, NameOf(k)))
  }

  class RestClient {
    var objects: Objects    // the cloud
    var faults: seq<Fault>  // what is going to happen to the next calls
    const links: string -> Content  // the public name the service gives to each object

    constructor (objects: Objects, links: string -> Content)
      ensures this.objects == objects && this.links == links && faults == []
    {
      this.objects, this.links, faults := objects, links, [];
    }

    method NextFault() returns (f: Fault)
      modifies `faults
      ensures f == Fate(old(faults)) && faults == Later(old(faults))
    {
      f := Fate(faults);
      faults := Later(faults);
    }

    method AddUploadedFile(path: string, content: Content) returns (s: Status)
      modifies this
      ensures faults == Later(old(faults)) && s == StatusOf(Fate(old(faults)))
      ensures objects == if Fate(old(faults)).Refused? then old(objects) else old(objects)[path := content]
    {
      var f := NextFault();
      if !f.Refused? {
        objects := objects[path := content];
      }
      s := StatusOf(f);
    }

    /** A hash that carries its content is read back, if it is as wide as a hash should be. */
    method AddHash(path: string, hash: string, size: nat) returns (s: Status)
      requires 2 * size <= |hash|
      modifies this
      ensures faults == Later(old(faults))
      ensures s == if Fate(old(faults)).Pass? && |hash| != WIDTH then Failed(BAD_REQUEST)
                   else StatusOf(Fate(old(faults)))
      ensures objects == if Fate(old(faults)).Refused? || |hash| != WIDTH then old(objects)
                         else old(objects)[path := FromHex(hash, size)]
    {
      if |hash| == WIDTH {
        s := AddUploadedFile(path, FromHex(hash, size));
      } else {
        var f := NextFault();
        s := if f.Pass? then Failed(BAD_REQUEST) else StatusOf(f);
      }
    }

    method Create(path: string) returns (s: Status)
      modifies this
      ensures faults == Later(old(faults)) && s == StatusOf(Fate(old(faults)))
      ensures objects == if Fate(old(faults)).Refused? then old(objects) else old(objects)[path := []]
    {
      s := AddUploadedFile(path, []);
    }

    method Upload(path: string, body: Content, start: nat, count: nat) returns (s: Status)
      requires start <= |body| < 0x8000_0000_0000_0000
      modifies this
      ensures faults == Later(old(faults)) && s == UploadStatus(body, Fate(old(faults)))
      ensures objects == if Fate(old(faults)).Refused? || !Storable(body) then old(objects)
                         else old(objects)[path := Uploaded(body, start, count)]
    {
      if body == [] {
        s := Create(path);
        return;
      }
      if |body| <= TINY {
        var hash := ToPadded40Hex(body);
        HashLength(body, WIDTH);
        s := AddHash(path, hash.value, |body|);
        return;
      }
      var realSize := Min(|body| - start, count);
      var ptr := new Transfer.ReadData(body, start, Min(|body|, start + count));
      var sent := ptr.Perform();
      assert |sent| == realSize;
      s := AddUploadedFile(path, sent);
    }

    /** Removing an object that is not there changes nothing. */
    method Remove(path: string) returns (s: Status)
      modifies this
      ensures faults == Later(old(faults)) && s == StatusOf(Fate(old(faults)))
      ensures objects == if Fate(old(faults)).Refused? then old(objects) else old(objects) - {path}
    {
      var f := NextFault();
      if !f.Refused? {
        objects := objects - {path};
      }
      s := StatusOf(f);
    }

    /** One server-side call that puts an object under another key, if it is allowed to. */
    method Relocate(from: string, to: string, allowed: bool) returns (s: Status)
      modifies this
      ensures faults == Later(old(faults))
      ensures s.Ok? <==> Fate(old(faults)).Pass? && from in old(objects) && allowed
      ensures Fate(old(faults)).Pass? && s.Failed? ==> s.code < 500
      ensures objects == if Fate(old(faults)).Refused? || from !in old(objects) || !allowed then old(objects)
                         else MoveKey(old(objects), from, to)
    {
      var f := NextFault();
      if f.Refused? {
        return Failed(f.code);
      }
      if from !in objects || !allowed {
        return Failed(if f.Torn? then f.code else if allowed then NOT_FOUND else BAD_REQUEST);
      }
      objects := MoveKey(objects, from, to);
      s := StatusOf(f);
    }

    /** A new name in the same directory. */
    method RenameObject(path: string, name: string) returns (s: Status)
      modifies this
      ensures faults == Later(old(faults))
      ensures s.Ok? <==> Fate(old(faults)).Pass? && path in old(objects) && name != []
      ensures Fate(old(faults)).Pass? && s.Failed? ==> s.code < 500
      ensures objects == if Fate(old(faults)).Refused? || path !in old(objects) || name == [] then old(objects)
                         else MoveKey(old(objects), path, DirOf(path) + name)
    {
      s := Relocate(path, DirOf(path) + name, name != []);
    }

    /** The same name in another folder; folders end in a slash. */
    method Move(path: string, folder: string) returns (s: Status)
      modifies this
      ensures faults == Later(old(faults))
      ensures s.Ok? <==> Fate(old(faults)).Pass? && path in old(objects) && IsDir(folder)
      ensures Fate(old(faults)).Pass? && s.Failed? ==> s.code < 500
      ensures objects == if Fate(old(faults)).Refused? || path !in old(objects) || !IsDir(folder) then old(objects)
                         else MoveKey(old(objects), path, folder + NameOf(path))
    {
      s := Relocate(path, folder + NameOf(path), folder != [] && folder[|folder| - 1] == '/');
    }

    /** The two phases. A failure leaves the object where it was, where the first phase puts it, or where the
        second does. */
    method Rename(oldPath: string, newPath: string) returns (s: Status)
      modifies this
      ensures s.Ok? ==>
                oldPath in old(objects) && TwoPhase(old(objects), oldPath, newPath) == Some(objects)
      ensures s.Failed? ==>
                || objects == old(objects)
                || (oldPath in old(objects) &&
                    (|| objects == MoveKey(old(objects), oldPath, Landing(oldPath, newPath))
                     || TwoPhase(old(objects), oldPath, newPath) == Some(objects)))
      ensures old(faults) == [] ==>
                && faults == []
                && (s.Ok? <==> oldPath in old(objects) && TwoPhase(old(objects), oldPath, newPath).Some?)
                && (s.Failed? ==> s.code < 500)
    {
      hide DirOf, NameOf, ParentOf, FileOf, IsDir;
      s := RenameObject(oldPath, FileOf(newPath));
      if s.Ok? && ParentOf(oldPath) != ParentOf(newPath) {
        s := Move(Sought(oldPath, newPath), ParentOf(newPath));
      }
    }

    /** The public name of an object, if there is one. */
    method Share(path: string) returns (s: Status, link: Content)
      ensures s == if path in objects then Ok else Failed(NOT_FOUND)
      ensures path in objects ==> link == links(path)
    {
      if path !in objects {
        return Failed(NOT_FOUND), [];
      }
      s, link := Ok, links(path);
    }

    /** What is downloaded is appended to the target; so is the body of an error page. */
    method Download(path: string, target: Content) returns (s: Status, content: Content)
      ensures s == if path in objects then Ok else Failed(NOT_FOUND)
      ensures path in objects ==> content == target + objects[path]
      ensures target <= content
    {
      if path !in objects {
        var page: Content := *;
        content := Transfer.Receive(page, target);
        return Failed(NOT_FOUND), content;
      }
      content := Transfer.Receive(objects[path], target);
      s := Ok;
    }

    method Ls(dir: string) returns (files: seq<CloudFile>)
      requires IsDir(dir)
      ensures IsListing(objects, dir, files)
    {
      files := [];
      var todo := objects.Keys;
      while todo != {}
        invariant todo <= objects.Keys
        invariant DistinctNames(files)
        invariant forall f :: f in files ==>
                    '/' !in f.name && dir + f.name in objects && dir + f.name !in todo
                    && f.size == |objects[dir + f.name]|
        invariant forall k :: k in objects && k !in todo && DirOf(k) == dir ==> HasName(files, NameOf(k))
        decreases |todo|
      {
        var k :| k in todo;
        if DirOf(k) == dir {
          files := ListOne(todo, k, dir, files);
        }
        todo := todo - {k};
      }
    }

    method ListOne(ghost todo: set<string>, k: string, dir: string, files: seq<CloudFile>)
      returns (more: seq<CloudFile>)
      requires k in todo && k in objects && DirOf(k) == dir
      requires DistinctNames(files)
      requires forall f :: f in files ==> dir + f.name !in todo
      ensures more == files + [CloudFile(NameOf(k), |objects[k]|)]
      ensures DistinctNames(more)
      ensures '/' !in NameOf(k) && dir + NameOf(k) == k
      ensures forall name :: HasName(files, name) || name == NameOf(k) ==> HasName(more, name)
    {
      var f := CloudFile(NameOf(k), |objects[k]|);
      assert k == dir + NameOf(k);
      more := files + [f];
      assert forall g :: g in files ==> g.name != f.name;
      assert f in more && forall g :: g in files ==> g in more;
    }
  }
}
