/** Directory listings, and the collapse of part entries into one entry per compound file. */
module Listing {
  import opened Bytes
  import opened PartNames
  import opened Layout

  datatype CloudFile = CloudFile(name: string, size: nat)

  function Bases(files: seq<CloudFile>): set<string> {
    set f | f in files && BaseOf(f.name).Some? :: BaseOf(f.name).value
  }

  /** The entries that are not parts, in their original order. */
  function Singles(files: seq<CloudFile>): seq<CloudFile> {
    if files == [] then []
    else
      var last := files[|files| - 1];
      Singles(files[..|files| - 1]) + if BaseOf(last.name) == None then [last] else []
  }

  function Share(f: CloudFile, base: string): nat {
    if BaseOf(f.name) == Some(base) then f.size else 0
  }

  /** Total size of the parts of `base`. */
  function PartSum(files: seq<CloudFile>, base: string): nat {
    if files == [] then 0
    else PartSum(files[..|files| - 1], base) + Share(files[|files| - 1], base)
  }

  function TotalSize(files: seq<CloudFile>): nat {
    if files == [] then 0 else TotalSize(files[..|files| - 1]) + files[|files| - 1].size
  }

  predicate DistinctNames(files: seq<CloudFile>) {
    forall i, j :: 0 <= i < j < |files| ==> files[i].name != files[j].name
  }

  ghost predicate HasName(files: seq<CloudFile>, name: string) {
    exists f :: f in files && f.name == name
  }

  /** `tail` holds exactly one entry per base, of the summed size. */
  ghost predicate OnePerBase(files: seq<CloudFile>, tail: seq<CloudFile>) {
    && DistinctNames(tail)
    && (forall f :: f in tail ==> f.name in Bases(files) && f.size == PartSum(files, f.name))
    && (forall b :: b in Bases(files) ==> HasName(tail, b))
  }

  ghost predicate Collapsed(files: seq<CloudFile>, result: seq<CloudFile>) {
    && Singles(files) <= result
    && OnePerBase(files, result[|Singles(files)|..])
  }

  lemma BasesSnoc(files: seq<CloudFile>, f: CloudFile)
    ensures Bases(files + [f]) ==
            Bases(files) + match BaseOf(f.name) case Some(b) => {b} case None => {}
  {
  }

  lemma {:induction false} NoBaseNoSum(files: seq<CloudFile>, base: string)
    requires base !in Bases(files)
    ensures PartSum(files, base) == 0
  {
    if files != [] {
      var front, last := files[..|files| - 1], files[|files| - 1];
      assert files == front + [last];
      BasesSnoc(front, last);
      NoBaseNoSum(front, base);
    }
  }

  lemma Snoc(files: seq<CloudFile>, f: CloudFile, base: string)
    ensures Singles(files + [f]) == Singles(files) + if BaseOf(f.name) == None then [f] else []
    ensures PartSum(files + [f], base) == PartSum(files, base) + Share(f, base)
    ensures TotalSize(files + [f]) == TotalSize(files) + f.size
  {
  }

  /** What the removal pass has built after reading `files`. */
  ghost predicate Gathered(files: seq<CloudFile>, kept: seq<CloudFile>, compounds: map<string, CloudFile>) {
    && kept == Singles(files)
    && compounds.Keys == Bases(files)
    && forall b :: b in compounds ==> compounds[b] == CloudFile(b, PartSum(files, b))
  }

  /** One visit of the removal pass. */
  method Gather(ghost seen: seq<CloudFile>, file: CloudFile, kept: seq<CloudFile>, compounds: map<string, CloudFile>)
    returns (kept': seq<CloudFile>, compounds': map<string, CloudFile>)
    requires Gathered(seen, kept, compounds)
    ensures Gathered(seen + [file], kept', compounds')
  {
    hide BaseOf, Singles, PartSum, Bases, TotalSize;
    kept', compounds' := kept, compounds;
    match BaseOf(file.name) {
      case Some(origName) =>
        if origName !in compounds {
          compounds' := compounds[origName := file.(name := origName)];
        } else {
          var complex := compounds[origName];
          compounds' := compounds[origName := complex.(size := complex.size + file.size)];
        }
      case None =>
        kept' := kept + [file];
    }
    BasesSnoc(seen, file);
    Snoc(seen, file, "");
    forall b | b in compounds'
      ensures compounds'[b] == CloudFile(b, PartSum(seen + [file], b))
    {
      Snoc(seen, file, b);
      if b !in compounds {
        NoBaseNoSum(seen, b);
      }
    }
  }

  /** The collapsed entries are pushed back in whatever order the map yields them. */
  method PushBack(ghost files: seq<CloudFile>, compounds: map<string, CloudFile>) returns (tail: seq<CloudFile>)
    requires Gathered(files, Singles(files), compounds)
    ensures OnePerBase(files, tail)
  {
    hide BaseOf, Singles, PartSum;
    tail := [];
    var todo := compounds.Keys;
    while todo != {}
      invariant todo <= compounds.Keys
      invariant DistinctNames(tail)
      invariant forall f :: f in tail ==> f.name in compounds && f.name !in todo && f == compounds[f.name]
      invariant forall b :: b in compounds && b !in todo ==> compounds[b] in tail
      decreases |todo|
    {
      var b :| b in todo;
      tail := tail + [compounds[b]];
      todo := todo - {b};
    }
    forall b | b in Bases(files)
      ensures HasName(tail, b)
    {
      assert compounds[b] in tail;
    }
  }

  /** The vector loses its part entries and gains one entry per compound file. */
  method HandleCompounds(files: seq<CloudFile>) returns (result: seq<CloudFile>)
    ensures Collapsed(files, result)
  {
    var compounds: map<string, CloudFile> := map[];
    result := [];
    for i := 0 to |files|
      invariant Gathered(files[..i], result, compounds)
    {
      assert files[..i + 1] == files[..i] + [files[i]];
      result, compounds := Gather(files[..i], files[i], result, compounds);
    }
    assert files[..|files|] == files;
    var tail := PushBack(files, compounds);
    result := result + tail;
    assert result[|Singles(files)|..] == tail;
  }

  // ---- conservation ----

  /** The listing without the parts of one base. */
  function Without(files: seq<CloudFile>, base: string): seq<CloudFile> {
    if files == [] then []
    else
      var last := files[|files| - 1];
      Without(files[..|files| - 1], base) + if BaseOf(last.name) == Some(base) then [] else [last]
  }

  lemma WithoutSnoc(files: seq<CloudFile>, f: CloudFile, base: string)
    ensures Without(files + [f], base) ==
            if BaseOf(f.name) == Some(base) then Without(files, base) else Without(files, base) + [f]
  {
  }

  lemma {:induction false} WithoutTotal(files: seq<CloudFile>, base: string)
    ensures TotalSize(files) == TotalSize(Without(files, base)) + PartSum(files, base)
    ensures Singles(Without(files, base)) == Singles(files)
  {
    if files != [] {
      var front, last := files[..|files| - 1], files[|files| - 1];
      assert files == front + [last];
      WithoutTotal(front, base);
      WithoutSnoc(front, last, base);
      Snoc(front, last, base);
      Snoc(Without(front, base), last, base);
    }
  }

  lemma {:induction false} WithoutBase(files: seq<CloudFile>, base: string)
    ensures Bases(Without(files, base)) == Bases(files) - {base}
  {
    if files != [] {
      var front, last := files[..|files| - 1], files[|files| - 1];
      assert files == front + [last];
      WithoutBase(front, base);
      WithoutSnoc(front, last, base);
      BasesSnoc(front, last);
      BasesSnoc(Without(front, base), last);
    }
  }

  lemma {:induction false} WithoutKeepsOthers(files: seq<CloudFile>, base: string, other: string)
    requires other != base
    ensures PartSum(Without(files, base), other) == PartSum(files, other)
  {
    if files != [] {
      var front, last := files[..|files| - 1], files[|files| - 1];
      assert files == front + [last];
      WithoutKeepsOthers(front, base, other);
      WithoutSnoc(front, last, base);
      Snoc(Without(front, base), last, other);
    }
  }

  lemma {:induction false} TotalConcat(a: seq<CloudFile>, b: seq<CloudFile>)
    ensures TotalSize(a + b) == TotalSize(a) + TotalSize(b)
  {
    if b == [] {
      assert a + b == a;
    } else {
      assert (a + b)[..|a + b| - 1] == a + b[..|b| - 1];
      TotalConcat(a, b[..|b| - 1]);
    }
  }

  lemma {:induction false} AllSingles(files: seq<CloudFile>)
    requires Bases(files) == {}
    ensures Singles(files) == files
  {
    if files != [] {
      var front, last := files[..|files| - 1], files[|files| - 1];
      assert files == front + [last];
      BasesSnoc(front, last);
      AllSingles(front);
    }
  }

  lemma {:induction false} TailTotal(files: seq<CloudFile>, tail: seq<CloudFile>)
    requires OnePerBase(files, tail)
    ensures TotalSize(files) == TotalSize(Singles(files)) + TotalSize(tail)
    decreases |tail|
  {
    if tail == [] {
      assert Bases(files) == {} by {
        assert forall b :: b in Bases(files) ==> HasName(tail, b);
      }
      AllSingles(files);
    } else {
      var front, last := tail[..|tail| - 1], tail[|tail| - 1];
      var rest := Without(files, last.name);
      WithoutBase(files, last.name);
      WithoutTotal(files, last.name);
      forall f | f in front
        ensures f.name in Bases(rest) && f.size == PartSum(rest, f.name)
      {
        assert f in tail;
        assert f.name != last.name;
        WithoutKeepsOthers(files, last.name, f.name);
      }
      forall b | b in Bases(rest)
        ensures HasName(front, b)
      {
        assert HasName(tail, b);
        var f :| f in tail && f.name == b;
        assert f in front;
      }
      TailTotal(rest, front);
      assert last in tail;
    }
  }

  /** Collapsing a listing neither loses nor invents a byte. */
  lemma CollapseKeepsTotal(files: seq<CloudFile>, result: seq<CloudFile>)
    requires Collapsed(files, result)
    ensures TotalSize(result) == TotalSize(files)
  {
    var tail := result[|Singles(files)|..];
    assert result == Singles(files) + tail;
    TotalConcat(Singles(files), tail);
    TailTotal(files, tail);
  }

  lemma {:induction false} SinglesAre(files: seq<CloudFile>)
    ensures forall f :: f in Singles(files) <==> f in files && BaseOf(f.name) == None
  {
    hide BaseOf;
    if files != [] {
      var front, last := files[..|files| - 1], files[|files| - 1];
      SinglesAre(front);
      assert files == front + [last];
    }
  }

  lemma {:induction false} SinglesDistinct(files: seq<CloudFile>)
    requires DistinctNames(files)
    ensures DistinctNames(Singles(files))
  {
    if files != [] {
      var front, last := files[..|files| - 1], files[|files| - 1];
      SinglesDistinct(front);
      SinglesAre(front);
      hide BaseOf;
      var singles := Singles(front);
      forall i | 0 <= i < |singles|
        ensures singles[i].name != last.name
      {
        assert singles[i] in front;
      }
    }
  }

  /** Names stay distinct if nothing exists both as one object and as parts. */
  lemma CollapseDistinct(files: seq<CloudFile>, result: seq<CloudFile>)
    requires Collapsed(files, result) && DistinctNames(files)
    requires forall f :: f in files && BaseOf(f.name) == None ==> f.name !in Bases(files)
    ensures DistinctNames(result)
  {
    SinglesAre(files);
    SinglesDistinct(files);
    var singles := Singles(files);
    var tail := result[|singles|..];
    assert result == singles + tail;
    forall i, j | 0 <= i < j < |result|
      ensures result[i].name != result[j].name
    {
      if i < |singles| <= j {
        assert result[i] in singles && result[j] == tail[j - |singles|] && result[j] in tail;
      } else if j < |singles| {
        assert result[i] == singles[i] && result[j] == singles[j];
      } else {
        assert result[i] == tail[i - |singles|] && result[j] == tail[j - |singles|];
      }
    }
  }

  // ---- what a stat of one name finds ----

  /** The size the search loop ends up with: a later entry of the same name wins. */
  function SizeOf(files: seq<CloudFile>, name: string): Option<nat> {
    if files == [] then None
    else
      var last := files[|files| - 1];
      if last.name == name then Some(last.size) else SizeOf(files[..|files| - 1], name)
  }

  lemma {:induction false} SizeOfConcat(a: seq<CloudFile>, b: seq<CloudFile>, name: string)
    ensures SizeOf(a + b, name) == if SizeOf(b, name).Some? then SizeOf(b, name) else SizeOf(a, name)
  {
    if b == [] {
      assert a + b == a;
    } else {
      assert (a + b)[..|a + b| - 1] == a + b[..|b| - 1];
      SizeOfConcat(a, b[..|b| - 1], name);
    }
  }

  lemma {:induction false} SizeOfMember(files: seq<CloudFile>, name: string)
    ensures SizeOf(files, name).Some? <==> HasName(files, name)
    ensures SizeOf(files, name).Some? ==> CloudFile(name, SizeOf(files, name).value) in files
  {
    if files != [] {
      var front, last := files[..|files| - 1], files[|files| - 1];
      assert files == front + [last];
      SizeOfMember(front, name);
      assert last in files;
      assert forall f :: f in files <==> f in front || f == last;
    }
  }

  lemma {:induction false} SizeOfDistinct(files: seq<CloudFile>, f: CloudFile)
    requires DistinctNames(files) && f in files
    ensures SizeOf(files, f.name) == Some(f.size)
  {
    SizeOfMember(files, f.name);
    assert HasName(files, f.name);
  }

  /** A stat after the collapse: the parts if there are any, else the single object, else nothing. */
  lemma StatAfterCollapse(files: seq<CloudFile>, result: seq<CloudFile>, name: string)
    requires Collapsed(files, result)
    ensures SizeOf(result, name) ==
            if name in Bases(files) then Some(PartSum(files, name)) else SizeOf(Singles(files), name)
  {
    var tail := result[|Singles(files)|..];
    assert result == Singles(files) + tail;
    SizeOfConcat(Singles(files), tail, name);
    SizeOfMember(tail, name);
    if name in Bases(files) {
      assert HasName(tail, name);
    }
  }

  // ---- the parts of one file in a listing ----

  /** The entries of `base` in `files` are exactly its parts 0, 1, ... with these sizes. */
  ghost predicate ListsParts(files: seq<CloudFile>, base: string, sizes: seq<nat>) {
    && (forall f :: f in files && BaseOf(f.name) == Some(base) ==>
          && IndexOf(f.name) < |sizes|
          && f.name == PartName(base, IndexOf(f.name))
          && f.size == sizes[IndexOf(f.name)])
    && (forall i :: 0 <= i < |sizes| ==> HasName(files, PartName(base, i)))
  }

  lemma {:induction false} SumWithoutOne(files: seq<CloudFile>, k: nat, base: string)
    requires k < |files|
    ensures PartSum(files, base) == PartSum(files[..k] + files[k + 1..], base) + Share(files[k], base)
  {
    var front, last := files[..|files| - 1], files[|files| - 1];
    if k == |files| - 1 {
      assert files[..k] + files[k + 1..] == front;
    } else {
      SumWithoutOne(front, k, base);
      var less := front[..k] + front[k + 1..];
      assert files[..k] + files[k + 1..] == less + [last];
      Snoc(less, last, base);
    }
  }

  lemma RemoveOne(files: seq<CloudFile>, k: nat)
    requires DistinctNames(files) && k < |files|
    ensures DistinctNames(files[..k] + files[k + 1..])
    ensures forall f :: f in files[..k] + files[k + 1..] <==> f in files && f.name != files[k].name
  {
  }

  lemma LessParts(files: seq<CloudFile>, base: string, sizes: seq<nat>, k: nat)
    requires sizes != [] && DistinctNames(files) && ListsParts(files, base, sizes)
    requires k < |files| && files[k].name == PartName(base, |sizes| - 1)
    ensures DistinctNames(files[..k] + files[k + 1..])
    ensures ListsParts(files[..k] + files[k + 1..], base, sizes[..|sizes| - 1])
  {
    hide PartName, BaseOf, IndexOf, DistinctNames;
    var less := files[..k] + files[k + 1..];
    RemoveOne(files, k);
    forall i | 0 <= i < |sizes| - 1
      ensures HasName(less, PartName(base, i))
    {
      assert HasName(files, PartName(base, i));
      var f :| f in files && f.name == PartName(base, i);
      assert f.name != files[k].name by {
        IndexOfPartName(base, i);
        IndexOfPartName(base, |sizes| - 1);
      }
    }
  }

  lemma ShareOfPart(files: seq<CloudFile>, base: string, sizes: seq<nat>, i: nat, f: CloudFile)
    requires base != [] && NoLineEnd(base) && ListsParts(files, base, sizes)
    requires i < |sizes| && f in files && f.name == PartName(base, i)
    ensures Share(f, base) == sizes[i]
  {
    BaseOfPartName(base, i);
    IndexOfPartName(base, i);
  }

  lemma PartIsListed(files: seq<CloudFile>, base: string, sizes: seq<nat>, i: nat) returns (k: nat)
    requires ListsParts(files, base, sizes) && i < |sizes|
    ensures k < |files| && files[k].name == PartName(base, i)
  {
    assert HasName(files, PartName(base, i));
    k :| 0 <= k < |files| && files[k].name == PartName(base, i);
  }

  /** In whatever order they are listed, the parts sum up to the sizes they have. */
  lemma {:induction false} PartSumIsSize(files: seq<CloudFile>, base: string, sizes: seq<nat>)
    requires base != [] && NoLineEnd(base)
    requires DistinctNames(files) && ListsParts(files, base, sizes)
    ensures PartSum(files, base) == Sum(sizes)
    decreases |sizes|
  {
    if sizes == [] {
      NoBaseNoSum(files, base);
    } else {
      var n := |sizes| - 1;
      var k := PartIsListed(files, base, sizes, n);
      ShareOfPart(files, base, sizes, n, files[k]);
      LessParts(files, base, sizes, k);
      PartSumIsSize(files[..k] + files[k + 1..], base, sizes[..n]);
      SumWithoutOne(files, k, base);
    }
  }

  // ---- a listing of which some names do not matter ----

  /** The name under which an entry is shown after the collapse. */
  function ShownAs(name: string): string {
    match BaseOf(name)
    case Some(base) => base
    case None => name
  }

  /** The entries that will be shown under wanted names. */
  function KeepShown(files: seq<CloudFile>, wanted: string -> bool): seq<CloudFile> {
    if files == [] then []
    else
      var last := files[|files| - 1];
      KeepShown(files[..|files| - 1], wanted) + if wanted(ShownAs(last.name)) then [last] else []
  }

  /** The entries of wanted names. */
  function KeepNamed(files: seq<CloudFile>, wanted: string -> bool): seq<CloudFile> {
    if files == [] then []
    else
      var last := files[|files| - 1];
      KeepNamed(files[..|files| - 1], wanted) + if wanted(last.name) then [last] else []
  }

  lemma KeepSteps(files: seq<CloudFile>, f: CloudFile, wanted: string -> bool)
    ensures KeepShown(files + [f], wanted) ==
            if wanted(ShownAs(f.name)) then KeepShown(files, wanted) + [f] else KeepShown(files, wanted)
    ensures KeepNamed(files + [f], wanted) ==
            if wanted(f.name) then KeepNamed(files, wanted) + [f] else KeepNamed(files, wanted)
  {
    hide ShownAs;
    assert (files + [f])[..|files|] == files;
  }

  lemma {:induction false} KeepShownAre(files: seq<CloudFile>, wanted: string -> bool)
    ensures forall f :: f in KeepShown(files, wanted) <==> f in files && wanted(ShownAs(f.name))
  {
    hide ShownAs;
    if files != [] {
      var front, last := files[..|files| - 1], files[|files| - 1];
      KeepShownAre(front, wanted);
      assert files == front + [last];
    }
  }

  lemma {:induction false} KeepNamedAre(files: seq<CloudFile>, wanted: string -> bool)
    ensures forall f :: f in KeepNamed(files, wanted) <==> f in files && wanted(f.name)
  {
    if files != [] {
      var front, last := files[..|files| - 1], files[|files| - 1];
      KeepNamedAre(front, wanted);
      assert files == front + [last];
    }
  }

  lemma DistinctSnoc(files: seq<CloudFile>, f: CloudFile)
    requires DistinctNames(files) && forall g :: g in files ==> g.name != f.name
    ensures DistinctNames(files + [f])
  {
  }

  lemma {:induction false} KeepShownDistinct(files: seq<CloudFile>, wanted: string -> bool)
    requires DistinctNames(files)
    ensures DistinctNames(KeepShown(files, wanted))
  {
    hide ShownAs;
    if files != [] {
      var front, last := files[..|files| - 1], files[|files| - 1];
      KeepShownDistinct(front, wanted);
      KeepShownAre(front, wanted);
      DistinctSnoc(KeepShown(front, wanted), last);
    }
  }

  lemma {:induction false} KeepNamedDistinct(files: seq<CloudFile>, wanted: string -> bool)
    requires DistinctNames(files)
    ensures DistinctNames(KeepNamed(files, wanted))
  {
    if files != [] {
      var front, last := files[..|files| - 1], files[|files| - 1];
      KeepNamedDistinct(front, wanted);
      KeepNamedAre(front, wanted);
      DistinctSnoc(KeepNamed(front, wanted), last);
    }
  }

  lemma {:induction false} KeepNamedConcat(a: seq<CloudFile>, b: seq<CloudFile>, wanted: string -> bool)
    ensures KeepNamed(a + b, wanted) == KeepNamed(a, wanted) + KeepNamed(b, wanted)
  {
    if b == [] {
      assert a + b == a;
    } else {
      assert (a + b)[..|a + b| - 1] == a + b[..|b| - 1];
      KeepNamedConcat(a, b[..|b| - 1], wanted);
    }
  }

  lemma SinglesKeepStep(front: seq<CloudFile>, last: CloudFile, wanted: string -> bool)
    requires Singles(KeepShown(front, wanted)) == KeepNamed(Singles(front), wanted)
    ensures Singles(KeepShown(front + [last], wanted)) == KeepNamed(Singles(front + [last]), wanted)
  {
    hide BaseOf, Singles, KeepShown, KeepNamed;
    KeepSteps(front, last, wanted);
    Snoc(front, last, "");
    Snoc(KeepShown(front, wanted), last, "");
    KeepSteps(Singles(front), last, wanted);
    if BaseOf(last.name) == None {
      assert ShownAs(last.name) == last.name;
    } else {
      assert Singles(front) + [] == Singles(front);
      var kept := Singles(KeepShown(front, wanted));
      assert kept + [] == kept;
    }
  }

  lemma {:induction false} SinglesKeep(files: seq<CloudFile>, wanted: string -> bool)
    ensures Singles(KeepShown(files, wanted)) == KeepNamed(Singles(files), wanted)
  {
    if files != [] {
      hide Singles, KeepShown, KeepNamed;
      var front, last := files[..|files| - 1], files[|files| - 1];
      assert files == front + [last];
      SinglesKeep(front, wanted);
      SinglesKeepStep(front, last, wanted);
    }
  }

  lemma PartSumKeepStep(front: seq<CloudFile>, last: CloudFile, wanted: string -> bool, base: string)
    requires wanted(base) && PartSum(KeepShown(front, wanted), base) == PartSum(front, base)
    ensures PartSum(KeepShown(front + [last], wanted), base) == PartSum(front + [last], base)
  {
    hide BaseOf, PartSum, KeepShown, KeepNamed;
    KeepSteps(front, last, wanted);
    Snoc(front, last, base);
    Snoc(KeepShown(front, wanted), last, base);
  }

  lemma {:induction false} PartSumKeep(files: seq<CloudFile>, wanted: string -> bool, base: string)
    requires wanted(base)
    ensures PartSum(KeepShown(files, wanted), base) == PartSum(files, base)
  {
    if files != [] {
      hide PartSum, KeepShown;
      var front, last := files[..|files| - 1], files[|files| - 1];
      assert files == front + [last];
      PartSumKeep(front, wanted, base);
      PartSumKeepStep(front, last, wanted, base);
    }
  }

  lemma {:induction false} SizeOfKeep(files: seq<CloudFile>, wanted: string -> bool, name: string)
    requires wanted(name)
    ensures SizeOf(KeepNamed(files, wanted), name) == SizeOf(files, name)
  {
    if files != [] {
      var front, last := files[..|files| - 1], files[|files| - 1];
      assert files == front + [last];
      SizeOfKeep(front, wanted, name);
      KeepSteps(front, last, wanted);
      SizeOfConcat(KeepNamed(front, wanted), [last], name);
      SizeOfConcat(front, [last], name);
    }
  }

  lemma OnePerBaseKeep(files: seq<CloudFile>, tail: seq<CloudFile>, wanted: string -> bool)
    requires OnePerBase(files, tail)
    ensures OnePerBase(KeepShown(files, wanted), KeepNamed(tail, wanted))
  {
    hide BaseOf, PartSum, DistinctNames, KeepShown, KeepNamed;
    var kept := KeepShown(files, wanted);
    KeepShownAre(files, wanted);
    KeepNamedAre(tail, wanted);
    KeepNamedDistinct(tail, wanted);
    forall f | f in KeepNamed(tail, wanted)
      ensures f.name in Bases(kept) && f.size == PartSum(kept, f.name)
    {
      var g :| g in files && BaseOf(g.name) == Some(f.name);
      assert g in kept;
      PartSumKeep(files, wanted, f.name);
    }
    forall b | b in Bases(kept)
      ensures HasName(KeepNamed(tail, wanted), b)
    {
      var g :| g in kept && BaseOf(g.name) == Some(b);
      assert b in Bases(files) && HasName(tail, b);
    }
  }

  /** The wanted part of the collapse is the collapse of the wanted part. */
  lemma CollapseKeep(files: seq<CloudFile>, result: seq<CloudFile>, wanted: string -> bool)
    requires Collapsed(files, result)
    ensures Collapsed(KeepShown(files, wanted), KeepNamed(result, wanted))
  {
    hide BaseOf, Singles, KeepShown, KeepNamed, OnePerBase;
    var singles, tail := Singles(files), result[|Singles(files)|..];
    assert result == singles + tail;
    KeepNamedConcat(singles, tail, wanted);
    SinglesKeep(files, wanted);
    OnePerBaseKeep(files, tail, wanted);
    assert (KeepNamed(singles, wanted) + KeepNamed(tail, wanted))[|KeepNamed(singles, wanted)|..]
           == KeepNamed(tail, wanted);
  }
}
