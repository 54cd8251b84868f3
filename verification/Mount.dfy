/** A mounted file system serving arbitrary programs of calls. */
module Mount {
  import opened Bytes
  import opened PartNames
  import opened Layout
  import opened HexHash
  import opened Listing
  import opened Storages
  import opened RestClient
  import opened Logical
  import opened FileNode
  import opened StatCache
  import opened ShareLinks
  import opened FS = FileSystem
  import opened Renames
  import opened FuseState
  import opened FuseHooks

  /** Calls that open, use or close a node. */
  predicate OnHandle(call: Call) {
    call.GetAttrOpen? || call.Read? || call.Open? || call.Write? || call.Truncate? || call.Flush? || call.Release?
  }

  class Mount {
    const hooks: FuseHooks
    var nodes: map<string, MarcFileNode>  // the `fi->fh` of each open path
    ghost var repr: set<MarcFileNode>     // all nodes ever opened

    constructor (limit: nat, onDisk: bool, links: string -> Content, ghost folders: set<string>)
      requires ValidLimit(limit)
      ensures Valid() && hooks.View() == World(limit, onDisk, links, folders, map[], map[], map[], 0, {})
      ensures fresh(hooks) && fresh(hooks.client) && fresh(hooks.cache) && nodes == map[] && repr == {}
    {
      hooks := new FuseHooks(limit, onDisk, links, folders);
      nodes, repr := map[], {};
    }

    /** Every node is open at its path, and at no other. */
    ghost predicate Linked()
      reads this, hooks`states, repr
    {
      && nodes.Keys == hooks.states.Keys
      && (forall p :: p in nodes ==> nodes[p] in repr)
      && (forall p :: p in nodes ==> hooks.OpenAt(p, nodes[p]))
      && (forall p, q :: p in nodes && q in nodes && p != q ==> nodes[p] != nodes[q])
    }

    ghost predicate Valid()
      reads this, hooks, hooks.client, hooks.cache, repr
    {
      hooks.Valid() && hooks.Quiet() && Linked()
    }

    /** Calls that leave the open nodes alone keep them linked. */
    twostate lemma StillLinked()
      requires old(Linked()) && unchanged(this) && unchanged(hooks`states)
      requires forall n :: n in repr ==> unchanged(n)
      ensures Linked()
    {
      forall p | p in nodes
        ensures hooks.OpenAt(p, nodes[p])
      {
        assert nodes[p] in repr && old(hooks.OpenAt(p, nodes[p]));
      }
    }

    lemma NodeAt(path: string)
      requires Linked() && path in hooks.states
      ensures path in nodes && nodes[path] in repr && hooks.OpenAt(path, nodes[path])
    {
    }

    lemma NoNodeAt(path: string)
      requires Linked()
      ensures path in nodes <==> path in hooks.states
    {
    }

    /** So do calls that change one node together with its state. */
    twostate lemma LinkedWith(path: string)
      requires old(Linked()) && unchanged(this) && path in nodes && hooks.OpenAt(path, nodes[path])
      requires hooks.states == old(hooks.states)[path := hooks.states[path]]
      requires forall n :: n in repr && n != nodes[path] ==> unchanged(n)
      ensures Linked()
    {
      forall p | p in nodes
        ensures hooks.OpenAt(p, nodes[p])
      {
        assert nodes[p] in repr && old(hooks.OpenAt(p, nodes[p]));
      }
    }

    twostate lemma LinkedMore(path: string, new node: MarcFileNode)
      requires old(Linked()) && nodes == old(nodes)[path := node] && fresh(node) && hooks.OpenAt(path, node)
      requires path !in old(nodes) && hooks.states == old(hooks.states)[path := hooks.states[path]]
      requires repr == old(repr) + {node} && forall n :: n in old(repr) ==> unchanged(n)
      ensures Linked()
    {
      hide Matches;
      assert node !in old(repr);
      forall p | p in nodes
        ensures nodes[p] in repr && hooks.OpenAt(p, nodes[p]) && (p != path ==> nodes[p] != node)
      {
        assert p != path ==> nodes[p] in old(repr) && old(hooks.OpenAt(p, nodes[p]));
      }
    }

    twostate lemma LinkedLess(path: string)
      requires old(Linked()) && path in old(nodes) && nodes == old(nodes) - {path} && repr == old(repr)
      requires hooks.states == old(hooks.states) - {path}
      requires forall n :: n in repr && n != old(nodes)[path] ==> unchanged(n)
      ensures Linked()
    {
      forall p | p in nodes
        ensures hooks.OpenAt(p, nodes[p])
      {
        assert nodes[p] in repr && old(hooks.OpenAt(p, nodes[p]));
      }
    }

    /** The call may be made now. */
    ghost predicate Ready(call: Call)
      reads this, hooks, hooks.client, hooks.cache, repr
    {
      Valid() && Enabled(hooks.View(), call)
    }

    /** The call has turned out as it may, with the answer and the effect that go with that. */
    twostate predicate Served(call: Call, a: Answer, o: Outcome)
      reads this, hooks, hooks.client, hooks.cache, repr
    {
      && Valid() && ValidLimit(old(hooks.View()).limit)
      && Possible(old(hooks.View()), call, o)
      && hooks.View() == Next(old(hooks.View()), call, o)
      && a == Reply(old(hooks.View()), call, o)
    }

    method GetAttr(call: Call) returns (a: Answer, ghost o: Outcome)
      requires Ready(call) && call.GetAttr?
      modifies hooks.cache
      ensures Served(call, a, o)
    {
      hide Linked, Consistent, Enabled, Next, Reply, Possible, LookedUp, Statable, Slashed, StatCode, StatSize, Dated;
      GetAttrFacts(hooks.View(), call);
      var err, size := hooks.GetAttrCallback(call.path);
      StillLinked();
      a, o := if err == 0 then Stat(size) else Error(err), Ended(err);
    }

    method GetAttrOpen(call: Call) returns (a: Answer, ghost o: Outcome)
      requires Ready(call) && call.GetAttrOpen?
      ensures Served(call, a, o)
    {
      hide Linked, Consistent, Enabled, Next, Reply, Possible, Dated;
      OpenFacts(hooks.View(), call);
      NodeAt(call.path);
      var size := hooks.GetAttrOpenCallback(call.path, nodes[call.path]);
      a, o := Stat(size), Ended(0);
    }

    method Read(call: Call) returns (a: Answer, ghost o: Outcome)
      requires Ready(call) && call.Read?
      ensures Served(call, a, o)
    {
      hide Linked, Consistent, Enabled, Next, Reply, Possible, ReadAt, InRange, Dated;
      OpenFacts(hooks.View(), call);
      NodeAt(call.path);
      var buf, count := hooks.ReadCallback(call.path, nodes[call.path], call.size, call.offset);
      a, o := Answer.Bytes(buf, count), Ended(0);
    }

    method ReadDir(call: Call) returns (a: Answer, ghost o: Outcome)
      requires Ready(call) && call.ReadDir?
      modifies hooks.cache
      ensures Served(call, a, o)
    {
      hide Linked, Consistent, Enabled, Next, Reply, Possible, IsDir, Listed, EntriesOf, Dated;
      ghost var w := hooks.View();
      IsDirOf(w, call);
      var entries := hooks.ReadDirCallback(call.path);
      StillLinked();
      ReadDirFacts(w, call, entries);
      a := Entries(set f | f in entries);
      o := Outcome(0, StraysIn(entries, hooks.torn, call.path), None);
    }

    /** Time passes; cache entries grow old. */
    method Wait(call: Call) returns (a: Answer, ghost o: Outcome)
      requires Ready(call) && call.Wait?
      modifies hooks`now
      ensures Served(call, a, o)
    {
      hide Linked, Consistent;
      hooks.now := hooks.now + call.seconds;
      StillLinked();
      a, o := Success, Ended(0);
    }

    method Write(call: Call) returns (a: Answer, ghost o: Outcome)
      requires Ready(call) && call.Write?
      modifies hooks`states, repr
      ensures Served(call, a, o)
    {
      hide Linked, Consistent, AfterWrite, Enabled, Next, Reply, Possible, InRange, Dated;
      OpenFacts(hooks.View(), call);
      NodeAt(call.path);
      var count := hooks.WriteCallback(call.path, nodes[call.path], call.buf, call.offset);
      LinkedWith(call.path);
      a, o := Answer.Count(count), Ended(0);
    }

    method Truncate(call: Call) returns (a: Answer, ghost o: Outcome)
      requires Ready(call) && call.Truncate?
      modifies hooks`files, hooks`torn, hooks`states, hooks.cache, repr
      ensures Served(call, a, o)
    {
      hide Linked, Consistent, AfterTruncate, Enabled, Next, Reply, Possible, Dated;
      OpenFacts(hooks.View(), call);
      NodeAt(call.path);
      hooks.TruncateCallback(call.path, nodes[call.path], call.size);
      LinkedWith(call.path);
      a, o := Success, Ended(0);
    }

    method Flush(call: Call) returns (a: Answer, ghost o: Outcome)
      requires Ready(call) && call.Flush?
      modifies hooks`files, hooks`torn, hooks`states, hooks.client, hooks.cache, repr
      ensures Served(call, a, o)
    {
      hide Linked, Consistent, AfterFlush, AfterLinks, Linkable, Tear, Enabled, Next, Reply, Possible, FlushCode,
           Storable, LinkTarget, Lookup, Owner, Dated;
      ghost var w := hooks.View();
      FlushFacts(w, call);
      NodeAt(call.path);
      hooks.client.faults := call.faults;
      ghost var since;
      var r;
      r, since := hooks.FlushCallback(call.path, nodes[call.path]);
      FlushOutcome(w, call, r, since);
      LinkedWith(call.path);
      hooks.client.faults := [];
      a, o := if r == 0 then Success else Error(r), Outcome(r, {}, since);
    }

    method Open(call: Call) returns (a: Answer, ghost o: Outcome)
      requires Ready(call) && call.Open?
      modifies `nodes, `repr, hooks`states, hooks.cache
      ensures Served(call, a, o)
      ensures forall n :: n in repr ==> n in old(repr) || fresh(n)
    {
      hide Linked, Consistent, AfterOpen, Enabled, Next, Reply, Fresh, Opened, Possible, Dated;
      NoNodeAt(call.path);
      OpenFacts(hooks.View(), call);
      var node := hooks.OpenCallback(call.path);
      nodes, repr := nodes[call.path := node], repr + {node};
      LinkedMore(call.path, node);
      a, o := Success, Ended(0);
    }

    method Release(call: Call) returns (a: Answer, ghost o: Outcome)
      requires Ready(call) && call.Release?
      modifies `nodes, hooks`states, repr
      ensures Served(call, a, o)
      ensures repr == old(repr)
    {
      hide Linked, Consistent, AfterRelease, Enabled, Next, Reply, Possible, Dated;
      OpenFacts(hooks.View(), call);
      NodeAt(call.path);
      hooks.ReleaseCallback(call.path, nodes[call.path]);
      nodes := nodes - {call.path};
      LinkedLess(call.path);
      a, o := Success, Ended(0);
    }

    method Mknod(call: Call) returns (a: Answer, ghost o: Outcome)
      requires Ready(call) && call.Mknod?
      modifies hooks`files, hooks`torn, hooks.client
      ensures Served(call, a, o)
    {
      hide Linked, Consistent, AfterMknod, Tear, Enabled, Next, Reply, Possible, LogicalPath, Lookup, Owner, RetryCode,
           Dated;
      ghost var w := hooks.View();
      ClosedFacts(w, call);
      hooks.client.faults := call.faults;
      var r := hooks.MknodCallback(call.path);
      MknodOutcome(w, call, r);
      StillLinked();
      hooks.client.faults := [];
      a, o := if r == 0 then Success else Error(r), Ended(r);
    }

    method Unlink(call: Call) returns (a: Answer, ghost o: Outcome)
      requires Ready(call) && call.Unlink?
      modifies hooks`files, hooks`torn, hooks.client, hooks.cache
      ensures Served(call, a, o)
    {
      hide Linked, Consistent, AfterUnlink, Tear, Enabled, Next, Reply, Possible, LogicalPath, Lookup, Owner,
           LookedUp, Truthful, RetryCode, Dated;
      ghost var w := hooks.View();
      ClosedFacts(w, call);
      hooks.client.faults := call.faults;
      var r := hooks.UnlinkCallback(call.path);
      UnlinkOutcome(w, call, r);
      StillLinked();
      hooks.client.faults := [];
      a, o := if r == 0 then Success else Error(r), Ended(r);
    }

    method TruncateClosed(call: Call) returns (a: Answer, ghost o: Outcome)
      requires Ready(call) && call.TruncateClosed?
      modifies hooks`files, hooks`torn, hooks.client, hooks.cache
      ensures Served(call, a, o)
    {
      hide Linked, Consistent, AfterTruncateClosed, TruncateClosedCode, Enabled, Next, Reply, Possible, LogicalPath,
           Lookup, Owner, Flushed, Resize, Dated;
      ghost var w := hooks.View();
      ClosedFacts(w, call);
      hooks.client.faults := call.faults;
      var r := hooks.TruncateClosedCallback(call.path, call.size);
      TruncateClosedOutcome(w, call, r);
      StillLinked();
      hooks.client.faults := [];
      a, o := if r == 0 then Success else Error(r), Ended(r);
    }

    method Rename(call: Call) returns (a: Answer, ghost o: Outcome)
      requires Ready(call) && call.Rename?
      modifies hooks`files, hooks.client, hooks.cache
      ensures Served(call, a, o)
    {
      hide Linked, Consistent, AfterRename, RenameCode, RenameOk, RenamePaths, Enabled, Next, Reply, Possible, Truthful,
           Dated;
      RenameCallFacts(hooks.View(), call);
      var r := hooks.RenameCallback(call.path, call.newPath, call.flags);
      StillLinked();
      a, o := if r == 0 then Success else Error(r), Ended(r);
    }

    /** A call that uses an open node. */
    method StepNode(call: Call) returns (a: Answer, ghost o: Outcome)
      requires Ready(call) && OnHandle(call) && !call.Open? && !call.Release?
      modifies hooks, hooks.client, hooks.cache, repr
      ensures Served(call, a, o)
    {
      hide Ready, Served;
      match call {
        case GetAttrOpen(_) => a, o := GetAttrOpen(call);
        case Read(_, _, _) => a, o := Read(call);
        case Write(_, _, _) => a, o := Write(call);
        case Truncate(_, _) => a, o := Truncate(call);
        case Flush(_, _) => a, o := Flush(call);
      }
    }

    /** A call on a handle. */
    method StepOpen(call: Call) returns (a: Answer, ghost o: Outcome)
      requires Ready(call) && OnHandle(call)
      modifies this, hooks, hooks.client, hooks.cache, repr
      ensures Served(call, a, o)
      ensures forall n :: n in repr ==> n in old(repr) || fresh(n)
    {
      hide Ready, Served;
      if call.Open? {
        a, o := Open(call);
      } else if call.Release? {
        a, o := Release(call);
      } else {
        a, o := StepNode(call);
      }
    }

    /** A call on paths. */
    method StepPath(call: Call) returns (a: Answer, ghost o: Outcome)
      requires Ready(call) && !OnHandle(call)
      modifies this, hooks, hooks.client, hooks.cache, repr
      ensures Served(call, a, o)
      ensures forall n :: n in repr ==> n in old(repr) || fresh(n)
    {
      hide Ready, Served;
      match call {
        case GetAttr(_) => a, o := GetAttr(call);
        case ReadDir(_) => a, o := ReadDir(call);
        case Wait(_) => a, o := Wait(call);
        case Mknod(_, _) => a, o := Mknod(call);
        case Unlink(_, _) => a, o := Unlink(call);
        case TruncateClosed(_, _, _) => a, o := TruncateClosed(call);
        case Rename(_, _, _) => a, o := Rename(call);
      }
    }

    /** One call: its answer and its effect are as promised, whether it gets through or gives up. */
    method Step(call: Call) returns (a: Answer, ghost o: Outcome)
      requires Ready(call)
      modifies this, hooks, hooks.client, hooks.cache, repr
      ensures Served(call, a, o)
      ensures forall n :: n in repr ==> n in old(repr) || fresh(n)
    {
      hide Ready, Served;
      if OnHandle(call) {
        a, o := StepOpen(call);
      } else {
        a, o := StepPath(call);
      }
    }

    /** Every program of enabled calls runs to its end, through failures too, and the answers are those of the
        world of named files, open handles and remembered sizes. */
    method Run(calls: seq<Call>) returns (answers: seq<Answer>, ghost outcomes: seq<Outcome>)
      requires Valid() && AllEnabled(hooks.View(), calls)
      modifies this, hooks, hooks.client, hooks.cache, repr
      ensures Valid()
      ensures |outcomes| == |calls| && Feasible(old(hooks.View()), calls, outcomes)
      ensures hooks.View() == RunWorld(old(hooks.View()), calls, outcomes)
      ensures answers == RunAnswers(old(hooks.View()), calls, outcomes)
    {
      hide Enabled, Next, Reply, Possible, Consistent, Linked, Dated;
      answers, outcomes := [], [];
      ghost var start := hooks.View();
      assert calls[0..] == calls;
      for i := 0 to |calls|
        invariant Valid() && start.limit == hooks.limit && AllEnabled(hooks.View(), calls[i..])
        invariant |outcomes| == i && Feasible(start, calls, outcomes)
        invariant hooks.View() == RunWorld(start, calls, outcomes)
        invariant answers == RunAnswers(start, calls, outcomes)
        invariant forall n :: n in repr ==> n in old(repr) || fresh(n)
      {
        ghost var w, o := hooks.View(), Ended(0);
        assert calls[i..][0] == calls[i] && calls[i..][1..] == calls[i + 1..];
        var a;
        a, o := Step(calls[i]);
        StillEnabled(w, calls[i..], o);
        RunMore(start, calls, outcomes, o);
        answers, outcomes := answers + [a], outcomes + [o];
      }
    }
  }

  // ---- what `Enabled`, `Next` and `Reply` say about each call ----

  lemma GetAttrFacts(w: World, call: Call)
    requires ValidLimit(w.limit) && call.GetAttr? && Enabled(w, call)
    ensures Statable(call.path) && (call.path == "/" || !Slashed(call.path) || call.path !in w.torn)
    ensures var o := Ended(StatCode(w, call.path));
            && Possible(w, call, o) && Next(w, call, o) == w.(cache := LookedUp(w, call.path))
            && Reply(w, call, o) == if o.code == 0 then Stat(StatSize(w, call.path)) else Error(o.code)
  {
    hide StatCode, StatSize, LookedUp;
  }

  lemma IsDirOf(w: World, call: Call)
    requires ValidLimit(w.limit) && call.ReadDir? && Enabled(w, call)
    ensures IsDir(call.path)
  {
  }

  lemma ReadDirFacts(w: World, call: Call, entries: seq<CloudFile>)
    requires ValidLimit(w.limit) && call.ReadDir? && forall f :: f in entries ==> '/' !in f.name
    ensures var o := Outcome(0, StraysIn(entries, w.torn, call.path), None);
            && Possible(w, call, o) && Next(w, call, o) == w.(cache := Listed(w.cache, w.files, call.path, w.now))
            && Reply(w, call, o) == Entries(EntriesOf(w.files, call.path) + o.strays)
  {
    hide EntriesOf, Listed;
  }

  /** Calls on open files. */
  lemma OpenFacts(w: World, call: Call)
    requires ValidLimit(w.limit) && Enabled(w, call)
    requires call.GetAttrOpen? || call.Read? || call.Write? || call.Truncate? || call.Open? || call.Release?
    ensures call.path in w.handles <==> !call.Open?
    ensures Possible(w, call, Ended(0))
    ensures call.GetAttrOpen? ==>
              Next(w, call, Ended(0)) == w && Reply(w, call, Ended(0)) == Stat(|w.handles[call.path].content|)
    ensures call.Read? ==>
              var b := ReadAt(w.handles[call.path].content, call.size, call.offset);
              && InRange(call.offset, call.size) && Next(w, call, Ended(0)) == w
              && Reply(w, call, Ended(0)) == Answer.Bytes(b, Int32(|b|))
    ensures call.Write? ==>
              && InRange(call.offset, |call.buf|)
              && Next(w, call, Ended(0)) == AfterWrite(w, call.path, call.buf, call.offset)
              && Reply(w, call, Ended(0)) == Answer.Count(Int32(|call.buf|))
    ensures call.Truncate? ==>
              && call.size <= OFF_MAX && Next(w, call, Ended(0)) == AfterTruncate(w, call.path, call.size)
              && Reply(w, call, Ended(0)) == Success
    ensures call.Open? ==>
              && call.path in w.files && Fresh(w, call.path) && w.cache[call.path].size == |w.files[call.path]|
              && Next(w, call, Ended(0)) == AfterOpen(w, call.path) && Reply(w, call, Ended(0)) == Success
    ensures call.Release? ==>
              Next(w, call, Ended(0)) == AfterRelease(w, call.path) && Reply(w, call, Ended(0)) == Success
  {
    hide AfterWrite, AfterTruncate, AfterOpen, AfterRelease, Expired;
  }

  lemma FlushFacts(w: World, call: Call)
    requires ValidLimit(w.limit) && call.Flush? && Enabled(w, call)
    ensures call.path in w.handles
    ensures LinkTarget(call.path).Some? ==> Linkable(w, LinkTarget(call.path).value)
  {
    hide Linkable, LinkTarget;
  }

  lemma FlushOutcome(w: World, call: Call, r: int, since: Option<nat>)
    requires ValidLimit(w.limit) && call.Flush? && call.path in AfterLinks(w, call.path).handles
    requires r == FlushCode(AfterLinks(w, call.path).handles[call.path], call.faults, w.limit)
    requires since.Some? ==> call.path in w.torn && since.value <= w.now
    ensures var o := Outcome(r, {}, since);
            && Possible(w, call, o)
            && Next(w, call, o) == (if r == 0 then AfterFlush(w, call.path, since)
                                    else Tear(AfterLinks(w, call.path), call.path))
            && Reply(w, call, o) == if r == 0 then Success else Error(r)
  {
    hide AfterFlush, AfterLinks, FlushCode, Tear;
    assert AfterLinks(w, call.path).limit == w.limit;
  }

  /** Calls on closed paths. */
  lemma ClosedFacts(w: World, call: Call)
    requires ValidLimit(w.limit) && Enabled(w, call)
    requires call.Mknod? || call.Unlink? || call.TruncateClosed?
    ensures LogicalPath(call.path) && call.path !in w.handles
    ensures call.Unlink? || call.TruncateClosed? ==> call.path !in w.torn
    ensures call.Unlink? ==> Truthful(w, call.path)
    ensures call.TruncateClosed? ==> call.size <= OFF_MAX
  {
    hide Truthful, LogicalPath;
  }

  lemma MknodOutcome(w: World, call: Call, r: int)
    requires ValidLimit(w.limit) && call.Mknod? && r == RetryCode(call.faults, 1, true, RETRIES)
    ensures Possible(w, call, Ended(r))
    ensures Next(w, call, Ended(r)) == if r == 0 then AfterMknod(w, call.path) else Tear(w, call.path)
    ensures Reply(w, call, Ended(r)) == if r == 0 then Success else Error(r)
  {
    hide AfterMknod, Tear, RetryCode;
  }

  lemma UnlinkOutcome(w: World, call: Call, r: int)
    requires ValidLimit(w.limit) && call.Unlink?
    requires r == if call.path in w.files
                  then RetryCode(call.faults, NParts(|w.files[call.path]|, w.limit), true, RETRIES) else ENOENT
    ensures Possible(w, call, Ended(r))
    ensures Next(w, call, Ended(r)) ==
            if r == 0 || call.path !in w.files then AfterUnlink(w, call.path)
            else Tear(w.(cache := LookedUp(w, call.path)), call.path)
    ensures Reply(w, call, Ended(r)) == if r == 0 then Success else Error(r)
  {
    hide AfterUnlink, Tear, LookedUp, RetryCode;
    if call.path in w.files {
      RetryCodeIs(call.faults, NParts(|w.files[call.path]|, w.limit), true, RETRIES);
    }
  }

  lemma TruncateClosedOutcome(w: World, call: Call, r: int)
    requires ValidLimit(w.limit) && call.TruncateClosed?
    requires r == TruncateClosedCode(w, call.path, call.size, call.faults)
    ensures Possible(w, call, Ended(r))
    ensures Next(w, call, Ended(r)) == AfterTruncateClosed(w, call.path, call.size, call.faults)
    ensures Reply(w, call, Ended(r)) == if r == 0 then Success else Error(r)
  {
    hide AfterTruncateClosed, TruncateClosedCode;
  }

  lemma RenameCallFacts(w: World, call: Call)
    requires ValidLimit(w.limit) && call.Rename? && Enabled(w, call)
    ensures call.path !in w.handles && call.newPath !in w.handles
    ensures Truthful(w, call.path) && Truthful(w, call.newPath)
    ensures RenamePaths(call.path, call.newPath) !! w.torn
    ensures RenameOk(w.files, call.path, call.newPath, call.flags, w.limit)
    ensures var o := Ended(RenameCode(w.files, call.path, call.newPath, call.flags));
            && Possible(w, call, o) && Next(w, call, o) == AfterRename(w, call.path, call.newPath, call.flags)
            && Reply(w, call, o) == if o.code == 0 then Success else Error(o.code)
  {
    hide AfterRename, RenameCode, RenameOk, RenamePaths, Truthful, LogicalPath;
  }

  lemma StillEnabled(w: World, calls: seq<Call>, o: Outcome)
    requires ValidLimit(w.limit) && calls != [] && AllEnabled(w, calls) && Possible(w, calls[0], o)
    ensures AllEnabled(Next(w, calls[0], o), calls[1..])
  {
    hide Enabled, Next, Possible;
  }

  /** One more step at the end of a run. */
  lemma {:induction false} RunMore(w: World, calls: seq<Call>, outcomes: seq<Outcome>, o: Outcome)
    requires ValidLimit(w.limit) && |outcomes| < |calls| && Feasible(w, calls, outcomes)
    requires Possible(RunWorld(w, calls, outcomes), calls[|outcomes|], o)
    ensures var w', call := RunWorld(w, calls, outcomes), calls[|outcomes|];
            && Feasible(w, calls, outcomes + [o])
            && RunWorld(w, calls, outcomes + [o]) == Next(w', call, o)
            && RunAnswers(w, calls, outcomes + [o]) == RunAnswers(w, calls, outcomes) + [Reply(w', call, o)]
    decreases |outcomes|
  {
    hide Next, Possible, Reply;
    var more := outcomes + [o];
    if outcomes == [] {
      assert more[0] == o && more[1..] == [];
    } else {
      assert more[0] == outcomes[0] && more[1..] == outcomes[1..] + [o];
      RunMore(Next(w, calls[0], outcomes[0]), calls[1..], outcomes[1..], o);
    }
  }
}
