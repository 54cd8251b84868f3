/** The pool of REST clients under concurrent callbacks, as interleaved steps of their threads.
    A rename looks up its target while it already holds a client, so it may hold two. */
module ClientPool {
  import opened Totals

  type Client = nat

  /** A callback still to be served. */
  datatype Job = PlainJob | RenameJob

  /** What a thread goes to the pool for. A rename first stats its source (`Lookup`). */
  datatype Kind = Plain | Lookup | Rename

  /** Where a thread is in its callback. */
  datatype Phase =
    | Resting
    | Acquiring(kind: Kind, retries: nat)
    | Running(kind: Kind, retries: nat, client: Client)
    | AcquiringNested(retries: nat, client: Client, inner: nat)
    | RunningNested(retries: nat, client: Client, inner: nat, nested: Client)
    | Renaming(retries: nat, client: Client)

  /** A FUSE thread serves one callback after the other. */
  datatype Thread = Thread(phase: Phase, todo: seq<Job>)

  datatype State = State(idle: seq<Client>, threads: seq<Thread>)

  /** `Begin` starts the next callback of a thread, `BeginCached` one whose first lookup is answered from the stat
      cache: a rename then needs no client for its source, and a plain callback none at all. `Retry` is an exception
      with a server error, `Fail` any other way to end in an error. */
  datatype Event = Begin | BeginCached | Acquire | CacheHit | CacheMiss | Finish | Retry | Fail

  const RETRIES := 3

  predicate Begins(e: Event) {
    e.Begin? || e.BeginCached?
  }

  predicate CanStep(s: State, i: nat, e: Event) {
    i < |s.threads| &&
    match s.threads[i].phase
    case Resting => Begins(e) && s.threads[i].todo != []
    case Acquiring(_, _) => e.Acquire? && s.idle != []
    case Running(kind, _, _) =>
      if kind.Rename? then e.CacheHit? || e.CacheMiss? else e.Finish? || e.Retry? || e.Fail?
    case AcquiringNested(_, _, _) => e.Acquire? && s.idle != []
    case RunningNested(_, _, _, _) => e.Finish? || e.Retry? || e.Fail?
    case Renaming(_, _) => e.Finish? || e.Retry? || e.Fail?
  }

  /** A thread that is done with one round of `doWithRetry`, its client given back. */
  function AfterRound(kind: Kind, retries: nat, e: Event): Phase
    requires 0 < retries
  {
    if e.Retry? then (if retries > 1 then Acquiring(kind, retries - 1) else Resting)
    else if e.Finish? && kind.Lookup? then Acquiring(Rename, RETRIES)
    else Resting
  }

  function AfterPhase(p: Phase, e: Event, front: Client): Phase
    requires PhaseOk(p)
  {
    match p
    case Resting => Resting
    case Acquiring(kind, r) => Running(kind, r, front)
    case Running(kind, r, c) =>
      if e.CacheHit? then Renaming(r, c)
      else if e.CacheMiss? then AcquiringNested(r, c, RETRIES)
      else AfterRound(kind, r, e)
    case AcquiringNested(r, c, inner) => RunningNested(r, c, inner, front)
    case RunningNested(r, c, inner, _) =>
      if e.Retry? && inner > 1 then AcquiringNested(r, c, inner - 1) else Renaming(r, c)
    case Renaming(r, _) => AfterRound(Rename, r, e)
  }

  function Started(job: Job, cached: bool): Phase {
    match job
    case PlainJob => if cached then Resting else Acquiring(Plain, RETRIES)
    case RenameJob => Acquiring(if cached then Rename else Lookup, RETRIES)
  }

  function AfterStep(t: Thread, e: Event, front: Client): Thread
    requires PhaseOk(t.phase)
  {
    if Begins(e) && t.todo != [] then Thread(Started(t.todo[0], e.BeginCached?), t.todo[1..])
    else t.(phase := AfterPhase(t.phase, e, front))
  }

  /** Clients are taken from the front of the list and put back at its end. */
  function Step(s: State, i: nat, e: Event): State
    requires CanStep(s, i, e) && PhaseOk(s.threads[i].phase)
  {
    var t := s.threads[i];
    if e.Acquire? then
      State(s.idle[1..], s.threads[i := AfterStep(t, e, s.idle[0])])
    else
      State(s.idle + Released(t, e), s.threads[i := AfterStep(t, e, 0)])
  }

  /** The client the step gives back. */
  function Released(t: Thread, e: Event): seq<Client> {
    match t.phase
    case Running(_, _, c) => if e.CacheHit? || e.CacheMiss? then [] else [c]
    case RunningNested(_, _, _, nested) => [nested]
    case Renaming(_, c) => [c]
    case _ => []
  }

  predicate PhaseOk(p: Phase) {
    match p
    case Resting => true
    case Acquiring(_, r) => 0 < r
    case Running(_, r, _) => 0 < r
    case AcquiringNested(r, _, inner) => 0 < r && 0 < inner <= RETRIES
    case RunningNested(r, _, inner, _) => 0 < r && 0 < inner <= RETRIES
    case Renaming(r, _) => 0 < r
  }

  // ---- conservation ----

  /** How often a thread holds a client: once or not at all. */
  function Holds(t: Thread, c: Client): nat {
    match t.phase
    case Running(_, _, c1) => if c1 == c then 1 else 0
    case AcquiringNested(_, c1, _) => if c1 == c then 1 else 0
    case RunningNested(_, c1, _, c2) => (if c1 == c then 1 else 0) + (if c2 == c then 1 else 0)
    case Renaming(_, c1) => if c1 == c then 1 else 0
    case _ => 0
  }

  function HoldsOf(c: Client): Thread -> nat {
    (t: Thread) => Holds(t, c)
  }

  /** How many clients a thread holds. */
  function Load(t: Thread): nat {
    match t.phase
    case Running(_, _, _) => 1
    case AcquiringNested(_, _, _) => 1
    case RunningNested(_, _, _, _) => 2
    case Renaming(_, _) => 1
    case _ => 0
  }

  /** Every populated client is idle or held, once for each time it was populated. */
  ghost predicate Inv(s: State, clients: multiset<Client>) {
    && (forall c :: multiset(s.idle)[c] + Total(s.threads, HoldsOf(c)) == clients[c])
    && |s.idle| + Total(s.threads, Load) == |clients|
    && forall i :: 0 <= i < |s.threads| ==> PhaseOk(s.threads[i].phase)
  }

  /** A thread that acquires holds the front client in addition. */
  lemma AcquireBalance(s: State, i: nat, front: Client, c: Client)
    requires CanStep(s, i, Acquire) && PhaseOk(s.threads[i].phase)
    ensures var t, t' := s.threads[i], AfterStep(s.threads[i], Acquire, front);
            && PhaseOk(t'.phase)
            && Holds(t', c) == Holds(t, c) + (if c == front then 1 else 0)
            && Load(t') == Load(t) + 1
  {
  }

  /** Any other step leaves a thread with what it held less what it gives back. */
  lemma ReleaseBalance(s: State, i: nat, e: Event, c: Client)
    requires CanStep(s, i, e) && PhaseOk(s.threads[i].phase) && !e.Acquire?
    ensures var t, t' := s.threads[i], AfterStep(s.threads[i], e, 0);
            && PhaseOk(t'.phase)
            && Holds(t, c) == Holds(t', c) + multiset(Released(t, e))[c]
            && Load(t) == Load(t') + |Released(t, e)|
  {
  }

  lemma StepBalance(s: State, i: nat, e: Event, c: Client)
    requires CanStep(s, i, e) && PhaseOk(s.threads[i].phase)
    ensures var t, s' := s.threads[i], Step(s, i, e);
            && |s'.threads| == |s.threads| && s'.threads == s.threads[i := s'.threads[i]]
            && PhaseOk(s'.threads[i].phase)
            && multiset(s'.idle)[c] + Holds(s'.threads[i], c) == multiset(s.idle)[c] + Holds(t, c)
            && |s'.idle| + Load(s'.threads[i]) == |s.idle| + Load(t)
  {
    hide Holds, Load, AfterStep, Released, PhaseOk;
    if e.Acquire? {
      AcquireBalance(s, i, s.idle[0], c);
      assert s.idle == [s.idle[0]] + s.idle[1..];
    } else {
      ReleaseBalance(s, i, e, c);
    }
  }

  /** No step loses a client, makes one up, or hands one out twice. */
  lemma StepKeepsInv(s: State, i: nat, e: Event, clients: multiset<Client>)
    requires Inv(s, clients) && CanStep(s, i, e)
    ensures Inv(Step(s, i, e), clients)
  {
    hide CanStep, Step, Holds, PhaseOk, Load;
    assert i < |s.threads| by {
      StepIndex(s, i, e);
    }
    var s' := Step(s, i, e);
    StepBalance(s, i, e, 0);
    TotalUpdate(s.threads, i, s'.threads[i], Load);
    forall c
      ensures multiset(s'.idle)[c] + Total(s'.threads, HoldsOf(c)) == clients[c]
    {
      StepBalance(s, i, e, c);
      TotalUpdate(s.threads, i, s'.threads[i], HoldsOf(c));
    }
  }

  lemma StepIndex(s: State, i: nat, e: Event)
    requires CanStep(s, i, e)
    ensures i < |s.threads|
  {
  }

  /** No client is in two hands, and none in a hand and in the pool. */
  lemma Exclusive(s: State, clients: set<Client>, i: nat, j: nat, c: Client)
    requires Inv(s, multiset(clients)) && i < j < |s.threads|
    ensures Holds(s.threads[i], c) + Holds(s.threads[j], c) <= 1
    ensures Holds(s.threads[i], c) > 0 || Holds(s.threads[j], c) > 0 ==> c !in s.idle
  {
    hide Holds, PhaseOk;
    TotalOfTwo(s.threads, i, j, HoldsOf(c));
    assert multiset(s.idle)[c] + Total(s.threads, HoldsOf(c)) == multiset(clients)[c] <= 1;
    assert c in s.idle ==> multiset(s.idle)[c] >= 1;
  }

  function Acquires(run: seq<(nat, Event)>): nat {
    if run == [] then 0 else (if run[0].1.Acquire? then 1 else 0) + Acquires(run[1..])
  }

  /** Idle clients are handed out in their order, and those given back wait behind them. */
  lemma {:induction false} IdleOrder(s: State, run: seq<(nat, Event)>, t: State, clients: multiset<Client>)
    requires Inv(s, clients) && Leads(s, run, t, clients) && Acquires(run) <= |s.idle|
    ensures s.idle[Acquires(run)..] <= t.idle
    decreases |run|
  {
    if run == [] {
      assert s.idle[0..] == t.idle;
    } else {
      StepKeepsInv(s, run[0].0, run[0].1, clients);
      var s' := Step(s, run[0].0, run[0].1);
      IdleStep(s, run[0].0, run[0].1);
      IdleOrder(s', run[1..], t, clients);
      StillAhead(s.idle, s'.idle, if run[0].1.Acquire? then 1 else 0, Acquires(run[1..]), t.idle);
    }
  }

  lemma IdleStep(s: State, i: nat, e: Event)
    requires CanStep(s, i, e) && PhaseOk(s.threads[i].phase)
    ensures e.Acquire? ==> s.idle != [] && Step(s, i, e).idle == s.idle[1..]
    ensures !e.Acquire? ==> s.idle <= Step(s, i, e).idle
  {
  }

  lemma StillAhead(idle: seq<Client>, idle': seq<Client>, first: nat, more: nat, last: seq<Client>)
    requires first + more <= |idle| && idle[first..] <= idle' && more <= |idle'| && idle'[more..] <= last
    ensures idle[first + more..] <= last
  {
    assert idle[first..] == idle'[..|idle| - first];
    assert idle[first + more..] == idle[first..][more..];
    assert idle'[more..][..|idle| - first - more] == idle[first + more..];
  }

  // ---- deadlock ----

  /** Blocked in the nested acquire, holding a client. */
  function IsWaiting(t: Thread): nat {
    if t.phase.AcquiringNested? then 1 else 0
  }

  function Waiting(threads: seq<Thread>): nat {
    Total(threads, IsWaiting)
  }

  predicate InRename(p: Phase) {
    match p
    case Resting => false
    case Acquiring(kind, _) => !kind.Plain?
    case Running(kind, _, _) => !kind.Plain?
    case _ => true
  }

  function IsRename(t: Thread): nat {
    if InRename(t.phase) then 1 else 0
  }

  /** How many threads are inside a rename at the moment. */
  function Renames(threads: seq<Thread>): nat {
    Total(threads, IsRename)
  }

  predicate Active(t: Thread) {
    !t.phase.Resting?
  }

  predicate Blocked(t: Thread) {
    t.phase.Acquiring? || t.phase.AcquiringNested? || t.phase.Resting?
  }

  /** Some callback is under way and none can go on. */
  ghost predicate Stuck(s: State) {
    && (exists i :: 0 <= i < |s.threads| && Active(s.threads[i]))
    && (forall i: nat, e :: CanStep(s, i, e) ==> Begins(e))
  }

  lemma BlockedCannot(s: State, i: nat, e: Event)
    requires s.idle == [] && i < |s.threads| && Blocked(s.threads[i])
    ensures CanStep(s, i, e) ==> Begins(e)
  {
  }

  lemma UnblockedCan(s: State, i: nat)
    requires i < |s.threads| && Active(s.threads[i]) && (s.idle != [] || !Blocked(s.threads[i]))
    ensures exists e: Event :: !Begins(e) && CanStep(s, i, e)
  {
    var t := s.threads[i];
    if Blocked(t) {
      assert CanStep(s, i, Acquire);
    } else if t.phase.Running? && t.phase.kind.Rename? {
      assert CanStep(s, i, CacheHit);
    } else {
      assert CanStep(s, i, Finish);
    }
  }

  /** The callbacks are stuck exactly when as many renames wait for their second client as there are clients. */
  lemma StuckIff(s: State, clients: multiset<Client>)
    requires Inv(s, clients) && |clients| > 0
    ensures Stuck(s) <==> Waiting(s.threads) == |clients|
  {
    TotalCompare(s.threads, IsWaiting, Load);
    if Stuck(s) {
      NobodyMoves(s);
    }
    if Waiting(s.threads) == |clients| {
      TotalZero(s.threads, IsWaiting);
      forall i: nat, e
        ensures CanStep(s, i, e) ==> Begins(e)
      {
        if i < |s.threads| {
          BlockedCannot(s, i, e);
        }
      }
    }
  }

  lemma NobodyMoves(s: State)
    requires Stuck(s)
    ensures s.idle == [] && forall i :: 0 <= i < |s.threads| ==> Blocked(s.threads[i])
  {
    var k :| 0 <= k < |s.threads| && Active(s.threads[k]);
    if s.idle != [] {
      UnblockedCan(s, k);
    }
    forall i | 0 <= i < |s.threads|
      ensures Blocked(s.threads[i])
    {
      if !Blocked(s.threads[i]) {
        UnblockedCan(s, i);
      }
    }
  }

  /** Stuck is stuck for good: new callbacks may begin, and wait too. */
  lemma StuckForever(s: State, i: nat, e: Event, clients: multiset<Client>)
    requires Inv(s, clients) && |clients| > 0 && Stuck(s) && CanStep(s, i, e)
    ensures PhaseOk(s.threads[i].phase) && Stuck(Step(s, i, e))
  {
    StepIndex(s, i, e);
    StepKeepsInv(s, i, e, clients);
    var s' := Step(s, i, e);
    TotalUpdate(s.threads, i, s'.threads[i], IsWaiting);
    StuckIff(s, clients);
    StuckIff(s', clients);
  }

  // ---- every run ends ----

  /** How many steps a callback can still make at most. */
  function PhaseWeight(p: Phase): nat {
    match p
    case Resting => 0
    case Acquiring(kind, r) => (match kind case Plain => 2 * r + 1 case Lookup => 41 + 2 * r case Rename => 9 * r + 9)
    case Running(kind, r, _) => (match kind case Plain => 2 * r case Lookup => 40 + 2 * r case Rename => 9 * r + 8)
    case AcquiringNested(r, _, inner) => 9 * r + 1 + 2 * inner
    case RunningNested(r, _, inner, _) => 9 * r + 2 * inner
    case Renaming(r, _) => 9 * r + 1
  }

  /** How many steps a thread can still make at most, with all its callbacks to come. */
  function Weight(t: Thread): nat {
    PhaseWeight(t.phase) + 48 * |t.todo|
  }

  lemma ThreadDescends(s: State, i: nat, e: Event, front: Client)
    requires CanStep(s, i, e) && PhaseOk(s.threads[i].phase)
    ensures Weight(AfterStep(s.threads[i], e, front)) < Weight(s.threads[i])
    ensures !Begins(e) ==> IsRename(AfterStep(s.threads[i], e, front)) <= IsRename(s.threads[i])
  {
  }

  lemma StepDescends(s: State, i: nat, e: Event, clients: multiset<Client>)
    requires Inv(s, clients) && CanStep(s, i, e)
    ensures Inv(Step(s, i, e), clients)
    ensures Total(Step(s, i, e).threads, Weight) < Total(s.threads, Weight)
    ensures !Begins(e) ==> Renames(Step(s, i, e).threads) <= Renames(s.threads)
  {
    hide Inv, AfterStep, Weight, PhaseOk, IsRename;
    StepKeepsInv(s, i, e, clients);
    PhasesOk(s, i, e, clients);
    ThreadDescends(s, i, e, if e.Acquire? then s.idle[0] else 0);
    var t' := Step(s, i, e).threads[i];
    TotalUpdate(s.threads, i, t', Weight);
    TotalUpdate(s.threads, i, t', IsRename);
  }

  lemma PhasesOk(s: State, i: nat, e: Event, clients: multiset<Client>)
    requires Inv(s, clients) && CanStep(s, i, e)
    ensures PhaseOk(s.threads[i].phase)
  {
  }

  /** `run` leads from `s` to `t`, one step of one thread at a time. */
  ghost predicate Leads(s: State, run: seq<(nat, Event)>, t: State, clients: multiset<Client>)
    requires Inv(s, clients)
    decreases |run|
  {
    if run == [] then s == t
    else
      CanStep(s, run[0].0, run[0].1) &&
      (StepKeepsInv(s, run[0].0, run[0].1, clients);
       Leads(Step(s, run[0].0, run[0].1), run[1..], t, clients))
  }

  /** At no moment are as many threads inside renames as there are clients; how many renames there are in all
      does not matter. */
  ghost predicate Calm(s: State, run: seq<(nat, Event)>, clients: multiset<Client>)
    requires Inv(s, clients)
    decreases |run|
  {
    && Renames(s.threads) < |clients|
    && (run != [] && CanStep(s, run[0].0, run[0].1) ==>
          (StepKeepsInv(s, run[0].0, run[0].1, clients);
           Calm(Step(s, run[0].0, run[0].1), run[1..], clients)))
  }

  predicate AllDone(s: State) {
    forall i :: 0 <= i < |s.threads| ==> !Active(s.threads[i]) && s.threads[i].todo == []
  }

  /** While fewer threads are inside renames than there are clients, some callback that is under way can go on. */
  lemma ActiveMoves(s: State, clients: multiset<Client>, k: nat)
    requires Inv(s, clients) && Renames(s.threads) < |clients| && k < |s.threads| && Active(s.threads[k])
    ensures exists i: nat, e: Event :: !Begins(e) && CanStep(s, i, e)
  {
    StuckIff(s, clients);
    TotalCompare(s.threads, IsWaiting, IsRename);
  }

  /** With fewer threads inside renames than clients at every moment, every interleaving is finite, whatever the
      threads have to do; wherever it stands, a callback that is under way can go on, if there is one; and no
      client is lost. */
  lemma {:induction false} AlwaysFinishes(s: State, run: seq<(nat, Event)>, t: State, clients: multiset<Client>)
    requires Inv(s, clients) && Leads(s, run, t, clients) && Calm(s, run, clients)
    ensures Inv(t, clients) && |run| + Total(t.threads, Weight) <= Total(s.threads, Weight)
    ensures forall k :: 0 <= k < |t.threads| && Active(t.threads[k]) ==>
              exists i: nat, e: Event :: !Begins(e) && CanStep(t, i, e)
    decreases |run|
  {
    if run == [] {
      forall k | 0 <= k < |t.threads| && Active(t.threads[k])
        ensures exists i: nat, e: Event :: !Begins(e) && CanStep(t, i, e)
      {
        ActiveMoves(t, clients, k);
      }
    } else {
      hide CanStep, Step, Weight, PhaseOk;
      StepDescends(s, run[0].0, run[0].1, clients);
      AlwaysFinishes(Step(s, run[0].0, run[0].1), run[1..], t, clients);
    }
  }

  /** With two clients or more a calm run can always be continued calmly until everything is done. */
  lemma CalmGoesOn(s: State, clients: multiset<Client>)
    requires Inv(s, clients) && Renames(s.threads) < |clients| && !AllDone(s)
    requires |clients| >= 2 || forall i :: 0 <= i < |s.threads| ==> RenameJob !in s.threads[i].todo
    ensures exists i: nat, e: Event ::
              CanStep(s, i, e) && PhaseOk(s.threads[i].phase) && Renames(Step(s, i, e).threads) < |clients|
  {
    var k :| 0 <= k < |s.threads| && (Active(s.threads[k]) || s.threads[k].todo != []);
    if j :| 0 <= j < |s.threads| && Active(s.threads[j]) {
      ActiveMoves(s, clients, j);
      var i: nat, e: Event :| !Begins(e) && CanStep(s, i, e);
      StepDescends(s, i, e, clients);
      PhasesOk(s, i, e, clients);
    } else {
      TotalZero(s.threads, IsRename);
      assert CanStep(s, k, Begin);
      var t' := Step(s, k, Begin).threads[k];
      assert IsRename(t') <= if RenameJob in s.threads[k].todo then 1 else 0;
      TotalUpdate(s.threads, k, t', IsRename);
      assert Renames(Step(s, k, Begin).threads) < |clients|;
    }
  }

  // ---- the bound is tight ----

  /** `n` clients and `n` renames about to begin. */
  function Start(n: nat): State {
    State(seq(n, i => i), seq(n, _ => Thread(Resting, [RenameJob])))
  }

  lemma StartInv(n: nat)
    ensures Inv(Start(n), multiset(Start(n).idle)) && |multiset(Start(n).idle)| == n
  {
    var threads := Start(n).threads;
    TotalZero(threads, Load);
    forall c
      ensures Total(threads, HoldsOf(c)) == 0
    {
      TotalZero(threads, HoldsOf(c));
    }
  }

  lemma {:induction false} LeadsOn(s: State, run: seq<(nat, Event)>, t: State, i: nat, e: Event,
                                   clients: multiset<Client>)
    requires Inv(s, clients) && Leads(s, run, t, clients) && CanStep(t, i, e) && PhaseOk(t.threads[i].phase)
    ensures Leads(s, run + [(i, e)], Step(t, i, e), clients)
    decreases |run|
  {
    hide CanStep, Step, PhaseOk;
    var more := run + [(i, e)];
    if run == [] {
      assert more[0] == (i, e) && more[1..] == [];
      StepKeepsInv(s, i, e, clients);
    } else {
      StepIndex(s, run[0].0, run[0].1);
      StepKeepsInv(s, run[0].0, run[0].1, clients);
      var s' := Step(s, run[0].0, run[0].1);
      LeadsOn(s', run[1..], t, i, e, clients);
      assert more[0] == run[0] && more[1..] == run[1..] + [(i, e)];
    }
  }

  /** The first `k` threads have stated their source, taken a client and missed the cache for their target. */
  predicate Jammed(t: State, n: nat, k: nat) {
    && |t.idle| == n - k && |t.threads| == n
    && (forall i :: 0 <= i < k ==> t.threads[i].phase.AcquiringNested?)
    && (forall i :: k <= i < n ==> t.threads[i] == Thread(Resting, [RenameJob]))
  }

  /** What one rename does on its way into the jam. */
  const JAM := [Begin, Acquire, Finish, Acquire, CacheMiss]

  lemma {:induction false} JamRun(n: nat, k: nat) returns (run: seq<(nat, Event)>, t: State)
    requires k <= n && Inv(Start(n), multiset(Start(n).idle))
    ensures Leads(Start(n), run, t, multiset(Start(n).idle)) && Inv(t, multiset(Start(n).idle)) && Jammed(t, n, k)
  {
    if k == 0 {
      run, t := [], Start(n);
    } else {
      run, t := JamRun(n, k - 1);
      run, t := JamOne(n, k - 1, run, t);
    }
  }

  /** Where a thread is after `j` steps of the jam. */
  function JamPhase(j: nat, first: Client, second: Client): Phase {
    match j
    case 0 => Resting
    case 1 => Acquiring(Lookup, RETRIES)
    case 2 => Running(Lookup, RETRIES, first)
    case 3 => Acquiring(Rename, RETRIES)
    case 4 => Running(Rename, RETRIES, second)
    case _ => AcquiringNested(RETRIES, second, RETRIES)
  }

  /** Thread `k` has made `j` steps of the jam. */
  ghost predicate Jamming(t: State, s: State, k: nat, j: nat) {
    && k < |s.threads| && |t.threads| == |s.threads|
    && (forall i :: 0 <= i < |s.threads| && i != k ==> t.threads[i] == s.threads[i])
    && t.threads[k].todo == (if j == 0 then [RenameJob] else [])
    && (exists first, second :: t.threads[k].phase == JamPhase(j, first, second))
    && |t.idle| == |s.idle| - (if j == 2 || j >= 4 then 1 else 0)
  }

  lemma JamStep(s: State, t: State, k: nat, j: nat)
    requires j < 5 && Jamming(t, s, k, j) && s.idle != []
    ensures CanStep(t, k, JAM[j]) && PhaseOk(t.threads[k].phase) && Jamming(Step(t, k, JAM[j]), s, k, j + 1)
  {
    var first, second :| t.threads[k].phase == JamPhase(j, first, second);
    var t' := Step(t, k, JAM[j]);
    if j == 1 {
      assert t'.threads[k].phase == JamPhase(2, t.idle[0], second);
    } else if j == 3 {
      assert t'.threads[k].phase == JamPhase(4, first, t.idle[0]);
    } else {
      assert t'.threads[k].phase == JamPhase(j + 1, first, second);
    }
  }

  lemma JamOne(n: nat, k: nat, run: seq<(nat, Event)>, t: State) returns (run': seq<(nat, Event)>, t': State)
    requires k < n && Inv(Start(n), multiset(Start(n).idle))
    requires Leads(Start(n), run, t, multiset(Start(n).idle)) && Inv(t, multiset(Start(n).idle)) && Jammed(t, n, k)
    ensures Leads(Start(n), run', t', multiset(Start(n).idle)) && Inv(t', multiset(Start(n).idle))
    ensures Jammed(t', n, k + 1)
  {
    hide Leads, Inv, CanStep, Step, PhaseOk, Start, Jamming, Jammed;
    JamBegins(t, n, k);
    var s, clients := Start(n), multiset(Start(n).idle);
    run', t' := run, t;
    var j := 0;
    while j < 5
      invariant 0 <= j <= 5
      invariant Leads(s, run', t', clients) && Jamming(t', t, k, j)
    {
      JamStep(t, t', k, j);
      LeadsOn(s, run', t', k, JAM[j], clients);
      run', t' := run' + [(k, JAM[j])], Step(t', k, JAM[j]);
      j := j + 1;
    }
    LeadsInv(s, run', t', clients);
    JamEnds(t, t', n, k);
  }

  lemma JamBegins(t: State, n: nat, k: nat)
    requires k < n && Jammed(t, n, k)
    ensures Jamming(t, t, k, 0) && t.idle != []
  {
    assert t.threads[k].phase == JamPhase(0, 0, 0);
  }

  lemma JamEnds(t: State, t': State, n: nat, k: nat)
    requires k < n && Jammed(t, n, k) && Jamming(t', t, k, 5)
    ensures Jammed(t', n, k + 1)
  {
  }

  lemma {:induction false} LeadsInv(s: State, run: seq<(nat, Event)>, t: State, clients: multiset<Client>)
    requires Inv(s, clients) && Leads(s, run, t, clients)
    ensures Inv(t, clients)
    decreases |run|
  {
    if run != [] {
      StepKeepsInv(s, run[0].0, run[0].1, clients);
      LeadsInv(Step(s, run[0].0, run[0].1), run[1..], t, clients);
    }
  }

  lemma {:induction false} AllWaiting(threads: seq<Thread>)
    requires forall i :: 0 <= i < |threads| ==> threads[i].phase.AcquiringNested?
    ensures Waiting(threads) == |threads|
  {
    if threads != [] {
      AllWaiting(threads[..|threads| - 1]);
    }
  }

  /** As many renames at a time as clients can get stuck for good, for every size of the pool. */
  lemma RenamesCanDeadlock(n: nat) returns (run: seq<(nat, Event)>, t: State)
    requires 0 < n
    ensures Inv(Start(n), multiset(Start(n).idle))
    ensures Leads(Start(n), run, t, multiset(Start(n).idle)) && Stuck(t)
  {
    StartInv(n);
    run, t := JamRun(n, n);
    AllWaiting(t.threads);
    StuckIff(t, multiset(Start(n).idle));
  }
}
