/** The worker pool: tasks in a queue, workers that take them, and a destructor that waits for the workers. */
module ThreadPool {
  import opened Totals

  type Task = nat

  datatype Worker = Waiting | Executing(task: Task) | Exited

  /** `accepted`, `taken` and `done` record what was enqueued, dequeued and run so far, in that order of events. */
  datatype State = State(tasks: seq<Task>, workers: seq<Worker>, stop: bool,
                         accepted: seq<Task>, taken: seq<Task>, done: seq<Task>)

  datatype Event = Enqueue(task: Task) | Take(i: nat) | Complete(i: nat) | Exit(i: nat) | Stop

  predicate CanStep(s: State, e: Event) {
    match e
    case Enqueue(_) => !s.stop
    case Take(i) => i < |s.workers| && s.workers[i].Waiting? && s.tasks != []
    case Complete(i) => i < |s.workers| && s.workers[i].Executing?
    case Exit(i) => i < |s.workers| && s.workers[i].Waiting? && s.stop && s.tasks == []
    case Stop => !s.stop
  }

  function Step(s: State, e: Event): State
    requires CanStep(s, e)
  {
    match e
    case Enqueue(task) => s.(tasks := s.tasks + [task], accepted := s.accepted + [task])
    case Take(i) =>
      s.(tasks := s.tasks[1..], taken := s.taken + [s.tasks[0]], workers := s.workers[i := Executing(s.tasks[0])])
    case Complete(i) => s.(done := s.done + [s.workers[i].task], workers := s.workers[i := Waiting])
    case Exit(i) => s.(workers := s.workers[i := Exited])
    case Stop => s.(stop := true)
  }

  function Start(n: nat): State {
    State([], seq(n, _ => Waiting), false, [], [], [])
  }

  function IsRunning(task: Task): Worker -> nat {
    (w: Worker) => if w == Executing(task) then 1 else 0
  }

  ghost predicate Inv(s: State) {
    // first in, first out
    && s.accepted == s.taken + s.tasks
    // what was taken has been run or is being run
    && (forall t :: multiset(s.taken)[t] == multiset(s.done)[t] + Total(s.workers, IsRunning(t)))
    // nobody goes home while there is work
    && (forall i :: 0 <= i < |s.workers| && s.workers[i].Exited? ==> s.stop && s.tasks == [])
  }

  lemma StartInv(n: nat)
    ensures Inv(Start(n))
  {
    forall t
      ensures Total(Start(n).workers, IsRunning(t)) == 0
    {
      TotalZero(Start(n).workers, IsRunning(t));
    }
  }

  lemma Appended(s: seq<Task>, x: Task, t: Task)
    ensures multiset(s + [x])[t] == multiset(s)[t] + if x == t then 1 else 0
  {
  }

  /** A worker that becomes another one counts as that. */
  lemma WorkerCount(workers: seq<Worker>, i: nat, w: Worker, t: Task)
    requires i < |workers|
    ensures Total(workers[i := w], IsRunning(t)) + (if workers[i] == Executing(t) then 1 else 0)
            == Total(workers, IsRunning(t)) + (if w == Executing(t) then 1 else 0)
  {
    TotalUpdate(workers, i, w, IsRunning(t));
  }

  /** A task leaves the queue into a worker, and a worker into the record of finished tasks. */
  lemma StepCount(s: State, e: Event, t: Task)
    requires CanStep(s, e)
    ensures var s' := Step(s, e);
            multiset(s'.taken)[t] + multiset(s.done)[t] + Total(s.workers, IsRunning(t))
            == multiset(s.taken)[t] + multiset(s'.done)[t] + Total(s'.workers, IsRunning(t))
  {
    hide Total, IsRunning;
    match e
    case Take(i) =>
      Appended(s.taken, s.tasks[0], t);
      WorkerCount(s.workers, i, Executing(s.tasks[0]), t);
    case Complete(i) =>
      Appended(s.done, s.workers[i].task, t);
      WorkerCount(s.workers, i, Waiting, t);
    case Exit(i) => WorkerCount(s.workers, i, Exited, t);
    case _ =>
  }

  lemma StepFifo(s: State, e: Event)
    requires s.accepted == s.taken + s.tasks && CanStep(s, e)
    ensures Step(s, e).accepted == Step(s, e).taken + Step(s, e).tasks
  {
  }

  /** Nobody goes home while there is work, and no work comes in after the stop. */
  lemma StepHome(s: State, e: Event)
    requires CanStep(s, e) && forall i :: 0 <= i < |s.workers| && s.workers[i].Exited? ==> s.stop && s.tasks == []
    ensures var s' := Step(s, e);
            forall i :: 0 <= i < |s'.workers| && s'.workers[i].Exited? ==> s'.stop && s'.tasks == []
  {
    var s' := Step(s, e);
    forall i | 0 <= i < |s'.workers| && s'.workers[i].Exited?
      ensures s'.stop && s'.tasks == []
    {
      assert s.workers[i].Exited? || e == Exit(i);
    }
  }

  lemma StepKeepsInv(s: State, e: Event)
    requires Inv(s) && CanStep(s, e)
    ensures Inv(Step(s, e))
  {
    hide Total, IsRunning, Step, CanStep;
    var s' := Step(s, e);
    StepHome(s, e);
    StepFifo(s, e);
    forall t
      ensures multiset(s'.taken)[t] == multiset(s'.done)[t] + Total(s'.workers, IsRunning(t))
    {
      StepCount(s, e, t);
    }
  }

  predicate AllExited(s: State) {
    forall i :: 0 <= i < |s.workers| ==> s.workers[i].Exited?
  }

  /** When the joins have returned, every accepted task was taken in order and run exactly once. */
  lemma Drained(s: State)
    requires Inv(s) && AllExited(s) && |s.workers| > 0
    ensures s.tasks == [] && s.taken == s.accepted && multiset(s.done) == multiset(s.accepted)
  {
    assert s.workers[0].Exited?;
    forall t
      ensures multiset(s.done)[t] == multiset(s.accepted)[t]
    {
      TotalZero(s.workers, IsRunning(t));
    }
  }

  // ---- whole runs ----

  predicate Leads(s: State, run: seq<Event>, t: State)
    decreases |run|
  {
    if run == [] then s == t else CanStep(s, run[0]) && Leads(Step(s, run[0]), run[1..], t)
  }

  /** Steps a stopped pool can still make at most. */
  function Work(w: Worker): nat {
    match w
    case Waiting => 1
    case Executing(_) => 2
    case Exited => 0
  }

  function Left(s: State): nat {
    3 * |s.tasks| + Total(s.workers, Work)
  }

  lemma StoppedStep(s: State, e: Event)
    requires s.stop && CanStep(s, e)
    ensures Step(s, e).stop && Step(s, e).accepted == s.accepted && Left(Step(s, e)) < Left(s)
    ensures |Step(s, e).workers| == |s.workers|
  {
    match e
    case Take(i) => TotalUpdate(s.workers, i, Executing(s.tasks[0]), Work);
    case Complete(i) => TotalUpdate(s.workers, i, Waiting, Work);
    case Exit(i) => TotalUpdate(s.workers, i, Exited, Work);
  }

  lemma SomebodyMoves(s: State, i: nat)
    requires s.stop && i < |s.workers| && !s.workers[i].Exited?
    ensures exists e :: CanStep(s, e)
  {
    if s.workers[i].Executing? {
      assert CanStep(s, Complete(i));
    } else if s.tasks == [] {
      assert CanStep(s, Exit(i));
    } else {
      assert CanStep(s, Take(i));
    }
  }

  /** From the moment the destructor has set `stop`, nothing more is accepted, every interleaving is finite,
      and it can only end with all workers gone and, if there was one, all accepted tasks run. */
  lemma {:induction false} DestructorDrains(s: State, run: seq<Event>, t: State)
    requires Inv(s) && s.stop && Leads(s, run, t)
    ensures Inv(t) && t.stop && t.accepted == s.accepted && |run| + Left(t) <= Left(s)
    ensures AllExited(t) || exists e :: CanStep(t, e)
    ensures |s.workers| > 0 && AllExited(t) ==> t.taken == s.accepted && multiset(t.done) == multiset(s.accepted)
    decreases |run|
  {
    if run == [] {
      if !AllExited(t) {
        var i :| 0 <= i < |t.workers| && !t.workers[i].Exited?;
        SomebodyMoves(t, i);
      } else if |t.workers| > 0 {
        Drained(t);
      }
    } else {
      StepKeepsInv(s, run[0]);
      StoppedStep(s, run[0]);
      DestructorDrains(Step(s, run[0]), run[1..], t);
    }
  }

  lemma {:induction false} RunKeepsInv(s: State, run: seq<Event>, t: State)
    requires Inv(s) && Leads(s, run, t)
    ensures Inv(t) && |t.workers| == |s.workers|
    decreases |run|
  {
    if run != [] {
      StepKeepsInv(s, run[0]);
      RunKeepsInv(Step(s, run[0]), run[1..], t);
    }
  }

  /** Joined means stopped and everybody gone. */
  predicate Joined(s: State) {
    s.stop && AllExited(s)
  }

  ghost predicate NeverDrops(n: nat) {
    forall run, t :: Leads(Start(n), run, t) && Joined(t) ==> multiset(t.done) == multiset(t.accepted)
  }

  lemma NoWorkerDrops() returns (run: seq<Event>, t: State)
    ensures Leads(Start(0), run, t) && Joined(t) && multiset(t.done) != multiset(t.accepted)
  {
    run := [Enqueue(7), Stop];
    t := Step(Step(Start(0), Enqueue(7)), Stop);
    assert run[1..] == [Stop] && run[1..][1..] == [];
    assert Leads(Step(Start(0), Enqueue(7)), run[1..], t);
    assert t.accepted == [7] && t.done == [];
    assert multiset(t.accepted)[7] == 1;
  }

  /** A pool never drops an accepted task, in no interleaving, exactly if it has a worker. */
  lemma DropsNothingIff(n: nat)
    ensures NeverDrops(n) <==> n > 0
  {
    if n > 0 {
      StartInv(n);
      forall run, t | Leads(Start(n), run, t) && Joined(t)
        ensures multiset(t.done) == multiset(t.accepted)
      {
        RunKeepsInv(Start(n), run, t);
        Drained(t);
      }
    } else {
      var run, t := NoWorkerDrops();
    }
  }
}
