/**
 The thread pool of include/pool/thread_pool.hpp as interleaved steps: every critical section
 of the mutex is one step, and so is every notification.  A worker that is not asleep on the
 condition variable either waits for the mutex, runs a task, or has returned.
 */
module ThreadPools {

  /** Which closure was submitted. */
  type Task = nat

  datatype Worker = AtLock | Asleep | Running(task: Task) | Returned

  datatype Taking = Taking(task: Task, worker: nat)

  /**
   `notifies` counts the enqueuers between unlocking and `notify_one`; `stopping` holds while
   the destructor is between unlocking and `notify_all`.  `accepted`, `taken` and `finished`
   are the history.
   */
  datatype Pool = Pool(tasks: seq<Task>, stop: bool, workers: seq<Worker>,
                       notifies: nat, stopping: bool,
                       accepted: seq<Task>, taken: seq<Taking>, finished: seq<Task>)

  datatype Label =
    | Enqueue(task: Task)   // lock, test stop_, push, unlock
    | NotifyOne(woken: int) // woken == -1: nobody was asleep
    | Lock(w: nat)          // lock, test the predicate, then sleep, take or return
    | Spurious(w: nat)      // a wake-up without a notification
    | Finish(w: nat)        // the task has run
    | Stop                  // the destructor's critical section
    | NotifyAll

  predicate Enabled(s: Pool, l: Label) {
    match l
    case Enqueue(_) => true
    case NotifyOne(w) =>
      s.notifies > 0 && if Asleep in s.workers then 0 <= w < |s.workers| && s.workers[w] == Asleep else w == -1
    case Lock(w) => w < |s.workers| && s.workers[w] == AtLock
    case Spurious(w) => w < |s.workers| && s.workers[w] == Asleep
    case Finish(w) => w < |s.workers| && s.workers[w].Running?
    case Stop => !s.stop
    case NotifyAll => s.stopping
  }

  function WakeAll(workers: seq<Worker>): seq<Worker> {
    seq(|workers|, i requires 0 <= i < |workers| => if workers[i] == Asleep then AtLock else workers[i])
  }

  function Next(s: Pool, l: Label): Pool
    requires Enabled(s, l)
  {
    match l
    case Enqueue(t) =>
      if s.stop then s
      else s.(tasks := s.tasks + [t], accepted := s.accepted + [t], notifies := s.notifies + 1)
    case NotifyOne(w) =>
      s.(notifies := s.notifies - 1, workers := if w == -1 then s.workers else s.workers[w := AtLock])
    case Lock(w) =>
      if s.tasks != [] then
        s.(tasks := s.tasks[1..], taken := s.taken + [Taking(s.tasks[0], w)],
           workers := s.workers[w := Running(s.tasks[0])])
      else s.(workers := s.workers[w := if s.stop then Returned else Asleep])
    case Spurious(w) => s.(workers := s.workers[w := AtLock])
    case Finish(w) =>
      s.(finished := s.finished + [s.workers[w].task], workers := s.workers[w := AtLock])
    case Stop => s.(stop := true, stopping := true)
    case NotifyAll => s.(stopping := false, workers := WakeAll(s.workers))
  }

  function Initial(workers: nat): Pool {
    Pool([], false, seq(workers, _ => AtLock), 0, false, [], [], [])
  }

  ghost predicate Legal(s: Pool, run: seq<Label>)
    decreases |run|
  {
    run == [] || (Enabled(s, run[0]) && Legal(Next(s, run[0]), run[1..]))
  }

  function Run(s: Pool, run: seq<Label>): Pool
    requires Legal(s, run)
    decreases |run|
  {
    if run == [] then s else Run(Next(s, run[0]), run[1..])
  }

  // ----- what every interleaving keeps -----

  function TasksOf(taken: seq<Taking>): seq<Task> {
    seq(|taken|, i requires 0 <= i < |taken| => taken[i].task)
  }

  /** How many workers are running the task. */
  function Runs(workers: seq<Worker>, task: Task): nat {
    if workers == [] then 0
    else Runs(workers[..|workers| - 1], task) + if workers[|workers| - 1] == Running(task) then 1 else 0
  }

  function WaitingForLock(s: Pool): nat {
    multiset(s.workers)[AtLock]
  }

  /** Each time a task was taken, it has finished or is being run. */
  ghost predicate Counted(s: Pool, t: Task) {
    multiset(TasksOf(s.taken))[t] == multiset(s.finished)[t] + Runs(s.workers, t)
  }

  /** Accepted tasks are those taken, in order, then the queue; taken ones are finished or running. */
  ghost predicate Accounted(s: Pool) {
    && s.accepted == TasksOf(s.taken) + s.tasks
    && forall t :: Counted(s, t)
  }

  /** While a worker sleeps, each queued task has a notification under way or a worker about to look. */
  ghost predicate NoneForgotten(s: Pool) {
    Asleep in s.workers ==> |s.tasks| <= s.notifies + WaitingForLock(s)
  }

  ghost predicate StopHeard(s: Pool) {
    && (s.stop && !s.stopping ==> Asleep !in s.workers)
    && (s.stopping ==> s.stop)
    && (Returned in s.workers ==> s.stop && s.tasks == [])
  }

  ghost predicate Inv(s: Pool) {
    Accounted(s) && NoneForgotten(s) && StopHeard(s)
  }

  lemma {:induction false} RunsUpdate(workers: seq<Worker>, w: nat, v: Worker, t: Task)
    requires w < |workers|
    ensures Runs(workers[w := v], t) + (if workers[w] == Running(t) then 1 else 0)
         == Runs(workers, t) + if v == Running(t) then 1 else 0
  {
    var n := |workers| - 1;
    if w < n {
      RunsUpdate(workers[..n], w, v, t);
      assert workers[w := v][..n] == workers[..n][w := v];
    } else {
      assert workers[w := v][..n] == workers[..n];
    }
  }

  lemma {:induction false} RunsWake(workers: seq<Worker>, t: Task)
    ensures Runs(WakeAll(workers), t) == Runs(workers, t)
  {
    if workers != [] {
      RunsWake(workers[..|workers| - 1], t);
      assert WakeAll(workers)[..|workers| - 1] == WakeAll(workers[..|workers| - 1]);
    }
  }

  lemma {:induction false} Idle(workers: seq<Worker>, t: Task)
    requires forall i :: 0 <= i < |workers| ==> !workers[i].Running?
    ensures Runs(workers, t) == 0
  {
    if workers != [] {
      Idle(workers[..|workers| - 1], t);
    }
  }

  /** A step starts or ends the run of at most the one task it takes or finishes. */
  lemma RunsNext(s: Pool, l: Label, t: Task)
    requires Enabled(s, l)
    ensures Runs(Next(s, l).workers, t) + (if l.Finish? && s.workers[l.w] == Running(t) then 1 else 0)
         == Runs(s.workers, t) + if l.Lock? && s.tasks != [] && s.tasks[0] == t then 1 else 0
  {
    match l
    case Lock(w) => RunsUpdate(s.workers, w, Next(s, l).workers[w], t);
    case Spurious(w) => RunsUpdate(s.workers, w, AtLock, t);
    case Finish(w) => RunsUpdate(s.workers, w, AtLock, t);
    case NotifyAll => RunsWake(s.workers, t);
    case NotifyOne(w) => if w != -1 { RunsUpdate(s.workers, w, AtLock, t); }
    case Enqueue(_) =>
    case Stop =>
  }

  lemma TasksOfNext(s: Pool, l: Label)
    requires Enabled(s, l)
    ensures TasksOf(Next(s, l).taken)
         == TasksOf(s.taken) + if l.Lock? && s.tasks != [] then [s.tasks[0]] else []
  {
  }

  lemma CountedNext(s: Pool, l: Label, t: Task)
    requires Counted(s, t) && Enabled(s, l)
    ensures Counted(Next(s, l), t)
  {
    RunsNext(s, l, t);
    TasksOfNext(s, l);
  }

  lemma AccountedNext(s: Pool, l: Label)
    requires Accounted(s) && Enabled(s, l)
    ensures Accounted(Next(s, l))
  {
    TasksOfNext(s, l);
    forall t ensures Counted(Next(s, l), t) {
      CountedNext(s, l, t);
    }
  }

  lemma NoneForgottenNext(s: Pool, l: Label)
    requires NoneForgotten(s) && Enabled(s, l)
    ensures NoneForgotten(Next(s, l))
  {
    var s' := Next(s, l);
    forall i | 0 <= i < |s'.workers| && s'.workers[i] == Asleep && s'.tasks != []
      ensures Asleep in s.workers
    {
      assert s.workers[i] == Asleep;
    }
  }

  lemma StopHeardNext(s: Pool, l: Label)
    requires StopHeard(s) && Enabled(s, l)
    ensures StopHeard(Next(s, l))
  {
    var s' := Next(s, l);
    forall i | 0 <= i < |s'.workers| && s'.workers[i] == Asleep ensures s.workers[i] == Asleep || l == Lock(i) {
    }
    forall i | 0 <= i < |s'.workers| && s'.workers[i] == Returned ensures s.workers[i] == Returned || l == Lock(i) {
    }
  }

  lemma InvNext(s: Pool, l: Label)
    requires Inv(s) && Enabled(s, l)
    ensures Inv(Next(s, l)) && |Next(s, l).workers| == |s.workers|
  {
    AccountedNext(s, l);
    NoneForgottenNext(s, l);
    StopHeardNext(s, l);
  }

  lemma InitialInv(workers: nat)
    ensures Inv(Initial(workers))
  {
    forall t ensures Counted(Initial(workers), t) {
      Idle(Initial(workers).workers, t);
    }
  }

  lemma {:induction false} RunInv(s: Pool, run: seq<Label>)
    requires Inv(s) && Legal(s, run)
    ensures Inv(Run(s, run)) && |Run(s, run).workers| == |s.workers|
    decreases |run|
  {
    if run != [] {
      InvNext(s, run[0]);
      RunInv(Next(s, run[0]), run[1..]);
    }
  }

  // ----- what was submitted -----

  /** The tasks given to `enqueue` before the pool was stopped, by the steps of the run alone. */
  function Submitted(run: seq<Label>): seq<Task>
    decreases |run|
  {
    if run == [] || run[0] == Stop then []
    else TaskOf(run[0]) + Submitted(run[1..])
  }

  function TaskOf(l: Label): seq<Task> {
    if l.Enqueue? then [l.task] else []
  }

  lemma AcceptedNext(s: Pool, l: Label)
    requires Enabled(s, l) && !s.stop
    ensures Next(s, l).accepted == s.accepted + TaskOf(l)
  {
    assert s.accepted + [] == s.accepted;
  }

  lemma {:induction false} StoppedRun(s: Pool, run: seq<Label>)
    requires Legal(s, run) && s.stop
    ensures Run(s, run).accepted == s.accepted && Run(s, run).stop && Stop !in run
    decreases |run|
  {
    if run != [] {
      StoppedRun(Next(s, run[0]), run[1..]);
      assert run == [run[0]] + run[1..];
    }
  }

  lemma {:induction false} SubmittedFrom(s: Pool, run: seq<Label>)
    requires Legal(s, run) && !s.stop
    ensures Run(s, run).accepted == s.accepted + Submitted(run)
    ensures Run(s, run).stop <==> Stop in run
    decreases |run|
  {
    if run == [] {
      assert s.accepted + [] == s.accepted;
    } else {
      var s', rest := Next(s, run[0]), run[1..];
      assert run == [run[0]] + rest;
      if run[0] == Stop {
        StoppedRun(s', rest);
        assert s.accepted + [] == s.accepted;
      } else {
        AcceptedNext(s, run[0]);
        SubmittedFrom(s', rest);
      }
    }
  }

  lemma {:induction false} StoppingFrom(s: Pool, run: seq<Label>)
    requires Legal(s, run) && (s.stopping ==> s.stop)
    ensures Run(s, run).stopping <==> (s.stopping || Stop in run) && NotifyAll !in run
    decreases |run|
  {
    if run != [] {
      var s', rest := Next(s, run[0]), run[1..];
      StoppingFrom(s', rest);
      assert run == [run[0]] + rest;
      if s'.stop {
        StoppedRun(s', rest);
      }
    }
  }

  /** What the pool has accepted is what was submitted; it is stopped exactly when its destructor has
      been in its critical section, and still announcing it exactly until `notify_all`. */
  lemma AcceptedIsSubmitted(workers: nat, run: seq<Label>)
    requires Legal(Initial(workers), run)
    ensures Run(Initial(workers), run).accepted == Submitted(run)
    ensures Run(Initial(workers), run).stop <==> Stop in run
    ensures Run(Initial(workers), run).stopping <==> Stop in run && NotifyAll !in run
  {
    SubmittedFrom(Initial(workers), run);
    StoppingFrom(Initial(workers), run);
    assert [] + Submitted(run) == Submitted(run);
  }

  // ----- the promises -----

  /** In every interleaving what was submitted is what was taken, once each and in order, and then the queue. */
  lemma TakenInOrder(workers: nat, run: seq<Label>)
    requires Legal(Initial(workers), run)
    ensures var s := Run(Initial(workers), run);
            Submitted(run) == TasksOf(s.taken) + s.tasks
  {
    InitialInv(workers);
    RunInv(Initial(workers), run);
    AcceptedIsSubmitted(workers, run);
  }

  /** A queued task with no notification under way is never left to sleeping workers alone. */
  lemma NoLostWakeup(workers: nat, run: seq<Label>)
    requires workers > 0 && Legal(Initial(workers), run)
    requires var s := Run(Initial(workers), run); s.tasks != [] && s.notifies == 0
    ensures var s := Run(Initial(workers), run);
            && (exists w :: 0 <= w < |s.workers| && (s.workers[w] == AtLock || s.workers[w].Running?))
            && (Asleep in s.workers ==> |s.tasks| <= WaitingForLock(s))
  {
    InitialInv(workers);
    RunInv(Initial(workers), run);
    var s := Run(Initial(workers), run);
    assert s.workers[0] in s.workers;
    if Asleep in s.workers {
      assert AtLock in multiset(s.workers);
      var w :| 0 <= w < |s.workers| && s.workers[w] == AtLock;
    }
  }

  ghost predicate AllReturned(s: Pool) {
    forall i :: 0 <= i < |s.workers| ==> s.workers[i] == Returned
  }

  lemma AllFinished(s: Pool)
    requires Accounted(s) && s.tasks == [] && forall i :: 0 <= i < |s.workers| ==> !s.workers[i].Running?
    ensures multiset(s.finished) == multiset(s.accepted)
  {
    forall t ensures multiset(s.finished)[t] == multiset(s.accepted)[t] {
      Idle(s.workers, t);
      assert Counted(s, t);
      assert s.accepted == TasksOf(s.taken);
    }
  }

  /** When every worker has returned, every submitted task has run exactly once. */
  lemma AllTasksRan(workers: nat, run: seq<Label>)
    requires workers > 0 && Legal(Initial(workers), run)
    requires AllReturned(Run(Initial(workers), run))
    ensures var s := Run(Initial(workers), run);
            s.tasks == [] && TasksOf(s.taken) == Submitted(run) && multiset(s.finished) == multiset(Submitted(run))
    ensures Stop in run
  {
    InitialInv(workers);
    RunInv(Initial(workers), run);
    AcceptedIsSubmitted(workers, run);
    var s := Run(Initial(workers), run);
    assert s.workers[0] in s.workers;
    AllFinished(s);
  }

  /** A pool at rest, stopped or not, has run everything that was submitted: nothing waits while the
      workers sleep and no notification is under way. */
  lemma QuietMeansDone(workers: nat, run: seq<Label>)
    requires workers > 0 && Legal(Initial(workers), run)
    requires var s := Run(Initial(workers), run);
             s.notifies == 0 && forall i :: 0 <= i < |s.workers| ==> s.workers[i] == Asleep || s.workers[i] == Returned
    ensures var s := Run(Initial(workers), run);
            s.tasks == [] && multiset(s.finished) == multiset(Submitted(run))
  {
    InitialInv(workers);
    RunInv(Initial(workers), run);
    AcceptedIsSubmitted(workers, run);
    var s := Run(Initial(workers), run);
    assert AtLock !in s.workers && WaitingForLock(s) == 0;
    assert s.workers[0] in s.workers;
    AllFinished(s);
  }

  // ----- the destructor's join comes to an end -----

  predicate WorkerStep(l: Label) {
    l.Lock? || l.Finish?
  }

  function Load(v: Worker): nat {
    match v
    case Running(_) => 2
    case AtLock => 1
    case Asleep => 0
    case Returned => 0
  }

  function Loads(workers: seq<Worker>): nat {
    if workers == [] then 0 else Loads(workers[..|workers| - 1]) + Load(workers[|workers| - 1])
  }

  function WorkLeft(s: Pool): nat {
    2 * |s.tasks| + Loads(s.workers)
  }

  lemma {:induction false} LoadsUpdate(workers: seq<Worker>, w: nat, v: Worker)
    requires w < |workers|
    ensures Loads(workers[w := v]) + Load(workers[w]) == Loads(workers) + Load(v)
  {
    var n := |workers| - 1;
    if w < n {
      LoadsUpdate(workers[..n], w, v);
      assert workers[w := v][..n] == workers[..n][w := v];
    } else {
      assert workers[w := v][..n] == workers[..n];
    }
  }

  function WorkerSteps(run: seq<Label>): nat
    decreases |run|
  {
    if run == [] then 0 else (if WorkerStep(run[0]) then 1 else 0) + WorkerSteps(run[1..])
  }

  lemma StepLessens(s: Pool, l: Label)
    requires StopHeard(s) && s.stop && !s.stopping && Enabled(s, l)
    ensures WorkLeft(Next(s, l)) + (if WorkerStep(l) then 1 else 0) <= WorkLeft(s)
    ensures Next(s, l).stop && !Next(s, l).stopping
  {
    match l
    case Lock(w) => LoadsUpdate(s.workers, w, Next(s, l).workers[w]);
    case Finish(w) => LoadsUpdate(s.workers, w, AtLock);
    case _ =>
  }

  /** What a step gives the workers to do: a task is two steps, a wake-up one. */
  function Given(l: Label, workers: nat): nat {
    match l
    case Enqueue(_) => 2
    case NotifyOne(w) => if w == -1 then 0 else 1
    case Spurious(_) => 1
    case NotifyAll => workers
    case _ => 0
  }

  function AllGiven(run: seq<Label>, workers: nat): nat
    decreases |run|
  {
    if run == [] then 0 else Given(run[0], workers) + AllGiven(run[1..], workers)
  }

  lemma {:induction false} LoadsWake(workers: seq<Worker>)
    ensures Loads(WakeAll(workers)) <= Loads(workers) + |workers|
  {
    if workers != [] {
      LoadsWake(workers[..|workers| - 1]);
      assert WakeAll(workers)[..|workers| - 1] == WakeAll(workers[..|workers| - 1]);
    }
  }

  lemma StepWorks(s: Pool, l: Label)
    requires Enabled(s, l)
    ensures WorkLeft(Next(s, l)) + (if WorkerStep(l) then 1 else 0) <= WorkLeft(s) + Given(l, |s.workers|)
    ensures |Next(s, l).workers| == |s.workers|
  {
    match l
    case Lock(w) => LoadsUpdate(s.workers, w, Next(s, l).workers[w]);
    case Finish(w) => LoadsUpdate(s.workers, w, AtLock);
    case Spurious(w) => LoadsUpdate(s.workers, w, AtLock);
    case NotifyOne(w) => if w != -1 { LoadsUpdate(s.workers, w, AtLock); }
    case NotifyAll => LoadsWake(s.workers);
    case _ =>
  }

  /** In every run, stopped or not, the workers' steps are paid for by what they are given to do:
      left alone they come to rest, and then everything submitted has run. */
  lemma {:induction false} WorkBounded(s: Pool, run: seq<Label>)
    requires Legal(s, run)
    ensures WorkerSteps(run) + WorkLeft(Run(s, run)) <= WorkLeft(s) + AllGiven(run, |s.workers|)
    decreases |run|
  {
    if run != [] {
      StepWorks(s, run[0]);
      WorkBounded(Next(s, run[0]), run[1..]);
    }
  }

  /** Once stop_ has been announced, the workers can take only so many steps more. */
  lemma {:induction false} ShutdownBounded(s: Pool, run: seq<Label>)
    requires Inv(s) && s.stop && !s.stopping && Legal(s, run)
    ensures WorkerSteps(run) + WorkLeft(Run(s, run)) <= WorkLeft(s)
    decreases |run|
  {
    if run != [] {
      InvNext(s, run[0]);
      StepLessens(s, run[0]);
      ShutdownBounded(Next(s, run[0]), run[1..]);
    }
  }

  /** And as long as some worker has not returned, one of them can take a step: no deadlock. */
  lemma ShutdownProgress(s: Pool)
    requires Inv(s) && s.stop && !s.stopping && !AllReturned(s)
    ensures exists w :: Enabled(s, Lock(w)) || Enabled(s, Finish(w))
  {
    var i :| 0 <= i < |s.workers| && s.workers[i] != Returned;
    assert s.workers[i] in s.workers;
    assert Enabled(s, Lock(i)) || Enabled(s, Finish(i));
  }

  // ----- the code of the critical sections -----

  class ThreadPool {
    var tasks: seq<Task>
    var stop: bool
    var workers: seq<Worker>
    ghost var notifies: nat
    ghost var stopping: bool
    ghost var accepted: seq<Task>
    ghost var taken: seq<Taking>
    ghost var finished: seq<Task>

    ghost function State(): Pool
      reads this
    {
      Pool(tasks, stop, workers, notifies, stopping, accepted, taken, finished)
    }

    constructor (numThreads: nat)
      ensures State() == Initial(numThreads) && Inv(State())
    {
      tasks, stop, workers := [], false, seq(numThreads, _ => AtLock);
      notifies, stopping, accepted, taken, finished := 0, false, [], [], [];
      InitialInv(numThreads);
    }

    /** The locked part of `enqueue`; false is the early return, or the exception, of a stopped pool. */
    method Push(task: Task) returns (ok: bool)
      requires Inv(State())
      modifies this
      ensures State() == Next(old(State()), Enqueue(task)) && Inv(State())
      ensures ok == !old(stop)
      ensures tasks == if ok then old(tasks) + [task] else old(tasks)
    {
      InvNext(State(), Enqueue(task));
      if stop { return false; }
      tasks := tasks + [task];
      accepted, notifies := accepted + [task], notifies + 1;
      return true;
    }

    /** The locked part of `worker_loop`, from locking to the wait, the return or the unlock. */
    method TakeTask(w: nat)
      requires Inv(State()) && Enabled(State(), Lock(w))
      modifies this
      ensures State() == Next(old(State()), Lock(w)) && Inv(State())
      ensures old(tasks) != [] ==> tasks == old(tasks)[1..] && workers[w] == Running(old(tasks)[0])
      ensures old(tasks) == [] ==> tasks == [] && workers[w] == if stop then Returned else Asleep
    {
      InvNext(State(), Lock(w));
      if !(stop || tasks != []) {
        workers := workers[w := Asleep];
      } else if stop && tasks == [] {
        workers := workers[w := Returned];
      } else {
        var task := tasks[0];
        tasks := tasks[1..];
        workers := workers[w := Running(task)];
        taken := taken + [Taking(task, w)];
      }
    }

    /** The locked part of the destructor. */
    method RequestStop()
      requires Inv(State()) && Enabled(State(), Stop)
      modifies this
      ensures State() == Next(old(State()), Stop) && Inv(State()) && stop
    {
      InvNext(State(), Stop);
      stop := true;
      stopping := true;
    }
  }
}
