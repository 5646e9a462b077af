/**
 The hand-off of src/net/eventloop.cpp: other threads push a functor under the mutex and then
 write the eventfd; the loop thread waits, drains the eventfd, swaps the vector out and runs it.
 Each locked section, each read or write of the eventfd and each functor is one step, and the
 steps of all threads interleave freely.
 */
module EventLoops {

  /** A functor handed over by another thread. */
  datatype Functor = Functor(poster: nat, item: nat)

  const EVENTFD_MAX: nat := 0xFFFF_FFFF_FFFF_FFFE

  datatype Phase =
    | NotStarted
    | Checking                    // at the test of quit_
    | Entering                    // past the test, not yet in epoll_wait
    | Waiting                     // in epoll_wait
    | Dispatching(wakeup: bool)   // handling events; `wakeup`: the eventfd is among them, not yet read
    | Running(rest: seq<Functor>) // doPendingFunctors after the swap
    | Exited

  /**
   `count` is the eventfd counter; `unwoken` are the functors whose posters have unlocked but
   not yet written it, and `quitters` the threads between the two lines of `quit`.  `posted`
   and `ran` are the history.
   */
  datatype Loop = Loop(phase: Phase, pending: seq<Functor>, count: nat, unwoken: multiset<Functor>,
                       quit: bool, quitters: nat, posted: seq<Functor>, ran: seq<Functor>)

  datatype Label =
    | Start
    | Test                // while (!quit_)
    | Enter               // epoll_wait is called
    | Post(f: Functor)    // the locked part of runInLoop, on another thread
    | Wake(f: Functor)    // that thread's write of the eventfd
    | SetQuit             // quit_ = true on another thread
    | WakeQuit            // its write of the eventfd
    | QuitInLoop          // quit() on the loop's own thread, by a signal handler or a callback: no write
    | Wait(wakeup: bool)  // epoll_wait returns: events or a timeout
    | Drain               // handleWakeup
    | Swap                // the locked part of doPendingFunctors
    | RunOne
    | EndIteration

  predicate Enabled(s: Loop, l: Label) {
    match l
    case Start => s.phase == NotStarted
    case Test => s.phase == Checking
    case Enter => s.phase == Entering
    case Post(_) => true
    case Wake(f) => f in s.unwoken
    case SetQuit => true
    case WakeQuit => s.quitters > 0
    case QuitInLoop => true
    case Wait(wakeup) => s.phase == Waiting && (wakeup ==> s.count > 0)
    case Drain => s.phase == Dispatching(true)
    case Swap => s.phase == Dispatching(false)
    case RunOne => s.phase.Running? && s.phase.rest != []
    case EndIteration => s.phase == Running([])
  }

  /** Adding one to a non-blocking eventfd: at its maximum the write fails and changes nothing. */
  function Raised(count: nat): nat {
    if count < EVENTFD_MAX then count + 1 else count
  }

  /** A signal that is handled while the loop's thread is in epoll_wait makes it return (EINTR). */
  function Next(s: Loop, l: Label): Loop
    requires Enabled(s, l)
  {
    match l
    case Start => s.(phase := Checking, quit := false)
    case Test => s.(phase := if s.quit then Exited else Entering)
    case Enter => s.(phase := Waiting)
    case Post(f) =>
      s.(pending := s.pending + [f], posted := s.posted + [f], unwoken := s.unwoken + multiset{f})
    case Wake(f) => s.(count := Raised(s.count), unwoken := s.unwoken - multiset{f})
    case SetQuit => s.(quit := true, quitters := s.quitters + 1)
    case WakeQuit => s.(count := Raised(s.count), quitters := s.quitters - 1)
    case QuitInLoop => s.(quit := true, phase := if s.phase == Waiting then Dispatching(false) else s.phase)
    case Wait(wakeup) => s.(phase := Dispatching(wakeup))
    case Drain => s.(count := 0, phase := Dispatching(false))
    case Swap => s.(phase := Running(s.pending), pending := [])
    case RunOne => s.(phase := Running(s.phase.rest[1..]), ran := s.ran + [s.phase.rest[0]])
    case EndIteration => s.(phase := Checking)
  }

  const INITIAL := Loop(NotStarted, [], 0, multiset{}, false, 0, [], [])

  ghost predicate Legal(s: Loop, run: seq<Label>)
    decreases |run|
  {
    run == [] || (Enabled(s, run[0]) && Legal(Next(s, run[0]), run[1..]))
  }

  function Run(s: Loop, run: seq<Label>): Loop
    requires Legal(s, run)
    decreases |run|
  {
    if run == [] then s else Run(Next(s, run[0]), run[1..])
  }

  /** The functors swapped out but not yet run. */
  function Rest(s: Loop): seq<Functor> {
    if s.phase.Running? then s.phase.rest else []
  }

  lemma OneStep(s: Loop, l: Label, rest: seq<Label>)
    requires Enabled(s, l) && Legal(Next(s, l), rest)
    ensures Legal(s, [l] + rest) && Run(s, [l] + rest) == Run(Next(s, l), rest)
  {
    assert ([l] + rest)[1..] == rest;
  }

  lemma {:induction false} RunSnoc(s: Loop, run: seq<Label>, l: Label)
    requires Legal(s, run) && Enabled(Run(s, run), l)
    ensures Legal(s, run + [l]) && Run(s, run + [l]) == Next(Run(s, run), l)
    decreases |run|
  {
    if run == [] {
      OneStep(s, l, []);
      assert run + [l] == [l] + [];
    } else {
      RunSnoc(Next(s, run[0]), run[1..], l);
      OneStep(s, run[0], run[1..] + [l]);
      assert run + [l] == [run[0]] + (run[1..] + [l]);
    }
  }

  // ----- what every interleaving keeps -----

  ghost predicate Fifo(s: Loop) {
    s.posted == s.ran + Rest(s) + s.pending
  }

  /** Outside dispatching, with the eventfd at zero, whatever is pending was posted by a thread
      that has not written the eventfd yet. */
  ghost predicate WakeupsKept(s: Loop) {
    && (!s.phase.Dispatching? && s.count == 0 ==> multiset(s.pending) <= s.unwoken)
    && (s.phase == Dispatching(true) ==> s.count > 0)
    && (s.phase == Exited ==> s.quit)
  }

  ghost predicate Inv(s: Loop) {
    Fifo(s) && WakeupsKept(s)
  }

  lemma FifoNext(s: Loop, l: Label)
    requires Fifo(s) && Enabled(s, l)
    ensures Fifo(Next(s, l))
  {
    match l
    case Post(f) =>
    case RunOne =>
      assert s.phase.rest == [s.phase.rest[0]] + s.phase.rest[1..];
    case Swap => assert s.ran + [] + s.pending == s.ran + s.pending + [];
    case EndIteration => assert s.ran + [] == s.ran;
    case _ =>
  }

  lemma InvNext(s: Loop, l: Label)
    requires Inv(s) && Enabled(s, l)
    ensures Inv(Next(s, l))
  {
    FifoNext(s, l);
  }

  lemma {:induction false} RunInv(s: Loop, run: seq<Label>)
    requires Inv(s) && Legal(s, run)
    ensures Inv(Run(s, run))
    decreases |run|
  {
    if run != [] {
      InvNext(s, run[0]);
      RunInv(Next(s, run[0]), run[1..]);
    }
  }

  // ----- the promises -----

  /** epoll_wait has nothing to report but its timeout, as far as the eventfd goes. */
  predicate Blocks(s: Loop) {
    s.phase == Waiting && s.count == 0
  }

  /** The loop never blocks while a functor whose poster has finished `runInLoop` is pending. */
  lemma NoLostWakeup(run: seq<Label>)
    requires Legal(INITIAL, run) && Blocks(Run(INITIAL, run))
    ensures multiset(Run(INITIAL, run).pending) <= Run(INITIAL, run).unwoken
    ensures Run(INITIAL, run).unwoken == multiset{} ==> Run(INITIAL, run).pending == []
  {
    RunInv(INITIAL, run);
    var s := Run(INITIAL, run);
    if s.pending != [] {
      assert s.pending[0] in multiset(s.pending);
    }
  }

  /** On its way into epoll_wait, or in it, with the eventfd at zero, a quit is under way only while
      its thread has still to write the eventfd. */
  ghost predicate QuitHeard(s: Loop) {
    (s.phase == Entering || s.phase == Waiting) && s.quit && s.count == 0 ==> s.quitters > 0
  }

  /** A quit on the loop's own thread after the test of quit_ and before epoll_wait, with no write
      of the eventfd done or due: a signal in that gap. */
  predicate LateQuit(s: Loop, l: Label) {
    l == QuitInLoop && s.phase == Entering && s.count == 0 && s.quitters == 0
  }

  ghost predicate AlwaysHeard(s: Loop, run: seq<Label>)
    requires Legal(s, run)
    decreases |run|
  {
    QuitHeard(s) && (run != [] ==> AlwaysHeard(Next(s, run[0]), run[1..]))
  }

  ghost predicate NeverLate(s: Loop, run: seq<Label>)
    requires Legal(s, run)
    decreases |run|
  {
    run == [] || (!LateQuit(s, run[0]) && NeverLate(Next(s, run[0]), run[1..]))
  }

  lemma QuitHeardNext(s: Loop, l: Label)
    requires QuitHeard(s) && Enabled(s, l)
    ensures QuitHeard(Next(s, l)) <==> !LateQuit(s, l)
  {
  }

  lemma {:induction false} HeardExactly(s: Loop, run: seq<Label>)
    requires QuitHeard(s) && Legal(s, run)
    ensures AlwaysHeard(s, run) <==> NeverLate(s, run)
    ensures AlwaysHeard(s, run) ==> QuitHeard(Run(s, run))
    decreases |run|
  {
    if run != [] {
      QuitHeardNext(s, run[0]);
      if QuitHeard(Next(s, run[0])) {
        HeardExactly(Next(s, run[0]), run[1..]);
      } else {
        assert !AlwaysHeard(Next(s, run[0]), run[1..]);
      }
    }
  }

  /** At no point of a run does the loop block on an unheard quit, or go to do so, exactly when no
      signal fell into the gap between the test and epoll_wait. */
  lemma QuitHeardExactly(run: seq<Label>)
    requires Legal(INITIAL, run)
    ensures AlwaysHeard(INITIAL, run) <==> NeverLate(INITIAL, run)
    ensures NeverLate(INITIAL, run) && Blocks(Run(INITIAL, run)) && Run(INITIAL, run).quit ==>
              Run(INITIAL, run).quitters > 0
  {
    HeardExactly(INITIAL, run);
  }

  /** A signal in that gap: the loop goes into epoll_wait with a finished quit and nothing to wake it. */
  lemma LateQuitUnheard()
    ensures var run := [Start, Test, QuitInLoop, Enter];
            && Legal(INITIAL, run) && Blocks(Run(INITIAL, run))
            && Run(INITIAL, run).quit && Run(INITIAL, run).quitters == 0
  {
    var s1 := Next(INITIAL, Start);
    var s2 := Next(s1, Test);
    var s3 := Next(s2, QuitInLoop);
    var s4 := Next(s3, Enter);
    OneStep(s3, Enter, []);
    OneStep(s2, QuitInLoop, [Enter]);
    OneStep(s1, Test, [QuitInLoop, Enter]);
    OneStep(INITIAL, Start, [Test, QuitInLoop, Enter]);
    assert [Start] + [Test, QuitInLoop, Enter] == [Start, Test, QuitInLoop, Enter];
    assert [Test] + [QuitInLoop, Enter] == [Test, QuitInLoop, Enter];
    assert [QuitInLoop] + [Enter] == [QuitInLoop, Enter];
    assert [Enter] + [] == [Enter];
  }

  /** Functors run once each, in the order they were posted. */
  lemma ExactlyOnceInOrder(run: seq<Label>)
    requires Legal(INITIAL, run)
    ensures var s := Run(INITIAL, run); s.posted == s.ran + Rest(s) + s.pending
  {
    RunInv(INITIAL, run);
  }

  lemma {:induction false} PostedGrows(s: Loop, run: seq<Label>)
    requires Legal(s, run)
    ensures s.posted <= Run(s, run).posted
    decreases |run|
  {
    if run != [] {
      PostedGrows(Next(s, run[0]), run[1..]);
    }
  }

  /**
   Whatever had been posted while the loop was dispatching has been run when it next waits or
   exits, in every interleaving.
   */
  lemma {:induction false} PostedGetsRun(s: Loop, base: seq<Functor>, run: seq<Label>)
    requires Inv(s) && Legal(s, run) && base <= s.posted
    requires s.phase.Dispatching? || base <= s.ran + Rest(s)
    ensures Run(s, run).phase.Dispatching? || base <= Run(s, run).ran + Rest(Run(s, run))
    ensures Run(s, run).phase == Waiting || Run(s, run).phase == Exited ==> base <= Run(s, run).ran
    decreases |run|
  {
    if run != [] {
      var s' := Next(s, run[0]);
      InvNext(s, run[0]);
      if run[0].RunOne? {
        assert s.phase.rest == [s.phase.rest[0]] + s.phase.rest[1..];
        assert s'.ran + Rest(s') == s.ran + Rest(s);
      }
      PostedGetsRun(s', base, run[1..]);
    } else {
      assert !s.phase.Running? ==> s.ran + Rest(s) == s.ran;
    }
  }

  function From(fs: seq<Functor>, poster: nat): seq<Functor> {
    if fs == [] then []
    else From(fs[..|fs| - 1], poster) + if fs[|fs| - 1].poster == poster then [fs[|fs| - 1]] else []
  }

  lemma {:induction false} FromAppend(a: seq<Functor>, b: seq<Functor>, poster: nat)
    ensures From(a + b, poster) == From(a, poster) + From(b, poster)
    decreases |b|
  {
    if b == [] {
      assert a + b == a;
    } else {
      FromAppend(a, b[..|b| - 1], poster);
      assert (a + b)[..|a + b| - 1] == a + b[..|b| - 1];
    }
  }

  lemma RanFirst(s: Loop) returns (left: seq<Functor>)
    requires Fifo(s)
    ensures left == Rest(s) + s.pending && s.posted == s.ran + left
  {
    left := Rest(s) + s.pending;
  }

  /** What one worker thread hands over is run in that worker's order, nothing skipped. */
  lemma PosterOrder(run: seq<Label>, poster: nat)
    requires Legal(INITIAL, run)
    ensures From(Run(INITIAL, run).ran, poster) <= From(Run(INITIAL, run).posted, poster)
  {
    RunInv(INITIAL, run);
    var s := Run(INITIAL, run);
    var left := RanFirst(s);
    FromAppend(s.ran, left, poster);
  }

  predicate Quits(l: Label) {
    l == SetQuit || l == QuitInLoop
  }

  /** The step at `i` is a call of `quit`, with no start of the loop after it. */
  predicate QuitAt(run: seq<Label>, i: int) {
    0 <= i < |run| && Quits(run[i]) && Start !in run[i..]
  }

  lemma QuitAtRest(run: seq<Label>, i: int)
    requires run != []
    ensures i >= 0 ==> (QuitAt(run, i + 1) <==> QuitAt(run[1..], i))
    ensures QuitAt(run, 0) <==> Quits(run[0]) && Start !in run[1..]
  {
    assert run[0..] == run == [run[0]] + run[1..];
    if 0 <= i < |run| - 1 {
      assert run[1..][i..] == run[i + 1..];
    }
  }

  lemma {:induction false} QuitFrom(s: Loop, run: seq<Label>)
    requires Legal(s, run)
    ensures Run(s, run).quit <==> (s.quit && Start !in run) || exists i :: QuitAt(run, i)
    decreases |run|
  {
    if run != [] {
      var l, rest := run[0], run[1..];
      QuitFrom(Next(s, l), rest);
      assert run == [l] + rest;
      QuitAtRest(run, 0);
      if i :| QuitAt(run, i) {
        QuitAtRest(run, i - 1);
      }
      if i :| QuitAt(rest, i) {
        QuitAtRest(run, i);
      }
    }
  }

  /** quit_ is set exactly when some thread has called `quit` since `loop` was last started: a call
      before that is forgotten, one after it never is. */
  lemma QuitExactly(run: seq<Label>)
    requires Legal(INITIAL, run)
    ensures Run(INITIAL, run).quit <==> exists i :: QuitAt(run, i)
  {
    QuitFrom(INITIAL, run);
  }

  /** Whatever was quit before it, a loop that starts has not been told to quit. */
  lemma QuitBeforeLoopForgotten(run: seq<Label>)
    requires Legal(INITIAL, run) && Run(INITIAL, run).phase == NotStarted
    ensures Legal(INITIAL, run + [Start]) && !Run(INITIAL, run + [Start]).quit
  {
    RunSnoc(INITIAL, run, Start);
  }

  ghost predicate GoesToWait(s: Loop) {
    s.phase == Entering || s.phase == Waiting
  }

  /** Once quit_ is set and the loop is not on its way into epoll_wait, it never goes there again. */
  lemma {:induction false} QuitRemembered(s: Loop, run: seq<Label>)
    requires Legal(s, run) && s.quit && s.phase != NotStarted
    ensures Run(s, run).quit
    ensures !GoesToWait(s) ==> !GoesToWait(Run(s, run))
    decreases |run|
  {
    if run != [] {
      QuitRemembered(Next(s, run[0]), run[1..]);
    }
  }

  /** The functor a step posts. */
  function PostOf(l: Label): seq<Functor> {
    if l.Post? then [l.f] else []
  }

  /** The functors the steps of a run post. */
  function Posts(run: seq<Label>): seq<Functor>
    decreases |run|
  {
    if run == [] then [] else PostOf(run[0]) + Posts(run[1..])
  }

  /** Those posted after the last swap of a run; all of them if there is none. */
  function Late(run: seq<Label>): seq<Functor>
    decreases |run|
  {
    if Swap in run then Late(run[1..]) else Posts(run)
  }

  lemma PostStep(s: Loop, l: Label)
    requires Enabled(s, l)
    ensures Next(s, l).posted == s.posted + PostOf(l)
    ensures Next(s, l).pending == if l == Swap then [] else s.pending + PostOf(l)
  {
    assert s.posted + [] == s.posted && s.pending + [] == s.pending;
  }

  lemma PostsRegroup(before: seq<Functor>, run: seq<Label>)
    requires run != []
    ensures (before + PostOf(run[0])) + Posts(run[1..]) == before + Posts(run)
  {
  }

  lemma {:induction false} PostedFrom(s: Loop, run: seq<Label>)
    requires Legal(s, run)
    ensures Run(s, run).posted == s.posted + Posts(run)
    decreases |run|
  {
    if run == [] {
      assert s.posted + [] == s.posted;
    } else {
      PostStep(s, run[0]);
      PostedFrom(Next(s, run[0]), run[1..]);
      PostsRegroup(s.posted, run);
    }
  }

  lemma {:induction false} PendingGrows(s: Loop, run: seq<Label>)
    requires Legal(s, run) && Swap !in run
    ensures Run(s, run).pending == s.pending + Posts(run)
    decreases |run|
  {
    if run == [] {
      assert s.pending + [] == s.pending;
    } else {
      PostStep(s, run[0]);
      PendingGrows(Next(s, run[0]), run[1..]);
      PostsRegroup(s.pending, run);
    }
  }

  lemma {:induction false} PendingAfterSwap(s: Loop, run: seq<Label>)
    requires Legal(s, run) && Swap in run
    ensures Run(s, run).pending == Late(run)
    decreases |run|
  {
    var s', rest := Next(s, run[0]), run[1..];
    if Swap in rest {
      PendingAfterSwap(s', rest);
    } else {
      assert run == [run[0]] + rest;
      PendingGrows(s', rest);
      assert [] + Posts(rest) == Posts(rest);
    }
  }

  /** In every run the functors not swapped out yet are exactly those posted after the last swap. */
  lemma PendingIsLate(run: seq<Label>)
    requires Legal(INITIAL, run)
    ensures Run(INITIAL, run).pending == Late(run)
    ensures Run(INITIAL, run).posted == Posts(run)
  {
    PostedFrom(INITIAL, run);
    assert [] + Posts(run) == Posts(run);
    if Swap in run {
      PendingAfterSwap(INITIAL, run);
    } else {
      PendingGrows(INITIAL, run);
    }
  }

  /** A loop that has exited was told to.  It has run everything that was posted up to its last
      swap; so all that was posted, exactly when nothing was posted after that. */
  lemma ExitLeavesPending(run: seq<Label>)
    requires Legal(INITIAL, run) && Run(INITIAL, run).phase == Exited
    ensures Run(INITIAL, run).quit
    ensures Posts(run) == Run(INITIAL, run).ran + Late(run)
    ensures Run(INITIAL, run).ran == Posts(run) <==> Late(run) == []
  {
    RunInv(INITIAL, run);
    PendingIsLate(run);
  }

  /** A quit that comes before the first test makes the loop exit with what was posted never run. */
  lemma EarlyQuitLeavesPending(f: Functor)
    ensures var run := [Post(f), Start, SetQuit, Test];
            && Legal(INITIAL, run) && Run(INITIAL, run).phase == Exited
            && Run(INITIAL, run).pending == [f] && Run(INITIAL, run).ran == []
  {
    var s1 := Next(INITIAL, Post(f));
    var s2 := Next(s1, Start);
    var s3 := Next(s2, SetQuit);
    OneStep(s3, Test, []);
    OneStep(s2, SetQuit, [Test]);
    OneStep(s1, Start, [SetQuit, Test]);
    OneStep(INITIAL, Post(f), [Start, SetQuit, Test]);
    assert [Post(f)] + [Start, SetQuit, Test] == [Post(f), Start, SetQuit, Test];
    assert [Start] + [SetQuit, Test] == [Start, SetQuit, Test];
    assert [SetQuit] + [Test] == [SetQuit, Test];
    assert [Test] + [] == [Test];
  }

  // ----- the eventfd, by the steps of the run -----

  function Writes(l: Label): nat {
    if l.Wake? || l.WakeQuit? then 1 else 0
  }

  /** How often a run writes the eventfd. */
  function AllWrites(run: seq<Label>): nat
    decreases |run|
  {
    if run == [] then 0 else Writes(run[0]) + AllWrites(run[1..])
  }

  /** And how often after it was last drained. */
  function WritesSinceDrain(run: seq<Label>): nat
    decreases |run|
  {
    if Drain in run then WritesSinceDrain(run[1..]) else AllWrites(run)
  }

  function Capped(n: nat): nat {
    if n < EVENTFD_MAX then n else EVENTFD_MAX
  }

  lemma {:induction false} CountGrows(s: Loop, run: seq<Label>)
    requires Legal(s, run) && Drain !in run && s.count <= EVENTFD_MAX
    ensures Run(s, run).count == Capped(s.count + AllWrites(run))
    decreases |run|
  {
    if run != [] {
      CountGrows(Next(s, run[0]), run[1..]);
    }
  }

  lemma {:induction false} CountAfterDrain(s: Loop, run: seq<Label>)
    requires Legal(s, run) && Drain in run && s.count <= EVENTFD_MAX
    ensures Run(s, run).count == Capped(WritesSinceDrain(run))
    decreases |run|
  {
    var s', rest := Next(s, run[0]), run[1..];
    if Drain in rest {
      CountAfterDrain(s', rest);
    } else {
      assert run == [run[0]] + rest;
      CountGrows(s', rest);
    }
  }

  function HowOften(run: seq<Label>, l: Label): nat
    decreases |run|
  {
    if run == [] then 0 else (if run[0] == l then 1 else 0) + HowOften(run[1..], l)
  }

  lemma {:induction false} UnwokenFrom(s: Loop, run: seq<Label>, f: Functor)
    requires Legal(s, run)
    ensures Run(s, run).unwoken[f] + HowOften(run, Wake(f)) == s.unwoken[f] + HowOften(run, Post(f))
    decreases |run|
  {
    if run != [] {
      UnwokenFrom(Next(s, run[0]), run[1..], f);
    }
  }

  lemma {:induction false} QuittersFrom(s: Loop, run: seq<Label>)
    requires Legal(s, run)
    ensures Run(s, run).quitters + HowOften(run, WakeQuit) == s.quitters + HowOften(run, SetQuit)
    decreases |run|
  {
    if run != [] {
      QuittersFrom(Next(s, run[0]), run[1..]);
    }
  }

  /** In every run the counter is the number of writes since it was last drained, up to its maximum;
      the threads between push and write, or within `quit`, are those that have done the one and not
      yet the other. */
  lemma EventfdCounts(run: seq<Label>, f: Functor)
    requires Legal(INITIAL, run)
    ensures Run(INITIAL, run).count == Capped(WritesSinceDrain(run))
    ensures Run(INITIAL, run).unwoken[f] + HowOften(run, Wake(f)) == HowOften(run, Post(f))
    ensures Run(INITIAL, run).quitters + HowOften(run, WakeQuit) == HowOften(run, SetQuit)
  {
    CountFrom(run);
    UnwokenFrom(INITIAL, run, f);
    QuittersFrom(INITIAL, run);
  }

  lemma CountFrom(run: seq<Label>)
    requires Legal(INITIAL, run)
    ensures Run(INITIAL, run).count == Capped(WritesSinceDrain(run))
  {
    if Drain in run {
      CountAfterDrain(INITIAL, run);
    } else {
      CountGrows(INITIAL, run);
    }
  }

  // ----- one iteration -----

  function RunAll(n: nat): seq<Label> {
    if n == 0 then [] else [RunOne] + RunAll(n - 1)
  }

  /** The loop thread's own steps from one test of quit_ to the next, with `n` functors to run. */
  function Iteration(wakeup: bool, n: nat): seq<Label> {
    [Test] + ([Enter] + ([Wait(wakeup)] + ((if wakeup then [Drain] else []) + ([Swap] + (RunAll(n) + [EndIteration])))))
  }

  lemma {:induction false} RunsAll(s: Loop, rest: seq<Functor>)
    requires s.phase == Running(rest)
    ensures var run := RunAll(|rest|) + [EndIteration];
            Legal(s, run) && Run(s, run) == s.(phase := Checking, ran := s.ran + rest)
    decreases |rest|
  {
    if rest == [] {
      OneStep(s, EndIteration, []);
      assert RunAll(0) + [EndIteration] == [EndIteration] + [] && s.ran + [] == s.ran;
    } else {
      var s' := Next(s, RunOne);
      RunsAll(s', rest[1..]);
      OneStep(s, RunOne, RunAll(|rest| - 1) + [EndIteration]);
      assert RunAll(|rest|) + [EndIteration] == [RunOne] + (RunAll(|rest| - 1) + [EndIteration]);
      assert (s.ran + [rest[0]]) + rest[1..] == s.ran + rest;
    }
  }

  lemma SwapRunsAll(s: Loop)
    requires s.phase == Dispatching(false)
    ensures var run := [Swap] + (RunAll(|s.pending|) + [EndIteration]);
            Legal(s, run) && Run(s, run) == s.(phase := Checking, ran := s.ran + s.pending, pending := [])
  {
    var s' := Next(s, Swap);
    RunsAll(s', s.pending);
    OneStep(s, Swap, RunAll(|s.pending|) + [EndIteration]);
  }

  lemma DispatchRunsAll(s: Loop, wakeup: bool)
    requires s.phase == Dispatching(wakeup)
    ensures var run := (if wakeup then [Drain] else []) + ([Swap] + (RunAll(|s.pending|) + [EndIteration]));
            && Legal(s, run)
            && Run(s, run) == s.(phase := Checking, ran := s.ran + s.pending, pending := [],
                                 count := if wakeup then 0 else s.count)
  {
    var rest := [Swap] + (RunAll(|s.pending|) + [EndIteration]);
    if wakeup {
      SwapRunsAll(Next(s, Drain));
      OneStep(s, Drain, rest);
    } else {
      SwapRunsAll(s);
      assert [] + rest == rest;
    }
  }

  /**
   The loop never gets stuck: from any test of quit_ that does not find it set, an iteration goes
   through, woken by the eventfd if that is positive, and back to the test; it has drained the
   eventfd if it was woken, and has run exactly what was pending.
   */
  lemma IterationRunsAll(s: Loop, wakeup: bool)
    requires s.phase == Checking && !s.quit && (wakeup ==> s.count > 0)
    ensures Legal(s, Iteration(wakeup, |s.pending|))
    ensures Run(s, Iteration(wakeup, |s.pending|))
         == s.(ran := s.ran + s.pending, pending := [], count := if wakeup then 0 else s.count)
  {
    var s1 := Next(s, Test);
    var s2 := Next(s1, Enter);
    var s3 := Next(s2, Wait(wakeup));
    var run3 := (if wakeup then [Drain] else []) + ([Swap] + (RunAll(|s.pending|) + [EndIteration]));
    DispatchRunsAll(s3, wakeup);
    OneStep(s2, Wait(wakeup), run3);
    OneStep(s1, Enter, [Wait(wakeup)] + run3);
    OneStep(s, Test, [Enter] + ([Wait(wakeup)] + run3));
  }

  /** And a test that finds it set ends the loop; `loop` begins with that test, the flag cleared. */
  lemma TestEnds(s: Loop)
    ensures s.phase == Checking && s.quit ==> Legal(s, [Test]) && Run(s, [Test]) == s.(phase := Exited)
    ensures s.phase == NotStarted ==> Legal(s, [Start]) && Run(s, [Start]) == s.(phase := Checking, quit := false)
  {
    if s.phase == Checking && s.quit {
      OneStep(s, Test, []);
      assert [Test] + [] == [Test];
    }
    if s.phase == NotStarted {
      OneStep(s, Start, []);
      assert [Start] + [] == [Start];
    }
  }

  // ----- the code of the steps -----

  /** The steps other threads take. */
  predicate IsForeign(l: Label) {
    l.Post? || l.Wake? || l.SetQuit? || l.WakeQuit?
  }

  /** The steps of a run that are the loop thread's own. */
  function Own(run: seq<Label>): seq<Label> {
    if run == [] then []
    else Own(run[..|run| - 1]) + if IsForeign(run[|run| - 1]) then [] else [run[|run| - 1]]
  }

  /** The own steps of `doPendingFunctors` on `n` functors. */
  function Draining(n: nat): seq<Label> {
    if n == 0 then [Swap] else Draining(n - 1) + [RunOne]
  }

  /** The run is legal from `start` and ends in `s`. */
  ghost predicate Follows(start: Loop, run: seq<Label>, s: Loop) {
    Legal(start, run) && s == Run(start, run)
  }

  /** One more step of a run, and whether it is the loop thread's own. */
  lemma StepAfter(start: Loop, run: seq<Label>, s: Loop, l: Label)
    requires Follows(start, run, s) && Enabled(s, l)
    ensures Follows(start, run + [l], Next(s, l))
    ensures Own(run + [l]) == Own(run) + if IsForeign(l) then [] else [l]
  {
    RunSnoc(start, run, l);
    assert (run + [l])[..|run|] == run;
  }

  ghost predicate AllForeign(labels: seq<Label>) {
    forall l :: l in labels ==> IsForeign(l)
  }

  class EventLoop {
    var pendingFunctors: seq<Functor>
    var wakeupCount: nat
    var quit: bool
    var phase: Phase
    var unwoken: multiset<Functor>
    var quitters: nat
    ghost var posted: seq<Functor>
    ghost var ran: seq<Functor>

    ghost function State(): Loop
      reads this
    {
      Loop(phase, pendingFunctors, wakeupCount, unwoken, quit, quitters, posted, ran)
    }

    constructor ()
      ensures State() == INITIAL && Inv(State())
    {
      pendingFunctors, wakeupCount, quit, phase := [], 0, false, NotStarted;
      unwoken, quitters, posted, ran := multiset{}, 0, [], [];
    }

    /** The locked part of `runInLoop`. */
    method PushPending(f: Functor)
      requires Inv(State())
      modifies this
      ensures State() == Next(old(State()), Post(f)) && Inv(State())
      ensures pendingFunctors == old(pendingFunctors) + [f]
    {
      InvNext(State(), Post(f));
      pendingFunctors := pendingFunctors + [f];
      posted, unwoken := posted + [f], unwoken + multiset{f};
    }

    /** `wakeup`, as the second half of `runInLoop`. */
    method Wakeup(f: Functor)
      requires Inv(State()) && Enabled(State(), Wake(f))
      modifies this
      ensures State() == Next(old(State()), Wake(f)) && Inv(State())
      ensures wakeupCount == if old(wakeupCount) < EVENTFD_MAX then old(wakeupCount) + 1 else old(wakeupCount)
    {
      InvNext(State(), Wake(f));
      if wakeupCount < EVENTFD_MAX { wakeupCount := wakeupCount + 1; }
      unwoken := unwoken - multiset{f};
    }

    method HandleWakeup()
      requires Inv(State()) && Enabled(State(), Drain)
      modifies this
      ensures State() == Next(old(State()), Drain) && Inv(State()) && wakeupCount == 0
    {
      InvNext(State(), Drain);
      wakeupCount := 0;
      phase := Dispatching(false);
    }

    /** One step of another thread. */
    method Foreign(l: Label)
      requires Inv(State()) && IsForeign(l) && Enabled(State(), l)
      modifies this
      ensures State() == Next(old(State()), l) && Inv(State())
    {
      InvNext(State(), l);
      match l {
        case Post(f) => PushPending(f);
        case Wake(f) => Wakeup(f);
        case SetQuit => quit, quitters := true, quitters + 1;
        case WakeQuit =>
          if wakeupCount < EVENTFD_MAX { wakeupCount := wakeupCount + 1; }
          quitters := quitters - 1;
      }
    }

    /** What other threads do meanwhile: of the steps offered, those they can take. */
    method Interference(offered: seq<Label>, ghost start: Loop, ghost past: seq<Label>) returns (ghost run: seq<Label>)
      requires Inv(State()) && Follows(start, past, State())
      requires AllForeign(offered)
      modifies this
      ensures Inv(State()) && Follows(start, run, State()) && Own(run) == Own(past)
      ensures phase == old(phase) && ran == old(ran)
    {
      run := past;
      for i := 0 to |offered|
        invariant Inv(State()) && Follows(start, run, State()) && Own(run) == Own(past)
        invariant phase == old(phase) && ran == old(ran)
      {
        var l := offered[i];
        if l.Post? || l.SetQuit? || (l.Wake? && l.f in unwoken) || (l.WakeQuit? && quitters > 0) {
          StepAfter(start, run, State(), l);
          Foreign(l);
          run := run + [l];
        }
      }
    }

    /** The locked swap. */
    method TakePending() returns (functors: seq<Functor>)
      requires Inv(State()) && Enabled(State(), Swap)
      modifies this
      ensures State() == Next(old(State()), Swap) && Inv(State())
      ensures functors == old(pendingFunctors) && phase == Running(functors) && ran == old(ran)
    {
      InvNext(State(), Swap);
      functors := pendingFunctors;
      pendingFunctors := [];
      phase := Running(functors);
    }

    method RunFunctor(functor: Functor, rest: seq<Functor>)
      requires Inv(State()) && phase == Running([functor] + rest)
      modifies this
      ensures State() == Next(old(State()), RunOne) && Inv(State())
      ensures phase == Running(rest) && ran == old(ran) + [functor]
    {
      assert ([functor] + rest)[1..] == rest;
      InvNext(State(), RunOne);
      ran := ran + [functor];
      phase := Running(rest);
    }

    /** After the swap and `i` functors: `done` have run, `rest` are left, and `run` led here. */
    ghost predicate Drains(start: Loop, run: seq<Label>, functors: seq<Functor>, done: seq<Functor>,
                           rest: seq<Functor>, i: nat)
      reads this
    {
      && Inv(State()) && Follows(start, run, State()) && Own(run) == Draining(i)
      && functors == done + rest && |done| == i
      && phase == Running(rest) && ran == start.ran + done
    }

    /** One turn of the loop: what other threads do meanwhile, and then one functor. */
    method RunNext(meanwhile: seq<Label>, ghost start: Loop, ghost past: seq<Label>, functors: seq<Functor>,
                   ghost done: seq<Functor>, rest: seq<Functor>, i: nat) returns (ghost run: seq<Label>)
      requires i < |functors| && Drains(start, past, functors, done, rest, i) && |rest| == |functors| - i
      requires AllForeign(meanwhile)
      modifies this
      ensures Drains(start, run, functors, done + [functors[i]], rest[1..], i + 1)
    {
      run := Interference(meanwhile, start, past);
      StepAfter(start, run, State(), RunOne);
      RunFunctor(functors[i], rest[1..]);
      run := run + [RunOne];
    }

    /**
     `doPendingFunctors`, with the other threads moving between its own steps.  It is a run of the
     step system whose own steps are the swap and one functor after the other, and it runs exactly
     what was pending at the swap.
     */
    method DoPendingFunctors(meanwhile: seq<seq<Label>>) returns (ghost run: seq<Label>)
      requires Inv(State()) && Enabled(State(), Swap)
      requires forall i :: 0 <= i < |meanwhile| ==> AllForeign(meanwhile[i])
      modifies this
      ensures Inv(State()) && phase == Running([])
      ensures Follows(old(State()), run, State())
      ensures Own(run) == Draining(|old(pendingFunctors)|)
      ensures ran == old(ran) + old(pendingFunctors)
    {
      ghost var start := State();
      run := [Swap];
      var functors := TakePending();
      ghost var done := [];
      var rest := functors;
      for i := 0 to |functors|
        invariant Drains(start, run, functors, done, rest, i)
      {
        var offered := if i < |meanwhile| then meanwhile[i] else [];
        run := RunNext(offered, start, run, functors, done, rest, i);
        done, rest := done + [functors[i]], rest[1..];
      }
      assert rest == [] && done == functors;
    }
  }
}
