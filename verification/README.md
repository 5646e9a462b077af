# Verified model of the gateway's stateful core

The repository is an API gateway with its own reactor network library. This project models the six
components in it that carry state over whole runs, and proves what their designs promise for every
run:

* the fixed-block and multi-level allocators (`memory_pool.dfy`), over a byte memory in which the free
  list really is the chain of little-endian pointers stored in the free blocks;
* rate limiting (`token_bucket.dfy`, `gateway_limiter.dfy`): the Redis token bucket, the limiter
  around it, the fixed-window counter, and the rule that combines them;
* the incremental HTTP parser (`http_parser.dfy`, with `std::stoi` in `decimals.dfy`);
* the reactor (`event_loop.dfy`, `tcp_connection.dfy`, `reactor.dfy`): the cross-thread hand-off, the
  connection life cycle with its epoll bookkeeping and partial writes, and, joined into one transition
  system with several servers on one loop, the path from a worker's `send` to the socket;
* the thread pool (`thread_pool.dfy`), as interleaved steps;
* the timer wheel (`timer_wheel.dfy`), against a plain map from id to expiry.

Each component has three layers. Functions on values say what one operation does. Classes with
the fields of the C++ classes do it in place, and their methods are proved to compute those functions.
Lemmas then state what every sequence, or every interleaving, of operations keeps, and beside what
must not happen also what must: what was submitted is run, what is sent is written, what is asked for
and fits is handed out, what expires is called. Where they can, they speak of the steps of a run or of
the text on the wire alone, and not of the functions in between. Callers, clocks,
system-call results, event masks, Redis's answers and the addresses `operator new` returns are inputs,
and no theorem restricts them beyond what the source asks of its callers, what the kernel guarantees, and
what "Left out" names.

Sequences of bytes are Dafny strings, one character a byte. Tokens are counted in thousandths, so
that one millisecond refills exactly `rate` of them and all arithmetic is on integers.

## Where the code departs from what one would expect

The model follows the code. These facts about it are proved here, under the names given:

* **A refused call credits its time again.** On refusal the bucket script stores the refilled tokens
  but the old `last_time` (`gateway/src/distributed_rate_limiter.cpp:30-33`), and the key it stores is
  gone after three idle seconds (`:28`, `:32`), which is worth a fresh bucket. The textbook bound,
  capacity plus rate times elapsed time, holds of every run if and only if the rate is at least 1000 per
  second and the capacity at most three times the rate (`TextbookBoundExactly`); under the same
  condition, and no other, the script is the exact bucket (`ScriptIsExactExactly`). `Overserved` and
  `BurstAgain` give the runs that break it. If the key is never found gone the condition is a rate of 0
  or at least 1000 (`TextbookBoundWhileKept`). What holds of every run at every rate and capacity is one
  token more, `rate + 1000` a second, and another full bucket each time the key is found gone
  (`OverservingBounded`), which is at most once in three seconds (`LossesRare`); for a capacity of at
  most three times the rate the last term falls away (`BoundsWithExpiry`). The script never admits less
  than the exact bucket (`NeverUnderServes`).
* **The three-second expiry is unobservable exactly when capacity <= 3 * rate**
  (`ExpiryUnobservableExactly`). The gateway passes 2 * rate.
* **A quit can go unheard.** `quit()` on the loop's own thread does not write the eventfd
  (`src/net/eventloop.cpp:69`), and the gateway calls it from a signal handler
  (`src/main_gateway.cpp:7-11`). A signal between the test of `quit_` and `epoll_wait` leaves the loop
  blocked, until its timeout, on a quit that has returned (`LateQuitUnheard`); in every run, that gap is
  the only way it can happen (`QuitHeardExactly`). `quit_` is set exactly when `quit` was called since
  `loop` started (`QuitExactly`): a call before that is forgotten, because `loop` clears the flag
  (`:43`; `QuitBeforeLoopForgotten`).
* **A loop that exits leaves what was posted after its last swap.** `loop` tests `quit_` behind
  `doPendingFunctors`, not before it, so a functor posted between the last swap and that test never
  runs; nor does any, if the very first test already finds the flag set (`EarlyQuitLeavesPending`).
  Everything that was posted has run if and only if nothing was posted after the last swap
  (`ExitLeavesPending`), and on every connection the sends lost are exactly those (`LostAtExit`).
* **An empty `send` on an idle connection closes it** at the next writable event: it arms EPOLLOUT with
  nothing to write, and a write of no bytes returns 0 (`EmptySendCloses`). EPOLLOUT interest is exactly a
  non-empty buffer throughout a run if and only if no event of that kind occurs (`WriteInterestExactly`).
* **A connection's name is cut off at 63 characters**, and the server's map is keyed by it. After n
  connections the map of a living server is exactly the open connections, in every run, if and only if
  the n-th name fits (`ServerKnowsOpenExactly`); `OverwrittenName` gives the run that loses one.
* **A request cut short is never accepted** (`PrefixFree`). The gateway gives every read a parser of its
  own (`gateway/src/gateway.cpp:85-91`), so a request that arrives in two reads is answered with 400,
  although one parser fed with both reads would accept it (`ChunkIndependence`).
* The parser is narrower than RFC 9112: header names are compared exactly, where section 5.1 of RFC 9110
  says case-insensitively; a body is read only for POST; there is no chunked coding (`AcceptedExactly`
  says what is read). A Content-Length that `std::stoi` refuses makes `parse` throw, and nothing else
  does (`BadLengthExactly`). A negative Content-Length becomes a huge `size_t` and the message never completes
  (`NegativeLengthStarves`).
* The header of the distributed limiter describes fail-open; an error *reply* of Redis, unlike a
  missing one, refuses the bucket's share of the request (`gateway/src/distributed_rate_limiter.cpp:91`;
  `IsAllowed`); the window counter then decides (`PassesRateLimit`).

## Model

| member | source | states |
|---|---|---|
| `TextSearch.Find` | include/http/http_parser.hpp:27-27 | the search returns the first occurrence, and npos only when there is none |
| `TextSearch.FindExtend` | include/http/http_parser.hpp:22-27 | bytes appended later do not move a separator that was already found |
| `Decimals.StoiReads` | include/http/http_parser.hpp:72-72 | stoi reads a signed number behind white space and before anything but a digit as itself, and throws exactly when an int does not hold it |
| `Decimals.StoiRefuses` | include/http/http_parser.hpp:72-72 | stoi throws on text with no digit behind its white space and sign |
| `Decimals.StoiDecimal` | include/http/http_parser.hpp:72-72 | reading a printed Content-Length gives the length back, for every length an int holds |
| `Decimals.CharacterClasses` | include/http/http_parser.hpp:72-72 | white space and digits are the six and the ten characters they are in C |
| `Decimals.StoiDigits` | include/http/http_parser.hpp:72-72 | a digit is read as itself, and each further digit as one more after a factor of ten |
| `HttpParsing.Step` | include/http/http_parser.hpp:24-82 | every turn that is taken moves to a later state, or stays in the header state with a shorter buffer: `parse` terminates |
| `HttpParsing.StepExtend` | include/http/http_parser.hpp:25-80 | a turn that can be taken is taken the same way whatever input follows, in all six states |
| `HttpParsing.RunExtend` | include/http/http_parser.hpp:21-84 | input can be put off until the loop has stopped on what came before, with the same result |
| `HttpParsing.FeedAllIsFeed` | include/http/http_parser.hpp:21-84 | any sequence of calls ends in the parser, request, leftover and last result (true, false or exception) of one call with all the bytes |
| `HttpParsing.ChunkIndependence` | include/http/http_parser.hpp:21-84 | two splits of one byte string end the same |
| `HttpParsing.InputConserved` | include/http/http_parser.hpp:22-83 | bytes taken, in order, then the buffer, are exactly the bytes that were there |
| `HttpParsing.CallsConserveInput` | include/http/http_parser.hpp:21-89 | over any calls since construction or `reset`, bytes taken, in order, then `buffer_`, are the bytes given |
| `HttpParsing.HeadersRead` | include/http/http_parser.hpp:47-66 | a block of lines and an empty line is read line by line into the header map and leaves exactly what follows |
| `HttpParsing.RequestLineRead` | include/http/http_parser.hpp:26-46 | method, path and version are read from their separators, in any text around them |
| `HttpParsing.MessageRead` | include/http/http_parser.hpp:21-84 | every readable message is read completely into the request it denotes and leaves exactly its tail |
| `HttpParsing.HeadersWere` | include/http/http_parser.hpp:47-66 | what a completed run read as headers was a list of non-empty lines ended by an empty line |
| `HttpParsing.RequestLineWas` | include/http/http_parser.hpp:26-46 | what a completed run read as request line had that form, field by field |
| `HttpParsing.AcceptedWas` | include/http/http_parser.hpp:21-84 | whatever `parse` accepts was a readable message followed by the leftover buffer |
| `HttpParsing.HeadWas` | include/http/http_parser.hpp:26-66 | whatever run left the header state behind began with a readable request line and header block |
| `HttpParsing.AcceptedExactly` | include/http/http_parser.hpp:21-84 | `parse` returns true with a request and a leftover if and only if the input is a readable message with that meaning and that tail |
| `HttpParsing.BadLengthExactly` | include/http/http_parser.hpp:21-84 | `parse` throws if and only if the input begins with a readable request line and header block of a POST whose Content-Length stoi refuses, whatever follows |
| `HttpParsing.PrefixFree` | include/http/http_parser.hpp:21-84 | no proper prefix of a complete message is accepted |
| `HttpParsing.NegativeLengthStarves` | include/http/http_parser.hpp:72-73 | with a negative Content-Length no call completes the message, whatever bytes follow |
| `HttpParsing.UnnamedKept` | include/http/http_parser.hpp:59-65 | a header that no line names keeps its value from before, or stays absent |
| `HttpParsing.LastLineWins` | include/http/http_parser.hpp:59-65 | each key is mapped to the value on the last line that names it, one leading space dropped |
| `HttpParsing.LastFieldWins` | include/http/http_parser.hpp:59-65 | the last line that names a key, written `name:value` with a value that does not begin with a space, or `name: value` with any, maps it to exactly that value |
| `HttpParsing.FieldsRead` | include/http/http_parser.hpp:59-65 | printed header fields are read back as the map they denote, repeated names included |
| `HttpParsing.RoundTrip` | include/http/http_parser.hpp:21-84 | a printed well-formed request, each field with or without a space behind its colon, followed by any tail and in any split, parses to exactly that request and leaves exactly the tail |
| `HttpParsing.PostRead` | include/http/http_parser.hpp:26-78 | `POST`, a path, a version, `Content-Length: ` and the printed length of any body, as text: the request with that one header and that body, and the tail left |
| `HttpParsing.NoBodyRead` | include/http/http_parser.hpp:47-78 | any other method, and any header not named exactly `Content-Length`, leaves everything behind the empty line in the buffer |
| `HttpParsing.HttpParser.AddHeader` | include/http/http_parser.hpp:59-65 | the header map after one line, the rest of the request untouched |
| `HttpParsing.HttpParser.TakeVerb` | include/http/http_parser.hpp:26-32 | the method state is a turn of `Step`, or waits and changes nothing |
| `HttpParsing.HttpParser.TakePath` | include/http/http_parser.hpp:33-39 | the path state likewise |
| `HttpParsing.HttpParser.TakeVersion` | include/http/http_parser.hpp:40-46 | the version state likewise |
| `HttpParsing.HttpParser.TakeHeader` | include/http/http_parser.hpp:47-67 | the header state likewise, for the empty line and for any other |
| `HttpParsing.HttpParser.TakeBody` | include/http/http_parser.hpp:68-78 | the body state: done, waiting, or the exception of stoi, and nothing changed unless the turn is taken |
| `HttpParsing.HttpParser.Turn` | include/http/http_parser.hpp:25-81 | one turn of the switch is `Step`, or leaves everything unchanged and stops with the right result |
| `HttpParsing.HttpParser.Parse` | include/http/http_parser.hpp:21-84 | the loop over the mutable fields computes `Feed`: fields of parser and request, and the result |
| `HttpParsing.HttpParser.Reset` | include/http/http_parser.hpp:86-89 | method state and empty buffer; no request is touched |
| `TimerWheels.InitialValid` | include/timer/timer.hpp:17-20 | a new wheel is valid and has no stale entry |
| `TimerWheels.AddedValid` | include/timer/timer.hpp:23-75 | `add_timer` puts one entry under a new id into one slot and keeps the index valid |
| `TimerWheels.CancelledValid` | include/timer/timer.hpp:31-37 | a cancel leaves exactly the cancelled id behind as a stale entry |
| `TimerWheels.TickedValid` | include/timer/timer.hpp:40-66 | after a tick the slots together hold exactly the live ids, each once |
| `TimerWheels.TickFiresDue` | include/timer/timer.hpp:40-66 | a tick calls exactly the timers with expiration <= now, each once, whatever slots they are in |
| `TimerWheels.NextRefines` | include/timer/timer.hpp:23-75 | every operation on the wheel is the same operation on the plain map |
| `TimerWheels.WheelRefinesMap` | include/timer/timer.hpp:23-75 | over every run the wheel has the timers and makes the calls of the plain map |
| `TimerWheels.NeverTwice` | include/timer/timer.hpp:55-59 | no timer is called twice in a run, and a called timer is no longer live |
| `TimerWheels.NotAfterCancel` | include/timer/timer.hpp:31-37 | a cancelled timer makes no call in any continuation of the run |
| `TimerWheels.SlotsAccountedFor` | include/timer/timer.hpp:31-75 | in every reachable state the stale entries are exactly the timers cancelled since the last tick |
| `TimerWheels.WheelRuns` | include/timer/timer.hpp:17-75 | from a new wheel on, the calls of any run are those of the plain map, none twice |
| `TimerWheels.TimersFireExactly` | include/timer/timer.hpp:23-66 | in every run, by its steps alone: a timer is called exactly once if some tick found it expired before anybody cancelled it, else never, with its own closure, and is live exactly as long as neither has happened |
| `TimerWheels.TimerPlace` | include/timer/timer.hpp:69-75 | in every run an id is in no slot but the one that many whole ticks on from the slot current when it was added, round the wheel |
| `TimerWheels.SlotsIncreasing` | include/timer/timer.hpp:43-74 | within a slot ids stand in the order in which their timers were added |
| `TimerWheels.TickOrder` | include/timer/timer.hpp:43-64 | of two calls of a tick the earlier is of an earlier slot, counted from the current one, or of an earlier entry of the same slot |
| `TimerWheels.TimerWheel.constructor` | include/timer/timer.hpp:17-20 | the new wheel is the initial one and valid |
| `TimerWheels.TimerWheel.AddTimer` | include/timer/timer.hpp:23-75 | the whole new wheel, slot choice included, the id returned, and the index kept valid |
| `TimerWheels.TimerWheel.CancelTimer` | include/timer/timer.hpp:31-37 | the whole new wheel: the id is no longer live, its slot entry stays |
| `TimerWheels.TimerWheel.SweepSlot` | include/timer/timer.hpp:45-63 | erasing while iterating leaves exactly the live entries in order, and makes the calls that are due |
| `TimerWheels.TimerWheel.SweepAll` | include/timer/timer.hpp:43-64 | the loop over all slots, from the current one on, wrapping round |
| `TimerWheels.TimerWheel.Tick` | include/timer/timer.hpp:40-66 | the whole new wheel and the calls made, in order |
| `ThreadPools.AccountedNext` | include/pool/thread_pool.hpp:40-98 | every step keeps: accepted tasks are those taken, in order, then the queue; a taken task has finished or is being run |
| `ThreadPools.NoneForgottenNext` | include/pool/thread_pool.hpp:40-98 | every step keeps: while a worker sleeps, each queued task has a notification under way or a worker about to look |
| `ThreadPools.StopHeardNext` | include/pool/thread_pool.hpp:23-98 | every step keeps: once stop is announced nobody sleeps, and a worker returns only from a stopped, empty pool |
| `ThreadPools.RunInv` | include/pool/thread_pool.hpp:23-98 | every interleaving keeps all three |
| `ThreadPools.AcceptedIsSubmitted` | include/pool/thread_pool.hpp:40-47 | in every run the tasks accepted are those of the enqueues in front of the stop, by the steps of the run alone; stopped, and announcing it, are what the steps say too |
| `ThreadPools.TakenInOrder` | include/pool/thread_pool.hpp:40-98 | in every interleaving what was submitted is what was taken, once each and in order, and then the queue |
| `ThreadPools.NoLostWakeup` | include/pool/thread_pool.hpp:46-89 | a queued task with no notification under way is never left to sleeping workers alone |
| `ThreadPools.AllTasksRan` | include/pool/thread_pool.hpp:23-34 | when every worker has returned the pool was stopped, and every submitted task has run exactly once |
| `ThreadPools.QuietMeansDone` | include/pool/thread_pool.hpp:82-98 | a pool at rest, stopped or not, has run everything submitted |
| `ThreadPools.WorkBounded` | include/pool/thread_pool.hpp:82-98 | in every run the workers' steps are paid for by what they are given to do, so left alone they come to rest |
| `ThreadPools.ShutdownBounded` | include/pool/thread_pool.hpp:23-34 | once stop is announced, the workers together can take only a bounded number of steps |
| `ThreadPools.ShutdownProgress` | include/pool/thread_pool.hpp:29-33 | and as long as one has not returned, one of them can take a step: the join does not deadlock |
| `ThreadPools.ThreadPool.constructor` | include/pool/thread_pool.hpp:17-21 | all workers start before the lock; the invariant holds |
| `ThreadPools.ThreadPool.Push` | include/pool/thread_pool.hpp:40-47 | the critical section of `enqueue` is the step Enqueue: refused exactly when stopped, else the task is at the end of the queue |
| `ThreadPools.ThreadPool.TakeTask` | include/pool/thread_pool.hpp:85-95 | the critical section of `worker_loop` is the step Lock: the front is taken and run, or with an empty queue the worker sleeps or returns |
| `ThreadPools.ThreadPool.RequestStop` | include/pool/thread_pool.hpp:24-27 | the critical section of the destructor is the step Stop |
| `EventLoops.FifoNext` | src/net/eventloop.cpp:74-146 | every step keeps: run functors, the unrun rest of the swapped vector, and the pending vector are all that was posted, in lock order |
| `EventLoops.InvNext` | src/net/eventloop.cpp:39-146 | every step, signals on the loop's own thread included, keeps that, and that whatever is pending at eventfd zero belongs to a poster still to write it |
| `EventLoops.RunInv` | src/net/eventloop.cpp:39-146 | every interleaving keeps both |
| `EventLoops.NoLostWakeup` | src/net/eventloop.cpp:47-84 | the loop never blocks while a fully posted functor is pending |
| `EventLoops.QuitHeardNext` | src/net/eventloop.cpp:47-72 | one step makes the loop block, or go to block, on an unheard quit if and only if it is a loop-thread quit between test and epoll_wait with no eventfd write done or due |
| `EventLoops.QuitHeardExactly` | src/net/eventloop.cpp:47-72 | in every run the loop never does so if and only if no signal falls into that gap |
| `EventLoops.LateQuitUnheard` | src/net/eventloop.cpp:67-72 | a run in which one does, and the loop blocks on a finished quit |
| `EventLoops.ExactlyOnceInOrder` | src/net/eventloop.cpp:137-146 | in every interleaving functors run once each, in the order they were posted |
| `EventLoops.PostedGetsRun` | src/net/eventloop.cpp:137-146 | whatever was posted while the loop dispatched has been run when it next waits or exits |
| `EventLoops.PosterOrder` | src/net/eventloop.cpp:74-84 | what one thread posts is run in that thread's order, nothing skipped |
| `EventLoops.QuitExactly` | src/net/eventloop.cpp:39-72 | in every run `quit_` is set if and only if some thread called `quit` since the loop was last started |
| `EventLoops.QuitBeforeLoopForgotten` | src/net/eventloop.cpp:39-43 | whatever was quit before it, a loop that starts has not been told to quit |
| `EventLoops.QuitRemembered` | src/net/eventloop.cpp:47-72 | a quit after the start is never forgotten: a loop not on its way into epoll_wait never goes there again |
| `EventLoops.PendingIsLate` | src/net/eventloop.cpp:74-84 | in every run the functors not swapped out are exactly those posted after the last swap |
| `EventLoops.EventfdCounts` | src/net/eventloop.cpp:121-135 | in every run the counter is the number of writes since it was last drained, and the threads between push and write, or within `quit`, are those that have done the one and not the other |
| `EventLoops.IterationRunsAll` | src/net/eventloop.cpp:47-63 | from any test of `quit_` that does not find it set, a whole iteration goes through and back to the test; it runs exactly what was pending, and drains the eventfd if it was woken by it |
| `EventLoops.TestEnds` | src/net/eventloop.cpp:39-47 | `loop` begins with the flag cleared and the test, and a test that finds it set ends the loop |
| `EventLoops.ExitLeavesPending` | src/net/eventloop.cpp:47-65 | a loop that has exited was told to; it has run everything posted up to its last swap, and everything posted at all if and only if nothing was posted after that |
| `EventLoops.EarlyQuitLeavesPending` | src/net/eventloop.cpp:43-47 | a quit before the first test: the loop exits with a posted functor never run |
| `EventLoops.EventLoop.PushPending` | src/net/eventloop.cpp:78-81 | the locked part of `runInLoop` is the step Post |
| `EventLoops.EventLoop.Wakeup` | src/net/eventloop.cpp:121-127 | the write is the step Wake, and fails without effect at the counter's maximum |
| `EventLoops.EventLoop.HandleWakeup` | src/net/eventloop.cpp:129-135 | the read is the step Drain: the counter goes to zero |
| `EventLoops.EventLoop.TakePending` | src/net/eventloop.cpp:138-142 | the locked swap is the step Swap |
| `EventLoops.EventLoop.RunNext` | src/net/eventloop.cpp:143-145 | one functor of the swapped vector, after whatever other threads do meanwhile |
| `EventLoops.EventLoop.DoPendingFunctors` | src/net/eventloop.cpp:137-146 | while other threads post, wake and quit between its steps: a run whose own steps are the swap and one functor after the other; it runs exactly what was pending at the swap, in order |
| `TokenBuckets.LevelRises` | gateway/src/distributed_rate_limiter.cpp:20-22 | between calls a bucket rises at the rate up to its capacity, however the time is divided |
| `TokenBuckets.ClockWentBack` | gateway/src/distributed_rate_limiter.cpp:20-22 | a clock that went back neither refills a bucket nor drains it |
| `TokenBuckets.AheadStep` | gateway/src/distributed_rate_limiter.cpp:6-35 | one call keeps the simulation: admitted plus level of the code is at least that of the exact bucket, through caps, expiries and differing decisions |
| `TokenBuckets.NeverUnderServes` | gateway/src/distributed_rate_limiter.cpp:6-35 | in every run the script admits at least as many calls as the exact bucket |
| `TokenBuckets.AdmissionBound` | gateway/src/distributed_rate_limiter.cpp:19-33 | in any stretch of any run, 1000 * admissions <= 1000 * capacity + rate * (time credited after the first call) + 1000 * capacity for each time the key is found gone after it, and the bucket stays within 0 and the capacity |
| `TokenBuckets.CreditTelescopes` | gateway/src/distributed_rate_limiter.cpp:26-27 | without refusals the time credited, and forfeited by expiry, is just the length of the stretch; without expiry nothing is forfeited |
| `TokenBuckets.ExactBound` | gateway/src/distributed_rate_limiter.cpp:16-29 | the exact bucket keeps capacity plus rate times elapsed in every stretch |
| `TokenBuckets.FastIsExact` | gateway/src/distributed_rate_limiter.cpp:19-33 | from one token per millisecond on, the script and the exact bucket are the same, in every run when capacity <= 3 * rate, else while the key is not found gone |
| `TokenBuckets.RefusalsRefill` | gateway/src/distributed_rate_limiter.cpp:30-33 | polling at one instant, a millisecond after the last admission, is admitted after finitely many refusals |
| `TokenBuckets.Overserved` | gateway/src/distributed_rate_limiter.cpp:30-33 | for every rate from 1 to 999 a run that breaks the textbook bound |
| `TokenBuckets.BurstAgain` | gateway/src/distributed_rate_limiter.cpp:16-32 | for every capacity above 3 * rate a run that breaks the textbook bound by expiry |
| `TokenBuckets.TextbookBoundExactly` | gateway/src/distributed_rate_limiter.cpp:6-35 | the textbook bound holds of every run if and only if the rate is at least 1000 and the capacity at most 3 * rate |
| `TokenBuckets.ScriptIsExactExactly` | gateway/src/distributed_rate_limiter.cpp:6-35 | the script is the exact bucket in every run under the same condition and no other |
| `TokenBuckets.TextbookBoundWhileKept` | gateway/src/distributed_rate_limiter.cpp:19-33 | the textbook bound holds of every run that never finds the key gone if and only if the rate is 0 or at least 1000 |
| `TokenBuckets.OverservingBounded` | gateway/src/distributed_rate_limiter.cpp:6-35 | in any stretch of any run, 1000 * admissions <= 1000 * (capacity + 1) + (rate + 1000) * elapsed + 1000 * capacity for each time the key is found gone after the first call |
| `TokenBuckets.LossesRare` | gateway/src/distributed_rate_limiter.cpp:28-32 | the key is found gone at most once in three seconds |
| `TokenBuckets.RefilledWhenLost` | gateway/src/distributed_rate_limiter.cpp:16-28 | a key dropped after three idle seconds was worth a full bucket when capacity <= 3 * rate |
| `TokenBuckets.ExpiryUnseen` | gateway/src/distributed_rate_limiter.cpp:16-32 | then every run makes the same decisions and stores the same bucket as if nothing ever expired |
| `TokenBuckets.BoundsWithExpiry` | gateway/src/distributed_rate_limiter.cpp:16-33 | when capacity <= 3 * rate the two bounds hold through every expiry as if the key had never been gone |
| `TokenBuckets.ExpirySeen` | gateway/src/distributed_rate_limiter.cpp:16-32 | otherwise a run in which the expiry shows |
| `TokenBuckets.ExpiryUnobservableExactly` | gateway/src/distributed_rate_limiter.cpp:16-32 | the expiry makes no difference to any run if and only if capacity <= 3 * rate |
| `DistributedLimiting.Redis.Eval` | gateway/src/distributed_rate_limiter.cpp:7-34 | the script's statements store the bucket and reply as `Script` says, for this key only, with a new deadline |
| `DistributedLimiting.Redis.Drop` | gateway/src/distributed_rate_limiter.cpp:28-32 | Redis drops this key and no other, from its deadline on |
| `DistributedLimiting.KeysDiffer` | gateway/src/distributed_rate_limiter.cpp:46-46 | the key is the prefix, a colon and the path, and two paths never share one |
| `DistributedLimiting.DistributedRateLimiter.AcquireToken` | gateway/src/distributed_rate_limiter.cpp:61-94 | what is returned or thrown, and whether the script ran, for every fault |
| `DistributedLimiting.DistributedRateLimiter.IsAllowed` | gateway/src/distributed_rate_limiter.cpp:40-59 | capacity default, the path's own bucket decided on, fail-open on every exception with its message, refusal on an error reply, and every other path's bucket what it was |
| `WindowLimiting.CounterStore.Incr` | gateway/src/redis_client.cpp:83-89 | the count, or -1 for a missing or non-integer reply, and the counter kept |
| `WindowLimiting.CounterStore.Expire` | gateway/src/redis_client.cpp:91-97 | the deadline set, or nothing, and which of the two |
| `WindowLimiting.RateLimitPlugin.IsAllowed` | gateway/src/ratelimit_plugin.cpp:4-16 | decision and counters for every answer of Redis; a limit that is not positive touches nothing |
| `GatewayLimiting.CounterBounded` | gateway/src/ratelimit_plugin.cpp:10-14 | a second's counter never exceeds the requests the bucket passed on in that second |
| `GatewayLimiting.FirstOfSecondAdmitted` | gateway/src/gateway.cpp:113-135 | the first R requests of any wall-clock second are admitted, whatever fails and whatever the clock does |
| `GatewayLimiting.CounterExact` | gateway/src/ratelimit_plugin.cpp:4-16 | while INCR is answered the counter is exactly the bucket's refusals in its second: its expiry cannot reset it within that second |
| `GatewayLimiting.WindowShare` | gateway/src/gateway.cpp:113-135 | the window admits exactly the smaller of R and the bucket's refusals in the second |
| `GatewayLimiting.BucketGoesOn` | gateway/src/gateway.cpp:117-123 | with the capacity the gateway passes, the bucket goes on as if its key never expired |
| `GatewayLimiting.BucketInSecond` | gateway/src/gateway.cpp:117-123 | what the bucket admits in a second and is still worth, bounded since the second began |
| `GatewayLimiting.SecondBound` | gateway/src/gateway.cpp:113-135 | while Redis answers, a second admits at most 3 * R + 1000 by the bucket and 4 * R + 1000 in all |
| `GatewayLimiting.BurstExactly` | gateway/src/gateway.cpp:113-135 | of a burst at one instant on a new route exactly the first 2 * R are admitted by the bucket, the next R by the window, and the rest refused |
| `GatewayLimiting.FaultsDecide` | gateway/src/gateway.cpp:113-135 | without Redis the bucket lets everything through; an error reply leaves it to the window; a counter that does not answer lets it through |
| `GatewayLimiting.FaultsCost` | gateway/src/gateway.cpp:117-123 | a request whose script ran is charged even if the answer got lost, and no other failure touches the bucket |
| `GatewayLimiting.WindowOpens` | gateway/src/ratelimit_plugin.cpp:10-15 | the first request left to a second opens a counter of 1 for two seconds |
| `GatewayLimiting.WindowCounts` | gateway/src/ratelimit_plugin.cpp:10-15 | a live counter counts every executed INCR and keeps its deadline; an expired one begins anew; the limit is compared with the new count |
| `GatewayLimiting.Gateway.AskBucket` | gateway/src/gateway.cpp:117-123 | the bucket's decision and new state with the capacity the gateway passes; no other route's bucket changes |
| `GatewayLimiting.Gateway.PassesRateLimit` | gateway/src/gateway.cpp:113-135 | the decision, both limiters' new state and the rejection counter, with and without a distributed limiter and with a dropped bucket; other routes' buckets stay, and a route without a limit changes nothing |
| `RawMemory.LoadStored` | include/pool/memory_pool.hpp:27-27 | a pointer stored in a block is read back, and only that word is written |
| `PoolMemory.LinkedChain` | include/pool/memory_pool.hpp:34-43 | `allocate_chunk` links all its blocks in front of the old chain and writes nowhere outside the chunk |
| `PoolMemory.BlocksApart` | include/pool/memory_pool.hpp:35-38 | different blocks, of one pool or of two, do not overlap |
| `PoolMemory.GrownInv` | include/pool/memory_pool.hpp:34-43 | growing a pool keeps the invariant of all pools |
| `PoolMemory.TakenInv` | include/pool/memory_pool.hpp:21-23 | taking the head of a free list keeps it, and the head was held by nobody |
| `PoolMemory.FreedInv` | include/pool/memory_pool.hpp:26-29 | giving a block back keeps it |
| `PoolMemory.AllocatedInv` | include/pool/memory_pool.hpp:19-24 | `allocate` keeps it, with and without a new chunk, and when there is no memory |
| `PoolMemory.WrittenInv` | include/pool/memory_pool.hpp:19-29 | a client writing anything into memory it holds keeps it |
| `PoolMemory.InvNext` | include/pool/memory_pool.hpp:11-43 | every event of pools, clients and operator new keeps it |
| `PoolMemory.RunInv` | include/pool/memory_pool.hpp:11-43 | and so does every run |
| `PoolMemory.FreeListExact` | include/pool/memory_pool.hpp:19-43 | in every run the chain from `free_list_` through the stored words ends at null and visits exactly once exactly the carved blocks that are not held |
| `PoolMemory.HeldApart` | include/pool/memory_pool.hpp:19-43 | any two held pieces of memory are disjoint |
| `PoolMemory.HeldDisjoint` | include/pool/memory_pool.hpp:19-43 | the same in every run |
| `PoolMemory.ClientDataKept` | include/pool/memory_pool.hpp:19-43 | no operation of any pool changes a byte that stays held |
| `SizeClasses.ClassUnique` | include/pool/memory_pool.hpp:83-91 | the class of a size is the one index whose power of two is the least that holds both the size and 8 |
| `SizeClasses.ClassBytes` | include/pool/memory_pool.hpp:73-78 | the ten classes are 8, 16, and so on up to 4096 bytes |
| `SizeClasses.ServedIsEvent` | include/pool/memory_pool.hpp:59-70 | freeing with the allocation's size returns the block to the pool that carved it, or to operator delete exactly when it came from operator new |
| `SizeClasses.SmallServed` | include/pool/memory_pool.hpp:19-62 | a request of up to 4096 bytes fails if and only if the free list of its class is empty and 1024 such blocks do not fit; else exactly one address is handed out that nobody held, the head of the free list or the last block of the new chunk |
| `SizeClasses.LargeServed` | include/pool/memory_pool.hpp:59-62 | a larger request fails if and only if it does not fit; else it is given that address, which nobody held |
| `SizeClasses.ReleaseThenGet` | include/pool/memory_pool.hpp:19-29 | a small block given back is the next one its class hands out |
| `SizeClasses.ReleaseLarge` | include/pool/memory_pool.hpp:64-68 | memory of its own goes back to the system: exactly its region is gone |
| `SizeClasses.LargeEnough` | include/pool/memory_pool.hpp:59-62 | a piece is at least as large as what was asked for |
| `SizeClasses.ServedSound` | include/pool/memory_pool.hpp:59-70 | every request keeps the pools, the grants and the sizes in agreement |
| `SizeClasses.ClientBytesKept` | include/pool/memory_pool.hpp:59-70 | nobody's request changes a byte of an allocation, but a write into it |
| `SizeClasses.BuiltSound` | include/pool/memory_pool.hpp:73-78 | the constructor ends in a sound system with one pool per size class |
| `SizeClasses.BuiltPools` | include/pool/memory_pool.hpp:11-14 | the constructor gives every class one chunk of 1024 blocks, the list beginning with the last |
| `SizeClasses.BuildPossible` | include/pool/memory_pool.hpp:73-78 | the constructor can succeed |
| `SizeClasses.AllocationsDisjoint` | include/pool/memory_pool.hpp:59-91 | in every run any two outstanding allocations are disjoint and at least as large as requested, wherever operator new puts its regions |
| `PoolObjects.FixedMemPool.AllocateChunk` | include/pool/memory_pool.hpp:34-43 | memory, regions and pool after the linking loop, or unchanged on bad_alloc |
| `PoolObjects.FixedMemPool.Allocate` | include/pool/memory_pool.hpp:19-24 | the whole new state and the block, which is the old head if there was one; bad_alloc with nothing changed exactly when there was none and a chunk does not fit |
| `PoolObjects.FixedMemPool.Deallocate` | include/pool/memory_pool.hpp:26-29 | the whole new state |
| `PoolObjects.MemoryPool.PushPool` | include/pool/memory_pool.hpp:75-77 | one more pool, built in the same memory |
| `PoolObjects.MemoryPool.BuildNext` | include/pool/memory_pool.hpp:75-77 | one turn of the constructor builds the next class, or fails for good |
| `PoolObjects.MemoryPool.Build` | include/pool/memory_pool.hpp:73-78 | the constructor's loop builds exactly the ten classes, or fails when one chunk does not fit |
| `PoolObjects.MemoryPool.FindPool` | include/pool/memory_pool.hpp:83-91 | the loop ends in range, at the class of the size |
| `PoolObjects.MemoryPool.AllocateSmall` | include/pool/memory_pool.hpp:61-61 | the answer of the class of the size: its head if there is one, bad_alloc exactly when there is none and a chunk does not fit |
| `PoolObjects.MemoryPool.Allocate` | include/pool/memory_pool.hpp:59-62 | dispatch by size: the whole new state and the address, and exactly when there is none |
| `PoolObjects.MemoryPool.Deallocate` | include/pool/memory_pool.hpp:64-70 | dispatch by size: the whole new state |
| `Connections.CloseKeeps` | src/net/tcp_connection.cpp:103-119 | closing keeps the invariant, with the server's part nested in it, and a second close does nothing |
| `Connections.SendKeeps` | src/net/tcp_connection.cpp:47-55 | a send keeps it; a non-empty one keeps EPOLLOUT interest and a non-empty buffer equivalent |
| `Connections.ReadKeeps` | src/net/tcp_connection.cpp:57-76 | a read keeps it for every result, with the callback's replies nested in it |
| `Connections.WriteKeeps` | src/net/tcp_connection.cpp:78-101 | a write keeps it for every result, partial writes included, and keeps EPOLLOUT interest exact |
| `Connections.EventKeeps` | src/net/channel.cpp:51-66 | a dispatch keeps it for every mask, also when it asks for the close more than once |
| `Connections.DestroyKeeps` | src/net/tcp_connection.cpp:31-36 | so does the server's `connectDestroyed` |
| `Connections.BeginKeeps` | src/net/tcp_connection.cpp:20-29 | and a connection starts with it |
| `Connections.BeginText` | src/net/tcp_connection.cpp:20-29 | a new connection is open, registered for reading, and has its greeting to write |
| `Connections.SendWaits` | src/net/tcp_connection.cpp:47-55 | a message sent on an open connection waits behind what waits already, with EPOLLOUT armed |
| `Connections.WritesOut` | src/net/tcp_connection.cpp:78-87 | a writable connection with something to write writes as much as there is room for, keeps exactly the rest, and stays open |
| `Connections.WrittenOut` | src/net/tcp_connection.cpp:78-101 | writable events with enough room in total, with any number to be tried again, leave the buffer empty and everything taken on written |
| `Connections.InputDelivered` | src/net/channel.cpp:60-62 | EPOLLIN or EPOLLPRI without a close delivers exactly the bytes read, and takes on the replies |
| `Connections.ClosesExactly` | src/net/channel.cpp:51-66 | a dispatch closes an open connection if and only if the mask asks for it, the read finds the end or an error, or the write fails or has nothing to write |
| `Connections.RunKeeps` | src/net/tcp_connection.cpp:20-119 | every run of a connection keeps it |
| `Connections.CloseLifecycle` | src/net/tcp_connection.cpp:103-119 | in every run the fd is closed at most once, the close callback runs exactly with it, and no read, write, callback or epoll_ctl follows; every epoll_ctl finds the table as it expects |
| `Connections.StreamsConserved` | src/net/tcp_connection.cpp:47-101 | in every run bytes written, then `outputBuffer_`, are the accepted messages in order; bytes read were delivered |
| `Connections.NothingLost` | src/net/tcp_connection.cpp:47-101 | while the connection is open, they are everything that was offered |
| `Connections.WriteInterest` | src/net/tcp_connection.cpp:47-101 | in every run without empty messages EPOLLOUT interest is exactly a non-empty `outputBuffer_` |
| `Connections.EmptySendExactly` | src/net/tcp_connection.cpp:47-55 | a send breaks that if and only if it is an empty message on an open, idle connection |
| `Connections.SendAllExactly` | src/net/tcp_connection.cpp:47-55 | sending any messages breaks the agreement of EPOLLOUT and buffer if and only if they are some messages without a byte, on an open, idle connection |
| `Connections.EventExactly` | src/net/channel.cpp:51-66 | any event, a dispatch with replies and a following write included, breaks it if and only if it sends without a byte and does not go on to close |
| `Connections.WriteInterestExactly` | src/net/tcp_connection.cpp:20-101 | at every point of a run EPOLLOUT interest is exactly a non-empty `outputBuffer_`, if and only if the greeting is not such a send and no such event occurs |
| `Connections.EmptySendCloses` | src/net/tcp_connection.cpp:82-89 | and then the next writable event closes the connection |
| `ConnectionNames.NameText` | src/net/tcp_server.cpp:26-28 | a name is server, hyphen and number, or the first 63 characters of that |
| `ConnectionNames.CutNameRepeats` | src/net/tcp_server.cpp:26-28 | a name that does not fit the buffer is the name of an earlier connection |
| `ConnectionNames.NamesDistinctExactly` | src/net/tcp_server.cpp:26-28 | the first n connections of a server have different names if and only if the n-th name fits, or there is only one |
| `Servers.InvAccept` | src/net/tcp_server.cpp:25-38 | accepting keeps the server's invariant, whatever the names |
| `Servers.InvOn` | src/net/tcp_server.cpp:40-44 | whatever happens to a connection keeps it, its close callback, which erases by name, included |
| `Servers.InvShutdown` | src/net/tcp_server.cpp:13-18 | the destructor keeps it; it reaches the connections the map has |
| `Servers.ShutdownEnds` | src/net/tcp_server.cpp:13-18 | the destructor ends the server and shuts off exactly the connections the map has |
| `Servers.ConnectionsOrderly` | src/net/tcp_server.cpp:25-44 | in every run, whatever the names: no connection touches a descriptor it has closed or tells its server twice, and open connections never share a descriptor |
| `Servers.ServerKnowsOpen` | src/net/tcp_server.cpp:13-44 | while the names given fit: `connections_` is exactly the established, not yet closed connections, each under its name, and a server that is gone is never called back |
| `Servers.OverwrittenName` | src/net/tcp_server.cpp:26-33 | for every name that does not fit, a run after which the map has lost an open connection |
| `Servers.ServerKnowsOpenExactly` | src/net/tcp_server.cpp:13-44 | after n connections the map of a living server is exactly the open connections, in every run, if and only if the n-th name fits |
| `ConnectionObjects.Loop.UpdateChannel` | src/net/eventloop.cpp:86-106 | ADD for a new channel, MOD otherwise, and the index |
| `ConnectionObjects.Loop.RemoveChannel` | src/net/eventloop.cpp:108-119 | DEL only for a registered channel, and the index |
| `ConnectionObjects.Channel.Update` | src/net/channel.cpp:37-44 | nothing once removed |
| `ConnectionObjects.Channel.SetInterest` | src/net/channel.cpp:13-35 | the four interest changes: nothing once removed, else the new interest and one epoll_ctl |
| `ConnectionObjects.Channel.Remove` | src/net/channel.cpp:46-49 | removed, and out of the table |
| `ConnectionObjects.TcpServer.constructor` | src/net/tcp_server.cpp:5-11 | a server starts with no connections, and with number 1 |
| `ConnectionObjects.TcpServer.NewConnection` | src/net/tcp_server.cpp:25-38 | the new connection, its name cut to the buffer, the map, and the effects on epoll |
| `ConnectionObjects.TcpServer.RemoveConnection` | src/net/tcp_server.cpp:40-44 | the map without the connection's name, and the connection destroyed at once |
| `ConnectionObjects.TcpConnection.DestroyConnection` | src/net/tcp_connection.cpp:31-36 | state and effects are those of the function |
| `ConnectionObjects.TcpConnection.SendMessage` | src/net/tcp_connection.cpp:47-55 | state and effects of `sendInLoop`, which drops data once closed or removed |
| `ConnectionObjects.TcpConnection.CloseConnection` | src/net/tcp_connection.cpp:103-119 | state, effects in order, and the server's map; nothing when already closed |
| `ConnectionObjects.TcpConnection.ConnectEstablished` | src/net/tcp_connection.cpp:20-29 | reading is enabled before the connection callback sends |
| `ConnectionObjects.TcpConnection.Received` | src/net/tcp_connection.cpp:62-67 | bytes appended, delivered with the replies nested in, buffer cleared |
| `ConnectionObjects.TcpConnection.ReadReady` | src/net/tcp_connection.cpp:57-76 | state, effects and the server's map for every result of read |
| `ConnectionObjects.TcpConnection.WriteReady` | src/net/tcp_connection.cpp:78-101 | state, effects and the server's map for every result of write |
| `ConnectionObjects.TcpConnection.CloseChecks` | src/net/channel.cpp:54-59 | the two checks that may both close, and the server's map |
| `ConnectionObjects.TcpConnection.Dispatch` | src/net/channel.cpp:51-66 | one handleEvent with the connection's three callbacks, as a whole: state, effects and the server's map |
| `Reactors.InvNext` | src/net/eventloop.cpp:47-146 | every joint step, of the hand-off, a connection, an acceptor, a functor that sends or a server's end, keeps hand-off, servers and streams in agreement |
| `Reactors.RunInv` | src/net/eventloop.cpp:47-146 | and so does every joint run |
| `Reactors.EventHappens` | src/net/eventloop.cpp:50-54 | a connection's event happens to that connection and no other, and its sends enter its stream |
| `Reactors.SendHappens` | src/net/tcp_connection.cpp:38-40 | a send on the loop's own thread likewise |
| `Reactors.AcceptHappens` | src/net/tcp_server.cpp:25-38 | an accept makes exactly one new connection |
| `Reactors.FunctorSends` | src/net/tcp_connection.cpp:41-44 | a functor that is run sends on its connection, behind everything sent there before |
| `Reactors.ResponseWritten` | src/net/tcp_connection.cpp:38-101 | a response reaches the peer: run, sent, and with enough room written out behind everything before it |
| `Reactors.ResponsesInOrder` | src/net/tcp_connection.cpp:38-55 | in every joint run, for every connection of every server on the loop: written bytes, then `outputBuffer_`, are all that was sent on it (a prefix once it is closed), and the functors in that are exactly those aimed at it among all that ran, once each and in order |
| `Reactors.WorkerOrder` | src/net/tcp_connection.cpp:38-55 | what one worker sends on a connection enters its stream in that worker's order, nothing skipped |
| `Reactors.NothingLeft` | src/net/eventloop.cpp:137-146 | with nothing left to run, every functor aimed at a connection has taken effect on it |
| `Reactors.HandsRun` | src/net/eventloop.cpp:47-146 | a joint run is a run of the hand-off with everything else in between |
| `Reactors.LostAtExit` | src/net/eventloop.cpp:47-65 | when the loop has exited, the sends that never reached a connection are exactly those posted to it after the last swap |

## Left out

Stated weaker than one might want:

- Connections.WriteInterest: speaks of runs without empty messages; `WriteInterestExactly` says when it holds of any run.
- TokenBuckets.TextbookBoundWhileKept: speaks of runs that never find the key gone; `TextbookBoundExactly` is about all runs.
- Servers.InvShutdown: the server's destructor runs on the loop's thread, as in `src/main_gateway.cpp`, where the gateway ends after `loop` returned.
- Servers.ServerKnowsOpen: the same destructor; and runs whose names fit, `ServerKnowsOpenExactly` saying that these are all it can speak of.
- ConnectionObjects.TcpServer.RemoveConnection: describes the close callback on the loop's own thread, the only thread that closes connections.
- PoolMemory.InvNext: block sizes of at least one pointer, as all ten classes have; a smaller block could not hold its link.
- PoolObjects.FixedMemPool.AllocateChunk: a block size times block count of 2^64 or more is bad_alloc here, where the code's size_t product wraps; the ten classes need at most 4 MiB.

Not modelled:

- Sockets, epoll, eventfd, Redis and hiredis themselves; their results are inputs, and a Redis key is a value with a deadline.
- Requests racing inside one rate-limit decision: a request is one atomic step with one clock reading, and clocks do not run backwards where a bound mentions elapsed time.
- Floating point and the number-to-string rounding of `tokens` in Redis.
- Wrap-around of 64-bit timer ids, of connection numbers and of `rateLimit * 2`.
- Thread identity and mutexes: a locked section is one step, so the lock's exclusion is built in.
- A second `loop` after the first has ended.
- C++ object lifetime: shared_ptr cycles, the destructors of channel, connection, pools and loop, and channels freed within one batch of events. Any known connection may be reported while the loop dispatches.
- Timer callbacks that call the wheel, and callbacks that throw.
- A connection without a message callback, whose input buffer would only grow.
- The futures and exceptions of the templated `enqueue`, and tasks that throw; `worker_count` and `pending_tasks`.
- `RedisClient` command building and stream decoding, `LogConsumer`, `StreamWriter`, `MySQLPool`, `RedisPool`: plumbing around foreign handles.
- `AsyncLogger`: the swap of `doPendingFunctors` again, and simpler.
- `Router`, `AuthPlugin`, the management handler, JSON, statistics and health output: lookups, formatting and dispatch.
