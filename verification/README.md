# A model of Flow-IPC's core transport layer, with proofs

The project models the parts of the `ipc::transport` and `ipc::util` code in which something can go wrong between
several calls, several threads or several processes, and proves what that code keeps on every run. It is checked with

    dafny verify dfyconfig.toml

Each file is one component, in the form the component has: objects that change their fields are classes, loops are
loops, and what other threads, other processes and the kernel do is a schedule or a list of outcomes handed in from
outside, over which every statement quantifies.

- `mq_monitor.dfy`, `bipc_mq_handle.dfy`: the interruptible message queue on top of boost.interprocess. The first file
  is a step system: any number of threads and handles share one mutex, two condition variables, two counters of
  blocked threads and a bounded queue, and each step is one indivisible move of one thread (lock, sleep, a wakeup that
  may be spurious, a deadline, an exception out of the condition variable, push, pop, interrupt on or off). The
  whole-run theorems are stated there. The second file has the code itself, loops and assignments on the shared header,
  run by one thread while a schedule decides what all others do at each point where it can be preempted; its class
  invariant is that everything done so far is a run of the step system, so the theorems hold of the code. How each call
  ends is a function of the state it begins in and of the schedule; these functions are in `bipc_mq_turns.dfy`.
- `timed_waits.dfy`: the arithmetic of budgets and clock readings that both kinds of queue share; `wrappers.dfy`: `Option`.
- `posix_mq_handle.dfy`: the same kind of queue on top of POSIX. The kernel side is a descriptor table in which each
  opening has its own number, so that a leak or a second close shows; any system call can fail; other processes create
  and unlink the queue's name between any two calls.
- `native_socket_stream_acceptor.dfy`: the acceptor's two queues, proved to be a plain zip of the requests with the
  results, whatever the schedule.
- `shared_name.dfy`: names, and the in-place `sanitize()`, proved equal to a declarative collapse function.
- `channel.dfy`: the end of sending over two pipes, two completions merged into one.
- `asio_local_stream_socket.dfy`: blobs and native handles over a local stream socket, put together again from any
  pieces.
- `protocol_negotiator.dfy`: one negotiator over a whole run, and two opposed ones.

## Where the code and its documentation differ

The model follows the code. Each difference is stated exactly:

- `src/ipc/transport/protocol_negotiator.cpp:115` settles on the local maximum where the documentation and the log
  message at line 114 say the other side's. `DepartsExactlyWhen` gives the inputs for which this matters, `OpposedSides`
  what it does to two sides, `OlderPeerIsNotMet` a concrete pair, `DocumentedRuleAgrees` the theorem the documented rule
  satisfies.
- `src/ipc/transport/channel.hpp:1845-1859` returns true without writing would-block to `*sync_err_code_ptr`, and
  without throwing if that pointer is null; lines 783-786 promise both. The contracts of `SyncEnding.AsyncEndSending` and
  `SyncEnding.Whole` say that nothing is written or thrown.
- `src/ipc/transport/bipc_mq_handle.cpp:318` (and its counterpart in `receive`) takes the time since the start off the
  budget on every retry, never advancing `now`. `BudgetNeverExceedsTimeLeft` in `timed_waits.dfy` says when the
  budget is nevertheless exact.
- `src/ipc/transport/posix_mq_handle.cpp:860` does the same, and a budget that has become negative turns into a wait
  without time limit: `LimitIsGone` says exactly when, `HangInTimedSend` runs a timed send that hangs. A timeout of
  more than some 24 days is changed by the conversion to `int`: `LimitSurvives` says exactly which are, `LongTimeoutsWrap`
  gives one that comes out as no limit.
- `src/ipc/transport/posix_mq_handle.cpp:1223` asks `epoll_wait()` for one event, so the branch for two events cannot be
  taken. The interrupt mode is documented to make waits report it (`src/ipc/transport/persistent_mq_handle.hpp:619-622`);
  with the queue ready too, the wait may report success instead. `InterruptIsSure` says exactly when the mode is sure to
  be reported, `MissAnInterrupt` is a run in which it is not.
- The same lines promise that a future `send()` in interrupted mode reports the interrupt. Both kinds of handle try to
  push first (`src/ipc/transport/bipc_mq_handle.cpp:236-246`) and succeed if there is room: `InterruptedTransmission` and
  `InterruptedSend` say that the interrupt is reported exactly if the queue is found full.
- `src/ipc/transport/posix_mq_handle.cpp:177` and `:191`: a failure to set permissions leaves the queue open without its
  epoll sets. `Construct` (by `SetUp`) says that this is the only failure that does; `Destroy` that the destructor's
  assertions then fail; `ConstructOrThrow` that the descriptor is lost if the constructor throws; `LeakADescriptor` is a run in which
  it is.
- `src/ipc/transport/posix_mq_handle.cpp:535-538`: move assignment forgets the target's queue and epoll descriptors
  without closing them. `MoveAssign` says which descriptors remain open and unowned: exactly those, hence none if the
  target held no queue. `ForgetADescriptor` is a run in which one does.
- The comments at `src/ipc/transport/posix_mq_handle.cpp:257` and `:473` say that a failing set-up of the epoll sets
  cleans up everything. If `epoll_ctl()` fails the pipes stay open until the handle goes: `EpollSetupOne`, `FillEpoll`.
- `src/ipc/transport/protocol_negotiator.hpp:100` says that the maximum is followed by "unsupported"; the code, like the
  documentation of the method itself, says "unknown".
- The acceptor's destructor is documented to run every handler. It does not run the handler of a request made by a
  handler that is being told of the shutdown. `Lifetime` and `LateReactions` give the exact condition, on the requests the
  schedule determines, under which every handler runs; `LoseARequest` is a life in which one does not.

## Model

| member | source | states |
|---|---|---|
| MqMonitor.StepKeepsInv | src/ipc/transport/bipc_mq_handle.cpp:569-880 | any one move of any thread keeps mutual exclusion, exact counters, soundness of every thread's position, and first-in-first-out |
| MqMonitor.CountersStep | src/ipc/transport/bipc_mq_handle.cpp:771-829 | any one move keeps each blocked counter equal to the number of threads between its increment and its decrement |
| MqMonitor.PcsStep | src/ipc/transport/bipc_mq_handle.cpp:745-839 | any one move keeps what each thread's position says about flag, queue and kind of wait; in particular nobody is asleep with the flag on |
| MqMonitor.MutexStep | src/ipc/transport/bipc_mq_handle.cpp:746-840 | any one move keeps the mutex held exactly by the thread inside the critical section |
| MqMonitor.FifoStep | src/ipc/transport/bipc_mq_handle.cpp:183-190 | any one move keeps: pushed messages are the popped ones followed by the queued ones |
| MqMonitor.RunKeepsInv | src/ipc/transport/bipc_mq_handle.cpp:569-880 | the invariant holds along every run, however long and however scheduled |
| MqMonitor.ReachableInv | src/ipc/transport/bipc_mq_handle.cpp:569-880 | every state any schedule reaches from the initial one satisfies the invariant |
| MqMonitor.MutualExclusion | src/ipc/transport/bipc_mq_handle.cpp:570-601 | in no reachable state are two threads inside the critical section |
| MqMonitor.CountersAreExact | src/ipc/transport/bipc_mq_handle.cpp:771-829 | in every reachable state a blocked counter is the number of threads in its counted part, never negative, zero if and only if there is none, and zero once all calls are over, whether they ended by success, timeout, interrupt or exception |
| MqMonitor.PoppedIsPrefixOfPushed | src/ipc/transport/bipc_mq_handle.cpp:200-260 | over every run what was popped is a prefix of what was pushed and the rest is what is queued, within capacity |
| MqMonitor.StarvedMeans | src/ipc/transport/bipc_mq_handle.cpp:717-727 | in terms of the history alone: there is nothing to receive if and only if every message pushed has been popped, and no room if and only if exactly as many messages as the capacity are outstanding |
| MqMonitor.StarvationIsReal | src/ipc/transport/bipc_mq_handle.cpp:717-829 | over every run, a thread that waits or reports a timeout does so with every pushed message popped, if it receives, or exactly the capacity outstanding, if it sends |
| MqMonitor.PhasesSound | src/ipc/transport/bipc_mq_handle.cpp:771-839 | in every state of every run a thread in a call is in the call it last began, and stands where only a timeout leads only if its deadline passed in that call |
| MqMonitor.TimeoutNeedsExpiry | src/ipc/transport/bipc_mq_handle.cpp:794-815 | over every run, a timed wait reports a timeout only if in that very call its deadline passed while it slept |
| MqMonitor.ExpiredCallEnds | src/ipc/transport/bipc_mq_handle.cpp:794-829 | once its deadline has passed a timed wait is never counted or asleep again, whatever anybody does, and is over after at most four moves of its own thread |
| MqMonitor.OutcomeMeaning | src/ipc/transport/bipc_mq_handle.cpp:717-880 | when a wait gives up the mutex its outcome is true of that very moment: unstarved; starved, and then a poll or a timed wait whose deadline passed in this call; interrupted; and interruption beats readiness |
| MqMonitor.SomebodyCanMove | src/ipc/transport/bipc_mq_handle.cpp:745-841 | there is no deadlock: with a call in progress that is not asleep some thread can move, and not only by failing |
| MqMonitor.HolderCanMove | src/ipc/transport/bipc_mq_handle.cpp:746-840 | the thread holding the mutex can always go on by itself |
| MqMonitor.DoomedStep | src/ipc/transport/bipc_mq_handle.cpp:748-803 | while the flag is on, a move by anybody leaves a call through that handle awake, undecided or interrupted, and nearer to its end if the move was its own |
| MqMonitor.DoomedStaysDoomed | src/ipc/transport/bipc_mq_handle.cpp:748-803 | along every run on which the flag stays on such a call never sleeps again and ends within four own moves, interrupted or by the library's exception |
| MqMonitor.NoLostInterrupt | src/ipc/transport/bipc_mq_handle.cpp:569-601 | turning the mode on reaches every call in progress through that handle that has not been decided, asleep or not, whatever the scheduler, other handles and spurious wakeups do |
| MqMonitor.NobodySleepsThroughInterrupt | src/ipc/transport/bipc_mq_handle.cpp:585-598 | in every reachable state no thread of a handle sleeps in a direction whose interrupt mode is on |
| BipcMqHandle.EnvironmentStep | src/ipc/transport/bipc_mq_handle.cpp:745-840 | what other threads do leaves this thread's position, except for being roused, and its own pushes and pops alone |
| BipcMqTurns.CallUsesUp | src/ipc/transport/bipc_mq_handle.cpp:627-880 | a finished wait has used up a front part of the schedule and nothing else |
| BipcMqTurns.TransmissionUsesUp | src/ipc/transport/bipc_mq_handle.cpp:200-260 | so has a finished send or receive |
| BipcMqTurns.InterruptedCall | src/ipc/transport/persistent_mq_handle.hpp:619-622 | with the mode on, and while nobody turns it off, a wait is over at its first turn, interrupted, without having slept |
| BipcMqTurns.FirstTurnIsFirst | src/ipc/transport/bipc_mq_handle.cpp:746 | a thread's first turn is the first moment of the schedule at which the mutex is free and it is awake, with all before it done by the others |
| BipcMqTurns.SleeperAtItsTurn | src/ipc/transport/bipc_mq_handle.cpp:771-829 | what a woken thread does at each of its turns, in plain terms: interrupted if the mode is on, done if the queue is no longer starved or its deadline has passed, in that order, otherwise asleep again |
| BipcMqTurns.CallAtItsTurn | src/ipc/transport/bipc_mq_handle.cpp:746-771 | what a wait does at its first turn, in plain terms: interrupted if the mode is on, done if the queue is not starved or it is a poll, otherwise counted and asleep |
| BipcMqTurns.TransmissionAtItsTurn | src/ipc/transport/bipc_mq_handle.cpp:200-455 | what a send or receive does at its next turn, in plain terms: done with one message pushed or popped if there is room or a message, otherwise over to the wait and back if that says so |
| BipcMqTurns.InterruptedTransmission | src/ipc/transport/bipc_mq_handle.cpp:236-260 | with the mode on and staying on, library exceptions apart, a send or receive never sleeps; it succeeds if it finds room or a message at its turn, and is interrupted at its next one if and only if it does not |
| BipcMqTurns.TimesOut | src/ipc/transport/bipc_mq_handle.cpp:480-534 | on a concrete schedule on which the deadline passes while the thread sleeps, a timed receive is bound to report a timeout |
| BipcMqHandle.TimeOut | src/ipc/transport/bipc_mq_handle.cpp:457-535 | a run of a timed receive that reports a timeout |
| TimedWaits.BudgetNeverExceedsTimeLeft | src/ipc/transport/bipc_mq_handle.cpp:292-339 | for any number of lost races the timeout handed to a wait is at most the time really left at the clock reading before it; it is exactly that if and only if the clock had not moved at any earlier reading |
| TimedWaits.TakenAtLeastLast | src/ipc/transport/bipc_mq_handle.cpp:318 | what has been taken off the budget is at least the time since the start, and is nothing if and only if the clock has not moved |
| TimedWaits.LapEnds | src/ipc/transport/bipc_mq_handle.cpp:314-338 | subtracting the elapsed time, waiting and reading the clock again keeps the budget at the timeout less all readings |
| BipcMqHandle.SharedQueue.AwaitTurn | src/ipc/transport/bipc_mq_handle.cpp:746 | the thread gets its turn at the first moment at which the mutex is free and it is awake, in the state the others have then made; without one it was kept from it throughout |
| BipcMqHandle.SharedQueue.AcquireMutex | src/ipc/transport/bipc_mq_handle.cpp:746 | the mutex is obtained exactly at the first moment at which it is free and the thread awake, on entry or out of the condition variable, with all done a run of the step system |
| BipcMqHandle.SharedQueue.CondWait | src/ipc/transport/bipc_mq_handle.cpp:778-794 | the condition variable's wait gives the mutex up and returns with it exactly at the sleeper's next turn, or throws with it exactly when the library does |
| BipcMqHandle.SharedQueue.TestAtOnce | src/ipc/transport/bipc_mq_handle.cpp:748-771 | the first tests, interruption before readiness: waits, counted, exactly if neither holds and it is no poll |
| BipcMqHandle.SharedQueue.TestAfterWait | src/ipc/transport/bipc_mq_handle.cpp:780-822 | after a wakeup the step of the system, no other: interrupted, unstarved or with its deadline passed it is decided and off the counter, otherwise it goes on waiting |
| BipcMqHandle.SharedQueue.CatchClause | src/ipc/transport/bipc_mq_handle.cpp:824-828 | an exception takes the thread off the counter on its way out |
| BipcMqHandle.SharedQueue.WaitUntilDecided | src/ipc/transport/bipc_mq_handle.cpp:771-829 | at each of its turns a sleeper tests, and is decided or sleeps again: whether, how and when the loop ends, and in which state, is a function of the state and the schedule |
| BipcMqHandle.SharedQueue.Decision | src/ipc/transport/bipc_mq_handle.cpp:745-840 | the whole critical section is a run of the step system from the lock to the decision, and its end that function of the state and the schedule |
| BipcMqHandle.SharedQueue.EndCall | src/ipc/transport/bipc_mq_handle.cpp:840-880 | the outcome reported is the one decided, and was true of the state in which the mutex was given up |
| BipcMqHandle.SharedQueue.WaitImpl | src/ipc/transport/bipc_mq_handle.cpp:627-880 | the result and error code were true at the moment the critical section ended, a timeout including that the deadline passed in this call; a call that finds at its first turn the mode on, the queue unstarved or nothing to wait for ends there, the mode coming first; an untimed wait without error reports true; whether and how it ends, in which state and after how much of the schedule is a function of state and schedule; unfinished means asleep and not interrupted, kept from the mutex, or without a turn; the library's exception only if the library throws |
| BipcMqHandle.SharedQueue.InterruptAllowImpl | src/ipc/transport/bipc_mq_handle.cpp:538-604 | done exactly at the thread's next turn; the mode ends as asked, the result says whether it changed, a repeated call changes nothing at all, and after turning it on no thread of that handle and direction is asleep |
| BipcMqHandle.SharedQueue.TryPush | src/ipc/transport/bipc_mq_handle.cpp:154-198 | done exactly at the thread's next turn: one copy pushed if and only if fewer messages than the capacity are outstanding in the history, none if not; a message too long is an error, and so is any other exception of the library, with nothing pushed |
| BipcMqHandle.SharedQueue.TryPop | src/ipc/transport/bipc_mq_handle.cpp:342-387 | done exactly at the thread's next turn: a message popped if and only if not every pushed one has been, and then the oldest of those; a buffer below the maximal message size is an error, and so is any other exception of the library, with nothing popped |
| BipcMqHandle.SharedQueue.Send | src/ipc/transport/bipc_mq_handle.cpp:200-260 | exactly one copy is pushed if success is reported and none otherwise, over any number of lost races; success if there is room at the next turn; an interrupt was true when reported; other errors come only from the library's exceptions; it tries again after every wait that reports room, and whether, how and when it ends is a function of state and schedule; unfinished means asleep, kept from the mutex, or without a turn |
| BipcMqHandle.SharedQueue.Receive | src/ipc/transport/bipc_mq_handle.cpp:389-455 | the mirror image of Send: exactly one message is popped if success is reported and none otherwise, with the end a function of state and schedule |
| BipcMqHandle.SharedQueue.SendLap | src/ipc/transport/bipc_mq_handle.cpp:292-339 | one round: the wait gets the timeout less all clock readings so far, and the clock is read after a wait that reported ready and before the next |
| BipcMqHandle.SharedQueue.TimedSend | src/ipc/transport/bipc_mq_handle.cpp:262-340 | as Send; reporting a timeout means that the last wait's deadline passed and the queue was full and the mode off at its end; the clock is read at the start and once between any two waits, and each wait gets the timeout less the sum of the times read; whether it succeeds, times out, is interrupted or goes on is a function of state and schedule |
| BipcMqHandle.SharedQueue.TimedReceive | src/ipc/transport/bipc_mq_handle.cpp:457-535 | the mirror image of TimedSend |
| NativeSocketStreamAcceptor.Acceptor.FinishFrontRequest | src/ipc/transport/native_socket_stream_acceptor.cpp:446-474 | the front request's handler runs once, not nested, is told the request's answer, and the request is gone; the requests it makes are posted |
| NativeSocketStreamAcceptor.Acceptor.FeedErrorResultToDeficit | src/ipc/transport/native_socket_stream_acceptor.cpp:446-461 | all waiting requests get the fatal error, which stays in the results queue |
| NativeSocketStreamAcceptor.Acceptor.FeedSuccessResultToDeficit | src/ipc/transport/native_socket_stream_acceptor.cpp:463-474 | the front request gets the next accepted peer |
| NativeSocketStreamAcceptor.Acceptor.FinalizeQSurplusOnError | src/ipc/transport/native_socket_stream_acceptor.cpp:389-415 | steady state is regained after a fatal error; the size assertions hold |
| NativeSocketStreamAcceptor.Acceptor.FinalizeQSurplusOnSuccess | src/ipc/transport/native_socket_stream_acceptor.cpp:417-444 | steady state is regained after a new peer; the size assertions hold |
| NativeSocketStreamAcceptor.Acceptor.OnNextPeerSocketOrError | src/ipc/transport/native_socket_stream_acceptor.cpp:192-319 | any completion of the background accept keeps: at most one queue non-empty, both what is left of the two streams, an error only last and only when listening has stopped |
| NativeSocketStreamAcceptor.Acceptor.TakeUpRequest | src/ipc/transport/native_socket_stream_acceptor.cpp:329-386 | the first posted request joins the deficit or is answered from the surplus at once; steady state is kept |
| NativeSocketStreamAcceptor.Acceptor.Turn | src/ipc/transport/native_socket_stream_acceptor.cpp:192-387 | each request, taking up and completion does what it would do without queues: the requests that have become answerable are answered in order and their handlers' requests follow |
| NativeSocketStreamAcceptor.Acceptor.Run | src/ipc/transport/native_socket_stream_acceptor.cpp:192-387 | on any schedule, handlers that make requests included, the requests made, those taken up and the completions heard are the function of the schedule that knows no queues |
| NativeSocketStreamAcceptor.Acceptor.Poll | src/ipc/transport/native_socket_stream_acceptor.cpp:165-173 | the destructor's poll ends, with everything posted taken up, what handlers post meanwhile included, in the order the schedule determines |
| NativeSocketStreamAcceptor.Acceptor.Drain | src/ipc/transport/native_socket_stream_acceptor.cpp:178-185 | every request still waiting is told of the shutdown, so that all handlers run are the requests zipped with their answers; what those handlers ask for is exactly what is left over |
| NativeSocketStreamAcceptor.Acceptor.Lifetime | src/ipc/transport/native_socket_stream_acceptor.cpp:137-474 | from construction to the end of destruction, over requests determined by the schedule alone: request i is told peer i if so many were accepted, otherwise the fatal error if there was one, otherwise the shutdown, each exactly once and in order; none is left over if and only if no request still waiting at the shutdown reacts to it with a request |
| NativeSocketStreamAcceptor.WhatIsAccepted | src/ipc/transport/native_socket_stream_acceptor.cpp:192-319 | by the completions alone: the accepted peers are those of exactly the connections before the first failure that is not an aborted connection, in order; the fatal error is that failure, none if it is the abort of the operation at shutdown |
| NativeSocketStreamAcceptor.UntilFailure | src/ipc/transport/native_socket_stream_acceptor.cpp:213-218 | the acceptor listens on after a connection and after an aborted one, and after nothing else |
| NativeSocketStreamAcceptor.AnswersInPlainTerms | src/ipc/transport/native_socket_stream_acceptor.cpp:137-474 | request i of a life is told, by the completions alone, the i-th connection before the first failure other than an aborted connection, or that failure, or the shutdown |
| NativeSocketStreamAcceptor.AbortedThenAccepted | src/ipc/transport/native_socket_stream_acceptor.cpp:213-218 | a concrete schedule: a request, an aborted connection, a connection; the request is bound to get the peer |
| NativeSocketStreamAcceptor.AcceptAfterAbort | src/ipc/transport/native_socket_stream_acceptor.cpp:213-218 | a life of an acceptor on that schedule, in which it does |
| NativeSocketStreamAcceptor.ReactionQueuesUp | src/ipc/transport/native_socket_stream_acceptor.cpp:321-387 | a concrete schedule on which the handler of the first of two requests makes a third: it is bound to get the third peer, behind the request made before it |
| NativeSocketStreamAcceptor.QueueUpBehind | src/ipc/transport/native_socket_stream_acceptor.cpp:321-387 | a life of an acceptor on that schedule, in which it does |
| NativeSocketStreamAcceptor.RequestsOfALife | src/ipc/transport/native_socket_stream_acceptor.cpp:137-387 | for every schedule the requests so determined are the users' and those of the handlers answered before the shutdown, shuffled together with each in its order: none dropped, none made up |
| NativeSocketStreamAcceptor.InertRequests | src/ipc/transport/native_socket_stream_acceptor.cpp:137-387 | if no handler makes requests, the requests are the users' in order and none is left over |
| NativeSocketStreamAcceptor.SettlingShrinks | src/ipc/transport/native_socket_stream_acceptor.cpp:165-173 | taking up a posted request lowers the work left, whatever its handler asks for |
| NativeSocketStreamAcceptor.Acceptor.NothingPostponed | src/ipc/transport/native_socket_stream_acceptor.cpp:321-387 | in steady state exactly the requests that can be answered have been |
| NativeSocketStreamAcceptor.LateReactions | src/ipc/transport/native_socket_stream_acceptor.cpp:178-185 | no request is left over if and only if none that has to wait for the shutdown reacts to it with a request |
| NativeSocketStreamAcceptor.LateReactionIsPossible | src/ipc/transport/native_socket_stream_acceptor.cpp:178-185 | a concrete schedule, the requests it determines, and the one left over |
| NativeSocketStreamAcceptor.LoseARequest | src/ipc/transport/native_socket_stream_acceptor.cpp:178-185 | a life of an acceptor on that schedule, at the end of which a posted request remains whose handler never runs |
| NativeSocketStreamAcceptor.PeerArrives | src/ipc/transport/native_socket_stream_acceptor.cpp:294-303 | no answer given so far changes when a peer arrives |
| NativeSocketStreamAcceptor.ErrorArrives | src/ipc/transport/native_socket_stream_acceptor.cpp:221-240 | no answer given so far changes when the fatal error arrives |
| NativeSocketStreamAcceptor.AnsweringIsWork | src/ipc/transport/native_socket_stream_acceptor.cpp:165-173 | answering a request lowers the work left even if its handler makes new requests |
| NativeSocketStreamAcceptor.DeliveredOf | src/ipc/transport/native_socket_stream_acceptor.cpp:463-474 | the peers handed out are the first accepted ones, in order |
| NativeSocketStreamAcceptor.StoredOf | src/ipc/transport/native_socket_stream_acceptor.cpp:294-303 | the peers stored are the remaining accepted ones, in order |
| NativeSocketStreamAcceptor.Acceptor.PeersAccountedFor | src/ipc/transport/native_socket_stream_acceptor.cpp:192-474 | until teardown the peers handed out followed by those stored are all accepted peers |
| SharedNames.CollapseKeepsSurvivors | src/ipc/util/shared_name.cpp:221-335 | collapsing keeps exactly the characters that are no separator or the first of their run, in order |
| SharedNames.SanitizeInPlainTerms | src/ipc/util/shared_name.cpp:221-335 | verdict and result by the listed characters, the number 75 and the positions kept, without reference to the collapse function |
| SharedNames.LegalCharacters | src/ipc/util/shared_name.cpp:197 | the legal characters are the letters A to Z and a to z, the digits, _ and /, and no others |
| SharedNames.CollapseIsCanonical | src/ipc/util/shared_name.cpp:175-219 | a collapsed name has one separator character only and never two in a row |
| SharedNames.CollapseLegal | src/ipc/util/shared_name.cpp:276-282 | collapsing neither hides nor adds illegal characters |
| SharedNames.CanonicalIsFixed | src/ipc/util/shared_name.cpp:312-324 | nothing changes in a name that has nothing to collapse |
| SharedNames.CollapseFront | src/ipc/util/shared_name.cpp:221-335 | collapsing a front part first makes no difference to the whole |
| SharedNames.CollapseBack | src/ipc/util/shared_name.cpp:221-335 | nor does collapsing a back part first |
| SharedNames.CollapsePrefixIsShorter | src/ipc/util/shared_name.cpp:261-269 | the output of a prefix is never longer than that of the whole |
| SharedNames.TooLong | src/ipc/util/shared_name.cpp:261-269 | a full output with a character still to be written means that the name cannot be sanitized, so giving up early is right |
| SharedNames.SkipRun | src/ipc/util/shared_name.cpp:284-309 | reading on through a run of separators adds nothing to the output |
| SharedNames.OneOutput | src/ipc/util/shared_name.cpp:272-325 | reading one character or one run, and overwriting what was already read, makes the output the collapse of what was read and leaves the unread part alone |
| SharedNames.SharedName.Sanitize | src/ipc/util/shared_name.cpp:221-335 | true if and only if all characters are among the 64 listed and the characters that do not repeat a separator are at most 75; the name is then those characters with / spelled _, and otherwise exactly the original |
| SharedNames.SharedName.WriteOut | src/ipc/util/shared_name.cpp:312-324 | after a write there is a backup of the original unless nothing has changed or nothing can fail any more |
| SharedNames.SharedName.Undo | src/ipc/util/shared_name.cpp:246-254 | the original is restored |
| SharedNames.SharedName.EndOfRun | src/ipc/util/shared_name.cpp:294-308 | the last position of a run of separators, and whether the name ends there |
| SharedNames.FindFirstNonSeparator | src/ipc/util/shared_name.cpp:296 | the first position that is no separator, or none |
| SharedNames.SharedName.Sanitized | src/ipc/util/shared_name.cpp:175-219 | true if and only if the name has at most 75 characters, all among those listed but /, and no two _ in a row |
| SharedNames.SharedName.Absolute | src/ipc/util/shared_name.cpp:165-168 | true if and only if the name begins with the separator |
| SharedNames.SharedName.AppendFolder | src/ipc/util/shared_name.hpp:695-705 | the argument is appended after a separator |
| SharedNames.SanitizeReportsSanitized | src/ipc/util/shared_name.cpp:175-335 | what sanitize() returns is what sanitized() says of the name it leaves |
| SharedNames.SanitizedIffFixed | src/ipc/util/shared_name.cpp:175-335 | the sanitized names are exactly those accepted unchanged |
| SharedNames.SanitizeIsIdempotent | src/ipc/util/shared_name.cpp:221-335 | a second call changes nothing and says the same |
| SharedNames.SanitizeThenJoin | src/ipc/util/shared_name.hpp:695-705 | sanitizing two fragments before joining them changes neither the verdict on the join nor its sanitized form, whether or not the fragments could be sanitized |
| SharedNames.CleanAppend | src/ipc/util/shared_name.cpp:175-219 | a concatenation is clean if and only if both parts are and no separators meet |
| SharedNames.ConventionalNameIsSanitized | src/ipc/util/shared_name.cpp:337-351 | a conventional name is _libipc_, the resource type and _0_0_0, and is sanitized if and only if the resource type is, is not empty, has at most 61 characters and no separator at either end |
| SharedNames.PersistentObjects.RemoveEachIf | src/ipc/util/shared_name.hpp:739-760 | the survivors are the names not matched and those whose removal failed; the count is the drop in their number |
| SharedNames.PersistentObjects.RemoveEachWithNamePrefix | src/ipc/util/shared_name.hpp:762-789 | the same for names with a given prefix, an empty one matching all |
| PosixMqHandle.DisappearanceNeedsUnlink | src/ipc/transport/posix_mq_handle.cpp:203-224 | a name that vanishes between two attempts was unlinked by somebody |
| PosixMqHandle.MqHandle.DoMqOpen | src/ipc/transport/posix_mq_handle.cpp:138-170 | one attempt: a descriptor or an error, and what the error says about the name at that moment |
| PosixMqHandle.MqHandle.OpenOrCreateLap | src/ipc/transport/posix_mq_handle.cpp:186-230 | one lap is final, or leaves nothing behind and was undone by an unlink of somebody else between its two attempts |
| PosixMqHandle.MqHandle.OpenOrCreateLoop | src/ipc/transport/posix_mq_handle.cpp:181-238 | ends against any other processes, with no more retries than they performed unlinks; at most one descriptor is obtained; permissions are set once if this call created the queue and never otherwise; success if and only if the code is clear; neither "exists" nor "no such name" is ever the final code, so without a system fault it succeeds |
| PosixMqHandle.MqHandle.OpenCreateOnly | src/ipc/transport/posix_mq_handle.cpp:172-180 | a descriptor only for a queue this call created, its permissions set once |
| PosixMqHandle.MqHandle.OpenQueue | src/ipc/transport/posix_mq_handle.cpp:172-241 | all three ways of opening: a descriptor without success if and only if setting permissions failed; opening only creates nothing, creating only never opens a queue it did not create; without system faults and other processes the code is exactly what the mode and the existence of the name call for, and the name exists afterwards unless it was missing and only to be opened |
| PosixMqHandle.MqHandle.ConnectDirection | src/ipc/transport/posix_mq_handle.cpp:381-391 | a new, empty pipe between the two ends of one direction, the other direction's untouched; or neither end |
| PosixMqHandle.MqHandle.PipeSetup | src/ipc/transport/posix_mq_handle.cpp:381-406 | two pipes, empty like the flags are off; or none, the first closed again once |
| PosixMqHandle.MqHandle.EpollSetupOne | src/ipc/transport/posix_mq_handle.cpp:430-481 | an epoll set watching the queue in its own direction and that direction's pipe; or the queue and the epoll set given up, each closed once, and all pipes with them if epoll_create1() failed, none if epoll_ctl() did |
| PosixMqHandle.MqHandle.FillEpoll | src/ipc/transport/posix_mq_handle.cpp:459-480 | an epoll set watching exactly the queue and the pipe of its direction, other epoll sets as before; or this epoll set and the queue closed once and null, the pipes left |
| PosixMqHandle.MqHandle.EpollSetup | src/ipc/transport/posix_mq_handle.cpp:408-497 | for every point of failure the queue and both epoll sets are all open or all null, and no descriptor is lost, closed twice or taken from anybody |
| PosixMqHandle.MqHandle.Construct | src/ipc/transport/posix_mq_handle.cpp:60-379 | success leaves a handle in working order; any failure leaves no epoll set, and the queue open if and only if setting permissions failed; no descriptor is lost or closed twice; without a system fault it fails only on an existing name when told to create, or a missing one when told to open, and without other processes exactly then; told to open it never creates |
| PosixMqHandle.MqHandle.ConstructOrThrow | src/ipc/transport/posix_mq_handle.cpp:260-285 | after a throw the open descriptors are those open before, plus the queue's own, held by nobody, if and only if setting permissions failed; whether it throws, and what it creates, is as for Construct |
| PosixMqHandle.LeakADescriptor | src/ipc/transport/posix_mq_handle.cpp:177 | a run in which the fourth system call fails, the constructor throws, and the queue's descriptor stays open |
| PosixMqHandle.MqHandle.Destroy | src/ipc/transport/posix_mq_handle.cpp:505-527 | the assertions hold if and only if the queue and both epoll sets are all open or all null; then everything held is closed, once |
| PosixMqHandle.MqHandle.Swap | src/ipc/transport/posix_mq_handle.cpp:549-618 | each handle gets everything the other had, flags and pipe ends included, by itself too; nothing is opened or closed |
| PosixMqHandle.MqHandle.MoveAssign | src/ipc/transport/posix_mq_handle.cpp:529-547 | the target gets all the source had and the source nothing but the target's flags; the target's pipes are closed; its queue and epoll descriptors, and no others, stay open with no owner; assigning to itself changes nothing |
| PosixMqHandle.ForgetADescriptor | src/ipc/transport/posix_mq_handle.cpp:535-538 | a run in which a working handle is moved onto another and the target's queue descriptor stays open with no owner |
| PosixMqHandle.MoveConstruct | src/ipc/transport/posix_mq_handle.cpp:499-503 | the new handle has all the old one had and works if that did; no descriptor is lost, duplicated or closed |
| PosixMqHandle.MqHandle.Interrupt | src/ipc/transport/posix_mq_handle.cpp:1083-1119 | the pipe holds one byte when the flag is on and none when off, in both directions; a repeated call changes nothing; the other direction is untouched |
| PosixMqHandle.MqHandle.Allow | src/ipc/transport/posix_mq_handle.cpp:1122-1160 | the inverse of Interrupt, with the same coupling; its read never blocks |
| PosixMqHandle.MqHandle.ReadyMeans | src/ipc/transport/posix_mq_handle.cpp:1219-1240 | what a wait may report: the queue if it is ready, the pipe if the flag is on, either one if both |
| PosixMqHandle.WakeMeaning | src/ipc/transport/posix_mq_handle.cpp:1219-1240 | whatever happens meanwhile, a wait reports the queue only if it is ready, the interrupt only if the flag is on, nothing only if neither holds and its time has passed (at once for a poll), and does not return only without a time limit; with something ready it looks no further |
| PosixMqHandle.WakesAtFirstReason | src/ipc/transport/posix_mq_handle.cpp:1219-1271 | a wait stops at the first reason to, and says which: before every earlier event the queue was not ready and the flag off, and none was a signal or the passing of its time; a signal is reported with its number, the passing of the time as neither; a poll does not wait at all |
| PosixMqHandle.InterruptIsSure | src/ipc/transport/posix_mq_handle.cpp:1219-1240 | with the mode on, a wait is sure to report it, whichever ready descriptor the kernel favours, if and only if the queue is not ready |
| PosixMqHandle.MissAnInterrupt | src/ipc/transport/posix_mq_handle.cpp:1223 | a run of a wait on a handle in interrupted mode that reports success |
| PosixMqHandle.MqHandle.EpollWait | src/ipc/transport/posix_mq_handle.cpp:1219-1232 | returns exactly when the events and the limit say so, with the event the kernel favours of those ready |
| PosixMqHandle.MqHandle.WaitImpl | src/ipc/transport/posix_mq_handle.cpp:1182-1271 | an interrupt is reported only with the flag on, success only with the queue ready, neither only if neither held and the time limit had passed; it ends at the first event that is a reason to, the passing of its time and signals included, and reports that one; it never returns only if the converted timeout is negative |
| PosixMqHandle.RoundIsNearest | src/ipc/transport/posix_mq_handle.cpp:1212-1216 | rounding to milliseconds gives the nearest, and the even one of two |
| PosixMqHandle.NegativeTimeoutsAreIndefinite | src/ipc/transport/posix_mq_handle.cpp:1200-1216 | up to some 24 days a timed wait has no time limit if and only if it is more than half a millisecond below zero |
| PosixMqHandle.LimitSurvives | src/ipc/transport/posix_mq_handle.cpp:1212-1216 | for every timeout, the number of milliseconds handed to epoll_wait() is the rounded timeout if and only if twice the timeout lies between -0x1_0000_0001 milliseconds, included, and 0xFFFF_FFFF, excluded |
| PosixMqHandle.LongTimeoutsWrap | src/ipc/transport/posix_mq_handle.cpp:1216 | two instances: a limit that comes out as none and one that comes out as a poll |
| PosixMqHandle.SensibleTimeoutsHold | src/ipc/transport/posix_mq_handle.cpp:1200-1216 | from zero up to some 24 days a timed wait has its limit |
| PosixMqHandle.LimitIsGone | src/ipc/transport/posix_mq_handle.cpp:860 | a wait of a timed operation has no time limit if and only if the timeout less all clock readings so far is more than half a millisecond below zero |
| PosixMqHandle.LostRacesCanRemoveTheTimeout | src/ipc/transport/posix_mq_handle.cpp:836-878 | on a schedule of two lost races, the clock showing 6 and 7 milliseconds, a timed send of 10 milliseconds is bound to hang |
| PosixMqHandle.HangInTimedSend | src/ipc/transport/posix_mq_handle.cpp:800-882 | a run of a timed send on a constructed handle that hangs |
| PosixMqHandle.RoundMeaning | src/ipc/transport/posix_mq_handle.cpp:836-878 | what one attempt and one wait can amount to, for every schedule; to be tried again only after something has happened |
| PosixMqHandle.RunsToItsTurn | src/ipc/transport/posix_mq_handle.cpp:836-838 | the others run on up to this thread's first turn, and no further |
| PosixMqHandle.RoundInPlainTerms | src/ipc/transport/posix_mq_handle.cpp:732-878 | an attempt that fails or succeeds ends the send as the system call does; one that would block is followed by a wait that ends at its first reason, and by another attempt if and only if the wait saw the queue; every other end of the wait, a signal's number included, is the end of the send |
| PosixMqHandle.SendInPlainTerms | src/ipc/transport/posix_mq_handle.cpp:732-878 | both kinds of send are such rounds, one after the other: with no limit, or each with the timeout less all clock readings so far |
| PosixMqHandle.LapMeaning | src/ipc/transport/posix_mq_handle.cpp:836-878 | each round keeps the budget at the timeout less all readings, and ends the send only in keeping with the state it leaves |
| PosixMqHandle.MqHandle.SendRound | src/ipc/transport/posix_mq_handle.cpp:836-878 | one attempt and one wait: done, with one copy sent exactly on success; or to be tried again, with nothing sent; the wait is recorded with the timeout it gets |
| PosixMqHandle.MqHandle.Send | src/ipc/transport/posix_mq_handle.cpp:732-798 | comes back only with exactly one copy sent, or with an error or an interrupt and none sent; while it does not come back the queue is full and the mode off; an error is the number of a fault of this call or of a signal that came; how it ends is a function of what the others do |
| PosixMqHandle.InterruptedSend | src/ipc/transport/persistent_mq_handle.hpp:619-622 | with the mode on, and while nobody turns it off, a send never sleeps and is never repeated; it succeeds if it finds room, and is interrupted if and only if the queue is full when it tries |
| PosixMqHandle.MqHandle.TimedSend | src/ipc/transport/posix_mq_handle.cpp:800-882 | exactly one copy is sent on success and none otherwise; the clock is read at the start and once between any two waits, and each wait gets the timeout less all times read; how it ends is a function of what the others and the clock do; an error is the number of a fault of this call or of a signal that came; with a timeout from zero to some 24 days it never hangs in its first wait |
| Channel.FirstFailureMeaning | src/ipc/transport/channel.hpp:762-768 | the code to report is success if and only if all completions succeeded, and otherwise that of the first to fail |
| Channel.FirstOfTwo | src/ipc/transport/channel.hpp:1714-1721 | of two completions the first failure is the first one's if it failed |
| Channel.BothFinish | src/ipc/transport/channel.hpp:1689-1739 | on which schedules a pipe's completion takes place: one that was asked and fires |
| Channel.CompletionsAreFirstFirings | src/ipc/transport/channel.hpp:1689-1739 | the completions that take place are exactly those of the first firings of the pipes asked, code and all, in the order of the schedule |
| Channel.CodeOfTheEarlier | src/ipc/transport/channel.hpp:1711-1721 | by the schedule alone: with p the first firing of the one pipe and q the first of the other since it was asked, exactly these two complete, the earlier first, and the code is success if both succeeded and that of the earlier failure if not |
| Channel.WhenDue | src/ipc/transport/channel.hpp:1699-1739 | by the schedule alone: the user is called if and only if a handler goes on to do so after the one pipe has fired and the other has since it was asked |
| Channel.TheOther | src/ipc/transport/channel.hpp:1788-1803 | with one pipe finished at once, the code is its own if it failed and otherwise that of the other's first firing |
| Channel.BothOfThem | src/ipc/transport/channel.hpp:1788-1803 | with both deferred, the code is that of the earlier failure among the two first firings, success if neither failed |
| Channel.Ending.CombinedOnDone | src/ipc/transport/channel.hpp:1699-1722 | the critical section of a handler: the second to enter leaves with the first failure in its hand |
| Channel.OnePipeAlone | src/ipc/transport/channel.hpp:1727-1736 | while only one pipe has been asked nobody calls the user |
| Channel.Ending.AsyncEndSending | src/ipc/transport/channel.hpp:1632-1740 | on every interleaving, a first completion before the second pipe is asked included: the user's handler runs exactly once if and only if the schedule has both pipes fire after being asked and then a handler go on to call; it is told of success if both first firings succeeded and of the earlier failure if not; otherwise, and for a duplicate call, it never runs |
| Channel.SyncEnding.CombinedOnDone | src/ipc/transport/channel.hpp:1788-1803 | the handler of a deferred completion: the last one calls the user with the first failure in order of time |
| Channel.SyncEnding.AsyncEndSending | src/ipc/transport/channel.hpp:1744-1861 | two immediate completions: the first one's code if it failed, otherwise the second's, is written, or thrown if there is no target and it is a failure, and no handler remains; otherwise nothing is written or thrown |
| Channel.SyncEnding.Whole | src/ipc/transport/channel.hpp:1744-1861 | over all combinations of immediate and deferred completion and all orders, in terms of answers and schedule alone: the user's handler never runs for two immediate ones, and otherwise runs once if and only if every deferred pipe fires, told of the failure that came first, an immediate one before a deferred one, or of success if there was none |
| AsioLocalStreamSocket.NbWriteSome | src/ipc/transport/asio_local_stream_socket.cpp:144-198 | a front part of the blob, with the handle on its first byte; or nothing and would-block or the kernel's error, whichever it was |
| AsioLocalStreamSocket.NbReadSome | src/ipc/transport/asio_local_stream_socket.cpp:200-413 | on every error no bytes and a null handle; the unexpected-payload code if and only if the control data was cut short, was not one handle, or was more than that; otherwise the bytes in order and the handle if it came with the first |
| AsioLocalStreamSocket.LayoutExists | src/ipc/transport/asio_local_stream_socket_fwd.hpp:395-441 | any messages have a layout as one stream |
| AsioLocalStreamSocket.ReadStaysInside | src/ipc/transport/asio_local_stream_socket_fwd.hpp:410-441 | a read that asks for no more than the rest of the message gets bytes of that message only, and the handle if and only if it reads the first |
| AsioLocalStreamSocket.WriteContinues | src/ipc/transport/asio_local_stream_socket_fwd.hpp:410-441 | a partial write continues the stream where it stood |
| AsioLocalStreamSocket.BeforeTheEnd | src/ipc/transport/asio_local_stream_socket_fwd.hpp:410-441 | a message not yet complete means bytes still to come |
| AsioLocalStreamSocket.Transfer.Write | src/ipc/transport/asio_local_stream_socket_fwd.hpp:410-425 | the sender advances by what was taken, and the stream under way stays what lies between the two ends |
| AsioLocalStreamSocket.Transfer.Read | src/ipc/transport/asio_local_stream_socket_fwd.hpp:425-441 | the receiver advances by what it got, and what it has is what was sent |
| AsioLocalStreamSocket.Transfer.Take | src/ipc/transport/asio_local_stream_socket_fwd.hpp:425-441 | a piece is added to the message it belongs to, which is complete with its last byte |
| AsioLocalStreamSocket.Transfer.Play | src/ipc/transport/asio_local_stream_socket_fwd.hpp:395-441 | for every pattern of partial writes, partial reads, would-blocks and failures the messages received, handle and blob, are the first of those sent; every accepted write and read, up to what stops that end, brings the transfer at least a byte further until it is complete; the end is seen only after everything written; the unexpected-payload code never arises |
| AsioLocalStreamSocket.Transfer.Deliver | src/ipc/transport/asio_local_stream_socket_fwd.hpp:395-441 | after as many accepted writes as there are bytes, and then as many accepted reads, exactly the sent messages have been received |
| AsioLocalStreamSocket.EffectiveSteps | src/ipc/transport/asio_local_stream_socket_fwd.hpp:410-441 | the accepted steps that count are all those before that end's first fatal error, or for the sender its closing |
| ProtocolNegotiator.DocumentedRuleAgrees | src/ipc/transport/protocol_negotiator.hpp:58-97 | the documented rule: with a common version both sides settle on the highest, and exactly one gives up if and only if there is none |
| ProtocolNegotiator.DepartsExactlyWhen | src/ipc/transport/protocol_negotiator.cpp:108-116 | the code departs from the documented rule if and only if the other side's maximum is below ours and not below our minimum |
| ProtocolNegotiator.OpposedSides | src/ipc/transport/protocol_negotiator.cpp:98-124 | two sides running the code end as documented if and only if their maxima are equal or they have no common version; otherwise the newer one settles on a version the older does not speak; exactly one gives up if and only if there is none |
| ProtocolNegotiator.OlderPeerIsNotMet | src/ipc/transport/protocol_negotiator.cpp:115 | two concrete ranges with common version 1 for which the newer side settles on 2 |
| ProtocolNegotiator.FirstLearnedStays | src/ipc/transport/protocol_negotiator.cpp:78-85 | once a maximum has been learned, nothing but a reset changes which one counts |
| ProtocolNegotiator.EpochGrows | src/ipc/transport/protocol_negotiator.cpp:62-66 | what each operation does to the current epoch; a reset begins a new one |
| ProtocolNegotiator.EpochIsTheRest | src/ipc/transport/protocol_negotiator.cpp:62-66 | the current epoch is what was done since the last reset, in order |
| ProtocolNegotiator.EachEpochOnce | src/ipc/transport/protocol_negotiator.cpp:130-141 | the epochs that ask for the maximum are as many as there are requests for it that are the first since the last reset |
| ProtocolNegotiator.FirstLearnedMeans | src/ipc/transport/protocol_negotiator.cpp:78-85 | the maximum that counts is the first one learned since the last reset |
| ProtocolNegotiator.Negotiator.ComputeNegotiatedProtoVer | src/ipc/transport/protocol_negotiator.cpp:73-128 | settles once, on our own maximum if the other's is positive and not below our minimum and on 0 otherwise, with the error code for an invalid or too old maximum; a settled value stays and the call says so; without an error the code given is left as it was |
| ProtocolNegotiator.Negotiator.LocalMaxProtoVerForSending | src/ipc/transport/protocol_negotiator.cpp:130-141 | the maximum the first time, "unknown" after that |
| ProtocolNegotiator.Negotiator.MoveAssign | src/ipc/transport/protocol_negotiator.cpp:51-60 | the target becomes what the source was, the source starts over with its range; assigning to itself changes nothing |
| ProtocolNegotiator.Negotiator.Play | src/ipc/transport/protocol_negotiator.cpp:62-141 | over any run the maximum is handed out exactly as often as there are requests for it that are the first since the last reset, and nothing else is; the version settled on is that of the first maximum learned since the last reset, our own maximum if that is valid and not below our minimum and 0 otherwise, and -1 if none was learned |
| ProtocolNegotiator.Session | src/ipc/transport/protocol_negotiator.hpp:77-97 | two opposed sides, any order of sending and reading: at most one maximum is ever under way in each direction, and a side has settled if and only if it has read after the other has sent, and then on the one value the two ranges determine |

## Left out

- Liveness: that a thread roused by a single notification among competing waiters ever makes progress depends on the library and the scheduler. What is proved is safety, absence of deadlock and, for an interrupted call, a bound on its own moves.
- Exact deadlines of the timed operations, for the reason given under "Where the code and its documentation differ"; what is proved is the arithmetic of the budgets.
- BipcMqHandle.SharedQueue.TryPush: boost.interprocess's own push and pop are taken to be indivisible under the same mutex, as the comment at src/ipc/transport/bipc_mq_handle.cpp:592-597 describes; all exceptions of the library other than the size error are one error code, thrown in whatever turns the schedule says, and messages have priority 0.
- BipcMqHandle.SharedQueue: the names `finished` and `schedule` have no counterpart; a call not finished when the schedule is used up is one still in progress. That a deadline passes when the clock says so is not modelled: a sleeper's deadline may pass at any time. Moving and swapping handles of this kind (src/ipc/transport/bipc_mq_handle.cpp:120-140) are not modelled.
- PosixMqHandle.MqHandle.TimedSend: the receiving loops of the POSIX handle (src/ipc/transport/posix_mq_handle.cpp:884-1080) have the same shape as the sending ones and are not repeated; the contents of a received message are not modelled.
- PosixMqHandle.MqHandle.WaitImpl: which of two ready descriptors epoll_wait() reports is an input of the model, the same for all calls on one kernel; all statements hold for both.
- NativeSocketStreamAcceptor.Acceptor.Lifetime: a request carries the further requests its handler makes as a finite tree, so handlers that ask for ever more at each answer, without end, are not captured; a handler that calls the destructor is outside the contract.
- Channel: over one pipe the calls are forwarded as they are; `init_*_pipe`, `initialized()` and `async_io_obj` would only add easy members (their two-argument forms accept a second call, src/ipc/transport/channel.hpp:1458-1469 and 1495-1507, although lines 627-629 say they do not). The second pipe giving another answer to a duplicate call than the first is documented as undefined.
- AsioLocalStreamSocket.NbReadSome: what the kernel does with a handle in the middle of a read is left open, as the documentation leaves it; message flags other than a truncation of control data are only logged in the source; closing descriptors that were received is not modelled.
- ProtocolNegotiator.Negotiator.ComputeNegotiatedProtoVer: the form that throws when no place for an error code is given.
- Names: the operators that return new values (their in-place forms are modelled), comparison, hashing, streaming and parsing.
- Pure forwarding (`Native_socket_stream`, the blob streams over message queues), the asynchronous read and write loops, whose handlers are not part of this model, credentials, permissions tables, error categories and messages, logging.
