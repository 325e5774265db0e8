/**
 The step system behind `Bipc_mq_handle::wait_impl` and `interrupt_allow_impl`: any number of threads and
 handles share one mutex, two condition variables, two counters of blocked threads and a bounded queue.

 One action is one indivisible move of one thread: a stretch of code run under the mutex, going to sleep,
 being roused, or the environment rousing or expiring a sleeper.  Whatever the scheduler does is a sequence
 of such actions, so a statement about every run is a statement about every schedule.
 */
module MqMonitor {

  type ThreadId = nat
  type HandleId = nat
  type Message = seq<bv8>

  datatype Direction = Snd | Rcv

  datatype WaitType = Poll | Wait | TimedWait

  /** How a call of wait_impl ends: `not_starved` true or false, S_INTERRUPTED, or an exception of the library. */
  datatype Outcome = Unstarved | StillStarved | Interrupted | LibraryThrew

  /** One call of wait_impl: through which handle, in which direction, and with which kind of waiting. */
  datatype Op = Op(handle: HandleId, dir: Direction, waitType: WaitType)

  /** Where a thread stands with respect to the shared state. */
  datatype Pc =
    | Outside                            // running code that does not wait on the queue
    | Entering(op: Op)                   // about to take the mutex for the first time
    | Deciding(op: Op)                   // took it; nothing tested yet
    | Counted(op: Op)                    // holds it, is counted as blocked, about to call the condition variable
    | Asleep(op: Op)                     // inside the condition variable's wait; the mutex is released
    | Roused(op: Op, expired: bool)      // taken off the condition variable; wants the mutex back
    | Resumed(op: Op, expired: bool)     // has it back; nothing tested yet
    | Unwinding(op: Op)                  // an exception is on its way to the catch clause; mutex held
    | Leaving(op: Op, outcome: Outcome)  // decided; the lock's scope is about to end
    | Returned(op: Op, outcome: Outcome) // mutex released, call over

  datatype Owner = Free | HeldBy(thread: ThreadId)

  datatype Event = Pushed(thread: ThreadId, message: Message) | Popped(thread: ThreadId, message: Message)

  /** The shared memory, the flags of all handles, and the position of every thread. */
  datatype State = State(
    capacity: nat,
    queue: seq<Message>,
    mutex: Owner,
    blockedSenders: int,
    blockedReceivers: int,
    interrupting: set<(HandleId, Direction)>,
    pcs: map<ThreadId, Pc>,
    log: seq<Event>)

  datatype Action =
    | Call(thread: ThreadId, op: Op)
    | Lock(thread: ThreadId)
    | Decide(thread: ThreadId)
    | Sleep(thread: ThreadId)
    | Rouse(thread: ThreadId)            // notified by the other side, or spuriously
    | Expire(thread: ThreadId)           // the deadline of a timed wait passed
    | Recheck(thread: ThreadId)
    | Throw(thread: ThreadId)
    | Unwind(thread: ThreadId)
    | Unlock(thread: ThreadId)
    | Finish(thread: ThreadId)
    | TrySend(thread: ThreadId, message: Message)
    | TryReceive(thread: ThreadId)
    | SetInterrupt(thread: ThreadId, handle: HandleId, dir: Direction, on: bool)

  predicate Starved(s: State, dir: Direction) {
    match dir
    case Snd => |s.queue| == s.capacity
    case Rcv => s.queue == []
  }

  predicate Interrupting(s: State, op: Op) {
    (op.handle, op.dir) in s.interrupting
  }

  function Blocked(s: State, dir: Direction): int {
    match dir
    case Snd => s.blockedSenders
    case Rcv => s.blockedReceivers
  }

  function AddBlocked(s: State, dir: Direction, delta: int): State {
    match dir
    case Snd => s.(blockedSenders := s.blockedSenders + delta)
    case Rcv => s.(blockedReceivers := s.blockedReceivers + delta)
  }

  function Move(s: State, t: ThreadId, pc: Pc): State {
    s.(pcs := s.pcs[t := pc])
  }

  /** The mutex is held from a successful Lock to Sleep or Unlock. */
  predicate InCriticalSection(pc: Pc) {
    pc.Deciding? || pc.Counted? || pc.Resumed? || pc.Unwinding? || pc.Leaving?
  }

  /** Between the increment and the decrement of the counter of its direction. */
  predicate CountedIn(pc: Pc, dir: Direction) {
    (pc.Counted? || pc.Asleep? || pc.Roused? || pc.Resumed? || pc.Unwinding?) && pc.op.dir == dir
  }

  predicate Enabled(s: State, a: Action) {
    && a.thread in s.pcs
    && var pc := s.pcs[a.thread];
       match a
       case Call(_, _) => pc.Outside?
       case Lock(_) => s.mutex == Free && (pc.Entering? || pc.Roused?)
       case Decide(_) => pc.Deciding?
       case Sleep(_) => pc.Counted?
       case Rouse(_) => pc.Asleep?
       case Expire(_) => pc.Asleep? && pc.op.waitType == TimedWait
       case Recheck(_) => pc.Resumed?
       case Throw(_) => pc.Counted? || pc.Resumed?
       case Unwind(_) => pc.Unwinding?
       case Unlock(_) => pc.Leaving?
       case Finish(_) => pc.Returned?
       case TrySend(_, _) => pc.Outside? && s.mutex == Free
       case TryReceive(_) => pc.Outside? && s.mutex == Free
       case SetInterrupt(_, _, _, _) => pc.Outside? && s.mutex == Free
  }

  /** The first tests under the mutex: interruption first, then the queue; a starved waiter is counted. */
  function DecideStep(s: State, t: ThreadId, op: Op): State {
    if Interrupting(s, op) then Move(s, t, Leaving(op, Interrupted))
    else if !Starved(s, op.dir) then Move(s, t, Leaving(op, Unstarved))
    else if op.waitType == Poll then Move(s, t, Leaving(op, StillStarved))
    else Move(AddBlocked(s, op.dir, 1), t, Counted(op))
  }

  /** The tests after each return of the condition variable; every exit takes the thread off the counter. */
  function RecheckStep(s: State, t: ThreadId, op: Op, expired: bool): State {
    var uncounted := AddBlocked(s, op.dir, -1);
    if Interrupting(s, op) then Move(uncounted, t, Leaving(op, Interrupted))
    else if !Starved(s, op.dir) then Move(uncounted, t, Leaving(op, Unstarved))
    else if expired then Move(uncounted, t, Leaving(op, StillStarved))
    else Move(s, t, Counted(op))
  }

  /** The library's own non-blocking push and pop, indivisible under the same mutex. */
  function TrySendStep(s: State, t: ThreadId, m: Message): State {
    if Starved(s, Snd) then s else s.(queue := s.queue + [m], log := s.log + [Pushed(t, m)])
  }

  function TryReceiveStep(s: State, t: ThreadId): State {
    if Starved(s, Rcv) then s else s.(queue := s.queue[1..], log := s.log + [Popped(t, s.queue[0])])
  }

  function RouseAll(pcs: map<ThreadId, Pc>, dir: Direction): map<ThreadId, Pc> {
    map t | t in pcs :: if pcs[t].Asleep? && pcs[t].op.dir == dir then Roused(pcs[t].op, false) else pcs[t]
  }

  /** A repeated call is ignored; turning the mode on rouses every sleeper of the direction, of any handle. */
  function SetInterruptStep(s: State, h: HandleId, dir: Direction, on: bool): State {
    if ((h, dir) in s.interrupting) == on then s
    else if on then s.(interrupting := s.interrupting + {(h, dir)}, pcs := RouseAll(s.pcs, dir))
    else s.(interrupting := s.interrupting - {(h, dir)})
  }

  function Apply(s: State, a: Action): State
    requires Enabled(s, a)
  {
    var t := a.thread;
    var pc := s.pcs[t];
    match a
    case Call(_, op) => Move(s, t, Entering(op))
    case Lock(_) =>
      Move(s.(mutex := HeldBy(t)), t, if pc.Entering? then Deciding(pc.op) else Resumed(pc.op, pc.expired))
    case Decide(_) => DecideStep(s, t, pc.op)
    case Sleep(_) => Move(s.(mutex := Free), t, Asleep(pc.op))
    case Rouse(_) => Move(s, t, Roused(pc.op, false))
    case Expire(_) => Move(s, t, Roused(pc.op, true))
    case Recheck(_) => RecheckStep(s, t, pc.op, pc.expired)
    case Throw(_) => Move(s, t, Unwinding(pc.op))
    case Unwind(_) => Move(AddBlocked(s, pc.op.dir, -1), t, Leaving(pc.op, LibraryThrew))
    case Unlock(_) => Move(s.(mutex := Free), t, Returned(pc.op, pc.outcome))
    case Finish(_) => Move(s, t, Outside)
    case TrySend(_, m) => TrySendStep(s, t, m)
    case TryReceive(_) => TryReceiveStep(s, t)
    case SetInterrupt(_, h, dir, on) => SetInterruptStep(s, h, dir, on)
  }

  /** Nobody waits, nothing is queued, no flag is on. */
  predicate Initial(s: State) {
    && s.queue == [] && s.log == [] && s.mutex == Free && s.interrupting == {}
    && s.blockedSenders == 0 && s.blockedReceivers == 0
    && s.capacity >= 1
    && forall t | t in s.pcs :: s.pcs[t].Outside?
  }

  /** `actions` can be performed one after the other from `s`. */
  predicate IsRun(s: State, actions: seq<Action>)
    decreases |actions|
  {
    actions == [] || (Enabled(s, actions[0]) && IsRun(Apply(s, actions[0]), actions[1..]))
  }

  function Run(s: State, actions: seq<Action>): State
    requires IsRun(s, actions)
    decreases |actions|
  {
    if actions == [] then s else Run(Apply(s, actions[0]), actions[1..])
  }

  lemma {:induction false} RunAppend(s: State, actions: seq<Action>, a: Action)
    requires IsRun(s, actions) && Enabled(Run(s, actions), a)
    ensures IsRun(s, actions + [a])
    ensures Run(s, actions + [a]) == Apply(Run(s, actions), a)
    decreases |actions|
  {
    if actions == [] {
      assert (actions + [a])[1..] == [];
    } else {
      assert (actions + [a])[1..] == actions[1..] + [a];
      RunAppend(Apply(s, actions[0]), actions[1..], a);
    }
  }

  lemma {:induction false} RunLast(s: State, actions: seq<Action>, n: nat)
    requires IsRun(s, actions) && n < |actions|
    ensures IsRun(s, actions[..n]) && Enabled(Run(s, actions[..n]), actions[n])
    ensures IsRun(s, actions[..n + 1]) && Run(s, actions[..n + 1]) == Apply(Run(s, actions[..n]), actions[n])
    decreases n
  {
    if n == 0 {
      assert actions[..0] == [] && actions[..1][1..] == [];
    } else {
      RunLast(Apply(s, actions[0]), actions[1..], n - 1);
      assert actions[..n][1..] == actions[1..][..n - 1] && actions[..n + 1][1..] == actions[1..][..n];
    }
  }

  // ----- What every reachable state satisfies -----

  ghost predicate MutexExact(s: State) {
    forall t | t in s.pcs :: InCriticalSection(s.pcs[t]) <==> s.mutex == HeldBy(t)
  }

  function CountedThreads(pcs: map<ThreadId, Pc>, dir: Direction): set<ThreadId> {
    set t | t in pcs && CountedIn(pcs[t], dir)
  }

  ghost predicate CountersExact(s: State) {
    forall dir: Direction :: Blocked(s, dir) == |CountedThreads(s.pcs, dir)|
  }

  /** What a thread's position says about the flag, the queue and its kind of wait. */
  ghost predicate PcSound(s: State, pc: Pc) {
    match pc
    case Counted(op) => !Interrupting(s, op) && Starved(s, op.dir) && op.waitType != Poll
    case Asleep(op) => !Interrupting(s, op) && op.waitType != Poll
    case Roused(op, expired) => op.waitType != Poll && (expired ==> op.waitType == TimedWait)
    case Resumed(op, expired) => op.waitType != Poll && (expired ==> op.waitType == TimedWait)
    case Leaving(op, Unstarved) => !Interrupting(s, op) && !Starved(s, op.dir)
    case Leaving(op, StillStarved) => !Interrupting(s, op) && Starved(s, op.dir) && op.waitType != Wait
    case Leaving(op, Interrupted) => Interrupting(s, op)
    case Returned(op, StillStarved) => op.waitType != Wait
    case _ => true
  }

  ghost predicate PcsSound(s: State) {
    forall t | t in s.pcs :: PcSound(s, s.pcs[t])
  }

  function PushedMessages(log: seq<Event>): seq<Message> {
    if log == [] then []
    else
      var last := log[|log| - 1];
      PushedMessages(log[..|log| - 1]) + if last.Pushed? then [last.message] else []
  }

  function PoppedMessages(log: seq<Event>): seq<Message> {
    if log == [] then []
    else
      var last := log[|log| - 1];
      PoppedMessages(log[..|log| - 1]) + if last.Popped? then [last.message] else []
  }

  /** Everything ever pushed, in order, is what was popped followed by what is still queued. */
  ghost predicate Fifo(s: State) {
    PushedMessages(s.log) == PoppedMessages(s.log) + s.queue && |s.queue| <= s.capacity && s.capacity >= 1
  }

  ghost predicate Inv(s: State) {
    MutexExact(s) && CountersExact(s) && PcsSound(s) && Fifo(s)
  }

  // ----- One step keeps each part -----

  lemma CountedThreadsMove(pcs: map<ThreadId, Pc>, t: ThreadId, pc: Pc, dir: Direction)
    requires t in pcs
    ensures |CountedThreads(pcs[t := pc], dir)| ==
            |CountedThreads(pcs, dir)| - (if CountedIn(pcs[t], dir) then 1 else 0) + if CountedIn(pc, dir) then 1 else 0
  {
    var others := CountedThreads(pcs, dir) - {t};
    if CountedIn(pcs[t], dir) {
      assert CountedThreads(pcs, dir) == others + {t};
    } else {
      assert CountedThreads(pcs, dir) == others;
    }
    if CountedIn(pc, dir) {
      assert CountedThreads(pcs[t := pc], dir) == others + {t};
    } else {
      assert CountedThreads(pcs[t := pc], dir) == others;
    }
  }

  lemma MutexStep(s: State, a: Action)
    requires Inv(s) && Enabled(s, a)
    ensures MutexExact(Apply(s, a))
  {
    var t, s' := a.thread, Apply(s, a);
    forall u | u in s'.pcs
      ensures InCriticalSection(s'.pcs[u]) <==> s'.mutex == HeldBy(u)
    {
      assert InCriticalSection(s.pcs[u]) <==> s.mutex == HeldBy(u);
      assert InCriticalSection(s.pcs[t]) <==> s.mutex == HeldBy(t);
    }
  }

  /** An action other than setting a flag moves its own thread only, and the counters move along with it. */
  lemma OwnMove(s: State, a: Action, dir: Direction)
    requires Enabled(s, a) && !a.SetInterrupt?
    ensures var s', t := Apply(s, a), a.thread;
            && t in s'.pcs && s'.pcs == s.pcs[t := s'.pcs[t]]
            && Blocked(s', dir) ==
               Blocked(s, dir) - (if CountedIn(s.pcs[t], dir) then 1 else 0) + (if CountedIn(s'.pcs[t], dir) then 1 else 0)
  {
  }

  lemma CountersStep(s: State, a: Action)
    requires Inv(s) && Enabled(s, a)
    ensures CountersExact(Apply(s, a))
  {
    var s' := Apply(s, a);
    forall dir: Direction
      ensures Blocked(s', dir) == |CountedThreads(s'.pcs, dir)|
    {
      assert Blocked(s, dir) == |CountedThreads(s.pcs, dir)|;
      if a.SetInterrupt? {
        assert CountedThreads(s'.pcs, dir) == CountedThreads(s.pcs, dir);
      } else {
        OwnMove(s, a, dir);
        CountedThreadsMove(s.pcs, a.thread, s'.pcs[a.thread], dir);
      }
    }
  }

  lemma PcsStep(s: State, a: Action)
    requires Inv(s) && Enabled(s, a)
    ensures PcsSound(Apply(s, a))
  {
    var t, s' := a.thread, Apply(s, a);
    forall u | u in s'.pcs
      ensures PcSound(s', s'.pcs[u])
    {
      assert PcSound(s, s.pcs[u]);
      assert InCriticalSection(s.pcs[u]) <==> s.mutex == HeldBy(u);
      assert InCriticalSection(s.pcs[t]) <==> s.mutex == HeldBy(t);
    }
  }

  lemma LogGrows(log: seq<Event>, e: Event)
    ensures PushedMessages(log + [e]) == PushedMessages(log) + if e.Pushed? then [e.message] else []
    ensures PoppedMessages(log + [e]) == PoppedMessages(log) + if e.Popped? then [e.message] else []
  {
    assert (log + [e])[..|log|] == log;
  }

  lemma FifoPush(s: State, t: ThreadId, m: Message)
    requires Fifo(s)
    ensures Fifo(TrySendStep(s, t, m))
  {
    LogGrows(s.log, Pushed(t, m));
  }

  lemma FifoPop(s: State, t: ThreadId)
    requires Fifo(s)
    ensures Fifo(TryReceiveStep(s, t))
  {
    if s.queue != [] {
      LogGrows(s.log, Popped(t, s.queue[0]));
      assert s.queue == [s.queue[0]] + s.queue[1..];
    }
  }

  lemma FifoStep(s: State, a: Action)
    requires Fifo(s) && Enabled(s, a)
    ensures Fifo(Apply(s, a))
  {
    if a.TrySend? {
      FifoPush(s, a.thread, a.message);
    } else if a.TryReceive? {
      FifoPop(s, a.thread);
    }
  }

  lemma StepKeepsInv(s: State, a: Action)
    requires Inv(s) && Enabled(s, a)
    ensures Inv(Apply(s, a))
  {
    MutexStep(s, a);
    CountersStep(s, a);
    PcsStep(s, a);
    FifoStep(s, a);
  }

  lemma InitialInv(s: State)
    requires Initial(s)
    ensures Inv(s)
  {
    forall dir: Direction ensures Blocked(s, dir) == |CountedThreads(s.pcs, dir)| {
      assert CountedThreads(s.pcs, dir) == {};
    }
  }

  lemma {:induction false} RunKeepsInv(s: State, actions: seq<Action>)
    requires Inv(s) && IsRun(s, actions)
    ensures Inv(Run(s, actions))
    decreases |actions|
  {
    if actions != [] {
      StepKeepsInv(s, actions[0]);
      RunKeepsInv(Apply(s, actions[0]), actions[1..]);
    }
  }

  // ----- Whole-run theorems -----

  /** Every state any schedule can reach satisfies the invariant. */
  lemma ReachableInv(s: State, actions: seq<Action>)
    requires Initial(s) && IsRun(s, actions)
    ensures Inv(Run(s, actions))
  {
    InitialInv(s);
    RunKeepsInv(s, actions);
  }

  /** At most one thread is inside the critical section. */
  lemma MutualExclusion(s: State, actions: seq<Action>, t: ThreadId, u: ThreadId)
    requires Initial(s) && IsRun(s, actions)
    requires var end := Run(s, actions);
             t in end.pcs && u in end.pcs && InCriticalSection(end.pcs[t]) && InCriticalSection(end.pcs[u])
    ensures t == u
  {
    ReachableInv(s, actions);
  }

  /** Each counter is exactly the number of threads between increment and decrement: it never underflows, it is
      zero iff nobody is there, and whichever way the calls ended it is back at zero once all are over. */
  lemma CountersAreExact(s: State, actions: seq<Action>, dir: Direction)
    requires Initial(s) && IsRun(s, actions)
    ensures var end := Run(s, actions);
            && Blocked(end, dir) == |CountedThreads(end.pcs, dir)| >= 0
            && (Blocked(end, dir) == 0 <==> forall t | t in end.pcs :: !CountedIn(end.pcs[t], dir))
            && ((forall t | t in end.pcs :: end.pcs[t].Outside? || end.pcs[t].Returned?) ==> Blocked(end, dir) == 0)
  {
    ReachableInv(s, actions);
    var end := Run(s, actions);
    var counted := CountedThreads(end.pcs, dir);
    assert forall t :: t in counted <==> t in end.pcs && CountedIn(end.pcs[t], dir);
    assert |counted| == 0 <==> counted == {};
  }

  /** What was popped is a prefix of what was pushed, and the two differ by no more than the capacity. */
  lemma PoppedIsPrefixOfPushed(s: State, actions: seq<Action>)
    requires Initial(s) && IsRun(s, actions)
    ensures var end := Run(s, actions);
            && PoppedMessages(end.log) <= PushedMessages(end.log)
            && PushedMessages(end.log)[|PoppedMessages(end.log)|..] == end.queue
            && |end.queue| <= end.capacity
  {
    ReachableInv(s, actions);
  }

  /** The messages pushed and not popped. */
  function Outstanding(log: seq<Event>): int {
    |PushedMessages(log)| - |PoppedMessages(log)|
  }

  /** Starvation as the history tells it: for a receiver, that all that was pushed was popped; for a sender, that as many
      messages are outstanding as the queue can hold. */
  lemma StarvedMeans(s: State)
    requires Fifo(s)
    ensures Starved(s, Rcv) <==> PoppedMessages(s.log) == PushedMessages(s.log)
    ensures Starved(s, Snd) <==> Outstanding(s.log) == s.capacity
    ensures 0 <= Outstanding(s.log) <= s.capacity
    ensures s.queue == PushedMessages(s.log)[|PoppedMessages(s.log)|..]
  {
    if s.queue == [] {
      assert PoppedMessages(s.log) + [] == PoppedMessages(s.log);
    } else {
      assert |PushedMessages(s.log)| > |PoppedMessages(s.log)|;
    }
  }

  /** Over every run, a call that goes to sleep or gives up, and one that reports readiness, are right about all that was
      ever pushed and popped. */
  lemma StarvationIsReal(s: State, actions: seq<Action>, t: ThreadId)
    requires Initial(s) && IsRun(s, actions) && t in Run(s, actions).pcs
    ensures var end := Run(s, actions);
            var pc := end.pcs[t];
            && (pc.Counted? || (pc.Leaving? && pc.outcome == StillStarved) ==>
                  if pc.op.dir == Rcv then PoppedMessages(end.log) == PushedMessages(end.log)
                  else Outstanding(end.log) == end.capacity)
            && (pc.Leaving? && pc.outcome == Unstarved ==>
                  if pc.op.dir == Rcv then PoppedMessages(end.log) != PushedMessages(end.log)
                  else Outstanding(end.log) < end.capacity)
  {
    ReachableInv(s, actions);
    StarvedMeans(Run(s, actions));
    assert PcSound(Run(s, actions), Run(s, actions).pcs[t]);
  }

  // ----- Timeouts are timeouts -----

  /** What a thread's call in progress has been through: which it is, and whether its deadline passed in it. */
  datatype Phase = NoCall | During(op: Op, expired: bool)

  function PhaseAfter(actions: seq<Action>, t: ThreadId): Phase {
    if actions == [] then NoCall
    else
      var last, before := actions[|actions| - 1], PhaseAfter(actions[..|actions| - 1], t);
      if last.thread != t then before
      else if last.Call? then During(last.op, false)
      else if last.Finish? then NoCall
      else if last.Expire? && before.During? then During(before.op, true)
      else before
  }

  /** In `actions`, thread `t` began a call of `op`, no other since, and in it a deadline passed. */
  predicate ExpiredInCall(actions: seq<Action>, t: ThreadId, op: Op) {
    exists i, j | 0 <= i < j < |actions| ::
      actions[i] == Call(t, op) && actions[j] == Expire(t) && NoCallAfter(actions, t, i)
  }

  predicate NoCallAfter(actions: seq<Action>, t: ThreadId, i: nat) {
    forall k | i < k < |actions| :: !(actions[k].Call? && actions[k].thread == t)
  }

  predicate BeganCall(actions: seq<Action>, t: ThreadId, op: Op) {
    exists i | 0 <= i < |actions| :: actions[i] == Call(t, op) && NoCallAfter(actions, t, i)
  }

  lemma {:induction false} PhaseMeaning(actions: seq<Action>, t: ThreadId)
    ensures var phase := PhaseAfter(actions, t);
            phase.During? ==> BeganCall(actions, t, phase.op) && (phase.expired ==> ExpiredInCall(actions, t, phase.op))
  {
    if actions != [] {
      var before, last := actions[..|actions| - 1], actions[|actions| - 1];
      PhaseMeaning(before, t);
      var phase := PhaseAfter(actions, t);
      if last.thread == t && last.Call? {
        assert actions[|actions| - 1] == Call(t, last.op) && NoCallAfter(actions, t, |actions| - 1);
      } else if phase.During? {
        var i :| 0 <= i < |before| && before[i] == Call(t, phase.op) && NoCallAfter(before, t, i);
        assert NoCallAfter(actions, t, i) && actions[i] == Call(t, phase.op);
        if PhaseAfter(before, t).expired {
          var i', j :| 0 <= i' < j < |before| && before[i'] == Call(t, phase.op) && before[j] == Expire(t)
                       && NoCallAfter(before, t, i');
          assert NoCallAfter(actions, t, i') && actions[i'] == Call(t, phase.op) && actions[j] == Expire(t);
        }
      }
    }
  }

  /** Positions that only a passed deadline leads to. */
  predicate NeedsExpiry(pc: Pc) {
    match pc
    case Roused(_, expired) => expired
    case Resumed(_, expired) => expired
    case Leaving(op, outcome) => outcome == StillStarved && op.waitType == TimedWait
    case Returned(op, outcome) => outcome == StillStarved && op.waitType == TimedWait
    case _ => false
  }

  predicate PhaseSound(pc: Pc, phase: Phase) {
    pc.Outside? || (phase.During? && phase.op == pc.op && (NeedsExpiry(pc) ==> phase.expired))
  }

  lemma PhaseStep(s: State, a: Action, t: ThreadId, before: seq<Action>)
    requires Inv(s) && Enabled(s, a) && t in s.pcs && PhaseSound(s.pcs[t], PhaseAfter(before, t))
    ensures t in Apply(s, a).pcs && PhaseSound(Apply(s, a).pcs[t], PhaseAfter(before + [a], t))
  {
    assert (before + [a])[..|before|] == before;
    assert PcSound(s, s.pcs[t]);
  }

  lemma {:induction false} PhasesSound(s: State, actions: seq<Action>, n: nat, t: ThreadId)
    requires Initial(s) && IsRun(s, actions) && n <= |actions| && t in s.pcs
    ensures IsRun(s, actions[..n]) && Inv(Run(s, actions[..n])) && t in Run(s, actions[..n]).pcs
    ensures PhaseSound(Run(s, actions[..n]).pcs[t], PhaseAfter(actions[..n], t))
    decreases n
  {
    if n == 0 {
      InitialInv(s);
      assert actions[..0] == [];
    } else {
      PhasesSound(s, actions, n - 1, t);
      RunLast(s, actions, n - 1);
      StepKeepsInv(Run(s, actions[..n - 1]), actions[n - 1]);
      PhaseStep(Run(s, actions[..n - 1]), actions[n - 1], t, actions[..n - 1]);
      assert actions[..n - 1] + [actions[n - 1]] == actions[..n];
    }
  }

  lemma {:induction false} SameThreads(s: State, actions: seq<Action>)
    requires IsRun(s, actions)
    ensures Run(s, actions).pcs.Keys == s.pcs.Keys
    decreases |actions|
  {
    if actions != [] {
      SameThreads(Apply(s, actions[0]), actions[1..]);
    }
  }

  /** A timed wait reports a timeout only if, in that very call, its deadline passed while it was asleep. */
  lemma TimeoutNeedsExpiry(s: State, actions: seq<Action>, t: ThreadId)
    requires Initial(s) && IsRun(s, actions) && Enabled(Run(s, actions), Unlock(t))
    requires Run(s, actions).pcs[t].outcome == StillStarved && Run(s, actions).pcs[t].op.waitType == TimedWait
    ensures ExpiredInCall(actions, t, Run(s, actions).pcs[t].op)
  {
    SameThreads(s, actions);
    PhasesSound(s, actions, |actions|, t);
    assert actions[..|actions|] == actions;
    PhaseMeaning(actions, t);
  }

  /** A call that is about to give up the mutex decided by what holds at this very moment. */
  lemma OutcomeMeaning(s: State, actions: seq<Action>, t: ThreadId)
    requires Initial(s) && IsRun(s, actions) && Enabled(Run(s, actions), Unlock(t))
    ensures var end := Run(s, actions);
            var op, outcome := end.pcs[t].op, end.pcs[t].outcome;
            && (outcome == Unstarved ==> !Starved(end, op.dir))
            && (outcome == StillStarved ==>
                  Starved(end, op.dir) && op.waitType != Wait
                  && (op.waitType == TimedWait ==> ExpiredInCall(actions, t, op)))
            && (outcome == Interrupted ==> Interrupting(end, op))
            && (Interrupting(end, op) ==> outcome == Interrupted || outcome == LibraryThrew)
  {
    ReachableInv(s, actions);
    var pc := Run(s, actions).pcs[t];
    if pc.outcome == StillStarved && pc.op.waitType == TimedWait {
      TimeoutNeedsExpiry(s, actions, t);
    }
  }

  /** No deadlock: some thread can move, and not only by failing, unless every call in progress is asleep. */
  lemma SomebodyCanMove(s: State, actions: seq<Action>, t: ThreadId)
    requires Initial(s) && IsRun(s, actions)
    requires var end := Run(s, actions); t in end.pcs && !end.pcs[t].Outside? && !end.pcs[t].Asleep?
    ensures exists a :: Enabled(Run(s, actions), a) && !a.Throw? && !a.Call? && !a.Rouse? && !a.Expire?
  {
    ReachableInv(s, actions);
    var end := Run(s, actions);
    if end.mutex == Free {
      var a := if end.pcs[t].Returned? then Finish(t) else Lock(t);
      assert Enabled(end, a);
    } else {
      HolderCanMove(s, actions);
    }
  }

  /** The holder of the mutex always exists and can go on by itself. */
  lemma HolderCanMove(s: State, actions: seq<Action>)
    requires Initial(s) && IsRun(s, actions) && Run(s, actions).mutex.HeldBy?
    ensures exists a :: Enabled(Run(s, actions), a) && a.thread == Run(s, actions).mutex.thread
                        && !a.Throw? && !a.Call? && !a.Rouse? && !a.Expire?
  {
    ReachableInv(s, actions);
    HolderIsThread(s, actions);
    var end := Run(s, actions);
    var u := end.mutex.thread;
    assert InCriticalSection(end.pcs[u]);
    var a := match end.pcs[u]
      case Deciding(_) => Decide(u)
      case Counted(_) => Sleep(u)
      case Resumed(_, _) => Recheck(u)
      case Unwinding(_) => Unwind(u)
      case _ => Unlock(u);
    assert Enabled(end, a);
  }

  lemma {:induction false} HolderIsThread(s: State, actions: seq<Action>)
    requires IsRun(s, actions) && (s.mutex.HeldBy? ==> s.mutex.thread in s.pcs)
    ensures Run(s, actions).mutex.HeldBy? ==> Run(s, actions).mutex.thread in Run(s, actions).pcs
    decreases |actions|
  {
    if actions != [] {
      HolderIsThread(Apply(s, actions[0]), actions[1..]);
    }
  }

  // ----- No lost interrupt -----

  /** Nothing in the run turns this handle's mode off. */
  predicate StaysOn(actions: seq<Action>, op: Op) {
    forall i | 0 <= i < |actions| ::
      !(actions[i].SetInterrupt? && (actions[i].handle, actions[i].dir) == (op.handle, op.dir) && !actions[i].on)
  }

  /** Some position of a call of `op`, with the number of own moves after which the call is over at the latest. */
  function MovesLeft(pc: Pc): nat {
    match pc
    case Entering(_) => 4
    case Roused(_, _) => 4
    case Deciding(_) => 3
    case Resumed(_, _) => 3
    case Unwinding(_) => 2
    case Leaving(_, _) => 1
    case _ => 0
  }

  /** In a call of `op`, awake, and if decided then for no other reason than the interrupt or a failure. */
  predicate DoomedTo(pc: Pc, op: Op) {
    && !pc.Outside? && !pc.Asleep? && !pc.Counted? && pc.op == op
    && (pc.Leaving? || pc.Returned? ==> pc.outcome == Interrupted || pc.outcome == LibraryThrew)
  }

  function OwnMoves(actions: seq<Action>, t: ThreadId): nat
    decreases |actions|
  {
    if actions == [] then 0 else (if actions[0].thread == t then 1 else 0) + OwnMoves(actions[1..], t)
  }

  /** One action by anybody, not turning the flag off, costs such a call a move exactly if it was its own. */
  lemma DoomedStep(s: State, a: Action, t: ThreadId, op: Op)
    requires Inv(s) && Enabled(s, a) && t in s.pcs && DoomedTo(s.pcs[t], op)
    requires Interrupting(s, op) && StaysOn([a], op) && a != Finish(t)
    ensures var s' := Apply(s, a);
            && t in s'.pcs && DoomedTo(s'.pcs[t], op) && Interrupting(s', op)
            && MovesLeft(s'.pcs[t]) + (if a.thread == t then 1 else 0) <= MovesLeft(s.pcs[t])
  {
    assert PcSound(s, s.pcs[t]);
    assert [a][0] == a;
  }

  /** On the way out of a call: its deadline passed, or it is decided. */
  predicate EndingIn(pc: Pc, op: Op) {
    match pc
    case Roused(op', expired) => expired && op' == op
    case Resumed(op', expired) => expired && op' == op
    case Unwinding(op') => op' == op
    case Leaving(op', _) => op' == op
    case Returned(op', _) => op' == op
    case _ => false
  }

  lemma EndingStep(s: State, a: Action, t: ThreadId, op: Op)
    requires Enabled(s, a) && t in s.pcs && EndingIn(s.pcs[t], op) && a != Finish(t)
    ensures var s' := Apply(s, a);
            && t in s'.pcs && EndingIn(s'.pcs[t], op)
            && MovesLeft(s'.pcs[t]) + (if a.thread == t then 1 else 0) <= MovesLeft(s.pcs[t])
  {
  }

  /** Once its deadline has passed a wait is never counted or asleep again, whatever anybody does, and is over after at
      most four moves of its own thread. */
  lemma {:induction false} ExpiredCallEnds(s: State, actions: seq<Action>, t: ThreadId, op: Op)
    requires IsRun(s, actions) && t in s.pcs && EndingIn(s.pcs[t], op) && Finish(t) !in actions
    ensures var end := Run(s, actions);
            && t in end.pcs && EndingIn(end.pcs[t], op) && !end.pcs[t].Counted? && !end.pcs[t].Asleep?
            && MovesLeft(end.pcs[t]) + OwnMoves(actions, t) <= MovesLeft(s.pcs[t]) <= 4
    decreases |actions|
  {
    if actions != [] {
      EndingStep(s, actions[0], t, op);
      ExpiredCallEnds(Apply(s, actions[0]), actions[1..], t, op);
    }
  }

  /** While the flag stays on, a call through that handle never goes to sleep again, is over after at most four
      moves of its own thread, and can only end as interrupted or by the library's exception. */
  lemma {:induction false} DoomedStaysDoomed(s: State, actions: seq<Action>, t: ThreadId, op: Op)
    requires Inv(s) && IsRun(s, actions) && t in s.pcs && DoomedTo(s.pcs[t], op)
    requires Interrupting(s, op) && StaysOn(actions, op) && Finish(t) !in actions
    ensures var end := Run(s, actions);
            && t in end.pcs && DoomedTo(end.pcs[t], op) && Interrupting(end, op)
            && MovesLeft(end.pcs[t]) + OwnMoves(actions, t) <= MovesLeft(s.pcs[t])
    decreases |actions|
  {
    if actions != [] {
      StepKeepsInv(s, actions[0]);
      DoomedStep(s, actions[0], t, op);
      DoomedStaysDoomed(Apply(s, actions[0]), actions[1..], t, op);
    }
  }

  /** Turning the mode on reaches every call in progress through that handle, asleep or not, whatever the
      scheduler, the other handles and spurious wakeups do until the mode is turned off again. */
  lemma NoLostInterrupt(s: State, past: seq<Action>, u: ThreadId, t: ThreadId, op: Op, future: seq<Action>)
    requires Initial(s) && IsRun(s, past)
    requires Enabled(Run(s, past), SetInterrupt(u, op.handle, op.dir, true))
    requires var now := Run(s, past);
             && t in now.pcs && (now.pcs[t].Entering? || now.pcs[t].Asleep? || now.pcs[t].Roused?) && now.pcs[t].op == op
    requires IsRun(Apply(Run(s, past), SetInterrupt(u, op.handle, op.dir, true)), future)
    requires StaysOn(future, op) && Finish(t) !in future
    ensures var end := Run(Apply(Run(s, past), SetInterrupt(u, op.handle, op.dir, true)), future);
            && t in end.pcs && DoomedTo(end.pcs[t], op)
            && OwnMoves(future, t) + MovesLeft(end.pcs[t]) <= 4
  {
    ReachableInv(s, past);
    var now, a := Run(s, past), SetInterrupt(u, op.handle, op.dir, true);
    StepKeepsInv(now, a);
    assert PcSound(now, now.pcs[t]);
    DoomedStaysDoomed(Apply(now, a), future, t, op);
  }

  /** While a handle's mode is on, none of its threads is asleep in that direction. */
  lemma NobodySleepsThroughInterrupt(s: State, actions: seq<Action>, t: ThreadId)
    requires Initial(s) && IsRun(s, actions)
    requires t in Run(s, actions).pcs && Run(s, actions).pcs[t].Asleep?
    ensures !Interrupting(Run(s, actions), Run(s, actions).pcs[t].op)
  {
    ReachableInv(s, actions);
  }
}
