/**
 `Bipc_mq_handle` as the source writes it: loops and assignments over the shared header and the handles' flags.

 Every method runs on one thread `t` while all other threads run too: at each point where `t` can be preempted,
 one slice of `schedule` says which actions of the step system the environment takes there (an action that is
 not possible at that moment is passed over).  A call still blocked when the schedule is used up reports so.
 The class invariant is that everything done so far, by `t` and by the others, is a run of the step system.
 */
module BipcMqHandle {
  import opened MqMonitor
  import opened BipcMqTurns
  import opened TimedWaits

  /** The events of `log` performed by thread `t`. */
  function Mine(log: seq<Event>, t: ThreadId): seq<Event> {
    if log == [] then []
    else
      var last := log[|log| - 1];
      Mine(log[..|log| - 1], t) + if last.thread == t then [last] else []
  }

  lemma MineGrows(log: seq<Event>, e: Event, t: ThreadId)
    ensures Mine(log + [e], t) == Mine(log, t) + if e.thread == t then [e] else []
  {
    assert (log + [e])[..|log|] == log;
  }

  predicate StillSameCall(pc: Pc, pc': Pc) {
    pc' == pc || (pc.Asleep? && pc'.Roused? && pc'.op == pc.op)
  }

  /** What the environment leaves alone as far as thread `t` is concerned. */
  ghost predicate Undisturbed(s: State, s': State, t: ThreadId) {
    && s'.capacity == s.capacity && s'.pcs.Keys == s.pcs.Keys
    && t in s.pcs && StillSameCall(s.pcs[t], s'.pcs[t])
    && Mine(s'.log, t) == Mine(s.log, t)
  }

  lemma OwnEventsStep(s: State, a: Action, t: ThreadId)
    requires Enabled(s, a) && a.thread != t
    ensures Mine(Apply(s, a).log, t) == Mine(s.log, t)
  {
    if a.TrySend? {
      MineGrows(s.log, Pushed(a.thread, a.message), t);
    } else if a.TryReceive? && s.queue != [] {
      MineGrows(s.log, Popped(a.thread, s.queue[0]), t);
    }
  }

  lemma OwnPcStep(s: State, a: Action, t: ThreadId)
    requires Enabled(s, a) && ByEnvironment(a, t) && t in s.pcs
    ensures var s' := Apply(s, a);
            s'.capacity == s.capacity && s'.pcs.Keys == s.pcs.Keys && StillSameCall(s.pcs[t], s'.pcs[t])
  {
  }

  lemma EnvironmentStep(s: State, a: Action, t: ThreadId)
    requires Enabled(s, a) && ByEnvironment(a, t) && t in s.pcs
    ensures Undisturbed(s, Apply(s, a), t)
  {
    OwnPcStep(s, a, t);
    if a.thread != t {
      OwnEventsStep(s, a, t);
    } else {
      assert Apply(s, a) == Move(s, t, Roused(s.pcs[t].op, a.Expire?));
    }
  }

  /** What a report is worth: how the flag and, by what was ever pushed and popped, the queue stood in state `s`. */
  ghost predicate Justified(s: State, op: Op, notStarved: bool, errCode: ErrorCode) {
    && (notStarved ==>
          && !Interrupting(s, op)
          && if op.dir == Rcv then PoppedMessages(s.log) != PushedMessages(s.log) else Outstanding(s.log) < s.capacity)
    && (!notStarved && errCode == Success ==>
          && !Interrupting(s, op) && op.waitType != Wait
          && if op.dir == Rcv then PoppedMessages(s.log) == PushedMessages(s.log) else Outstanding(s.log) == s.capacity)
    && (errCode == SInterrupted ==> Interrupting(s, op))
  }

  class SharedQueue {
    const capacity: nat
    const maxMsgSize: nat
    var queue: seq<Message>
    var mutex: Owner
    var blockedSenders: int
    var blockedReceivers: int
    var interrupting: set<(HandleId, Direction)>
    var pcs: map<ThreadId, Pc>
    var log: seq<Event>
    var schedule: seq<Slice>
    var time: int
    var ticks: seq<nat>
    var record: Record
    ghost const start: State
    ghost var trace: seq<Action>

    function Current(): State
      reads this
    {
      State(capacity, queue, mutex, blockedSenders, blockedReceivers, interrupting, pcs, log)
    }

    ghost predicate Valid()
      reads this
    {
      Initial(start) && IsRun(start, trace) && Run(start, trace) == Current()
    }

    /** Thread `t` is not in any call on this queue. */
    predicate Idle(t: ThreadId)
      reads this
    {
      t in pcs && pcs[t].Outside?
    }

    constructor (capacity: nat, maxMsgSize: nat, threads: set<ThreadId>, schedule: seq<Slice>, ticks: seq<nat>)
      requires capacity >= 1
      ensures Valid() && this.capacity == capacity && this.maxMsgSize == maxMsgSize
      ensures Current() == State(capacity, [], Free, 0, 0, {}, map t | t in threads :: Outside, [])
      ensures this.schedule == schedule && record == Fresh && pcs.Keys == threads
      ensures forall t | t in threads :: Idle(t)
    {
      this.capacity, this.maxMsgSize := capacity, maxMsgSize;
      this.queue, this.mutex, this.interrupting, this.log := [], Free, {}, [];
      this.blockedSenders, this.blockedReceivers := 0, 0;
      this.pcs := map t | t in threads :: Outside;
      this.schedule, this.time, this.ticks, this.record := schedule, 0, ticks, Fresh;
      this.start := State(capacity, [], Free, 0, 0, {}, map t | t in threads :: Outside, []);
      this.trace := [];
    }

    ghost method Record(a: Action)
      requires Initial(start) && IsRun(start, trace)
      requires Enabled(Run(start, trace), a) && Apply(Run(start, trace), a) == Current()
      modifies `trace
      ensures Valid() && trace == old(trace) + [a]
    {
      RunAppend(start, trace, a);
      trace := trace + [a];
    }

    /** The environment performs action `a`, which leads to state `s`. */
    method Adopt(s: State, ghost a: Action)
      requires Valid() && Enabled(Current(), a) && Apply(Current(), a) == s && s.capacity == capacity
      modifies `queue, `mutex, `blockedSenders, `blockedReceivers, `interrupting, `pcs, `log, `trace
      ensures Valid() && Current() == s && trace == old(trace) + [a]
    {
      RunAppend(start, trace, a);
      trace := trace + [a];
      queue, mutex, interrupting, pcs, log := s.queue, s.mutex, s.interrupting, s.pcs, s.log;
      blockedSenders, blockedReceivers := s.blockedSenders, s.blockedReceivers;
      assert Current() == s;
    }

    /** No turn to come has the library throw. */
    predicate NoThrows()
      reads this
    {
      forall i | 0 <= i < |schedule| :: !schedule[i].libraryThrows
    }

    /** What every operation keeps: the run only grows, the schedule is only used up. */
    twostate predicate Progressed(t: ThreadId)
      reads this
    {
      && old(trace) <= trace && pcs.Keys == old(pcs.Keys)
      && time == old(time) && ticks == old(ticks)
      && |schedule| <= old(|schedule|) && (old(NoThrows()) ==> NoThrows())
    }

    /** Besides, thread `t` pushes and pops nothing and does not ask to wait. */
    twostate predicate Advanced(t: ThreadId)
      reads this
    {
      Progressed(t) && Mine(log, t) == Mine(old(log), t) && record == old(record)
    }

    /** The thread has just made a move of its own and the schedule has had no turn for it since. */
    ghost predicate NoTurnSince(t: ThreadId)
      reads this
    {
      trace != [] && trace[|trace| - 1].thread == t && (trace[|trace| - 1].Call? || trace[|trace| - 1].Finish?)
    }

    predicate InCall(t: ThreadId, op: Op)
      reads this
    {
      t in pcs && !pcs[t].Outside? && pcs[t].op == op
    }

    predicate Holds(t: ThreadId, pc: Pc)
      reads this
    {
      t in pcs && pcs[t] == pc && mutex == HeldBy(t)
    }

    /** One slice of the environment's actions. */
    method Preempt(t: ThreadId)
      requires Valid() && t in pcs && schedule != []
      modifies this
      ensures Valid() && Advanced(t) && Undisturbed(old(Current()), Current(), t)
      ensures schedule == old(schedule)[1..] && Current() == AfterSlice(old(Current()), old(schedule)[0].actions, t)
    {
      var actions := schedule[0].actions;
      schedule := schedule[1..];
      for i := 0 to |actions|
        invariant Valid() && Advanced(t) && Undisturbed(old(Current()), Current(), t)
        invariant schedule == old(schedule)[1..]
        invariant AfterSlice(Current(), actions[i..], t) == AfterSlice(old(Current()), actions, t)
      {
        PreemptOnce(t, actions, i);
      }
    }

    method PreemptOnce(t: ThreadId, actions: seq<Action>, i: nat)
      requires Valid() && t in pcs && i < |actions|
      modifies this
      ensures Valid() && Advanced(t) && Undisturbed(old(Current()), Current(), t) && schedule == old(schedule)
      ensures AfterSlice(Current(), actions[i + 1..], t) == AfterSlice(old(Current()), actions[i..], t)
    {
      assert actions[i..][0] == actions[i] && actions[i..][1..] == actions[i + 1..];
      if Enabled(Current(), actions[i]) && ByEnvironment(actions[i], t) {
        EnvironmentStep(Current(), actions[i], t);
        Adopt(Apply(Current(), actions[i]), actions[i]);
      }
    }

    /** Lets the others run until the thread can go, if the schedule lets it. */
    method AwaitTurn(t: ThreadId) returns (turn: bool, libraryThrows: bool)
      requires Valid() && t in pcs
      modifies this
      ensures Valid() && Advanced(t) && Undisturbed(old(Current()), Current(), t)
      ensures var first := FirstTurn(old(Current()), old(schedule), t);
              if turn then first == Turn(Current(), schedule, libraryThrows) && |schedule| < old(|schedule|)
              else first == NoTurn && schedule == []
      ensures if turn then CanGo(Current(), t) else old(schedule) != [] ==> !CanGo(Current(), t)
      ensures libraryThrows ==> turn && !old(NoThrows())
      ensures old(schedule) == [] ==> trace == old(trace)
    {
      while schedule != []
        invariant Valid() && Advanced(t) && Undisturbed(old(Current()), Current(), t)
        invariant FirstTurn(Current(), schedule, t) == FirstTurn(old(Current()), old(schedule), t)
        invariant schedule != old(schedule) ==> !CanGo(Current(), t)
        invariant old(schedule) == [] ==> trace == old(trace)
        decreases |schedule|
      {
        libraryThrows := schedule[0].libraryThrows;
        Preempt(t);
        if mutex == Free && !pcs[t].Asleep? {
          return true, libraryThrows;
        }
      }
      return false, false;
    }

    /** Waits for its turn and takes the mutex: on entry, or on the way out of the condition variable.  It is had at the
        first moment at which it is free and the thread awake. */
    method AcquireMutex(t: ThreadId, op: Op) returns (acquired: bool)
      requires Valid() && InCall(t, op) && (pcs[t].Entering? || pcs[t].Asleep? || pcs[t].Roused?)
      modifies this
      ensures Valid() && Advanced(t) && InCall(t, op)
      ensures !acquired ==> schedule == [] && StillSameCall(old(pcs[t]), pcs[t])
      ensures !acquired && old(schedule) != [] ==> !CanGo(Current(), t)
      ensures old(schedule) == [] ==> trace == old(trace)
      ensures acquired ==> |schedule| < old(|schedule|)
      ensures acquired && old(pcs[t].Entering?) ==> Holds(t, Deciding(op))
      ensures acquired && !old(pcs[t].Entering?) ==> pcs[t].Resumed? && mutex == HeldBy(t)
      ensures var turn := FirstTurn(old(Current()), old(schedule), t);
              && acquired == turn.Turn?
              && (acquired ==> schedule == turn.rest && Enabled(turn.state, Lock(t)) && Current() == Step(turn.state, Lock(t)))
    {
      var libraryThrows;
      acquired, libraryThrows := AwaitTurn(t);
      if acquired {
        mutex := HeldBy(t);
        pcs := pcs[t := if pcs[t].Entering? then Deciding(op) else Resumed(op, pcs[t].expired)];
        Record(Lock(t));
      }
    }

    method ThrowIfScheduled(t: ThreadId, op: Op) returns (threw: bool)
      requires Valid() && InCall(t, op) && (pcs[t].Counted? || pcs[t].Resumed?) && mutex == HeldBy(t)
      modifies this
      ensures Valid() && Advanced(t)
      ensures threw ==> Holds(t, Unwinding(op)) && |schedule| < old(|schedule|) && !old(NoThrows())
      ensures !threw ==> Holds(t, old(pcs[t])) && schedule == old(schedule)
      ensures threw == ThrowsNext(old(schedule))
      ensures if threw then Current() == Step(old(Current()), Throw(t)) && schedule == old(schedule)[1..]
              else Current() == old(Current())
    {
      threw := ThrowsNext(schedule);
      if threw {
        schedule := schedule[1..];
        pcs := pcs[t := Unwinding(op)];
        Record(Throw(t));
      }
    }

    method GoToSleep(t: ThreadId, op: Op)
      requires Valid() && Holds(t, Counted(op))
      modifies this
      ensures Valid() && Advanced(t) && t in pcs && pcs[t] == Asleep(op) && schedule == old(schedule)
      ensures Current() == Step(old(Current()), Sleep(t))
    {
      mutex := Free;
      pcs := pcs[t := Asleep(op)];
      Record(Sleep(t));
    }

    /** `cond.wait(lock)` or `cond.timed_wait(lock, ...)`: gives up the mutex, sleeps, takes it back, or throws. */
    method CondWait(t: ThreadId, op: Op) returns (back: bool, threw: bool)
      requires Valid() && Holds(t, Counted(op))
      modifies this
      ensures Valid() && Advanced(t) && InCall(t, op)
      ensures !back ==> schedule == [] && (pcs[t].Asleep? || (pcs[t].Roused? && !CanGo(Current(), t)))
      ensures threw ==> back && !old(NoThrows())
      ensures back ==> |schedule| < old(|schedule|) && mutex == HeldBy(t)
      ensures back ==> if threw then pcs[t] == Unwinding(op) else pcs[t].Resumed?
      ensures var r := CondReturns(old(Current()), old(schedule), t);
              back == r.Return? && (back ==> r == Return(Current(), schedule, threw))
    {
      hide FirstTurn, Step, Enabled, Apply, CanGo, Mine;
      threw := ThrowIfScheduled(t, op);
      if threw {
        return true, true;
      }
      GoToSleep(t, op);
      back := AcquireMutex(t, op);
      if back {
        threw := ThrowIfScheduled(t, op);
      }
    }

    predicate IsStarved(dir: Direction)
      reads this
      ensures IsStarved(dir) == Starved(Current(), dir)
    {
      if dir == Snd then |queue| == capacity else |queue| == 0
    }

    method CountBlocked(dir: Direction, delta: int)
      modifies `blockedSenders, `blockedReceivers
      ensures Current() == AddBlocked(old(Current()), dir, delta)
    {
      if dir == Snd {
        blockedSenders := blockedSenders + delta;
      } else {
        blockedReceivers := blockedReceivers + delta;
      }
    }

    /** The tests after the condition variable returned, the loop condition included. */
    method TestAfterWait(t: ThreadId, op: Op) returns (again: bool)
      requires Valid() && InCall(t, op) && pcs[t].Resumed? && mutex == HeldBy(t)
      modifies this
      ensures Valid() && Advanced(t) && schedule == old(schedule)
      ensures if again then Holds(t, Counted(op))
              else InCall(t, op) && pcs[t].Leaving? && mutex == HeldBy(t) && pcs[t].outcome != LibraryThrew
      ensures Current() == Step(old(Current()), Recheck(t))
    {
      var waitResult := !pcs[t].expired;
      if (op.handle, op.dir) in interrupting {
        CountBlocked(op.dir, -1);
        pcs := pcs[t := Leaving(op, MqMonitor.Interrupted)];
        again := false;
      } else if !waitResult {
        var notStarved := !IsStarved(op.dir);
        CountBlocked(op.dir, -1);
        pcs := pcs[t := Leaving(op, if notStarved then Unstarved else StillStarved)];
        again := false;
      } else {
        again := IsStarved(op.dir);
        if again {
          pcs := pcs[t := Counted(op)];
        } else {
          CountBlocked(op.dir, -1);
          pcs := pcs[t := Leaving(op, Unstarved)];
        }
      }
      Record(Recheck(t));
    }

    /** The catch clause: off the counter, and the exception goes on. */
    method CatchClause(t: ThreadId, op: Op)
      requires Valid() && Holds(t, Unwinding(op))
      modifies this
      ensures Valid() && Advanced(t) && Holds(t, Leaving(op, LibraryThrew)) && schedule == old(schedule)
      ensures Current() == Step(old(Current()), Unwind(t))
    {
      CountBlocked(op.dir, -1);
      pcs := pcs[t := Leaving(op, LibraryThrew)];
      Record(Unwind(t));
    }

    /** The counted part of a blocking wait: the do-while loop and its catch clause. */
    method WaitUntilDecided(t: ThreadId, op: Op) returns (decided: bool)
      requires Valid() && Holds(t, Counted(op))
      modifies this
      ensures Valid() && Advanced(t) && InCall(t, op)
      ensures decided ==> pcs[t].Leaving? && mutex == HeldBy(t) && (old(NoThrows()) ==> pcs[t].outcome != LibraryThrew)
      ensures !decided ==> schedule == [] && (pcs[t].Asleep? || (pcs[t].Roused? && !CanGo(Current(), t)))
      ensures var end := SleepEnds(old(Current()), old(schedule), t);
              decided == end.Decided? && (decided ==> end == Decided(Current(), schedule))
    {
      hide CondReturns, Step;
      while true
        invariant Valid() && Advanced(t) && Holds(t, Counted(op))
        invariant SleepEnds(Current(), schedule, t) == SleepEnds(old(Current()), old(schedule), t)
        decreases |schedule|
      {
        var back, threw := CondWait(t, op);
        if !back {
          return false;
        }
        if threw {
          CatchClause(t, op);
          return true;
        }
        var again := TestAfterWait(t, op);
        if !again {
          return true;
        }
      }
    }

    /** The first tests under the mutex. */
    method TestAtOnce(t: ThreadId, op: Op) returns (waits: bool)
      requires Valid() && Holds(t, Deciding(op))
      modifies this
      ensures Valid() && Advanced(t) && schedule == old(schedule)
      ensures Current() == Step(old(Current()), Decide(t)) && waits == !NoNeedToWait(old(Current()), op)
      ensures Holds(t, if waits then Counted(op) else Leaving(op, AtOnce(old(Current()), op)))
    {
      waits := false;
      if (op.handle, op.dir) in interrupting {
        pcs := pcs[t := Leaving(op, MqMonitor.Interrupted)];
      } else if !IsStarved(op.dir) {
        pcs := pcs[t := Leaving(op, Unstarved)];
      } else if op.waitType == Poll {
        pcs := pcs[t := Leaving(op, StillStarved)];
      } else {
        waits := true;
        CountBlocked(op.dir, 1);
        pcs := pcs[t := Counted(op)];
      }
      Record(Decide(t));
    }

    /** The critical section of wait_impl from the lock to the decision. */
    method Decision(t: ThreadId, op: Op) returns (decided: bool)
      requires Valid() && Holds(t, Deciding(op))
      modifies this
      ensures Valid() && Advanced(t) && InCall(t, op)
      ensures decided ==> pcs[t].Leaving? && mutex == HeldBy(t) && (old(NoThrows()) ==> pcs[t].outcome != LibraryThrew)
      ensures NoNeedToWait(old(Current()), op) ==> decided && pcs[t].outcome == AtOnce(old(Current()), op)
      ensures !decided ==> schedule == [] && (pcs[t].Asleep? || (pcs[t].Roused? && !CanGo(Current(), t)))
      ensures var end := DecisionEnds(old(Current()), old(schedule), t);
              decided == end.Decided? && (decided ==> end == Decided(Current(), schedule))
    {
      hide SleepEnds, Step;
      var waits := TestAtOnce(t, op);
      decided := true;
      if waits {
        decided := WaitUntilDecided(t, op);
      }
    }

    method BeginCall(t: ThreadId, op: Op)
      requires Valid() && Idle(t)
      modifies `pcs, `trace
      ensures Valid() && Advanced(t) && InCall(t, op) && pcs[t].Entering? && NoTurnSince(t)
      ensures Current() == Move(old(Current()), t, Entering(op))
    {
      pcs := pcs[t := Entering(op)];
      Record(Call(t, op));
    }

    /** What was true at the moment a wait's critical section ended, given what the wait reports. */
    ghost predicate DecidedAt(at: nat, t: ThreadId, op: Op, notStarved: bool, errCode: ErrorCode)
      reads this
    {
      && at < |trace| && IsRun(start, trace[..at]) && trace[at] == Unlock(t)
      && var s := Run(start, trace[..at]);
         && Enabled(s, Unlock(t)) && s.pcs[t].op == op && Reports(s.pcs[t].outcome, notStarved, errCode)
         && Justified(s, op, notStarved, errCode)
         && (!notStarved && errCode == Success && op.waitType == TimedWait ==> ExpiredInCall(trace[..at], t, op))
    }

    lemma NotAsleepIfInterrupted(t: ThreadId, op: Op)
      requires Valid() && InCall(t, op)
      ensures pcs[t].Asleep? ==> !Interrupting(Current(), op)
    {
      ReachableInv(start, trace);
      assert PcSound(Current(), pcs[t]);
    }

    /** End of the lock's scope and of the call. */
    method EndCall(t: ThreadId, op: Op) returns (outcome: Outcome, ghost at: nat)
      requires Valid() && InCall(t, op) && pcs[t].Leaving? && mutex == HeldBy(t)
      modifies this
      ensures Valid() && Advanced(t) && Idle(t) && outcome == old(pcs[t].outcome) && NoTurnSince(t)
      ensures schedule == old(schedule)
      ensures |old(trace)| <= at && DecidedAt(at, t, op, outcome == Unstarved, ErrorOf(outcome))
      ensures Current() == AfterCall(old(Current()), t) && OutcomeIn(old(Current()), t) == outcome
    {
      ghost var before, decided := Current(), trace;
      OutcomeMeaning(start, trace, t);
      ReachableInv(start, trace);
      StarvedMeans(before);
      outcome, at := pcs[t].outcome, |trace|;
      mutex := Free;
      pcs := pcs[t := Returned(op, outcome)];
      Record(Unlock(t));
      pcs := pcs[t := Outside];
      Record(Finish(t));
      assert trace[..at] == decided;
    }

    /** wait_impl up to the moment it has the mutex. */
    method Enter(t: ThreadId, op: Op, timeoutFromNow: int) returns (locked: bool)
      requires Valid() && Idle(t)
      modifies this
      ensures Valid() && Progressed(t) && Mine(log, t) == Mine(old(log), t)
      ensures record == Waited(old(record), timeoutFromNow)
      ensures locked ==> Holds(t, Deciding(op)) && |schedule| < old(|schedule|)
      ensures !locked ==> schedule == [] && InCall(t, op) && pcs[t].Entering?
      ensures var turn := FirstTurn(Move(old(Current()), t, Entering(op)), old(schedule), t);
              locked == turn.Turn? && (locked ==> NoNeedToWait(turn.state, op) == NoNeedToWait(Current(), op)
                                                  && AtOnce(turn.state, op) == AtOnce(Current(), op))
      ensures !locked ==> if old(schedule) == [] then NoTurnSince(t) else !CanGo(Current(), t)
      ensures var turn := FirstTurn(Step(old(Current()), Call(t, op)), old(schedule), t);
              locked == turn.Turn? && (locked ==> Current() == Step(turn.state, Lock(t)) && schedule == turn.rest)
    {
      record := Waited(record, timeoutFromNow);
      BeginCall(t, op);
      locked := AcquireMutex(t, op);
    }

    /** wait_impl from the moment it has the mutex. */
    method Conclude(t: ThreadId, op: Op)
      returns (finished: bool, notStarved: bool, errCode: ErrorCode, ghost at: nat)
      requires Valid() && Holds(t, Deciding(op))
      modifies this
      ensures Valid() && Advanced(t)
      ensures finished ==> Idle(t) && |old(trace)| <= at && DecidedAt(at, t, op, notStarved, errCode) && NoTurnSince(t)
      ensures finished && op.waitType == Wait ==> (notStarved <==> errCode == Success)
      ensures finished && old(NoThrows()) ==> errCode != SMqBipcMiscLibraryError
      ensures NoNeedToWait(old(Current()), op) ==> finished && Reports(AtOnce(old(Current()), op), notStarved, errCode)
      ensures !finished ==> schedule == [] && errCode == Success && InCall(t, op)
                            && (pcs[t].Asleep? || (pcs[t].Roused? && !CanGo(Current(), t)))
                            && (pcs[t].Asleep? ==> !Interrupting(Current(), op))
      ensures var end := DecisionEnds(old(Current()), old(schedule), t);
              && finished == end.Decided?
              && (finished ==> schedule == end.rest && Current() == AfterCall(end.state, t)
                               && Reports(OutcomeIn(end.state, t), notStarved, errCode))
    {
      finished, notStarved, errCode, at := false, false, Success, 0;
      var decided := Decision(t, op);
      if decided {
        var outcome;
        outcome, at := EndCall(t, op);
        finished, notStarved, errCode := true, outcome == Unstarved, ErrorOf(outcome);
      } else {
        NotAsleepIfInterrupted(t, op);
      }
    }

    /** wait_impl.  `at` is the place in the trace where the critical section ended.  It is unfinished only while asleep,
        kept from the mutex, or without a turn. */
    method WaitImpl(t: ThreadId, op: Op, timeoutFromNow: int)
      returns (finished: bool, notStarved: bool, errCode: ErrorCode, ghost at: nat)
      requires Valid() && Idle(t)
      modifies this
      ensures Valid() && Progressed(t) && Mine(log, t) == Mine(old(log), t)
      ensures record == Waited(old(record), timeoutFromNow)
      ensures finished ==> Idle(t) && |old(trace)| <= at && DecidedAt(at, t, op, notStarved, errCode)
      ensures finished && op.waitType == Wait ==> (notStarved <==> errCode == Success)
      ensures errCode != SMqMessageSizeOverOrUnderflow && (!finished ==> errCode == Success)
      ensures finished ==> NoTurnSince(t) && |schedule| < old(|schedule|)
      ensures finished && old(NoThrows()) ==> errCode != SMqBipcMiscLibraryError
      ensures var turn := FirstTurn(Move(old(Current()), t, Entering(op)), old(schedule), t);
              turn.Turn? && NoNeedToWait(turn.state, op) ==>
                finished && Reports(AtOnce(turn.state, op), notStarved, errCode)
      ensures !finished ==> schedule == [] && InCall(t, op) && !InCriticalSection(pcs[t])
      ensures !finished ==> !CanGo(Current(), t) || NoTurnSince(t)
      ensures !finished && old(schedule) != [] ==> !CanGo(Current(), t)
      ensures !finished && pcs[t].Asleep? ==> !Interrupting(Current(), op)
      ensures var end := CallEnds(old(Current()), old(schedule), t, op);
              && finished == end.Decided?
              && (finished ==> schedule == end.rest && Current() == AfterCall(end.state, t)
                               && Reports(OutcomeIn(end.state, t), notStarved, errCode))
      ensures IsSuffix(schedule, old(schedule))
    {
      hide DecisionEnds, FirstTurn, Step, AfterCall, SharedQueue.DecidedAt;
      finished, notStarved, errCode, at := false, false, Success, 0;
      CallUsesUp(Current(), schedule, t, op);
      var locked := Enter(t, op, timeoutFromNow);
      if locked {
        finished, notStarved, errCode, at := Conclude(t, op);
      }
    }

    // ----- Transmission -----

    /** The library's own push inside its critical section. */
    method PushNow(t: ThreadId, m: Message) returns (ok: bool)
      requires Valid() && Idle(t) && mutex == Free
      modifies `queue, `log, `trace
      ensures Valid() && old(trace) <= trace && ok == !Starved(old(Current()), Snd)
      ensures Enabled(old(Current()), TrySend(t, m)) && Current() == Apply(old(Current()), TrySend(t, m))
      ensures ok <==> Outstanding(old(log)) < capacity
      ensures Mine(log, t) == Mine(old(log), t) + if ok then [Pushed(t, m)] else []
    {
      ReachableInv(start, trace);
      StarvedMeans(Current());
      ok := |queue| != capacity;
      if ok {
        queue, log := queue + [m], log + [Pushed(t, m)];
      }
      MineGrows(old(log), Pushed(t, m), t);
      Record(TrySend(t, m));
    }

    /** The library's try_send under our mutex, at the thread's next turn; its errors are the size and whatever else it
        throws. */
    method TryPush(t: ThreadId, m: Message) returns (finished: bool, ok: bool, errCode: ErrorCode)
      requires Valid() && Idle(t)
      modifies this
      ensures Valid() && Progressed(t) && record == old(record) && Idle(t)
      ensures Mine(log, t) == Mine(old(log), t) + if ok then [Pushed(t, m)] else []
      ensures ok ==> finished && errCode == Success
      ensures |m| > maxMsgSize ==> finished && errCode == SMqMessageSizeOverOrUnderflow && schedule == old(schedule)
      ensures |m| <= maxMsgSize ==>
                var turn := FirstTurn(old(Current()), old(schedule), t);
                && finished == turn.Turn?
                && (finished ==>
                      && schedule == turn.rest && |schedule| < old(|schedule|)
                      && errCode == (if turn.libraryThrows then SMqBipcMiscLibraryError else Success)
                      && (if turn.libraryThrows then Current() == turn.state
                          else ok == !Starved(turn.state, Snd) && Enabled(turn.state, TrySend(t, m))
                               && Current() == Apply(turn.state, TrySend(t, m))))
      ensures old(NoThrows()) ==> errCode != SMqBipcMiscLibraryError
      ensures !finished ==> schedule == [] && errCode == Success
      ensures !finished ==> if old(schedule) == [] then trace == old(trace) else !CanGo(Current(), t)
      ensures |m| <= maxMsgSize ==>
                var turn := FirstTurn(old(Current()), old(schedule), t);
                turn.Turn? && !turn.libraryThrows ==> Current() == Step(turn.state, TrySend(t, m))
      ensures |m| <= maxMsgSize ==>
                var turn := FirstTurn(old(Current()), old(schedule), t);
                turn.Turn? && !turn.libraryThrows ==> (ok <==> Outstanding(turn.state.log) < capacity)
    {
      hide FirstTurn, Enabled, Apply, PushedMessages, PoppedMessages, Mine;
      if |m| > maxMsgSize {
        return true, false, SMqMessageSizeOverOrUnderflow;
      }
      var libraryThrows;
      finished, libraryThrows := AwaitTurn(t);
      ok, errCode := false, Success;
      if libraryThrows {
        errCode := SMqBipcMiscLibraryError;
      } else if finished {
        ok := PushNow(t, m);
      }
    }

    /** send(): exactly one copy goes in if success is reported, none otherwise; and success it is if there is room at
        the thread's next turn. */
    method Send(t: ThreadId, h: HandleId, m: Message)
      returns (finished: bool, errCode: ErrorCode, ghost at: nat)
      requires Valid() && Idle(t)
      modifies this
      ensures Valid() && old(trace) <= trace && (finished ==> Idle(t))
      ensures Mine(log, t) == Mine(old(log), t) + if finished && errCode == Success then [Pushed(t, m)] else []
      ensures |m| > maxMsgSize ==> finished && errCode == SMqMessageSizeOverOrUnderflow
      ensures |m| <= maxMsgSize ==> errCode == Success || errCode == SInterrupted || errCode == SMqBipcMiscLibraryError
      ensures finished && errCode == SInterrupted ==>
                |old(trace)| <= at && DecidedAt(at, t, Op(h, Snd, Wait), false, errCode)
      ensures old(NoThrows()) ==> errCode != SMqBipcMiscLibraryError
      ensures |m| <= maxMsgSize && ServedAtOnce(old(Current()), old(schedule), t, Snd) ==> finished && errCode == Success
      ensures !finished ==> schedule == [] && (old(schedule) == [] || !CanGo(Current(), t) || NoTurnSince(t))
      ensures |m| <= maxMsgSize ==>
                var end := TransmitEnds(old(Current()), old(schedule), t, TrySend(t, m), Op(h, Snd, Wait));
                finished == end.Over? && (finished ==> end == Over(errCode == Success, errCode, Current(), schedule))
      ensures IsSuffix(schedule, old(schedule))
    {
      hide TransmitEnds, ServedAtOnce, SharedQueue.DecidedAt;
      TransmissionUsesUp(Current(), schedule, t, TrySend(t, m), Op(h, Snd, Wait));
      at := 0;
      while true
        invariant Valid() && old(trace) <= trace && Mine(log, t) == Mine(old(log), t) && Idle(t)
        invariant old(NoThrows()) ==> NoThrows()
        invariant (Current() == old(Current()) && schedule == old(schedule))
                  || (NoTurnSince(t) && !ServedAtOnce(old(Current()), old(schedule), t, Snd))
        invariant |m| <= maxMsgSize ==>
                    TransmitEnds(Current(), schedule, t, TrySend(t, m), Op(h, Snd, Wait))
                    == TransmitEnds(old(Current()), old(schedule), t, TrySend(t, m), Op(h, Snd, Wait))
        invariant |m| > maxMsgSize ==> schedule == old(schedule)
        decreases |schedule|
      {
        var ok, waited, ready;
        finished, ok, waited, ready, errCode, at := SendRound(t, h, m, Wait, 0);
        if !ready {
          return;
        }
      }
    }

    /** A clock that never goes backwards. */
    method FineClockNow() returns (now: int)
      requires Valid()
      modifies `time, `ticks, `record
      ensures Valid() && now == time >= old(time) && record == ClockRead(old(record), time)
    {
      if ticks != [] {
        time, ticks := time + ticks[0], ticks[1..];
      }
      record := ClockRead(record, time);
      now := time;
    }

    /** One round of send() or timed_send(): a non-blocking push and, if that would block, a wait. */
    method SendRound(t: ThreadId, h: HandleId, m: Message, waitType: WaitType, budget: int)
      returns (finished: bool, ok: bool, waited: bool, ready: bool, errCode: ErrorCode, ghost at: nat)
      requires Valid() && Idle(t)
      modifies this
      ensures Valid() && Progressed(t) && (finished ==> Idle(t))
      ensures record == if waited then Waited(old(record), budget) else old(record)
      ensures Mine(log, t) == Mine(old(log), t) + if ok then [Pushed(t, m)] else []
      ensures ok ==> finished && errCode == Success && !ready && !waited
      ensures |m| > maxMsgSize ==> finished && errCode == SMqMessageSizeOverOrUnderflow && !waited
      ensures finished && !ok && !ready && |m| <= maxMsgSize && errCode != SMqBipcMiscLibraryError ==>
                waited && |old(trace)| <= at && DecidedAt(at, t, Op(h, Snd, waitType), false, errCode)
      ensures old(NoThrows()) ==> errCode != SMqBipcMiscLibraryError
      ensures ready ==> finished && waited && errCode == Success && |schedule| < old(|schedule|) && NoTurnSince(t)
      ensures finished && !ok && errCode == Success && waitType == Wait ==> ready
      ensures errCode == SMqMessageSizeOverOrUnderflow <==> !(|m| <= maxMsgSize)
      ensures !finished ==> errCode == Success
      ensures |m| <= maxMsgSize && ServedAtOnce(old(Current()), old(schedule), t, Snd) ==> ok
      ensures !finished ==> schedule == [] && (if old(schedule) == [] then trace == old(trace) else !CanGo(Current(), t) || NoTurnSince(t))
      ensures |m| <= maxMsgSize ==>
                var end := TransmitEnds(old(Current()), old(schedule), t, TrySend(t, m), Op(h, Snd, waitType));
                if ready then end == TransmitEnds(Current(), schedule, t, TrySend(t, m), Op(h, Snd, waitType))
                else finished == end.Over? && (finished ==> end == Over(ok, errCode, Current(), schedule))
      ensures |m| > maxMsgSize ==> schedule == old(schedule)
    {
      hide CallEnds, FirstTurn, AfterCall, Step, SharedQueue.DecidedAt;
      waited, ready, at := false, false, 0;
      finished, ok, errCode := TryPush(t, m);
      if finished && errCode == Success && !ok {
        waited := true;
        finished, ready, errCode, at := WaitImpl(t, Op(h, Snd, waitType), budget);
        ready := ready && finished;
      }
    }

    /** One round of timed_send() and, if it is to be tried again, a look at the clock. */
    method SendLap(t: ThreadId, h: HandleId, m: Message, left: int, start: int, after: int, ghost base: Record, ghost timeout: int)
      returns (again: bool, finished: bool, sent: bool, errCode: ErrorCode, left': int, after': int, ghost at: nat)
      requires Valid() && Idle(t) && OnBudget(record, base, start, timeout, left, after) && after <= time
      modifies this
      ensures Valid() && old(trace) <= trace && (finished ==> Idle(t)) && (old(NoThrows()) ==> NoThrows())
      ensures Mine(log, t) == Mine(old(log), t) + if sent then [Pushed(t, m)] else []
      ensures WellTimed(record, base, start, timeout)
      ensures again ==>
                && OnBudget(record, base, start, timeout, left', after') && after' <= time
                && finished && !sent && |m| <= maxMsgSize && |schedule| < old(|schedule|) && NoTurnSince(t)
      ensures sent ==> finished && errCode == Success && record == old(record)
      ensures |m| > maxMsgSize ==> finished && errCode == SMqMessageSizeOverOrUnderflow && record == old(record)
      ensures finished && !sent && !again && |m| <= maxMsgSize && errCode != SMqBipcMiscLibraryError ==>
                record.Waited? && |old(trace)| <= at && DecidedAt(at, t, Op(h, Snd, TimedWait), false, errCode)
      ensures old(NoThrows()) ==> errCode != SMqBipcMiscLibraryError
      ensures |m| <= maxMsgSize && ServedAtOnce(old(Current()), old(schedule), t, Snd) ==> sent
      ensures !finished ==> schedule == []
      ensures !finished ==> (if old(schedule) == [] then trace == old(trace) else !CanGo(Current(), t) || NoTurnSince(t))
      ensures |m| <= maxMsgSize ==>
                var end := TransmitEnds(old(Current()), old(schedule), t, TrySend(t, m), Op(h, Snd, TimedWait));
                if again then end == TransmitEnds(Current(), schedule, t, TrySend(t, m), Op(h, Snd, TimedWait))
                else finished == end.Over? && (finished ==> end == Over(sent, errCode, Current(), schedule))
      ensures |m| > maxMsgSize ==> schedule == old(schedule)
    {
      hide TransmitEnds, ServedAtOnce, SharedQueue.DecidedAt;
      left', after' := left - (after - start), after;
      LapEnds(record, base, start, timeout, left, after, after);
      var waited;
      finished, sent, waited, again, errCode, at := SendRound(t, h, m, TimedWait, left');
      if again {
        after' := FineClockNow();
        LapEnds(old(record), base, start, timeout, left, after, after');
      }
    }

    /** timed_send().  `start` is what the clock showed at the beginning. */
    method TimedSend(t: ThreadId, h: HandleId, m: Message, timeout: int)
      returns (finished: bool, sent: bool, errCode: ErrorCode, start: int, ghost at: nat)
      requires Valid() && Idle(t)
      modifies this
      ensures Valid() && old(trace) <= trace && (finished ==> Idle(t))
      ensures sent ==> finished && errCode == Success && record.ClockRead?
      ensures Mine(log, t) == Mine(old(log), t) + if sent then [Pushed(t, m)] else []
      ensures WellTimed(record, old(record), start, timeout)
      ensures |m| > maxMsgSize ==>
                finished && errCode == SMqMessageSizeOverOrUnderflow && record == ClockRead(old(record), start)
      ensures finished && !sent && |m| <= maxMsgSize && errCode != SMqBipcMiscLibraryError ==>
                record.Waited? && |old(trace)| <= at && DecidedAt(at, t, Op(h, Snd, TimedWait), false, errCode)
      ensures old(NoThrows()) ==> errCode != SMqBipcMiscLibraryError
      ensures |m| <= maxMsgSize && ServedAtOnce(old(Current()), old(schedule), t, Snd) ==> sent
      ensures !finished ==> schedule == [] && (old(schedule) == [] || !CanGo(Current(), t) || NoTurnSince(t))
      ensures |m| <= maxMsgSize ==>
                var end := TransmitEnds(old(Current()), old(schedule), t, TrySend(t, m), Op(h, Snd, TimedWait));
                finished == end.Over? && (finished ==> end == Over(sent, errCode, Current(), schedule))
      ensures IsSuffix(schedule, old(schedule))
    {
      hide TransmitEnds, ServedAtOnce, SharedQueue.DecidedAt;
      TransmissionUsesUp(Current(), schedule, t, TrySend(t, m), Op(h, Snd, TimedWait));
      ghost var served, first := |m| <= maxMsgSize && ServedAtOnce(Current(), schedule, t, Snd), true;
      start := FineClockNow();
      BudgetBegins(old(record), start, timeout);
      var left, after, again := timeout, start, true;
      while true
        invariant Valid() && old(trace) <= trace && Idle(t) && (old(NoThrows()) ==> NoThrows())
        invariant Mine(log, t) == Mine(old(log), t)
        invariant OnBudget(record, old(record), start, timeout, left, after) && after <= time
        invariant if first then Current() == old(Current()) && schedule == old(schedule) && trace == old(trace)
                                && record == ClockRead(old(record), start)
                  else NoTurnSince(t) && !served && |m| <= maxMsgSize
        invariant |m| <= maxMsgSize ==>
                    TransmitEnds(Current(), schedule, t, TrySend(t, m), Op(h, Snd, TimedWait))
                    == TransmitEnds(old(Current()), old(schedule), t, TrySend(t, m), Op(h, Snd, TimedWait))
        decreases |schedule|
      {
        again, finished, sent, errCode, left, after, at := SendLap(t, h, m, left, start, after, old(record), timeout);
        if !again {
          return;
        }
        first := false;
      }
    }

    /** The library's own pop inside its critical section. */
    method PopNow(t: ThreadId) returns (ok: bool, m: Message)
      requires Valid() && Idle(t) && mutex == Free
      modifies `queue, `log, `trace
      ensures Valid() && old(trace) <= trace && ok == !Starved(old(Current()), Rcv)
      ensures Enabled(old(Current()), TryReceive(t)) && Current() == Apply(old(Current()), TryReceive(t))
      ensures ok <==> PoppedMessages(old(log)) != PushedMessages(old(log))
      ensures ok ==> Outstanding(old(log)) > 0 && m == PushedMessages(old(log))[|PoppedMessages(old(log))|]
      ensures Mine(log, t) == Mine(old(log), t) + if ok then [Popped(t, m)] else []
    {
      ReachableInv(start, trace);
      StarvedMeans(Current());
      ok, m := |queue| != 0, [];
      if ok {
        m := queue[0];
        queue, log := queue[1..], log + [Popped(t, m)];
      }
      MineGrows(old(log), Popped(t, m), t);
      Record(TryReceive(t));
    }

    /** The library's try_receive under our mutex, at the thread's next turn; a buffer below the maximal size is
        refused. */
    method TryPop(t: ThreadId, bufferSize: nat) returns (finished: bool, ok: bool, m: Message, errCode: ErrorCode)
      requires Valid() && Idle(t)
      modifies this
      ensures Valid() && Progressed(t) && record == old(record) && Idle(t)
      ensures Mine(log, t) == Mine(old(log), t) + if ok then [Popped(t, m)] else []
      ensures ok ==> finished && errCode == Success
      ensures bufferSize < maxMsgSize ==> finished && errCode == SMqMessageSizeOverOrUnderflow && schedule == old(schedule)
      ensures bufferSize >= maxMsgSize ==>
                var turn := FirstTurn(old(Current()), old(schedule), t);
                && finished == turn.Turn?
                && (finished ==>
                      && schedule == turn.rest && |schedule| < old(|schedule|)
                      && errCode == (if turn.libraryThrows then SMqBipcMiscLibraryError else Success)
                      && (if turn.libraryThrows then Current() == turn.state
                          else ok == !Starved(turn.state, Rcv) && Enabled(turn.state, TryReceive(t))
                               && Current() == Apply(turn.state, TryReceive(t))))
      ensures old(NoThrows()) ==> errCode != SMqBipcMiscLibraryError
      ensures !finished ==> schedule == [] && errCode == Success
      ensures !finished ==> if old(schedule) == [] then trace == old(trace) else !CanGo(Current(), t)
      ensures bufferSize >= maxMsgSize ==>
                var turn := FirstTurn(old(Current()), old(schedule), t);
                turn.Turn? && !turn.libraryThrows ==> Current() == Step(turn.state, TryReceive(t))
      ensures bufferSize >= maxMsgSize ==>
                var turn := FirstTurn(old(Current()), old(schedule), t);
                turn.Turn? && !turn.libraryThrows ==>
                  && (ok <==> PoppedMessages(turn.state.log) != PushedMessages(turn.state.log))
                  && (ok ==> Outstanding(turn.state.log) > 0
                             && m == PushedMessages(turn.state.log)[|PoppedMessages(turn.state.log)|])
    {
      hide FirstTurn, Enabled, Apply, PushedMessages, PoppedMessages, Mine;
      m := [];
      if bufferSize < maxMsgSize {
        return true, false, [], SMqMessageSizeOverOrUnderflow;
      }
      var libraryThrows;
      finished, libraryThrows := AwaitTurn(t);
      ok, errCode := false, Success;
      if libraryThrows {
        errCode := SMqBipcMiscLibraryError;
      } else if finished {
        ok, m := PopNow(t);
      }
    }

    /** receive(): exactly one message comes out if success is reported, none otherwise; and success it is if there is
        one at the thread's next turn. */
    method Receive(t: ThreadId, h: HandleId, bufferSize: nat)
      returns (finished: bool, m: Message, errCode: ErrorCode, ghost at: nat)
      requires Valid() && Idle(t)
      modifies this
      ensures Valid() && old(trace) <= trace && (finished ==> Idle(t))
      ensures Mine(log, t) == Mine(old(log), t) + if finished && errCode == Success then [Popped(t, m)] else []
      ensures bufferSize < maxMsgSize ==> finished && errCode == SMqMessageSizeOverOrUnderflow
      ensures bufferSize >= maxMsgSize ==> errCode == Success || errCode == SInterrupted || errCode == SMqBipcMiscLibraryError
      ensures finished && errCode == SInterrupted ==>
                |old(trace)| <= at && DecidedAt(at, t, Op(h, Rcv, Wait), false, errCode)
      ensures old(NoThrows()) ==> errCode != SMqBipcMiscLibraryError
      ensures bufferSize >= maxMsgSize && ServedAtOnce(old(Current()), old(schedule), t, Rcv) ==> finished && errCode == Success
      ensures !finished ==> schedule == [] && (old(schedule) == [] || !CanGo(Current(), t) || NoTurnSince(t))
      ensures bufferSize >= maxMsgSize ==>
                var end := TransmitEnds(old(Current()), old(schedule), t, TryReceive(t), Op(h, Rcv, Wait));
                finished == end.Over? && (finished ==> end == Over(errCode == Success, errCode, Current(), schedule))
      ensures IsSuffix(schedule, old(schedule))
    {
      hide TransmitEnds, ServedAtOnce, SharedQueue.DecidedAt;
      TransmissionUsesUp(Current(), schedule, t, TryReceive(t), Op(h, Rcv, Wait));
      at := 0;
      while true
        invariant Valid() && old(trace) <= trace && Mine(log, t) == Mine(old(log), t) && Idle(t)
        invariant old(NoThrows()) ==> NoThrows()
        invariant (Current() == old(Current()) && schedule == old(schedule))
                  || (NoTurnSince(t) && !ServedAtOnce(old(Current()), old(schedule), t, Rcv))
        invariant bufferSize >= maxMsgSize ==>
                    TransmitEnds(Current(), schedule, t, TryReceive(t), Op(h, Rcv, Wait))
                    == TransmitEnds(old(Current()), old(schedule), t, TryReceive(t), Op(h, Rcv, Wait))
        invariant bufferSize < maxMsgSize ==> schedule == old(schedule)
        decreases |schedule|
      {
        var ok, waited, ready;
        finished, ok, m, waited, ready, errCode, at := ReceiveRound(t, h, bufferSize, Wait, 0);
        if !ready {
          return;
        }
      }
    }

    /** One round of receive() or timed_receive(): a non-blocking pop and, if that would block, a wait. */
    method ReceiveRound(t: ThreadId, h: HandleId, bufferSize: nat, waitType: WaitType, budget: int)
      returns (finished: bool, ok: bool, m: Message, waited: bool, ready: bool, errCode: ErrorCode, ghost at: nat)
      requires Valid() && Idle(t)
      modifies this
      ensures Valid() && Progressed(t) && (finished ==> Idle(t))
      ensures record == if waited then Waited(old(record), budget) else old(record)
      ensures Mine(log, t) == Mine(old(log), t) + if ok then [Popped(t, m)] else []
      ensures ok ==> finished && errCode == Success && !ready && !waited
      ensures bufferSize < maxMsgSize ==> finished && errCode == SMqMessageSizeOverOrUnderflow && !waited
      ensures finished && !ok && !ready && bufferSize >= maxMsgSize && errCode != SMqBipcMiscLibraryError ==>
                waited && |old(trace)| <= at && DecidedAt(at, t, Op(h, Rcv, waitType), false, errCode)
      ensures old(NoThrows()) ==> errCode != SMqBipcMiscLibraryError
      ensures ready ==> finished && waited && errCode == Success && |schedule| < old(|schedule|) && NoTurnSince(t)
      ensures finished && !ok && errCode == Success && waitType == Wait ==> ready
      ensures errCode == SMqMessageSizeOverOrUnderflow <==> !(bufferSize >= maxMsgSize)
      ensures !finished ==> errCode == Success
      ensures bufferSize >= maxMsgSize && ServedAtOnce(old(Current()), old(schedule), t, Rcv) ==> ok
      ensures !finished ==> schedule == [] && (if old(schedule) == [] then trace == old(trace) else !CanGo(Current(), t) || NoTurnSince(t))
      ensures bufferSize >= maxMsgSize ==>
                var end := TransmitEnds(old(Current()), old(schedule), t, TryReceive(t), Op(h, Rcv, waitType));
                if ready then end == TransmitEnds(Current(), schedule, t, TryReceive(t), Op(h, Rcv, waitType))
                else finished == end.Over? && (finished ==> end == Over(ok, errCode, Current(), schedule))
      ensures bufferSize < maxMsgSize ==> schedule == old(schedule)
    {
      hide CallEnds, FirstTurn, AfterCall, Step, SharedQueue.DecidedAt;
      waited, ready, at := false, false, 0;
      finished, ok, m, errCode := TryPop(t, bufferSize);
      if finished && errCode == Success && !ok {
        waited := true;
        finished, ready, errCode, at := WaitImpl(t, Op(h, Rcv, waitType), budget);
        ready := ready && finished;
      }
    }

    /** One round of timed_receive() and, if it is to be tried again, a look at the clock. */
    method ReceiveLap(t: ThreadId, h: HandleId, bufferSize: nat, left: int, start: int, after: int, ghost base: Record, ghost timeout: int)
      returns (again: bool, finished: bool, received: bool, m: Message, errCode: ErrorCode, left': int, after': int, ghost at: nat)
      requires Valid() && Idle(t) && OnBudget(record, base, start, timeout, left, after) && after <= time
      modifies this
      ensures Valid() && old(trace) <= trace && (finished ==> Idle(t)) && (old(NoThrows()) ==> NoThrows())
      ensures Mine(log, t) == Mine(old(log), t) + if received then [Popped(t, m)] else []
      ensures WellTimed(record, base, start, timeout)
      ensures again ==>
                && OnBudget(record, base, start, timeout, left', after') && after' <= time
                && finished && !received && bufferSize >= maxMsgSize && |schedule| < old(|schedule|) && NoTurnSince(t)
      ensures received ==> finished && errCode == Success && record == old(record)
      ensures bufferSize < maxMsgSize ==> finished && errCode == SMqMessageSizeOverOrUnderflow && record == old(record)
      ensures finished && !received && !again && bufferSize >= maxMsgSize && errCode != SMqBipcMiscLibraryError ==>
                record.Waited? && |old(trace)| <= at && DecidedAt(at, t, Op(h, Rcv, TimedWait), false, errCode)
      ensures old(NoThrows()) ==> errCode != SMqBipcMiscLibraryError
      ensures bufferSize >= maxMsgSize && ServedAtOnce(old(Current()), old(schedule), t, Rcv) ==> received
      ensures !finished ==> schedule == []
      ensures !finished ==> (if old(schedule) == [] then trace == old(trace) else !CanGo(Current(), t) || NoTurnSince(t))
      ensures bufferSize >= maxMsgSize ==>
                var end := TransmitEnds(old(Current()), old(schedule), t, TryReceive(t), Op(h, Rcv, TimedWait));
                if again then end == TransmitEnds(Current(), schedule, t, TryReceive(t), Op(h, Rcv, TimedWait))
                else finished == end.Over? && (finished ==> end == Over(received, errCode, Current(), schedule))
      ensures bufferSize < maxMsgSize ==> schedule == old(schedule)
    {
      hide TransmitEnds, ServedAtOnce, SharedQueue.DecidedAt;
      left', after' := left - (after - start), after;
      LapEnds(record, base, start, timeout, left, after, after);
      var waited;
      finished, received, m, waited, again, errCode, at := ReceiveRound(t, h, bufferSize, TimedWait, left');
      if again {
        after' := FineClockNow();
        LapEnds(old(record), base, start, timeout, left, after, after');
      }
    }

    /** timed_receive().  The mirror image. */
    method TimedReceive(t: ThreadId, h: HandleId, bufferSize: nat, timeout: int)
      returns (finished: bool, received: bool, m: Message, errCode: ErrorCode, start: int, ghost at: nat)
      requires Valid() && Idle(t)
      modifies this
      ensures Valid() && old(trace) <= trace && (finished ==> Idle(t))
      ensures received ==> finished && errCode == Success && record.ClockRead?
      ensures Mine(log, t) == Mine(old(log), t) + if received then [Popped(t, m)] else []
      ensures WellTimed(record, old(record), start, timeout)
      ensures bufferSize < maxMsgSize ==>
                finished && errCode == SMqMessageSizeOverOrUnderflow && record == ClockRead(old(record), start)
      ensures finished && !received && bufferSize >= maxMsgSize && errCode != SMqBipcMiscLibraryError ==>
                record.Waited? && |old(trace)| <= at && DecidedAt(at, t, Op(h, Rcv, TimedWait), false, errCode)
      ensures old(NoThrows()) ==> errCode != SMqBipcMiscLibraryError
      ensures bufferSize >= maxMsgSize && ServedAtOnce(old(Current()), old(schedule), t, Rcv) ==> received
      ensures !finished ==> schedule == [] && (old(schedule) == [] || !CanGo(Current(), t) || NoTurnSince(t))
      ensures bufferSize >= maxMsgSize ==>
                var end := TransmitEnds(old(Current()), old(schedule), t, TryReceive(t), Op(h, Rcv, TimedWait));
                finished == end.Over? && (finished ==> end == Over(received, errCode, Current(), schedule))
      ensures IsSuffix(schedule, old(schedule))
    {
      hide TransmitEnds, ServedAtOnce, SharedQueue.DecidedAt;
      TransmissionUsesUp(Current(), schedule, t, TryReceive(t), Op(h, Rcv, TimedWait));
      ghost var served, first := bufferSize >= maxMsgSize && ServedAtOnce(Current(), schedule, t, Rcv), true;
      start := FineClockNow();
      BudgetBegins(old(record), start, timeout);
      var left, after, again := timeout, start, true;
      while true
        invariant Valid() && old(trace) <= trace && Idle(t) && (old(NoThrows()) ==> NoThrows())
        invariant Mine(log, t) == Mine(old(log), t)
        invariant OnBudget(record, old(record), start, timeout, left, after) && after <= time
        invariant if first then Current() == old(Current()) && schedule == old(schedule) && trace == old(trace)
                                && record == ClockRead(old(record), start)
                  else NoTurnSince(t) && !served && bufferSize >= maxMsgSize
        invariant bufferSize >= maxMsgSize ==>
                    TransmitEnds(Current(), schedule, t, TryReceive(t), Op(h, Rcv, TimedWait))
                    == TransmitEnds(old(Current()), old(schedule), t, TryReceive(t), Op(h, Rcv, TimedWait))
        decreases |schedule|
      {
        again, finished, received, m, errCode, left, after, at := ReceiveLap(t, h, bufferSize, left, start, after, old(record), timeout);
        if !again {
          return;
        }
        first := false;
      }
    }

    /** The critical section of interrupt_allow_impl. */
    method SetMode(t: ThreadId, h: HandleId, dir: Direction, on: bool) returns (changed: bool)
      requires Valid() && Idle(t) && mutex == Free
      modifies this
      ensures Valid() && Advanced(t) && schedule == old(schedule)
      ensures Enabled(old(Current()), SetInterrupt(t, h, dir, on))
      ensures Current() == Apply(old(Current()), SetInterrupt(t, h, dir, on))
      ensures changed == (((h, dir) in old(interrupting)) != on)
      ensures interrupting == if on then old(interrupting) + {(h, dir)} else old(interrupting) - {(h, dir)}
      ensures pcs == if changed && on then RouseAll(old(pcs), dir) else old(pcs)
    {
      changed := ((h, dir) in interrupting) != on;
      if changed {
        interrupting := if on then interrupting + {(h, dir)} else interrupting - {(h, dir)};
        if on {
          pcs := RouseAll(pcs, dir);
        }
      }
      Record(SetInterrupt(t, h, dir, on));
    }

    /** interrupt_*() and allow_*(): done at the thread's next turn; reports whether the mode changed, and when on no
        sleeper of it is left. */
    method InterruptAllowImpl(t: ThreadId, h: HandleId, dir: Direction, on: bool)
      returns (finished: bool, changed: bool, ghost before: State)
      requires Valid() && Idle(t)
      modifies this
      ensures Valid() && Advanced(t)
      ensures var turn := FirstTurn(old(Current()), old(schedule), t);
              finished == turn.Turn? && (finished ==> before == turn.state && schedule == turn.rest)
      ensures finished ==> Undisturbed(old(Current()), before, t) && Enabled(before, SetInterrupt(t, h, dir, on))
                           && Current() == Apply(before, SetInterrupt(t, h, dir, on))
                           && changed == (((h, dir) in before.interrupting) != on)
                           && ((h, dir) in interrupting) == on
      ensures finished && !changed ==> Current() == before
      ensures finished && on ==> forall u, op | InCall(u, op) && op.handle == h && op.dir == dir :: !pcs[u].Asleep?
      ensures !finished ==> schedule == [] && (old(schedule) != [] ==> !CanGo(Current(), t))
    {
      var libraryThrows;
      changed := false;
      finished, libraryThrows := AwaitTurn(t);
      before := Current();
      if finished {
        changed := SetMode(t, h, dir, on);
        ReachableInv(start, trace);
        SleepersAreNotInterrupted(h, dir);
      }
    }

    lemma SleepersAreNotInterrupted(h: HandleId, dir: Direction)
      requires Inv(Current())
      ensures (h, dir) in interrupting ==>
                forall u, op | InCall(u, op) && op.handle == h && op.dir == dir :: !pcs[u].Asleep?
    {
      forall u, op | InCall(u, op) && pcs[u].Asleep?
        ensures !Interrupting(Current(), op)
      {
        assert PcSound(Current(), pcs[u]);
      }
    }
  }

  /** A timed receive on an empty queue that reports a timeout. */
  method TimeOut() returns (finished: bool, received: bool, errCode: ErrorCode, q: SharedQueue)
    ensures fresh(q) && finished && !received && errCode == Success && q.record.Waited? && q.blockedReceivers == 0
  {
    q := new SharedQueue(1, 8, {0}, TO_TIMEOUT, []);
    assert q.pcs == map[0 := Outside];
    TimesOut(q.Current(), Op(0, Rcv, TimedWait));
    var m, start;
    ghost var at;
    finished, received, m, errCode, start, at := q.TimedReceive(0, 0, 8, 5);
  }
}
