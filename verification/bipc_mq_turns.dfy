/**
 What the calls of one thread on a shared `Bipc_mq_handle` queue amount to, as functions of the state they begin in and
 of the schedule: when the thread gets the mutex, how a wait ends, how a send or a receive ends.
 */
module BipcMqTurns {
  import opened MqMonitor

  /** What the environment does before one turn of the thread, and whether the library throws in that turn. */
  datatype Slice = Slice(actions: seq<Action>, libraryThrows: bool)

  datatype ErrorCode = Success | SInterrupted | SMqMessageSizeOverOrUnderflow | SMqBipcMiscLibraryError

  /** What happens to `t` through no move of its own: sleepers are roused, deadlines pass. */
  predicate ByEnvironment(a: Action, t: ThreadId) {
    a.thread != t || a.Rouse? || a.Expire?
  }

  /** One slice of the environment's actions; what is not possible at its moment is passed over. */
  function AfterSlice(s: State, actions: seq<Action>, t: ThreadId): State
    decreases |actions|
  {
    if actions == [] then s
    else
      var a := actions[0];
      AfterSlice(if Enabled(s, a) && ByEnvironment(a, t) then Apply(s, a) else s, actions[1..], t)
  }

  /** Thread `t` is awake and the mutex is there to be taken. */
  predicate CanGo(s: State, t: ThreadId) {
    t in s.pcs && s.mutex == Free && !s.pcs[t].Asleep?
  }

  /** The next moment at which the thread gets the mutex, and what is left of the schedule then. */
  datatype Turn = NoTurn | Turn(state: State, rest: seq<Slice>, libraryThrows: bool)

  function FirstTurn(s: State, schedule: seq<Slice>, t: ThreadId): (turn: Turn)
    ensures turn.Turn? ==> |turn.rest| < |schedule|
    decreases |schedule|
  {
    if schedule == [] then NoTurn
    else
      var s' := AfterSlice(s, schedule[0].actions, t);
      if CanGo(s', t) then Turn(s', schedule[1..], schedule[0].libraryThrows)
      else FirstTurn(s', schedule[1..], t)
  }

  /** The state after the first `n` slices, if the thread itself does nothing. */
  function StateAfter(s: State, schedule: seq<Slice>, n: nat, t: ThreadId): State
    requires n <= |schedule|
    decreases n
  {
    if n == 0 then s else StateAfter(AfterSlice(s, schedule[0].actions, t), schedule[1..], n - 1, t)
  }

  /** The first turn is the first: after no earlier slice was the mutex free and the thread awake.  Without one it never
      was. */
  lemma {:induction false} FirstTurnIsFirst(s: State, schedule: seq<Slice>, t: ThreadId)
    requires t in s.pcs
    ensures var turn := FirstTurn(s, schedule, t);
            var n := if turn.Turn? then |schedule| - |turn.rest| else |schedule| + 1;
            && (turn.Turn? ==>
                  && turn.rest == schedule[n..] && turn.state == StateAfter(s, schedule, n, t)
                  && turn.state.mutex == Free && t in turn.state.pcs && !turn.state.pcs[t].Asleep?
                  && turn.libraryThrows == schedule[n - 1].libraryThrows)
            && (forall k | 1 <= k < n ::
                  var before := StateAfter(s, schedule, k, t);
                  t in before.pcs && (before.mutex != Free || before.pcs[t].Asleep?))
    decreases |schedule|
  {
    if schedule != [] {
      var s' := AfterSlice(s, schedule[0].actions, t);
      SameThreadsAfter(s, schedule[0].actions, t);
      var tail := schedule[1..];
      assert StateAfter(s', tail, 0, t) == s';
      if !CanGo(s', t) {
        FirstTurnIsFirst(s', tail, t);
        var turn := FirstTurn(s', tail, t);
        var n := if turn.Turn? then |tail| - |turn.rest| else |tail| + 1;
        assert turn.Turn? ==> tail[n..] == schedule[n + 1..] && tail[n - 1] == schedule[n];
        forall k | 1 <= k < n + 1
          ensures var before := StateAfter(s, schedule, k, t);
                  t in before.pcs && (before.mutex != Free || before.pcs[t].Asleep?)
        {
          assert StateAfter(s, schedule, k, t) == StateAfter(s', tail, k - 1, t);
        }
      }
    }
  }

  lemma {:induction false} SameThreadsAfter(s: State, actions: seq<Action>, t: ThreadId)
    ensures AfterSlice(s, actions, t).pcs.Keys == s.pcs.Keys
    decreases |actions|
  {
    if actions != [] {
      var a := actions[0];
      SameThreadsAfter(if Enabled(s, a) && ByEnvironment(a, t) then Apply(s, a) else s, actions[1..], t);
    }
  }

  /** A call of wait_impl that finds this state under the mutex does not wait, and how it ends. */
  predicate NoNeedToWait(s: State, op: Op) {
    Interrupting(s, op) || !Starved(s, op.dir) || op.waitType == Poll
  }

  function AtOnce(s: State, op: Op): Outcome {
    if Interrupting(s, op) then Interrupted else if !Starved(s, op.dir) then Unstarved else StillStarved
  }

  /** At its next turn the thread finds what it needs, and the library does not throw. */
  predicate ServedAtOnce(s: State, schedule: seq<Slice>, t: ThreadId, dir: Direction) {
    var turn := FirstTurn(s, schedule, t);
    turn.Turn? && !turn.libraryThrows && !Starved(turn.state, dir)
  }

  function ErrorOf(outcome: Outcome): ErrorCode {
    match outcome
    case Interrupted => SInterrupted
    case LibraryThrew => SMqBipcMiscLibraryError
    case _ => Success
  }

  /** What a finished wait reports: the returned flag and the error code. */
  predicate Reports(outcome: Outcome, notStarved: bool, errCode: ErrorCode) {
    notStarved == outcome.Unstarved? && errCode == ErrorOf(outcome)
  }

  // ----- Waiting -----

  function Step(s: State, a: Action): State {
    if Enabled(s, a) then Apply(s, a) else s
  }

  predicate ThrowsNext(schedule: seq<Slice>) {
    schedule != [] && schedule[0].libraryThrows
  }

  /** A wait that has been decided: the state it leaves the mutex in, and what is left of the schedule.  `InProgress`:
      the schedule has no turn for it any more. */
  datatype WaitEnd = InProgress | Decided(state: State, rest: seq<Slice>)

  /** What the condition variable's wait comes back to: with the mutex, or with an exception. */
  datatype Return = NoReturn | Return(state: State, rest: seq<Slice>, threw: bool)

  function CondReturns(s: State, schedule: seq<Slice>, t: ThreadId): (r: Return)
    ensures r.Return? ==> |r.rest| < |schedule|
  {
    if ThrowsNext(schedule) then Return(Step(s, Throw(t)), schedule[1..], true)
    else
      var turn := FirstTurn(Step(s, Sleep(t)), schedule, t);
      if turn.NoTurn? then NoReturn
      else
        var back := Step(turn.state, Lock(t));
        if ThrowsNext(turn.rest) then Return(Step(back, Throw(t)), turn.rest[1..], true)
        else Return(back, turn.rest, false)
  }

  /** The thread is counted as blocked: at each of its turns it tests, and ends or sleeps again. */
  function SleepEnds(s: State, schedule: seq<Slice>, t: ThreadId): (end: WaitEnd)
    ensures end.Decided? ==> |end.rest| < |schedule|
    decreases |schedule|
  {
    var r := CondReturns(s, schedule, t);
    if r.NoReturn? then InProgress
    else if r.threw then Decided(Step(r.state, Unwind(t)), r.rest)
    else
      var tested := Step(r.state, Recheck(t));
      if IsCounted(tested, t) then SleepEnds(tested, r.rest, t) else Decided(tested, r.rest)
  }

  predicate IsCounted(s: State, t: ThreadId) {
    t in s.pcs && s.pcs[t].Counted?
  }

  /** The thread has the mutex and tests for the first time. */
  function DecisionEnds(s: State, schedule: seq<Slice>, t: ThreadId): (end: WaitEnd)
    ensures end.Decided? ==> |end.rest| <= |schedule|
  {
    var tested := Step(s, Decide(t));
    if IsCounted(tested, t) then SleepEnds(tested, schedule, t) else Decided(tested, schedule)
  }

  /** A whole call of wait_impl. */
  function CallEnds(s: State, schedule: seq<Slice>, t: ThreadId, op: Op): (end: WaitEnd)
    ensures end.Decided? ==> |end.rest| < |schedule|
  {
    var turn := FirstTurn(Step(s, Call(t, op)), schedule, t);
    if turn.NoTurn? then InProgress else DecisionEnds(Step(turn.state, Lock(t)), turn.rest, t)
  }

  /** The scope of the lock ends, and the call. */
  function AfterCall(s: State, t: ThreadId): State {
    Step(Step(s, Unlock(t)), Finish(t))
  }

  function OutcomeIn(s: State, t: ThreadId): Outcome {
    if t in s.pcs && s.pcs[t].Leaving? then s.pcs[t].outcome else LibraryThrew
  }

  // ----- Transmission -----

  /** A finished send or receive, or one for which the schedule has no turn any more. */
  datatype Transmission = Pending | Over(ok: bool, errCode: ErrorCode, state: State, rest: seq<Slice>)

  /** Attempt and wait alternate until an attempt succeeds or either fails. */
  function TransmitEnds(s: State, schedule: seq<Slice>, t: ThreadId, attempt: Action, op: Op): (end: Transmission)
    ensures end.Over? ==> |end.rest| < |schedule|
    decreases |schedule|
  {
    var turn := FirstTurn(s, schedule, t);
    if turn.NoTurn? then Pending
    else if turn.libraryThrows then Over(false, SMqBipcMiscLibraryError, turn.state, turn.rest)
    else if !Starved(turn.state, op.dir) then Over(true, Success, Step(turn.state, attempt), turn.rest)
    else
      var call := CallEnds(Step(turn.state, attempt), turn.rest, t, op);
      if call.InProgress? then Pending
      else
        var outcome, after := OutcomeIn(call.state, t), AfterCall(call.state, t);
        if outcome == Unstarved then TransmitEnds(after, call.rest, t, attempt, op)
        else Over(false, ErrorOf(outcome), after, call.rest)
  }

  // ----- The ends in plain terms -----

  /** Slice `n` is the first after which the mutex is free and the thread awake. */
  ghost predicate IsFirstTurn(s: State, schedule: seq<Slice>, t: ThreadId, n: nat) {
    && 1 <= n <= |schedule|
    && (forall k | 1 <= k <= n :: t in StateAfter(s, schedule, k, t).pcs)
    && StateAfter(s, schedule, n, t).mutex == Free && !StateAfter(s, schedule, n, t).pcs[t].Asleep?
    && (forall k | 1 <= k < n ::
          StateAfter(s, schedule, k, t).mutex != Free || StateAfter(s, schedule, k, t).pcs[t].Asleep?)
  }

  lemma TurnIs(s: State, schedule: seq<Slice>, t: ThreadId, n: nat)
    requires t in s.pcs && IsFirstTurn(s, schedule, t, n)
    ensures FirstTurn(s, schedule, t) == Turn(StateAfter(s, schedule, n, t), schedule[n..], schedule[n - 1].libraryThrows)
  {
    FirstTurnIsFirst(s, schedule, t);
  }

  predicate SleepingIn(pc: Pc, op: Op) {
    pc == Asleep(op) || (pc.Roused? && pc.op == op)
  }

  lemma {:induction false} SliceLeavesSleeper(s: State, actions: seq<Action>, t: ThreadId, op: Op)
    requires t in s.pcs && SleepingIn(s.pcs[t], op)
    ensures t in AfterSlice(s, actions, t).pcs && SleepingIn(AfterSlice(s, actions, t).pcs[t], op)
    decreases |actions|
  {
    if actions != [] {
      var a := actions[0];
      SliceLeavesSleeper(if Enabled(s, a) && ByEnvironment(a, t) then Apply(s, a) else s, actions[1..], t, op);
    }
  }

  lemma {:induction false} SleeperStays(s: State, schedule: seq<Slice>, n: nat, t: ThreadId, op: Op)
    requires n <= |schedule| && t in s.pcs && SleepingIn(s.pcs[t], op)
    ensures t in StateAfter(s, schedule, n, t).pcs && SleepingIn(StateAfter(s, schedule, n, t).pcs[t], op)
    decreases n
  {
    if n > 0 {
      SliceLeavesSleeper(s, schedule[0].actions, t, op);
      SleeperStays(AfterSlice(s, schedule[0].actions, t), schedule[1..], n - 1, t, op);
    }
  }

  /** A sleeper tests at its first turn and at no later one: the mode first, then the queue, then its deadline; if none
      of them ends the wait it is counted again and sleeps on. */
  lemma SleeperAtItsTurn(s: State, schedule: seq<Slice>, t: ThreadId, op: Op, n: nat)
    requires t in s.pcs && s.pcs[t] == Counted(op) && s.mutex == HeldBy(t) && NoneThrows(schedule)
    requires IsFirstTurn(s.(mutex := Free, pcs := s.pcs[t := Asleep(op)]), schedule, t, n)
    ensures var v := StateAfter(s.(mutex := Free, pcs := s.pcs[t := Asleep(op)]), schedule, n, t);
            var end := SleepEnds(s, schedule, t);
            && v.pcs[t].Roused? && v.pcs[t].op == op
            && if (op.handle, op.dir) in v.interrupting then
                 end.Decided? && end.rest == schedule[n..] && OutcomeIn(end.state, t) == Interrupted
               else if (if op.dir == Rcv then |v.queue| > 0 else |v.queue| != v.capacity) then
                 end.Decided? && end.rest == schedule[n..] && OutcomeIn(end.state, t) == Unstarved
               else if v.pcs[t].expired then
                 end.Decided? && end.rest == schedule[n..] && OutcomeIn(end.state, t) == StillStarved
               else
                 end == SleepEnds(v.(mutex := HeldBy(t), pcs := v.pcs[t := Counted(op)]), schedule[n..], t)
  {
    var asleep := s.(mutex := Free, pcs := s.pcs[t := Asleep(op)]);
    assert Step(s, Sleep(t)) == asleep;
    TurnIs(asleep, schedule, t, n);
    SleeperStays(asleep, schedule, n, t, op);
    var v, rest := StateAfter(asleep, schedule, n, t), schedule[n..];
    assert !ThrowsNext(rest) by {
      assert rest != [] ==> rest[0] == schedule[n];
    }
    var back := Step(v, Lock(t));
    assert back == v.(mutex := HeldBy(t), pcs := v.pcs[t := Resumed(op, v.pcs[t].expired)]);
    assert CondReturns(s, schedule, t) == Return(back, rest, false);
    RecheckInPlainTerms(back, t, op);
    assert back.pcs[t := Counted(op)] == v.pcs[t := Counted(op)];
  }

  lemma RecheckInPlainTerms(s: State, t: ThreadId, op: Op)
    requires t in s.pcs && s.pcs[t].Resumed? && s.pcs[t].op == op
    ensures var tested := Step(s, Recheck(t));
            && t in tested.pcs
            && if (op.handle, op.dir) in s.interrupting then tested.pcs[t] == Leaving(op, Interrupted)
               else if (if op.dir == Rcv then |s.queue| > 0 else |s.queue| != s.capacity) then tested.pcs[t] == Leaving(op, Unstarved)
               else if s.pcs[t].expired then tested.pcs[t] == Leaving(op, StillStarved)
               else tested == s.(pcs := s.pcs[t := Counted(op)])
  {
  }

  /** A call of wait_impl tests at its first turn: the mode, then the queue; a poll ends there, another call is counted and
      sleeps. */
  lemma CallAtItsTurn(s: State, schedule: seq<Slice>, t: ThreadId, op: Op, n: nat)
    requires t in s.pcs && s.pcs[t].Outside? && IsFirstTurn(Move(s, t, Entering(op)), schedule, t, n)
    ensures var v, end := StateAfter(Move(s, t, Entering(op)), schedule, n, t), CallEnds(s, schedule, t, op);
            if (op.handle, op.dir) in v.interrupting then
              end.Decided? && end.rest == schedule[n..] && OutcomeIn(end.state, t) == Interrupted
            else if (if op.dir == Rcv then |v.queue| > 0 else |v.queue| != v.capacity) then
              end.Decided? && end.rest == schedule[n..] && OutcomeIn(end.state, t) == Unstarved
            else if op.waitType == Poll then
              end.Decided? && end.rest == schedule[n..] && OutcomeIn(end.state, t) == StillStarved
            else
              end == SleepEnds(AddBlocked(v, op.dir, 1).(mutex := HeldBy(t), pcs := v.pcs[t := Counted(op)]), schedule[n..], t)
  {
    hide SleepEnds, StateAfter, AfterSlice, FirstTurn, Starved, Interrupting;
    var entered := Step(s, Call(t, op));
    assert entered == Move(s, t, Entering(op));
    TurnIs(entered, schedule, t, n);
    TurnKeeps(entered, schedule, t, op);
    var v := StateAfter(entered, schedule, n, t);
    LockInPlainTerms(v, t, op);
    DecideInPlainTerms(Step(v, Lock(t)), t, op);
  }

  lemma LockInPlainTerms(s: State, t: ThreadId, op: Op)
    requires t in s.pcs && s.pcs[t] == Entering(op) && s.mutex == Free
    ensures Step(s, Lock(t)) == s.(mutex := HeldBy(t), pcs := s.pcs[t := Deciding(op)])
    ensures s.pcs[t := Deciding(op)][t := Counted(op)] == s.pcs[t := Counted(op)]
  {
  }

  lemma DecideInPlainTerms(s: State, t: ThreadId, op: Op)
    requires t in s.pcs && s.pcs[t] == Deciding(op)
    ensures var tested := Step(s, Decide(t));
            && t in tested.pcs
            && if (op.handle, op.dir) in s.interrupting then tested.pcs[t] == Leaving(op, Interrupted)
               else if (if op.dir == Rcv then |s.queue| > 0 else |s.queue| != s.capacity) then tested.pcs[t] == Leaving(op, Unstarved)
               else if op.waitType == Poll then tested.pcs[t] == Leaving(op, StillStarved)
               else tested == AddBlocked(s, op.dir, 1).(pcs := s.pcs[t := Counted(op)])
  {
  }

  /** A send or receive tries at its first turn, waits if that would block, and tries again after each wait that reports
      room or a message. */
  lemma TransmissionAtItsTurn(s: State, schedule: seq<Slice>, t: ThreadId, attempt: Action, op: Op, n: nat)
    requires t in s.pcs && s.pcs[t].Outside? && IsFirstTurn(s, schedule, t, n) && !schedule[n - 1].libraryThrows
    requires attempt.thread == t && if op.dir == Snd then attempt.TrySend? else attempt.TryReceive?
    ensures var v, end := StateAfter(s, schedule, n, t), TransmitEnds(s, schedule, t, attempt, op);
            if (if op.dir == Rcv then |v.queue| > 0 else |v.queue| != v.capacity) then
              end.Over? && end.ok && end.errCode == Success && end.rest == schedule[n..]
              && end.state.queue == (if op.dir == Rcv then v.queue[1..] else v.queue + [attempt.message])
            else
              var call := CallEnds(v, schedule[n..], t, op);
              if call.InProgress? then end.Pending?
              else if OutcomeIn(call.state, t) == Unstarved then
                end == TransmitEnds(AfterCall(call.state, t), call.rest, t, attempt, op)
              else
                && end.Over? && !end.ok && end.rest == call.rest
                && end.errCode == match OutcomeIn(call.state, t)
                                  case Interrupted => SInterrupted
                                  case LibraryThrew => SMqBipcMiscLibraryError
                                  case _ => Success
  {
    TurnIs(s, schedule, t, n);
    TurnKeeps(s, schedule, t, op);
    var v := StateAfter(s, schedule, n, t);
    assert Enabled(v, attempt);
    assert Starved(v, op.dir) ==> Step(v, attempt) == v;
  }

  // ----- What is left of the schedule -----

  predicate IsSuffix(rest: seq<Slice>, schedule: seq<Slice>) {
    |rest| <= |schedule| && rest == schedule[|schedule| - |rest|..]
  }

  lemma SuffixOfSuffix(rest: seq<Slice>, middle: seq<Slice>, schedule: seq<Slice>)
    requires IsSuffix(rest, middle) && IsSuffix(middle, schedule)
    ensures IsSuffix(rest, schedule)
  {
  }

  lemma {:induction false} TurnUsesUp(s: State, schedule: seq<Slice>, t: ThreadId)
    ensures var turn := FirstTurn(s, schedule, t); turn.Turn? ==> IsSuffix(turn.rest, schedule) && CanGo(turn.state, t)
    decreases |schedule|
  {
    if schedule != [] {
      var s' := AfterSlice(s, schedule[0].actions, t);
      if !CanGo(s', t) {
        TurnUsesUp(s', schedule[1..], t);
        if FirstTurn(s', schedule[1..], t).Turn? {
          SuffixOfSuffix(FirstTurn(s', schedule[1..], t).rest, schedule[1..], schedule);
        }
      }
    }
  }

  lemma ReturnUsesUp(s: State, schedule: seq<Slice>, t: ThreadId)
    ensures var r := CondReturns(s, schedule, t); r.Return? ==> IsSuffix(r.rest, schedule)
  {
    if !ThrowsNext(schedule) {
      TurnUsesUp(Step(s, Sleep(t)), schedule, t);
      var turn := FirstTurn(Step(s, Sleep(t)), schedule, t);
      if turn.Turn? && ThrowsNext(turn.rest) {
        SuffixOfSuffix(turn.rest[1..], turn.rest, schedule);
      }
    }
  }

  lemma {:induction false} SleepUsesUp(s: State, schedule: seq<Slice>, t: ThreadId)
    ensures var end := SleepEnds(s, schedule, t); end.Decided? ==> IsSuffix(end.rest, schedule)
    decreases |schedule|
  {
    ReturnUsesUp(s, schedule, t);
    var r := CondReturns(s, schedule, t);
    if r.Return? && !r.threw && IsCounted(Step(r.state, Recheck(t)), t) {
      SleepUsesUp(Step(r.state, Recheck(t)), r.rest, t);
      if SleepEnds(Step(r.state, Recheck(t)), r.rest, t).Decided? {
        SuffixOfSuffix(SleepEnds(Step(r.state, Recheck(t)), r.rest, t).rest, r.rest, schedule);
      }
    }
  }

  lemma CallUsesUp(s: State, schedule: seq<Slice>, t: ThreadId, op: Op)
    ensures var end := CallEnds(s, schedule, t, op); end.Decided? ==> IsSuffix(end.rest, schedule)
  {
    TurnUsesUp(Step(s, Call(t, op)), schedule, t);
    var turn := FirstTurn(Step(s, Call(t, op)), schedule, t);
    if turn.Turn? && IsCounted(Step(Step(turn.state, Lock(t)), Decide(t)), t) {
      SleepUsesUp(Step(Step(turn.state, Lock(t)), Decide(t)), turn.rest, t);
      if CallEnds(s, schedule, t, op).Decided? {
        SuffixOfSuffix(CallEnds(s, schedule, t, op).rest, turn.rest, schedule);
      }
    }
  }

  /** A finished transmission has used up a front part of the schedule, and nothing else. */
  lemma {:induction false} TransmissionUsesUp(s: State, schedule: seq<Slice>, t: ThreadId, attempt: Action, op: Op)
    ensures var end := TransmitEnds(s, schedule, t, attempt, op); end.Over? ==> IsSuffix(end.rest, schedule)
    decreases |schedule|
  {
    TurnUsesUp(s, schedule, t);
    var turn := FirstTurn(s, schedule, t);
    if turn.Turn? && !turn.libraryThrows && Starved(turn.state, op.dir) {
      var tried := Step(turn.state, attempt);
      CallUsesUp(tried, turn.rest, t, op);
      var call := CallEnds(tried, turn.rest, t, op);
      if call.Decided? {
        SuffixOfSuffix(call.rest, turn.rest, schedule);
        if OutcomeIn(call.state, t) == Unstarved {
          TransmissionUsesUp(AfterCall(call.state, t), call.rest, t, attempt, op);
          var end := TransmitEnds(AfterCall(call.state, t), call.rest, t, attempt, op);
          if end.Over? {
            SuffixOfSuffix(end.rest, call.rest, schedule);
          }
        }
      }
    }
  }

  // ----- Transmission in interrupted mode -----

  /** No action of the schedule turns this handle's mode off. */
  predicate NobodyAllows(schedule: seq<Slice>, op: Op) {
    forall i | 0 <= i < |schedule| :: StaysOn(schedule[i].actions, op)
  }

  predicate NoneThrows(schedule: seq<Slice>) {
    forall i | 0 <= i < |schedule| :: !schedule[i].libraryThrows
  }

  lemma {:induction false} SliceKeeps(s: State, actions: seq<Action>, t: ThreadId, op: Op)
    requires t in s.pcs && !s.pcs[t].Asleep?
    ensures var s' := AfterSlice(s, actions, t);
            && t in s'.pcs && s'.pcs[t] == s.pcs[t]
            && (Interrupting(s, op) && StaysOn(actions, op) ==> Interrupting(s', op))
    decreases |actions|
  {
    if actions != [] {
      var a := actions[0];
      var s' := if Enabled(s, a) && ByEnvironment(a, t) then Apply(s, a) else s;
      assert s'.pcs[t] == s.pcs[t];
      assert Interrupting(s, op) && StaysOn(actions, op) ==> Interrupting(s', op);
      assert forall i | 0 <= i < |actions[1..]| :: actions[1..][i] == actions[i + 1];
      SliceKeeps(s', actions[1..], t, op);
    }
  }

  /** What the thread finds unchanged at its next turn. */
  lemma {:induction false} TurnKeeps(s: State, schedule: seq<Slice>, t: ThreadId, op: Op)
    requires t in s.pcs && !s.pcs[t].Asleep?
    ensures var turn := FirstTurn(s, schedule, t);
            turn.Turn? ==>
              && t in turn.state.pcs && turn.state.pcs[t] == s.pcs[t] && turn.state.mutex == Free
              && (Interrupting(s, op) && NobodyAllows(schedule, op) ==>
                    Interrupting(turn.state, op) && NobodyAllows(turn.rest, op))
              && (NoneThrows(schedule) ==> !turn.libraryThrows && NoneThrows(turn.rest))
    decreases |schedule|
  {
    if schedule != [] {
      var s' := AfterSlice(s, schedule[0].actions, t);
      SliceKeeps(s, schedule[0].actions, t, op);
      assert forall i | 0 <= i < |schedule[1..]| :: schedule[1..][i] == schedule[i + 1];
      if !CanGo(s', t) {
        TurnKeeps(s', schedule[1..], t, op);
      }
    }
  }

  /** With the mode on, and while nobody turns it off, a wait is over at its first turn, without having slept. */
  lemma InterruptedCall(s: State, schedule: seq<Slice>, t: ThreadId, op: Op)
    requires t in s.pcs && s.pcs[t].Outside? && Interrupting(s, op) && NobodyAllows(schedule, op)
    ensures var next, end := FirstTurn(Move(s, t, Entering(op)), schedule, t), CallEnds(s, schedule, t, op);
            if next.NoTurn? then end.InProgress?
            else end.Decided? && end.rest == next.rest && OutcomeIn(end.state, t) == Interrupted
  {
    var entered := Step(s, Call(t, op));
    assert entered == Move(s, t, Entering(op));
    TurnKeeps(entered, schedule, t, op);
    var next := FirstTurn(entered, schedule, t);
    if next.Turn? {
      var locked := Step(next.state, Lock(t));
      assert locked.pcs[t] == Deciding(op) && Interrupting(locked, op);
      assert Step(locked, Decide(t)).pcs[t] == Leaving(op, Interrupted);
    }
  }

  /** With the mode on, and while nobody turns it off, a send or receive never sleeps.  It still succeeds if it finds room
      or a message at its turn; otherwise it is interrupted at its next one. */
  lemma InterruptedTransmission(s: State, schedule: seq<Slice>, t: ThreadId, attempt: Action, op: Op)
    requires t in s.pcs && s.pcs[t].Outside? && Interrupting(s, op)
    requires NobodyAllows(schedule, op) && NoneThrows(schedule)
    requires attempt.thread == t && if op.dir == Snd then attempt.TrySend? else attempt.TryReceive?
    ensures var turn, end := FirstTurn(s, schedule, t), TransmitEnds(s, schedule, t, attempt, op);
            if turn.NoTurn? then end.Pending?
            else if !Starved(turn.state, op.dir) then end == Over(true, Success, Step(turn.state, attempt), turn.rest)
            else
              var next := FirstTurn(Move(turn.state, t, Entering(op)), turn.rest, t);
              if next.NoTurn? then end.Pending?
              else end.Over? && !end.ok && end.errCode == SInterrupted && end.rest == next.rest
  {
    TurnKeeps(s, schedule, t, op);
    var turn := FirstTurn(s, schedule, t);
    if turn.Turn? && Starved(turn.state, op.dir) {
      assert Step(turn.state, attempt) == turn.state;
      InterruptedCall(turn.state, turn.rest, t, op);
    }
  }

  // ----- A timeout -----

  /** A receive of one thread on an empty queue: it tries, it sleeps, its deadline passes. */
  const TO_TIMEOUT := [Slice([], false), Slice([], false), Slice([Expire(0)], false)]

  lemma TimesOut(s: State, op: Op)
    requires s == State(1, [], Free, 0, 0, {}, map[0 := Outside], []) && op == Op(0, Rcv, TimedWait)
    ensures TransmitEnds(s, TO_TIMEOUT, 0, TryReceive(0), op) == Over(false, Success, s, [])
  {
    hide CallEnds;
    assert FirstTurn(s, TO_TIMEOUT, 0) == Turn(s, TO_TIMEOUT[1..], false);
    assert TO_TIMEOUT[1..] == [Slice([], false), Slice([Expire(0)], false)];
    CallTimesOut(s, op);
    assert AfterCall(State(1, [], HeldBy(0), 0, 0, {}, map[0 := Leaving(op, StillStarved)], []), 0) == s;
  }

  lemma CallTimesOut(s: State, op: Op)
    requires s == State(1, [], Free, 0, 0, {}, map[0 := Outside], []) && op == Op(0, Rcv, TimedWait)
    ensures CallEnds(s, [Slice([], false), Slice([Expire(0)], false)], 0, op)
            == Decided(State(1, [], HeldBy(0), 0, 0, {}, map[0 := Leaving(op, StillStarved)], []), [])
  {
    hide SleepEnds;
    var schedule := [Slice([], false), Slice([Expire(0)], false)];
    var entered := Step(s, Call(0, op));
    assert schedule[1..] == [Slice([Expire(0)], false)];
    assert FirstTurn(entered, schedule, 0) == Turn(entered, schedule[1..], false);
    var counted := Step(Step(entered, Lock(0)), Decide(0));
    assert counted == State(1, [], HeldBy(0), 0, 1, {}, map[0 := Counted(op)], []);
    SleepTimesOut(counted, op);
  }

  lemma SleepTimesOut(counted: State, op: Op)
    requires op == Op(0, Rcv, TimedWait)
    requires counted == State(1, [], HeldBy(0), 0, 1, {}, map[0 := Counted(op)], [])
    ensures SleepEnds(counted, [Slice([Expire(0)], false)], 0)
            == Decided(State(1, [], HeldBy(0), 0, 0, {}, map[0 := Leaving(op, StillStarved)], []), [])
  {
    var schedule := [Slice([Expire(0)], false)];
    var asleep := Step(counted, Sleep(0));
    assert asleep == State(1, [], Free, 0, 1, {}, map[0 := Asleep(op)], []);
    assert [Expire(0)][1..] == [] && schedule[1..] == [];
    var woken := AfterSlice(asleep, [Expire(0)], 0);
    assert woken == Step(asleep, Expire(0)) == State(1, [], Free, 0, 1, {}, map[0 := Roused(op, true)], []);
    assert FirstTurn(asleep, schedule, 0) == Turn(woken, [], false);
    var resumed := Step(woken, Lock(0));
    assert CondReturns(counted, schedule, 0) == Return(resumed, [], false);
    assert Step(resumed, Recheck(0)) == State(1, [], HeldBy(0), 0, 0, {}, map[0 := Leaving(op, StillStarved)], []);
  }
}
