/**
 `Channel::async_end_sending()` over two pipes: two completions merged into one call of the user's handler.
 */
module Channel {
  import opened Wrappers

  datatype ErrorCode = Success | Failure(code: nat)

  datatype Pipe = BlobPipe | HandlePipe

  datatype Completion = Completion(pipe: Pipe, errCode: ErrorCode)

  /** What is to be reported of completions listed in order of time. */
  function FirstFailure(done: seq<Completion>): ErrorCode {
    if done == [] then Success
    else if done[0].errCode != Success then done[0].errCode
    else FirstFailure(done[1..])
  }

  predicate Has(done: seq<Completion>, pipe: Pipe) {
    exists i | 0 <= i < |done| :: done[i].pipe == pipe
  }

  /** Success is reported only of successes; a failure is reported if it happened and nothing failed before it. */
  lemma {:induction false} FirstFailureMeaning(done: seq<Completion>)
    ensures FirstFailure(done) == Success <==> forall i | 0 <= i < |done| :: done[i].errCode == Success
    ensures FirstFailure(done) != Success ==>
              exists i | 0 <= i < |done| ::
                done[i].errCode == FirstFailure(done) && forall j | 0 <= j < i :: done[j].errCode == Success
  {
    if done != [] && done[0].errCode == Success {
      FirstFailureMeaning(done[1..]);
      assert forall i | 1 <= i < |done| :: done[i] == done[1..][i - 1];
      if FirstFailure(done) != Success {
        var i :| 0 <= i < |done[1..]| && done[1..][i].errCode == FirstFailure(done)
                 && forall j | 0 <= j < i :: done[1..][j].errCode == Success;
        assert done[i + 1].errCode == FirstFailure(done);
        assert forall j | 0 < j < i + 1 :: done[j] == done[1..][j - 1];
      }
    } else if done != [] {
      assert done[0].errCode == FirstFailure(done);
    }
  }

  lemma FirstOfTwo(first: Completion, second: Completion)
    ensures FirstFailure([first, second]) == if first.errCode != Success then first.errCode else second.errCode
  {
    assert [first, second][1..] == [second] && [second][1..] == [];
    assert FirstFailure([second]) == second.errCode;
  }

  /** A pipe that has not finished is not among those that have, and there are only two. */
  lemma PipesAreTwo(done: seq<Completion>, completion: Completion)
    requires |done| <= 2 && !Has(done, completion.pipe) && (|done| == 2 ==> done[0].pipe != done[1].pipe)
    ensures |done| < 2 && forall i | 0 <= i < |done| :: done[i].pipe != completion.pipe
  {
  }

  // Threads: the two handlers may run concurrently, and before the second pipe has been asked

  /** The next thing to happen on some thread: a pipe finishes and its handler goes through its critical section, or
      the handler that has to call the user does so. */
  datatype Event = Fires(completion: Completion) | CallsUser

  /** The completions that take place as `events` pass, after `done`: each pipe asked finishes once at most. */
  function Completions(done: seq<Completion>, asked: set<Pipe>, events: seq<Event>): seq<Completion>
    decreases |events|
  {
    if events == [] then done else Completions(AfterEvent(done, asked, events[0]), asked, events[1..])
  }

  function AfterEvent(done: seq<Completion>, asked: set<Pipe>, event: Event): seq<Completion> {
    if event.Fires? && event.completion.pipe in asked && !Has(done, event.completion.pipe)
    then done + [event.completion] else done
  }

  /** Among `events` one has a handler call the user after both pipes have finished. */
  predicate UserIsCalled(done: seq<Completion>, asked: set<Pipe>, events: seq<Event>) {
    exists i | 0 <= i < |events| :: events[i].CallsUser? && |Completions(done, asked, events[..i])| == 2
  }

  lemma {:induction false} CompletionsGrow(done: seq<Completion>, asked: set<Pipe>, events: seq<Event>, event: Event)
    ensures Completions(done, asked, events + [event]) == AfterEvent(Completions(done, asked, events), asked, event)
    decreases |events|
  {
    if events == [] {
      assert ([] + [event])[1..] == [];
    } else {
      assert (events + [event])[1..] == events[1..] + [event];
      CompletionsGrow(AfterEvent(done, asked, events[0]), asked, events[1..], event);
    }
  }

  lemma OneMoreEvent(done: seq<Completion>, asked: set<Pipe>, events: seq<Event>, i: nat)
    requires i < |events|
    ensures Completions(done, asked, events[..i + 1]) == AfterEvent(Completions(done, asked, events[..i]), asked, events[i])
    ensures UserIsCalled(done, asked, events[..i + 1]) <==>
              UserIsCalled(done, asked, events[..i]) ||
              (events[i].CallsUser? && |Completions(done, asked, events[..i])| == 2)
  {
    var before, after := events[..i], events[..i + 1];
    assert after == before + [events[i]];
    CompletionsGrow(done, asked, before, events[i]);
    assert forall k | 0 <= k <= i :: after[..k] == before[..k];
    assert before[..i] == before;
  }

  /** The state shared by the two handlers of one call, and what has come of it. */
  class Ending {
    var asked: set<Pipe>
    var nDone: nat
    var errCode1: ErrorCode
    var toCall: Option<ErrorCode>            // in the hand of a handler that has left the critical section
    var calls: seq<ErrorCode>                // the runs of the user's handler
    var done: seq<Completion>                // in the order of the critical sections

    ghost predicate Valid()
      reads this
    {
      && nDone == |done| <= 2 && (forall i | 0 <= i < |done| :: done[i].pipe in asked)
      && (|done| == 2 ==> done[0].pipe != done[1].pipe)
      && (|done| >= 1 ==> errCode1 == done[0].errCode)
      && (|done| < 2 ==> toCall.None? && calls == [])
      && (|done| == 2 && toCall.Some? ==> calls == [] && toCall.value == FirstFailure(done))
      && (|done| == 2 && toCall.None? ==> calls == [FirstFailure(done)])
    }

    constructor ()
      ensures Valid() && asked == {} && done == []
    {
      asked, nDone, errCode1, toCall, calls := {}, 0, Success, None, [];
      done := [];
    }

    /** The critical section of a handler. */
    method CombinedOnDone(completion: Completion)
      requires Valid() && completion.pipe in asked && !Has(done, completion.pipe)
      modifies this
      ensures Valid() && asked == old(asked) && done == old(done) + [completion]
      ensures calls == old(calls)
    {
      PipesAreTwo(done, completion);
      done := done + [completion];
      nDone := nDone + 1;
      if nDone != 2 {
        errCode1 := completion.errCode;
        return;
      }
      FirstOfTwo(done[0], completion);
      toCall := Some(if errCode1 != Success then errCode1 else completion.errCode);
    }

    method CallUser()
      requires Valid() && toCall.Some?
      modifies this
      ensures Valid() && asked == old(asked) && done == old(done) && toCall.None?
    {
      calls := calls + [toCall.value];
      toCall := None;
    }

    method Play(events: seq<Event>)
      requires Valid()
      modifies this
      ensures Valid() && asked == old(asked) && done == Completions(old(done), asked, events)
      ensures calls != [] <==> old(calls != []) || UserIsCalled(old(done), asked, events)
    {
      assert events[..0] == [];
      for i := 0 to |events|
        invariant Valid() && asked == old(asked) && done == Completions(old(done), asked, events[..i])
        invariant calls != [] <==> old(calls != []) || UserIsCalled(old(done), asked, events[..i])
      {
        OneMoreEvent(old(done), asked, events, i);
        Turn(events[i]);
      }
      assert events[..|events|] == events;
    }

    method Turn(event: Event)
      requires Valid()
      modifies this
      ensures Valid() && asked == old(asked)
      ensures done == AfterEvent(old(done), asked, event)
      ensures calls != [] <==> old(calls != []) || (event.CallsUser? && |old(done)| == 2)
    {
      match event {
        case Fires(completion) =>
          if completion.pipe in asked && !Has(done, completion.pipe) {
            CombinedOnDone(completion);
          }
        case CallsUser =>
          if toCall.Some? {
            CallUser();
          }
      }
    }

    /** A pipe's own async_end_sending(): false for a duplicate call, whose handler is dropped. */
    method Ask(pipe: Pipe, duplicate: bool) returns (ok: bool)
      requires Valid()
      modifies this
      ensures Valid() && done == old(done) && ok == !duplicate
      ensures asked == if ok then old(asked) + {pipe} else old(asked)
    {
      ok := !duplicate;
      if ok {
        asked := asked + {pipe};
      }
    }

    /** The call and all that follows it, on any schedule: `during` is what other threads do between the two forwarded
        calls, `after` what they do once it has returned.  The user's handler never runs for a duplicate call;
        otherwise it runs once, with the first failure in order of completion, if and only if the schedule has the
        second handler go on to call it after both pipes have finished.  In terms of the schedule alone: with p the
        first firing of the one pipe and q the first of the other since it was asked, it is told of success if both
        succeeded, and of the earlier failure if not. */
    method AsyncEndSending(duplicate: bool, during: seq<Event>, after: seq<Event>) returns (ok: bool)
      requires Valid() && asked == {} && done == []
      modifies this
      ensures Valid() && ok == !duplicate
      ensures var first := Completions([], {BlobPipe}, during);
              && done == (if ok then Completions(first, {BlobPipe, HandlePipe}, after) else [])
              && calls == if ok && UserIsCalled(first, {BlobPipe, HandlePipe}, after) then [FirstFailure(done)] else []
      ensures forall p: nat, q: nat | IsFirst(during + after, 0, BlobPipe, p) && IsFirst(during + after, |during|, HandlePipe, q) ::
                calls == if ok && UserIsDue(during, after) then [TheirCode(during + after, p, q)] else []
      ensures !UserIsDue(during, after) ==> calls == []
    {
      hide Completions, UserIsCalled, UserIsDue, TheirCode;
      ok := Ask(BlobPipe, duplicate);
      if !ok {
        return;
      }
      OnePipeAlone(during);
      Play(during);
      ok := Ask(HandlePipe, duplicate);
      assert asked == {BlobPipe, HandlePipe} && old(asked) + {BlobPipe} == {BlobPipe};
      Play(after);
      WhenDue(during, after);
      forall p: nat, q: nat | IsFirst(during + after, 0, BlobPipe, p) && IsFirst(during + after, |during|, HandlePipe, q)
        ensures FirstFailure(done) == TheirCode(during + after, p, q)
      {
        CodeOfTheEarlier(during, after, p, q);
      }
    }
  }

  /** Before the second pipe is asked no more than one completion can take place, so nobody calls the user. */
  lemma {:induction false} OnePipeAlone(events: seq<Event>)
    ensures forall c | c in Completions([], {BlobPipe}, events) :: c.pipe == BlobPipe
    ensures |Completions([], {BlobPipe}, events)| <= 1 && !UserIsCalled([], {BlobPipe}, events)
    decreases |events|
  {
    if events != [] {
      var n := |events| - 1;
      OnePipeAlone(events[..n]);
      OneMoreEvent([], {BlobPipe}, events, n);
      assert events[..n + 1] == events;
      var done := Completions([], {BlobPipe}, events[..n]);
      assert done != [] ==> done[0] in done && Has(done, BlobPipe);
    }
  }

  // What the schedule says of the completions, event by event

  predicate Firing(event: Event, pipe: Pipe) {
    event.Fires? && event.completion.pipe == pipe
  }

  predicate Fired(events: seq<Event>, pipe: Pipe) {
    exists i | 0 <= i < |events| :: Firing(events[i], pipe)
  }

  /** Event `i` is the first, from event `start` on, at which `pipe` fires. */
  predicate IsFirst(events: seq<Event>, start: nat, pipe: Pipe, i: nat) {
    && start <= i < |events| && Firing(events[i], pipe)
    && forall j | start <= j < i :: !Firing(events[j], pipe)
  }

  predicate IsCounted(done: seq<Completion>, asked: set<Pipe>, events: seq<Event>, i: nat)
    requires i < |events|
  {
    && events[i].Fires? && events[i].completion.pipe in asked && !Has(done, events[i].completion.pipe)
    && IsFirst(events, 0, events[i].completion.pipe, i)
  }

  /** `at` lists, in order, the events at which a pipe of `asked` without a completion in `done` fires first. */
  predicate FirstFirings(done: seq<Completion>, asked: set<Pipe>, events: seq<Event>, at: seq<nat>) {
    && Ascending(at) && (forall i | i in at :: i < |events|)
    && forall i | 0 <= i < |events| :: i in at <==> IsCounted(done, asked, events, i)
  }

  predicate Ascending(at: seq<nat>) {
    forall k, l | 0 <= k < l < |at| :: at[k] < at[l]
  }

  /** `all` is `done` and then the completions of the events `at`. */
  predicate AreAdded(done: seq<Completion>, events: seq<Event>, at: seq<nat>, all: seq<Completion>) {
    && |all| == |done| + |at| && done == all[..|done|]
    && forall k | 0 <= k < |at| ::
         at[k] < |events| && events[at[k]].Fires? && all[|done| + k] == events[at[k]].completion
  }

  /** The completions that take place are those of the first firings, in the order of the events. */
  lemma {:induction false} CompletionsAreFirstFirings(done: seq<Completion>, asked: set<Pipe>, events: seq<Event>)
    returns (at: seq<nat>)
    ensures FirstFirings(done, asked, events, at)
    ensures AreAdded(done, events, at, Completions(done, asked, events))
    decreases |events|
  {
    if events == [] {
      return [];
    }
    hide AreAdded, FirstFirings, Completions;
    var n := |events| - 1;
    at := CompletionsAreFirstFirings(done, asked, events[..n]);
    FirstFiringsGrow(done, asked, events, at);
    CountedOrNot(done, asked, events);
    OneMoreAdded(done, events, at, Completions(done, asked, events[..n]));
    if IsCounted(done, asked, events, n) {
      at := at + [n];
    }
  }

  lemma OneMoreAdded(done: seq<Completion>, events: seq<Event>, at: seq<nat>, all: seq<Completion>)
    requires events != [] && AreAdded(done, events[..|events| - 1], at, all)
    ensures AreAdded(done, events, at, all)
    ensures events[|events| - 1].Fires? ==>
              AreAdded(done, events, at + [|events| - 1], all + [events[|events| - 1].completion])
  {
  }

  lemma FirstFiringsGrow(done: seq<Completion>, asked: set<Pipe>, events: seq<Event>, at: seq<nat>)
    requires events != [] && FirstFirings(done, asked, events[..|events| - 1], at)
    ensures FirstFirings(done, asked, events,
                         if IsCounted(done, asked, events, |events| - 1) then at + [|events| - 1] else at)
  {
    hide Has;
    var n := |events| - 1;
    assert forall i: nat | i < n :: IsCounted(done, asked, events[..n], i) <==> IsCounted(done, asked, events, i);
    assert forall k | 0 <= k < |at| :: at[k] in at;
  }

  lemma CountedOrNot(done: seq<Completion>, asked: set<Pipe>, events: seq<Event>)
    requires events != []
    ensures var front := Completions(done, asked, events[..|events| - 1]);
            Completions(done, asked, events) ==
            if IsCounted(done, asked, events, |events| - 1) then front + [events[|events| - 1].completion] else front
  {
    hide Has, Completions;
    var n := |events| - 1;
    assert events == events[..n] + [events[n]];
    CompletionsGrow(done, asked, events[..n], events[n]);
    if events[n].Fires? {
      BothFinish(done, asked, events[..n], events[n].completion.pipe);
      assert forall i | 0 <= i < n :: events[..n][i] == events[i];
    }
  }

  lemma CompletionsOf(done: seq<Completion>, asked: set<Pipe>, events: seq<Event>, at: seq<nat>)
    requires FirstFirings(done, asked, events, at)
    ensures AreAdded(done, events, at, Completions(done, asked, events))
  {
    hide Completions, IsCounted;
    var same := CompletionsAreFirstFirings(done, asked, events);
    SameNumbers(at, same);
  }

  lemma {:induction false} SameNumbers(at: seq<nat>, same: seq<nat>)
    requires Ascending(at) && Ascending(same) && forall i :: i in at <==> i in same
    ensures at == same
  {
    assert at != [] ==> at[0] in same;
    assert same != [] ==> same[0] in at;
    if at != [] {
      WithoutLast(at);
      WithoutLast(same);
      var last, front, front' := at[|at| - 1], at[..|at| - 1], same[..|same| - 1];
      assert last in same && same[|same| - 1] in at;
      forall i: nat
        ensures i in front <==> i in front'
      {
        assert i in at <==> i in same;
      }
      SameNumbers(front, front');
      assert at == front + [last] && same == front' + [last];
    }
  }

  lemma WithoutLast(at: seq<nat>)
    requires at != [] && Ascending(at)
    ensures var last := at[|at| - 1];
            && last in at && Ascending(at[..|at| - 1])
            && (forall i: nat :: i in at[..|at| - 1] <==> i in at && i < last) && (forall i :: i in at ==> i <= last)
  {
    assert at == at[..|at| - 1] + [at[|at| - 1]];
  }

  lemma FirstIsOne(events: seq<Event>, start: nat, pipe: Pipe, i: nat)
    requires IsFirst(events, start, pipe, i)
    ensures forall j :: IsFirst(events, start, pipe, j) <==> j == i
  {
  }

  lemma FirstInParts(during: seq<Event>, after: seq<Event>, pipe: Pipe)
    ensures forall i | 0 <= i < |during| :: IsFirst(during, 0, pipe, i) <==> IsFirst(during + after, 0, pipe, i)
    ensures forall i | 0 <= i < |after| ::
              IsFirst(after, 0, pipe, i) <==> IsFirst(during + after, |during|, pipe, |during| + i)
    ensures forall i: nat | |during| <= i ::
              IsFirst(during + after, 0, pipe, i) ==> IsFirst(during + after, |during|, pipe, i)
  {
    var all, n := during + after, |during|;
    assert forall i | 0 <= i < n :: during[i] == all[i];
    assert forall i | 0 <= i < |after| :: after[i] == all[n + i];
    assert forall i | n <= i < |all| :: all[i] == after[i - n];
  }

  /** The code to report if one pipe fires first at `p` and the other at `q`. */
  function TheirCode(events: seq<Event>, p: nat, q: nat): ErrorCode
    requires p < |events| && q < |events| && events[p].Fires? && events[q].Fires?
  {
    var earlier, later := if p < q then p else q, if p < q then q else p;
    if events[earlier].completion.errCode != Success then events[earlier].completion.errCode
    else events[later].completion.errCode
  }

  /** With one pipe finished and the other asked, the other's first firing completes. */
  lemma TheOther(first: Completion, pipe: Pipe, asked: set<Pipe>, events: seq<Event>, i: nat)
    requires pipe != first.pipe && pipe in asked && IsFirst(events, 0, pipe, i)
    ensures Completions([first], asked, events) == [first, events[i].completion]
    ensures FirstFailure(Completions([first], asked, events))
            == if first.errCode != Success then first.errCode else events[i].completion.errCode
  {
    hide Completions;
    FirstIsOne(events, 0, pipe, i);
    assert [first][0] == first;
    assert forall p :: Has([first], p) <==> p == first.pipe;
    assert Ascending([i]);
    CompletionsOf([first], asked, events, [i]);
    assert Completions([first], asked, events)[..1][0] == first && [i][0] == i;
    FirstOfTwo(first, events[i].completion);
  }

  /** With both asked, both first firings complete, the earlier first. */
  lemma BothOfThem(events: seq<Event>, p: nat, q: nat)
    requires IsFirst(events, 0, BlobPipe, p) && IsFirst(events, 0, HandlePipe, q)
    ensures Completions([], {BlobPipe, HandlePipe}, events)
            == if p < q then [events[p].completion, events[q].completion] else [events[q].completion, events[p].completion]
    ensures FirstFailure(Completions([], {BlobPipe, HandlePipe}, events)) == TheirCode(events, p, q)
  {
    hide Completions;
    FirstIsOne(events, 0, BlobPipe, p);
    FirstIsOne(events, 0, HandlePipe, q);
    CompletionsOf([], {BlobPipe, HandlePipe}, events, if p < q then [p, q] else [q, p]);
    FirstOfTwo(events[p].completion, events[q].completion);
    FirstOfTwo(events[q].completion, events[p].completion);
  }

  /** With the first pipe asked before `during` and the second before `after`: what completes are the first firing of
      the one and the first firing of the other since it was asked. */
  lemma CodeOfTheEarlier(during: seq<Event>, after: seq<Event>, p: nat, q: nat)
    requires IsFirst(during + after, 0, BlobPipe, p) && IsFirst(during + after, |during|, HandlePipe, q)
    ensures var done := Completions(Completions([], {BlobPipe}, during), {BlobPipe, HandlePipe}, after);
            var first, second := (during + after)[p].completion, (during + after)[q].completion;
            && done == (if p < q then [first, second] else [second, first])
            && FirstFailure(done) == TheirCode(during + after, p, q)
  {
    hide Completions;
    var n := |during|;
    FirstInParts(during, after, BlobPipe);
    FirstInParts(during, after, HandlePipe);
    assert IsFirst(during + after, n, HandlePipe, n + (q - n)) && after[q - n] == (during + after)[q];
    if p < n {
      FirstIsOne(during, 0, BlobPipe, p);
      CompletionsOf([], {BlobPipe}, during, [p]);
      assert [p][0] == p && Completions([], {BlobPipe}, during) == [during[p].completion];
      TheOther(during[p].completion, HandlePipe, {BlobPipe, HandlePipe}, after, q - n);
    } else {
      FirstIsOne(during + after, 0, BlobPipe, p);
      CompletionsOf([], {BlobPipe}, during, []);
      assert Completions([], {BlobPipe}, during) == [];
      assert IsFirst(during + after, n, BlobPipe, n + (p - n));
      BothOfThem(after, p - n, q - n);
    }
  }

  /** The handler is due: once the first pipe has fired, and the second since it was asked, one of their handlers goes
      on to call it. */
  predicate UserIsDue(during: seq<Event>, after: seq<Event>) {
    exists i | 0 <= i < |after| ::
      after[i].CallsUser? && Fired(during + after[..i], BlobPipe) && Fired(after[..i], HandlePipe)
  }

  lemma WhenDue(during: seq<Event>, after: seq<Event>)
    ensures UserIsCalled(Completions([], {BlobPipe}, during), {BlobPipe, HandlePipe}, after) <==> UserIsDue(during, after)
  {
    forall i | 0 <= i < |after|
      ensures |Completions(Completions([], {BlobPipe}, during), {BlobPipe, HandlePipe}, after[..i])| == 2
              <==> Fired(during + after[..i], BlobPipe) && Fired(after[..i], HandlePipe)
    {
      BothDone(during, after[..i]);
    }
  }

  lemma BothDone(during: seq<Event>, after: seq<Event>)
    ensures |Completions(Completions([], {BlobPipe}, during), {BlobPipe, HandlePipe}, after)| == 2
            <==> Fired(during + after, BlobPipe) && Fired(after, HandlePipe)
  {
    hide Completions, Has;
    var first, both := Completions([], {BlobPipe}, during), {BlobPipe, HandlePipe};
    BothFinish([], {BlobPipe}, during, BlobPipe);
    BothFinish([], {BlobPipe}, during, HandlePipe);
    BothFinish(first, both, after, BlobPipe);
    BothFinish(first, both, after, HandlePipe);
    NobodyHas(BlobPipe);
    NobodyHas(HandlePipe);
    OncePerPipe([], {BlobPipe}, during);
    OncePerPipe(first, both, after);
    TwoHave(Completions(first, both, after));
    FiredInParts(during, after);
  }

  lemma FiredInParts(during: seq<Event>, after: seq<Event>)
    ensures forall pipe :: Fired(during + after, pipe) <==> Fired(during, pipe) || Fired(after, pipe)
  {
    assert forall i | 0 <= i < |during| :: during[i] == (during + after)[i];
    assert forall i | 0 <= i < |after| :: after[i] == (during + after)[|during| + i];
  }

  lemma NobodyHas(pipe: Pipe)
    ensures !Has([], pipe)
  {
  }

  lemma TwoHave(done: seq<Completion>)
    requires |done| <= 2 && (|done| == 2 ==> done[0].pipe != done[1].pipe)
    ensures |done| == 2 <==> Has(done, BlobPipe) && Has(done, HandlePipe)
  {
    if |done| == 2 {
      assert done[0].pipe == BlobPipe || done[1].pipe == BlobPipe;
      assert done[0].pipe == HandlePipe || done[1].pipe == HandlePipe;
    }
  }

  lemma {:induction false} OncePerPipe(done: seq<Completion>, asked: set<Pipe>, events: seq<Event>)
    requires |done| <= 2 && (|done| == 2 ==> done[0].pipe != done[1].pipe)
    ensures var all := Completions(done, asked, events);
            |all| <= 2 && (|all| == 2 ==> all[0].pipe != all[1].pipe)
    decreases |events|
  {
    if events != [] {
      if AfterEvent(done, asked, events[0]) != done {
        PipesAreTwo(done, events[0].completion);
      }
      OncePerPipe(AfterEvent(done, asked, events[0]), asked, events[1..]);
    }
  }

  /** Both pipes finish if and only if the schedule has a firing for each, the second one's after it has been asked;
      so these are the schedules on which the user's handler is due. */
  lemma {:induction false} BothFinish(done: seq<Completion>, asked: set<Pipe>, events: seq<Event>, pipe: Pipe)
    decreases |events|
    ensures Has(Completions(done, asked, events), pipe) <==>
              Has(done, pipe) || (pipe in asked && Fired(events, pipe))
  {
    if events != [] {
      var done' := AfterEvent(done, asked, events[0]);
      BothFinish(done', asked, events[1..], pipe);
      assert forall i | 1 <= i < |events| :: events[i] == events[1..][i - 1];
      assert forall i | 0 <= i < |events[1..]| :: events[1..][i] == events[i + 1];
      assert Has(done, pipe) ==> Has(done', pipe) by {
        if i :| 0 <= i < |done| && done[i].pipe == pipe {
          assert done'[i].pipe == pipe;
        }
      }
      if done' != done {
        assert done'[|done|] == events[0].completion;
        assert forall i | 0 <= i < |done| :: done'[i] == done[i];
      }
    }
  }

  // The sync_io form: everything on one thread

  /** A pipe's answer: finished at once, or later, by its handler. */
  datatype Answer = Immediate(errCode: ErrorCode) | WouldBlock

  /** What has been counted of a pipe's answer, as a completion. */
  function AtOnce(pipe: Pipe, answer: Answer): seq<Completion> {
    if answer.Immediate? then [Completion(pipe, answer.errCode)] else []
  }

  function Deferred(pipe: Pipe, answer: Answer): set<Pipe> {
    if answer.WouldBlock? then {pipe} else {}
  }

  class SyncEnding {
    var deferred: set<Pipe>                  // the pipes that kept the handler
    var nDone: nat
    var errCode1: ErrorCode
    var calls: seq<ErrorCode>
    var done: seq<Completion>                // what has been counted, in order of time

    ghost predicate Valid()
      reads this
    {
      && nDone == |done| <= 2 && (|done| == 2 ==> done[0].pipe != done[1].pipe)
      && (|done| >= 1 ==> errCode1 == done[0].errCode)
      && calls == (if |done| == 2 then [FirstFailure(done)] else [])
    }

    constructor ()
      ensures Valid() && deferred == {} && done == []
    {
      deferred, nDone, errCode1, calls, done := {}, 0, Success, [], [];
    }

    method CombinedOnDone(completion: Completion)
      requires Valid() && !Has(done, completion.pipe)
      modifies this
      ensures Valid() && deferred == old(deferred) && done == old(done) + [completion]
    {
      PipesAreTwo(done, completion);
      done := done + [completion];
      nDone := nDone + 1;
      if nDone == 2 {
        FirstOfTwo(done[0], completion);
        calls := calls + [if errCode1 != Success then errCode1 else completion.errCode];
        return;
      }
      errCode1 := completion.errCode;
    }

    /** The call alone.  With both pipes finished at once, the first failure is written or thrown, and no handler
        remains that could run.  Otherwise nothing is written or thrown, with or without a target, and the pipe that
        finished at once, if any, has been counted. */
    method AsyncEndSending(duplicate: bool, answer1: Answer, answer2: Answer, hasTarget: bool)
      returns (ok: bool, written: Option<ErrorCode>, thrown: Option<ErrorCode>)
      requires Valid() && deferred == {} && done == []
      modifies this
      ensures Valid() && ok == (!duplicate && thrown.None?)
      ensures duplicate ==> written.None? && thrown.None? && deferred == {} && done == []
      ensures !duplicate && answer1.Immediate? && answer2.Immediate? ==>
                var result := if answer1.errCode != Success then answer1.errCode else answer2.errCode;
                && deferred == {} && done == []
                && written == (if hasTarget then Some(result) else None)
                && thrown == (if !hasTarget && result != Success then Some(result) else None)
      ensures !duplicate && !(answer1.Immediate? && answer2.Immediate?) ==>
                && written.None? && thrown.None?
                && deferred == Deferred(BlobPipe, answer1) + Deferred(HandlePipe, answer2)
                && done == AtOnce(BlobPipe, answer1) + AtOnce(HandlePipe, answer2)
    {
      ok, written, thrown := false, None, None;
      if duplicate {
        return;
      }
      deferred := Deferred(BlobPipe, answer1) + Deferred(HandlePipe, answer2);
      if answer1.Immediate? && answer2.Immediate? {
        var syncErrCode := if answer1.errCode != Success then answer1.errCode else answer2.errCode;
        if !hasTarget && syncErrCode != Success {
          return false, None, Some(syncErrCode);
        }
        return true, if hasTarget then Some(syncErrCode) else None, None;
      }
      if answer1.Immediate? {
        nDone, errCode1, done := nDone + 1, answer1.errCode, AtOnce(BlobPipe, answer1);
      } else if answer2.Immediate? {
        nDone, errCode1, done := nDone + 1, answer2.errCode, AtOnce(HandlePipe, answer2);
      }
      ok := true;
    }

    /** The deferred handlers run, in the order of `events`. */
    method Play(events: seq<Event>)
      requires Valid()
      modifies this
      ensures Valid() && deferred == old(deferred) && done == Completions(old(done), deferred, events)
    {
      var i := 0;
      while i < |events|
        invariant 0 <= i <= |events| && Valid() && deferred == old(deferred)
        invariant Completions(done, deferred, events[i..]) == Completions(old(done), deferred, events)
      {
        assert events[i..][0] == events[i] && events[i..][1..] == events[i + 1..];
        if events[i].Fires? && events[i].completion.pipe in deferred && !Has(done, events[i].completion.pipe) {
          CombinedOnDone(events[i].completion);
        }
        i := i + 1;
      }
    }

    /** The call and what follows it.  Unless both pipes finished at once, the user's handler runs if and only if both
        have finished in the end: once, and told of the first failure in order of time, whichever were immediate. */
    method Whole(duplicate: bool, answer1: Answer, answer2: Answer, hasTarget: bool, events: seq<Event>)
      returns (ok: bool, written: Option<ErrorCode>, thrown: Option<ErrorCode>)
      requires Valid() && deferred == {} && done == []
      modifies this
      ensures |calls| <= 1
      ensures calls != [] <==> && !duplicate && !(answer1.Immediate? && answer2.Immediate?)
                               && (answer1.WouldBlock? ==> Fired(events, BlobPipe))
                               && (answer2.WouldBlock? ==> Fired(events, HandlePipe))
      ensures calls != [] && answer1.Immediate? ==>
                forall q: nat | IsFirst(events, 0, HandlePipe, q) ::
                  calls[0] == if answer1.errCode != Success then answer1.errCode else events[q].completion.errCode
      ensures calls != [] && answer2.Immediate? ==>
                forall p: nat | IsFirst(events, 0, BlobPipe, p) ::
                  calls[0] == if answer2.errCode != Success then answer2.errCode else events[p].completion.errCode
      ensures calls != [] && answer1.WouldBlock? && answer2.WouldBlock? ==>
                forall p: nat, q: nat | IsFirst(events, 0, BlobPipe, p) && IsFirst(events, 0, HandlePipe, q) ::
                  calls[0] == TheirCode(events, p, q)
      ensures !duplicate && answer1.Immediate? && answer2.Immediate? ==>
                var result := if answer1.errCode != Success then answer1.errCode else answer2.errCode;
                && written == (if hasTarget then Some(result) else None)
                && thrown == (if !hasTarget && result != Success then Some(result) else None)
                && ok == thrown.None?
      ensures !duplicate && !(answer1.Immediate? && answer2.Immediate?) ==> ok && written.None? && thrown.None?
      ensures duplicate ==> !ok && written.None? && thrown.None?
    {
      hide Completions, TheirCode, Fired, AtOnce, Deferred;
      ok, written, thrown := AsyncEndSending(duplicate, answer1, answer2, hasTarget);
      NobodyAsked(done, events);
      Play(events);
      if duplicate || (answer1.Immediate? && answer2.Immediate?) {
        return;
      }
      OnceAllFired(answer1, answer2, events);
      WhatIsReported(answer1, answer2, events);
    }
  }

  lemma WhatIsReported(answer1: Answer, answer2: Answer, events: seq<Event>)
    requires answer1.WouldBlock? || answer2.WouldBlock?
    ensures var reported := FirstFailure(Completions(AtOnce(BlobPipe, answer1) + AtOnce(HandlePipe, answer2),
                                                     Deferred(BlobPipe, answer1) + Deferred(HandlePipe, answer2), events));
            && (answer1.Immediate? ==> forall q: nat | IsFirst(events, 0, HandlePipe, q) ::
                  reported == if answer1.errCode != Success then answer1.errCode else events[q].completion.errCode)
            && (answer2.Immediate? ==> forall p: nat | IsFirst(events, 0, BlobPipe, p) ::
                  reported == if answer2.errCode != Success then answer2.errCode else events[p].completion.errCode)
            && (answer1.WouldBlock? && answer2.WouldBlock? ==>
                  forall p: nat, q: nat | IsFirst(events, 0, BlobPipe, p) && IsFirst(events, 0, HandlePipe, q) ::
                    reported == TheirCode(events, p, q))
  {
    hide Completions, TheirCode;
    var done := AtOnce(BlobPipe, answer1) + AtOnce(HandlePipe, answer2);
    var asked := Deferred(BlobPipe, answer1) + Deferred(HandlePipe, answer2);
    if answer1.Immediate? {
      assert done == [Completion(BlobPipe, answer1.errCode)];
      forall q: nat | IsFirst(events, 0, HandlePipe, q) {
        TheOther(done[0], HandlePipe, asked, events, q);
      }
    } else if answer2.Immediate? {
      assert done == [Completion(HandlePipe, answer2.errCode)];
      forall p: nat | IsFirst(events, 0, BlobPipe, p) {
        TheOther(done[0], BlobPipe, asked, events, p);
      }
    } else {
      assert done == [] && asked == {BlobPipe, HandlePipe};
      forall p: nat, q: nat | IsFirst(events, 0, BlobPipe, p) && IsFirst(events, 0, HandlePipe, q) {
        BothOfThem(events, p, q);
      }
    }
  }

  lemma OnceAllFired(answer1: Answer, answer2: Answer, events: seq<Event>)
    requires answer1.WouldBlock? || answer2.WouldBlock?
    ensures |Completions(AtOnce(BlobPipe, answer1) + AtOnce(HandlePipe, answer2),
                         Deferred(BlobPipe, answer1) + Deferred(HandlePipe, answer2), events)| == 2
            <==> && (answer1.WouldBlock? ==> Fired(events, BlobPipe))
                 && (answer2.WouldBlock? ==> Fired(events, HandlePipe))
  {
    hide Completions, Fired;
    var done := AtOnce(BlobPipe, answer1) + AtOnce(HandlePipe, answer2);
    var asked := Deferred(BlobPipe, answer1) + Deferred(HandlePipe, answer2);
    BothFinish(done, asked, events, BlobPipe);
    BothFinish(done, asked, events, HandlePipe);
    OncePerPipe(done, asked, events);
    TwoHave(Completions(done, asked, events));
    assert answer1.Immediate? ==> done[0].pipe == BlobPipe;
    assert answer2.Immediate? ==> done[0].pipe == HandlePipe;
  }

  lemma {:induction false} NobodyAsked(done: seq<Completion>, events: seq<Event>)
    ensures Completions(done, {}, events) == done
  {
    if events != [] {
      NobodyAsked(done, events[1..]);
    }
  }
}
