/**
 `Native_socket_stream_acceptor`: the surplus queue of results, the deficit queue of requests, and the worker
 thread W that keeps at most one of them non-empty.

 A request carries the further requests its handler will make, depending on whether it gets a peer or an error;
 this is how handlers that call async_accept() themselves are represented.
 */
module NativeSocketStreamAcceptor {
  import opened Wrappers

  type Peer = nat

  datatype ErrorCode = ConnectionAborted | OperationAborted | SystemError(code: nat) | ObjectShutdownAborted

  datatype Request = Request(id: nat, onPeer: seq<Request>, onError: seq<Request>)

  /** What a request's handler sees: success with the target filled in, or an error code. */
  datatype Outcome = GotPeer(peer: Peer) | GotError(code: ErrorCode)

  datatype PeerOrError = PeerResult(peer: Peer) | ErrorResult(code: ErrorCode)

  datatype Call = Call(request: Request, outcome: Outcome)

  /** What a completed background accept brings. */
  datatype AcceptEvent = NewConnection(peer: Peer) | AcceptFailed(code: ErrorCode)

  /** Anything thread W or a user thread may do next. */
  datatype Task = UserRequest(request: Request) | RunPosted | Completion(event: AcceptEvent)

  // ----- The specification: request i gets result i -----

  /** What request number `i` is told in the end, given everything that was accepted and the fatal error if any. */
  function Answer(i: nat, accepted: seq<Peer>, fatal: Option<ErrorCode>): Outcome {
    if i < |accepted| then GotPeer(accepted[i])
    else if fatal.Some? then GotError(fatal.value)
    else GotError(ObjectShutdownAborted)
  }

  /** Request `i` can be told without waiting for the shutdown. */
  predicate Answerable(i: nat, accepted: seq<Peer>, fatal: Option<ErrorCode>) {
    i < |accepted| || fatal.Some?
  }

  /** The requests and the results zipped: all a run leaves behind, with no trace of the schedule. */
  function Transcript(asked: seq<Request>, accepted: seq<Peer>, fatal: Option<ErrorCode>): seq<Call> {
    seq(|asked|, i requires 0 <= i < |asked| => Call(asked[i], Answer(i, accepted, fatal)))
  }

  /** How many of `n` requests are answered before the shutdown. */
  function Answered(n: nat, accepted: seq<Peer>, fatal: Option<ErrorCode>): nat {
    if fatal.Some? || n <= |accepted| then n else |accepted|
  }

  /** `results` is what is left of the accepted peers after the first `from` of them, capped by the error. */
  ghost predicate IsSurplus(results: seq<PeerOrError>, accepted: seq<Peer>, from: nat, fatal: Option<ErrorCode>) {
    && |results| == (if from < |accepted| then |accepted| - from else 0) + (if fatal.Some? then 1 else 0)
    && (forall i | 0 <= i < |results| ::
          results[i] == if from + i < |accepted| then PeerResult(accepted[from + i]) else ErrorResult(fatal.value))
  }

  function Reaction(call: Call): seq<Request> {
    if call.outcome.GotPeer? then call.request.onPeer else call.request.onError
  }

  /** What the handlers of all calls but the first `from` ask for. */
  function Reactions(calls: seq<Call>, from: nat): seq<Request> {
    if |calls| <= from then [] else Reactions(calls[..|calls| - 1], from) + Reaction(calls[|calls| - 1])
  }

  /** The peers and the fatal error a sequence of completions brings while the acceptor is listening. */
  function AcceptedBy(events: seq<AcceptEvent>): seq<Peer> {
    if events == [] then []
    else
      var before := events[..|events| - 1];
      AcceptedBy(before) +
      if FatalOf(before).None? && events[|events| - 1].NewConnection? then [events[|events| - 1].peer] else []
  }

  function FatalOf(events: seq<AcceptEvent>): Option<ErrorCode> {
    if events == [] then None
    else
      var before, last := FatalOf(events[..|events| - 1]), events[|events| - 1];
      if before.Some? then before
      else if last.AcceptFailed? && last.code != ConnectionAborted && last.code != OperationAborted then Some(last.code)
      else None
  }

  /** The background accept is started again after this completion. */
  predicate Rearms(event: AcceptEvent) {
    event.NewConnection? || event.code == ConnectionAborted
  }

  /** A background accept is outstanding after these completions. */
  predicate StillAccepting(events: seq<AcceptEvent>) {
    events == [] || Rearms(events[|events| - 1])
  }

  /** The user's requests of a schedule, in order, and the completions that are heard. */
  function Roots(schedule: seq<Task>): seq<Request> {
    if schedule == [] then []
    else
      var last := schedule[|schedule| - 1];
      Roots(schedule[..|schedule| - 1]) + if last.UserRequest? then [last.request] else []
  }

  function Heard(schedule: seq<Task>): seq<AcceptEvent> {
    if schedule == [] then []
    else
      var before, last := Heard(schedule[..|schedule| - 1]), schedule[|schedule| - 1];
      before + if last.Completion? && StillAccepting(before) then [last.event] else []
  }

  // ----- The whole run without the queues -----

  /** The requests made so far, how many of them thread W has taken up, and the completions heard. */
  datatype Progress = Progress(asked: seq<Request>, nTaken: nat, events: seq<AcceptEvent>)

  function Done(p: Progress): nat {
    Answered(p.nTaken, AcceptedBy(p.events), FatalOf(p.events))
  }

  /** What the handlers of requests `from` up to `upTo` ask for when told their answers. */
  function ReactingTo(asked: seq<Request>, from: nat, upTo: nat, accepted: seq<Peer>, fatal: Option<ErrorCode>): seq<Request>
    requires upTo <= |asked|
  {
    if upTo <= from then []
    else ReactingTo(asked, from, upTo - 1, accepted, fatal) + Reaction(Call(asked[upTo - 1], Answer(upTo - 1, accepted, fatal)))
  }

  /** The requests that have become answerable are answered, and their handlers ask for more. */
  function Advance(p: Progress, nTaken: nat, events: seq<AcceptEvent>): Progress
    requires nTaken <= |p.asked|
  {
    var accepted, fatal := AcceptedBy(events), FatalOf(events);
    Progress(p.asked + ReactingTo(p.asked, Done(p), Answered(nTaken, accepted, fatal), accepted, fatal), nTaken, events)
  }

  function NextProgress(p: Progress, task: Task): (next: Progress)
    requires p.nTaken <= |p.asked|
    ensures next.nTaken <= |next.asked|
  {
    match task
    case UserRequest(request) => p.(asked := p.asked + [request])
    case RunPosted => if p.nTaken == |p.asked| then p else Advance(p, p.nTaken + 1, p.events)
    case Completion(event) => if StillAccepting(p.events) then Advance(p, p.nTaken, p.events + [event]) else p
  }

  function ProgressOf(schedule: seq<Task>): (p: Progress)
    ensures p.nTaken <= |p.asked|
  {
    if schedule == [] then Progress([], 0, [])
    else NextProgress(ProgressOf(schedule[..|schedule| - 1]), schedule[|schedule| - 1])
  }

  /** All that is posted is taken up, what is posted meanwhile included. */
  function Settled(p: Progress): (end: Progress)
    requires p.nTaken <= |p.asked|
    ensures end.nTaken == |end.asked| && end.events == p.events
    decreases Load(p), |p.asked| - p.nTaken
  {
    if p.nTaken == |p.asked| then p
    else
      SettlingShrinks(p);
      Settled(NextProgress(p, RunPosted))
  }

  function Load(p: Progress): nat
    requires p.nTaken <= |p.asked|
  {
    WeightAll(p.asked[Done(p)..])
  }

  lemma SettlingShrinks(p: Progress)
    requires p.nTaken < |p.asked|
    ensures var next := NextProgress(p, RunPosted);
            Load(next) < Load(p) || (Load(next) == Load(p) && |next.asked| - next.nTaken < |p.asked| - p.nTaken)
  {
    var accepted, fatal, n := AcceptedBy(p.events), FatalOf(p.events), p.nTaken;
    var next := NextProgress(p, RunPosted);
    AnsweredGrows(n, accepted, fatal);
    if Answered(n + 1, accepted, fatal) == n + 1 {
      var call := Call(p.asked[n], Answer(n, accepted, fatal));
      assert ReactingTo(p.asked, n, n, accepted, fatal) == [];
      assert next.asked == p.asked + Reaction(call);
      ReactionWeighsLess(p.asked, n, call);
    } else {
      assert next.asked == p.asked;
    }
  }

  lemma AnsweredGrows(n: nat, accepted: seq<Peer>, fatal: Option<ErrorCode>)
    ensures if fatal.Some? || n < |accepted| then Answered(n, accepted, fatal) == n && Answered(n + 1, accepted, fatal) == n + 1
            else Answered(n + 1, accepted, fatal) == Answered(n, accepted, fatal) <= n
  {
  }

  lemma ReactionWeighsLess(asked: seq<Request>, n: nat, call: Call)
    requires n < |asked| && call.request == asked[n]
    ensures WeightAll((asked + Reaction(call))[n + 1..]) < WeightAll(asked[n..])
  {
    assert (asked + Reaction(call))[n + 1..] == asked[n..][1..] + Reaction(call);
    WeightAllAppend(asked[n..][1..], Reaction(call));
  }

  /** None of these requests makes further requests. */
  predicate AllInert(requests: seq<Request>) {
    forall i | 0 <= i < |requests| :: requests[i].onPeer == [] && requests[i].onError == []
  }

  /** Handlers run so far saw the answers of their requests. */
  ghost predicate Faithful(calls: seq<Call>, taken: seq<Request>, accepted: seq<Peer>, fatal: Option<ErrorCode>) {
    && |calls| <= |taken|
    && (forall i | 0 <= i < |calls| :: calls[i] == Call(taken[i], Answer(i, accepted, fatal)))
  }

  /** No handler was told that the acceptor is shutting down. */
  ghost predicate NoneAborted(calls: seq<Call>, accepted: seq<Peer>, fatal: Option<ErrorCode>) {
    |calls| > 0 ==> Answerable(|calls| - 1, accepted, fatal)
  }

  class Acceptor {
    var pendingUserRequests: seq<Request>
    var pendingResults: seq<PeerOrError>
    var accepting: bool       // a background accept is outstanding
    var closed: bool          // the listening socket was closed
    var posted: seq<Request>  // posted on thread W, not taken up yet
    var inHandler: bool
    var calls: seq<Call>
    ghost var asked: seq<Request>    // all async_accept() calls, in order
    ghost var taken: seq<Request>    // those thread W has taken up
    ghost var events: seq<AcceptEvent>
    ghost var accepted: seq<Peer>
    ghost var fatal: Option<ErrorCode>

    /** The two histories summed up in `accepted` and `fatal`. */
    ghost predicate HistoryKept()
      reads this
    {
      && accepted == AcceptedBy(events) && fatal == FatalOf(events)
      && closed == fatal.Some? && accepting == StillAccepting(events) && (accepting ==> !closed)
    }

    /** Requests are taken up in the order of the async_accept() calls, and waiting ones are those not yet told. */
    ghost predicate RequestsInOrder()
      reads this
    {
      && asked == taken + posted
      && Faithful(calls, taken, accepted, fatal)
      && pendingUserRequests == taken[|calls|..]
    }

    /** Both queues are what is left of the two streams once as many requests as there were calls are removed. */
    ghost predicate Consistent()
      reads this
    {
      && RequestsInOrder() && NoneAborted(calls, accepted, fatal)
      && IsSurplus(pendingResults, accepted, |calls|, fatal)
    }

    /** A measure for the work still to be done, reactions of handlers included. */
    ghost function Work(): nat
      reads this
    {
      WeightAll(pendingUserRequests) + WeightAll(posted)
    }

    /** What has been asked for in addition is what the handlers run in the meantime asked for, in order. */
    twostate predicate ReactionsAsked()
      reads this
    {
      old(calls) <= calls && asked == old(asked) + Reactions(calls, |old(calls)|)
    }

    /** The state with its queues left out. */
    ghost function Now(): Progress
      reads this
    {
      Progress(asked, |taken|, events)
    }

    /** Steady state: not both a surplus and a deficit, and no handler running. */
    ghost predicate Steady()
      reads this
    {
      Consistent() && (pendingUserRequests == [] || pendingResults == []) && !inHandler
    }

    ghost predicate Valid()
      reads this
    {
      Steady() && HistoryKept()
    }

    constructor ()
      ensures Valid() && calls == [] && asked == [] && events == [] && accepting
    {
      pendingUserRequests, pendingResults, posted, calls := [], [], [], [];
      accepting, closed, inHandler := true, false, false;
      asked, taken, events, accepted, fatal := [], [], [], [], None;
    }

    /** async_accept(), from a user thread or from inside a handler: only posts, so no handler can run inside it. */
    method AsyncAccept(request: Request)
      modifies `posted, `asked
      ensures asked == old(asked) + [request] && posted == old(posted) + [request]
    {
      posted := posted + [request];
      asked := asked + [request];
    }

    /** One run of a user handler; the requests it makes are only posted. */
    method RunHandler(call: Call)
      requires !inHandler
      modifies `inHandler, `posted, `asked
      ensures !inHandler && posted == old(posted) + Reaction(call) && asked == old(asked) + Reaction(call)
      ensures asked == old(asked) + if call.outcome.GotPeer? then call.request.onPeer else call.request.onError
    {
      inHandler := true;
      var reaction := Reaction(call);
      for i := 0 to |reaction|
        invariant posted == old(posted) + reaction[..i] && asked == old(asked) + reaction[..i]
      {
        AsyncAccept(reaction[i]);
      }
      assert reaction[..|reaction|] == reaction;
      inHandler := false;
    }

    /** Runs the handler of the front request, then pops the request. */
    method FinishFrontRequest(outcome: Outcome)
      requires RequestsInOrder() && pendingUserRequests != [] && !inHandler
      requires outcome == Answer(|calls|, accepted, fatal)
      modifies `pendingUserRequests, `calls, `inHandler, `posted, `asked
      ensures RequestsInOrder() && !inHandler
      ensures calls == old(calls) + [Call(old(pendingUserRequests)[0], outcome)]
      ensures posted == old(posted) + Reaction(calls[|calls| - 1])
      ensures pendingUserRequests == old(pendingUserRequests)[1..]
      ensures Work() < old(Work()) && ReactionsAsked()
    {
      var call := Call(pendingUserRequests[0], outcome);
      AnsweringIsWork(pendingUserRequests, posted, call);
      ReactionsGrow(calls, call, |calls|);
      RunHandler(call);
      calls := calls + [call];
      pendingUserRequests := pendingUserRequests[1..];
    }

    /** All waiting requests get the fatal error, which stays in the queue. */
    method FeedErrorResultToDeficit(errCode: ErrorCode)
      requires Consistent() && !inHandler && pendingUserRequests != []
      requires fatal == Some(errCode) && pendingResults == [ErrorResult(errCode)]
      modifies `pendingUserRequests, `calls, `inHandler, `posted, `asked
      ensures Steady() && pendingUserRequests == []
      ensures Work() < old(Work()) && ReactionsAsked()
    {
      hide Reactions, Faithful;
      ReactionsNone(calls);
      while true
        invariant Consistent() && !inHandler && pendingUserRequests != []
        invariant |accepted| <= |calls|
        invariant Work() <= old(Work()) && ReactionsAsked()
        decreases |pendingUserRequests|
      {
        FeedErrorOnce(errCode, |old(calls)|);
        if pendingUserRequests == [] {
          break;
        }
      }
    }

    method FeedErrorOnce(errCode: ErrorCode, ghost from: nat)
      requires Consistent() && !inHandler && pendingUserRequests != [] && from <= |calls|
      requires fatal == Some(errCode) && |accepted| <= |calls|
      modifies `pendingUserRequests, `calls, `inHandler, `posted, `asked
      ensures Consistent() && !inHandler && |accepted| <= |calls|
      ensures |pendingUserRequests| < |old(pendingUserRequests)| && Work() < old(Work()) && old(calls) <= calls
      ensures calls != [] && asked == old(asked) + Reaction(calls[|calls| - 1])
      ensures Reactions(calls, from) == Reactions(old(calls), from) + Reaction(calls[|calls| - 1])
    {
      ghost var before := calls;
      FinishFrontRequest(GotError(errCode));
      ReactionsGrow(before, calls[|before|], from);
    }

    /** The front request gets the peer that was just taken off the results queue. */
    method FeedSuccessResultToDeficit(peer: Peer)
      requires RequestsInOrder() && !inHandler && pendingUserRequests != []
      requires |calls| < |accepted| && peer == accepted[|calls|]
      requires IsSurplus(pendingResults, accepted, |calls| + 1, fatal)
      modifies `pendingUserRequests, `calls, `inHandler, `posted, `asked
      ensures Consistent() && !inHandler
      ensures pendingUserRequests == old(pendingUserRequests)[1..]
      ensures Work() < old(Work()) && ReactionsAsked()
    {
      FinishFrontRequest(GotPeer(peer));
    }

    method FinalizeQSurplusOnError()
      requires Consistent() && !inHandler && fatal.Some?
      requires pendingUserRequests != [] ==> |pendingResults| == 1
      modifies `pendingUserRequests, `calls, `inHandler, `posted, `asked
      ensures Steady() && ReactionsAsked()
    {
      assert pendingResults != [] && pendingResults[|pendingResults| - 1].ErrorResult?;
      if pendingUserRequests == [] {
        return;
      }
      assert |pendingResults| == 1;
      FeedErrorResultToDeficit(pendingResults[0].code);
    }

    method FinalizeQSurplusOnSuccess()
      requires Consistent() && !inHandler && fatal.None? && pendingResults != []
      requires pendingUserRequests != [] ==> |pendingResults| == 1
      modifies `pendingUserRequests, `pendingResults, `calls, `inHandler, `posted, `asked
      ensures Steady() && ReactionsAsked()
    {
      assert pendingResults[|pendingResults| - 1].PeerResult?;
      if pendingUserRequests == [] {
        return;
      }
      assert |pendingResults| == 1;
      var peer := pendingResults[0].peer;
      pendingResults := pendingResults[1..];
      FeedSuccessResultToDeficit(peer);
    }

    /** The fatal error caps the queue, and listening is over. */
    method EnqueueError(code: ErrorCode)
      requires Valid() && accepting && code != ConnectionAborted && code != OperationAborted
      modifies `events, `fatal, `accepting, `closed, `pendingResults
      ensures Consistent() && HistoryKept() && fatal == Some(code) && events == old(events) + [AcceptFailed(code)]
      ensures pendingResults == old(pendingResults) + [ErrorResult(code)]
    {
      EventsGrow(events, AcceptFailed(code));
      ErrorArrives(calls, taken, accepted, code);
      assert pendingResults == [] || pendingResults[|pendingResults| - 1].PeerResult?;
      events, fatal := events + [AcceptFailed(code)], Some(code);
      accepting, closed := false, true;
      pendingResults := pendingResults + [ErrorResult(code)];
    }

    method EnqueuePeer(peer: Peer)
      requires Valid() && accepting
      modifies `events, `accepted, `pendingResults
      ensures Consistent() && HistoryKept() && fatal.None? && events == old(events) + [NewConnection(peer)]
      ensures pendingResults == old(pendingResults) + [PeerResult(peer)]
    {
      EventsGrow(events, NewConnection(peer));
      PeerArrives(calls, taken, accepted, peer);
      assert pendingResults == [] || pendingResults[|pendingResults| - 1].PeerResult?;
      events, accepted := events + [NewConnection(peer)], accepted + [peer];
      pendingResults := pendingResults + [PeerResult(peer)];
    }

    /** A connection that came to nothing, or the cancellation of the accept itself. */
    method OnHarmlessError(code: ErrorCode)
      requires Valid() && accepting && (code == ConnectionAborted || code == OperationAborted)
      modifies `accepting, `events
      ensures Valid() && events == old(events) + [AcceptFailed(code)]
    {
      EventsGrow(events, AcceptFailed(code));
      events := events + [AcceptFailed(code)];
      accepting := code == ConnectionAborted;
    }

    /** The completion of a background accept; the next one is started unless the error was fatal. */
    method OnNextPeerSocketOrError(event: AcceptEvent)
      requires Valid() && accepting
      modifies this
      ensures Valid() && events == old(events) + [event] && ReactionsAsked() && taken == old(taken)
    {
      if event.NewConnection? {
        EnqueuePeer(event.peer);
        FinalizeQSurplusOnSuccess();
      } else if event.code == ConnectionAborted || event.code == OperationAborted {
        OnHarmlessError(event.code);
      } else {
        EnqueueError(event.code);
        FinalizeQSurplusOnError();
      }
    }

    /** Moves the first posted request into the deficit queue. */
    method PushRequest()
      requires Steady() && posted != []
      modifies `posted, `taken, `pendingUserRequests
      ensures Consistent() && posted == old(posted)[1..] && taken == old(taken) + [old(posted)[0]]
      ensures pendingUserRequests == old(pendingUserRequests) + [old(posted)[0]] && Work() == old(Work())
    {
      TakingUpIsNoWork(pendingUserRequests, posted);
      pendingUserRequests := pendingUserRequests + [posted[0]];
      taken := taken + [posted[0]];
      posted := posted[1..];
    }

    /** Gives the one waiting request what is at the front of the surplus. */
    method FeedSurplusToRequest()
      requires Consistent() && !inHandler && |pendingUserRequests| == 1 && pendingResults != []
      modifies `pendingUserRequests, `pendingResults, `calls, `inHandler, `posted, `asked
      ensures Steady() && Work() < old(Work()) && ReactionsAsked()
    {
      if pendingResults[0].ErrorResult? {
        assert |pendingResults| == 1;
        FeedErrorResultToDeficit(pendingResults[0].code);
      } else {
        var peer := pendingResults[0].peer;
        pendingResults := pendingResults[1..];
        FeedSuccessResultToDeficit(peer);
      }
    }

    /** The body async_accept() posted on thread W. */
    method TakeUpRequest()
      requires Steady() && posted != []
      modifies `pendingUserRequests, `pendingResults, `calls, `inHandler, `posted, `asked, `taken
      ensures Steady() && ReactionsAsked() && taken == old(taken) + [old(posted)[0]]
      ensures Work() < old(Work()) || (Work() == old(Work()) && |posted| < old(|posted|))
    {
      PushRequest();
      if pendingResults != [] {
        assert |pendingUserRequests| == 1;
        FeedSurplusToRequest();
      }
    }

    // ----- Whole runs -----

    /** In steady state exactly the answerable requests were answered. */
    lemma NothingPostponed()
      requires Steady()
      ensures |calls| == Answered(|taken|, accepted, fatal)
    {
    }

    /** The completion of a background accept, as seen without the queues. */
    method Complete(event: AcceptEvent)
      requires Valid() && accepting
      modifies this
      ensures Valid() && Now() == NextProgress(old(Now()), Completion(event))
    {
      NothingPostponed();
      OnNextPeerSocketOrError(event);
      NothingPostponed();
      ReactionsAre(calls, taken, old(asked), |old(calls)|, accepted, fatal);
    }

    /** The taking up of a posted request, as seen without the queues. */
    method RunOnePosted()
      requires Valid() && posted != []
      modifies `pendingUserRequests, `pendingResults, `calls, `inHandler, `posted, `asked, `taken
      ensures Valid() && Now() == NextProgress(old(Now()), RunPosted)
      ensures Work() < old(Work()) || (Work() == old(Work()) && |posted| < old(|posted|))
    {
      hide NextProgress, Faithful, IsSurplus, NoneAborted, Reactions, AcceptedBy, FatalOf, StillAccepting, Answered;
      ghost var before := Now();
      NothingPostponed();
      TakeUpRequest();
      NothingPostponed();
      AfterTakingUp(before, calls, taken, asked);
    }

    /** One turn of the schedule; what is impossible at its turn is skipped. */
    method Turn(task: Task)
      requires Valid()
      modifies this
      ensures Valid() && Now() == NextProgress(old(Now()), task)
    {
      match task
      case UserRequest(request) =>
        AsyncAccept(request);
      case RunPosted =>
        if posted != [] {
          RunOnePosted();
        }
      case Completion(event) =>
        if accepting {
          Complete(event);
        }
    }

    /** Thread W and the users proceed in any order the schedule says: the two queues are a way of computing what the
        run amounts to without them. */
    method Run(schedule: seq<Task>)
      requires Valid() && Now() == ProgressOf([])
      modifies this
      ensures Valid() && Now() == ProgressOf(schedule)
    {
      for i := 0 to |schedule|
        invariant Valid() && Now() == ProgressOf(schedule[..i])
      {
        assert schedule[..i + 1][..i] == schedule[..i];
        Turn(schedule[i]);
      }
      assert schedule[..|schedule|] == schedule;
    }

    /** The destructor's poll(): runs everything posted, including what the handlers it runs post. */
    method Poll()
      requires Valid()
      modifies `pendingUserRequests, `pendingResults, `calls, `inHandler, `posted, `asked, `taken
      ensures Valid() && posted == [] && Now() == Settled(old(Now()))
    {
      while posted != []
        invariant Valid() && Settled(Now()) == Settled(old(Now()))
        decreases Work(), |posted|
      {
        RunOnePosted();
      }
    }

    /** The destructor's last loop: every request still waiting is told so; nothing posted now will ever run. */
    method Drain()
      requires Valid() && posted == []
      modifies `pendingUserRequests, `calls, `inHandler, `posted, `asked
      ensures RequestsInOrder() && pendingUserRequests == [] && calls == Transcript(taken, accepted, fatal)
      ensures posted == ReactingTo(taken, Answered(|taken|, accepted, fatal), |taken|, accepted, fatal)
    {
      NothingPostponed();
      while pendingUserRequests != []
        invariant RequestsInOrder() && !inHandler
        invariant old(calls) <= calls && posted == Reactions(calls, |old(calls)|)
        invariant pendingUserRequests != [] ==> fatal.None? && |accepted| <= |calls|
        decreases |pendingUserRequests|
      {
        ghost var before := calls;
        FinishFrontRequest(GotError(ObjectShutdownAborted));
        ReactionsGrow(before, calls[|before|], |old(calls)|);
      }
      ReactionsAre(calls, taken, taken, |old(calls)|, accepted, fatal);
    }

    /** From construction to the end of destruction.  Which requests there are follows from the schedule; all of them
        are told their answers, once and in order; left over are the requests made by handlers that are being told of
        the shutdown, whose own handlers never run. */
    method Lifetime(schedule: seq<Task>)
      requires Valid() && Now() == ProgressOf([])
      modifies this
      ensures var end := Settled(ProgressOf(schedule));
              var heard, fatal := AcceptedBy(end.events), FatalOf(end.events);
              && calls == Transcript(end.asked, heard, fatal)
              && posted == ReactingTo(end.asked, Answered(|end.asked|, heard, fatal), |end.asked|, heard, fatal)
              && (posted == [] <==> NoLateReaction(end.asked, heard, fatal))
      ensures asked == Settled(ProgressOf(schedule)).asked + posted
    {
      Run(schedule);
      Poll();
      ghost var end := Settled(ProgressOf(schedule));
      assert taken == asked == end.asked && accepted == AcceptedBy(end.events) && fatal == FatalOf(end.events);
      Drain();
      LateReactions(end.asked, AcceptedBy(end.events), FatalOf(end.events));
    }

    /** Until teardown every accepted peer was either handed out or is stored, once, in order of arrival. */
    lemma PeersAccountedFor()
      requires Valid()
      ensures DeliveredPeers(calls) + StoredPeers(pendingResults) == AcceptedBy(events)
    {
      DeliveredThenStored(calls, taken, pendingResults, accepted, fatal);
    }
  }

  /** The answers of a whole life in plain terms. */
  lemma AnswersInPlainTerms(schedule: seq<Task>)
    ensures var end := Settled(ProgressOf(schedule));
            var calls := Transcript(end.asked, AcceptedBy(end.events), FatalOf(end.events));
            var all := Completions(schedule);
            var n := UntilFailure(all);
            var peers := PeersOf(all[..n]);
            && |calls| == |end.asked|
            && forall i | 0 <= i < |calls| ::
                 && calls[i].request == end.asked[i]
                 && calls[i].outcome ==
                      if i < |peers| then GotPeer(peers[i])
                      else if n < |all| && all[n].code != OperationAborted then GotError(all[n].code)
                      else GotError(ObjectShutdownAborted)
  {
    WhatIsAccepted(schedule);
  }

  /** A life in which a connection is aborted halfway and the next one is still accepted. */
  method AcceptAfterAbort() returns (acceptor: Acceptor)
    ensures fresh(acceptor) && acceptor.calls == [Call(Request(0, [], []), GotPeer(7))]
  {
    var r := Request(0, [], []);
    AbortedThenAccepted();
    acceptor := new Acceptor();
    acceptor.Lifetime([UserRequest(r), Completion(AcceptFailed(ConnectionAborted)), Completion(NewConnection(7))]);
  }

  lemma AbortedThenAccepted()
    ensures var r := Request(0, [], []);
            var schedule := [UserRequest(r), Completion(AcceptFailed(ConnectionAborted)), Completion(NewConnection(7))];
            var end := Settled(ProgressOf(schedule));
            Transcript(end.asked, AcceptedBy(end.events), FatalOf(end.events)) == [Call(r, GotPeer(7))]
  {
    hide ProgressOf, Settled, AcceptedBy, FatalOf, Heard;
    var r := Request(0, [], []);
    var schedule := [UserRequest(r), Completion(AcceptFailed(ConnectionAborted)), Completion(NewConnection(7))];
    var one, two := [UserRequest(r)], [UserRequest(r), Completion(AcceptFailed(ConnectionAborted))];
    assert schedule[..2] == two && two[..1] == one && one[..0] == [];
    assert Roots(one) == Roots([]) + [r] == [r] && Roots(two) == Roots(one) + [] && Roots(schedule) == Roots(two) + [] == [r];
    InertRequests(schedule);
    AnswersInPlainTerms(schedule);
    var e1, e2 := AcceptFailed(ConnectionAborted), NewConnection(7);
    assert Completions(one) == [] && Completions(two) == [] + [e1] == [e1] && Completions(schedule) == [e1] + [e2] == [e1, e2];
    assert [e1, e2][..1] == [e1] && [e1][..0] == [];
    assert UntilFailure([e1]) == 1 && UntilFailure([e1, e2]) == 2 && [e1, e2][..2] == [e1, e2];
    assert PeersOf([e1]) == PeersOf([]) + [] == [] && PeersOf([e1, e2]) == PeersOf([e1]) + [7] == [7];
  }

  /** A life in which a handler makes a request: it queues up behind those made before. */
  method QueueUpBehind() returns (acceptor: Acceptor)
    ensures var a := Request(0, [Request(2, [], [])], [Request(3, [], [])]);
            && fresh(acceptor)
            && acceptor.calls == [Call(a, GotPeer(7)), Call(Request(1, [], []), GotPeer(8)), Call(Request(2, [], []), GotPeer(9))]
  {
    var a, b := Request(0, [Request(2, [], [])], [Request(3, [], [])]), Request(1, [], []);
    ReactionQueuesUp();
    acceptor := new Acceptor();
    acceptor.Lifetime([UserRequest(a), UserRequest(b), RunPosted, Completion(NewConnection(7)),
                       Completion(NewConnection(8)), Completion(NewConnection(9))]);
  }

  lemma ReactionQueuesUp()
    ensures var a, b, c := Request(0, [Request(2, [], [])], [Request(3, [], [])]), Request(1, [], []), Request(2, [], []);
            var end := Settled(ProgressOf([UserRequest(a), UserRequest(b), RunPosted, Completion(NewConnection(7)),
                                           Completion(NewConnection(8)), Completion(NewConnection(9))]));
            && Transcript(end.asked, AcceptedBy(end.events), FatalOf(end.events))
               == [Call(a, GotPeer(7)), Call(b, GotPeer(8)), Call(c, GotPeer(9))]
  {
    hide ProgressOf, AcceptedBy, FatalOf, ReactingTo, Settled, StillAccepting;
    var a, b, c := Request(0, [Request(2, [], [])], [Request(3, [], [])]), Request(1, [], []), Request(2, [], []);
    var e7, e8, e9 := NewConnection(7), NewConnection(8), NewConnection(9);
    ThreePeers();
    ReactingToNone([a, b], 0, [], None);
    ReactingToOne([a, b], 0, [7], None);
    var one, two := [UserRequest(a)], [UserRequest(a), UserRequest(b)];
    assert [] + one == one && one + [UserRequest(b)] == two;
    assert [] + [a] == [a] && [a] + [b] == [a, b] == [a, b] + [] && [a, b, c] + [] == [a, b, c];
    OneMoreTask([], UserRequest(a));
    OneMoreTask(one, UserRequest(b));
    OneMoreTask(two, RunPosted);
    var taken := two + [RunPosted];
    assert ProgressOf(taken) == Progress([a, b], 1, []);
    OneMoreTask(taken, Completion(e7));
    assert [] + [e7] == [e7] && [e7] + [e8] == [e7, e8] && [e7, e8] + [e9] == [e7, e8, e9];
    assert ProgressOf(taken + [Completion(e7)]) == Progress([a, b, c], 1, [e7]);
    assert taken + [Completion(e7)] + [Completion(e8)] == taken + [Completion(e7), Completion(e8)];
    assert taken + [Completion(e7), Completion(e8)] + [Completion(e9)]
        == taken + [Completion(e7), Completion(e8), Completion(e9)];
    ReactingToNone([a, b, c], 1, [7, 8], None);
    ReactingToNone([a, b, c], 1, [7, 8, 9], None);
    OneMoreTask(taken + [Completion(e7)], Completion(e8));
    OneMoreTask(taken + [Completion(e7), Completion(e8)], Completion(e9));
    assert ProgressOf(taken + [Completion(e7), Completion(e8), Completion(e9)]) == Progress([a, b, c], 1, [e7, e8, e9]);
    assert taken + [Completion(e7), Completion(e8), Completion(e9)]
        == [UserRequest(a), UserRequest(b), RunPosted, Completion(e7), Completion(e8), Completion(e9)];
    TakeUpTheRest(a, b, c);
  }

  lemma OneMoreTask(schedule: seq<Task>, task: Task)
    ensures ProgressOf(schedule + [task]) == NextProgress(ProgressOf(schedule), task)
    ensures ProgressOf([]) == Progress([], 0, [])
  {
    assert (schedule + [task])[..|schedule|] == schedule;
  }

  lemma ThreePeers()
    ensures var e7, e8, e9 := NewConnection(7), NewConnection(8), NewConnection(9);
            && AcceptedBy([]) == [] && FatalOf([]) == None && AcceptedBy([e7]) == [7] && FatalOf([e7]) == None
            && AcceptedBy([e7, e8]) == [7, 8] && FatalOf([e7, e8]) == None
            && AcceptedBy([e7, e8, e9]) == [7, 8, 9] && FatalOf([e7, e8, e9]) == None
            && StillAccepting([]) && StillAccepting([e7]) && StillAccepting([e7, e8])
  {
    hide AcceptedBy, FatalOf;
    var e7, e8, e9 := NewConnection(7), NewConnection(8), NewConnection(9);
    assert [] + [e7] == [e7] && [e7] + [e8] == [e7, e8] && [e7, e8] + [e9] == [e7, e8, e9];
    NoEvents();
    EventsGrow([], e7);
    EventsGrow([e7], e8);
    EventsGrow([e7, e8], e9);
  }

  lemma NoEvents()
    ensures AcceptedBy([]) == [] && FatalOf([]) == None
  {
  }

  lemma ReactingToNone(asked: seq<Request>, n: nat, accepted: seq<Peer>, fatal: Option<ErrorCode>)
    requires n <= |asked|
    ensures ReactingTo(asked, n, n, accepted, fatal) == []
  {
  }

  lemma ReactingToOne(asked: seq<Request>, n: nat, accepted: seq<Peer>, fatal: Option<ErrorCode>)
    requires n < |asked|
    ensures ReactingTo(asked, n, n + 1, accepted, fatal) == Reaction(Call(asked[n], Answer(n, accepted, fatal)))
  {
    ReactingToNone(asked, n, accepted, fatal);
  }

  lemma TakeUpTheRest(a: Request, b: Request, c: Request)
    requires b.onPeer == [] && c.onPeer == []
    ensures var events := [NewConnection(7), NewConnection(8), NewConnection(9)];
            Settled(Progress([a, b, c], 1, events)) == Progress([a, b, c], 3, events)
  {
    hide AcceptedBy, FatalOf, ReactingTo;
    var events := [NewConnection(7), NewConnection(8), NewConnection(9)];
    var asked := [a, b, c];
    ThreePeers();
    ReactingToOne(asked, 1, [7, 8, 9], None);
    ReactingToOne(asked, 2, [7, 8, 9], None);
    assert NextProgress(Progress(asked, 1, events), RunPosted) == Progress(asked, 2, events);
    assert NextProgress(Progress(asked, 2, events), RunPosted) == Progress(asked, 3, events);
    assert Settled(Progress(asked, 3, events)) == Progress(asked, 3, events);
    assert Settled(Progress(asked, 2, events)) == Progress(asked, 3, events);
  }

  /** A life in which a request is left over: its maker was waiting when the acceptor went. */
  method LoseARequest() returns (acceptor: Acceptor)
    ensures fresh(acceptor) && acceptor.posted == [Request(1, [], [])]
    ensures acceptor.calls == [Call(Request(0, [], [Request(1, [], [])]), GotError(ObjectShutdownAborted))]
  {
    acceptor := new Acceptor();
    LateReactionIsPossible();
    acceptor.Lifetime([UserRequest(Request(0, [], [Request(1, [], [])]))]);
  }

  /** The promise that every handler is run at the latest by the destructor fails for a request made by a handler
      that is only just being told of the shutdown. */
  lemma LateReactionIsPossible()
    ensures var r := Request(0, [], [Request(1, [], [])]);
            && Settled(ProgressOf([UserRequest(r)])) == Progress([r], 1, [])
            && !NoLateReaction([r], [], None)
            && ReactingTo([r], 0, 1, [], None) == [Request(1, [], [])]
            && Transcript([r], [], None) == [Call(r, GotError(ObjectShutdownAborted))]
  {
    var r := Request(0, [], [Request(1, [], [])]);
    var p := Progress([r], 0, []);
    assert [UserRequest(r)][..0] == [];
    assert ProgressOf([UserRequest(r)]) == NextProgress(ProgressOf([]), UserRequest(r)) == p;
    assert ReactingTo([r], 0, 0, [], None) == [];
    assert NextProgress(p, RunPosted) == Progress([r], 1, []);
    assert Settled(Progress([r], 1, [])) == Progress([r], 1, []);
    assert !Answerable(0, [], None) && [r][0].onError != [];
    assert Reaction(Call(r, GotError(ObjectShutdownAborted))) == [Request(1, [], [])];
    assert ReactingTo([r], 0, 1, [], None) == ReactingTo([r], 0, 0, [], None) + [Request(1, [], [])];
  }

  // ----- Lemmas about the specification -----

  function Weight(r: Request): nat
    decreases r, 1
  {
    1 + WeightAll(r.onPeer) + WeightAll(r.onError)
  }

  function WeightAll(rs: seq<Request>): nat
    decreases rs, 0
  {
    if rs == [] then 0 else Weight(rs[0]) + WeightAll(rs[1..])
  }

  lemma {:induction false} WeightAllAppend(a: seq<Request>, b: seq<Request>)
    ensures WeightAll(a + b) == WeightAll(a) + WeightAll(b)
    decreases |a|
  {
    if a == [] {
      assert a + b == b;
    } else {
      assert (a + b)[1..] == a[1..] + b;
      WeightAllAppend(a[1..], b);
    }
  }

  lemma AnsweringIsWork(pending: seq<Request>, posted: seq<Request>, call: Call)
    requires pending != [] && call.request == pending[0]
    ensures WeightAll(pending[1..]) + WeightAll(posted + Reaction(call)) < WeightAll(pending) + WeightAll(posted)
  {
    WeightAllAppend(posted, Reaction(call));
  }

  lemma TakingUpIsNoWork(pending: seq<Request>, posted: seq<Request>)
    requires posted != []
    ensures WeightAll(pending + [posted[0]]) + WeightAll(posted[1..]) == WeightAll(pending) + WeightAll(posted)
  {
    WeightAllAppend(pending, [posted[0]]);
  }

  lemma EventsGrow(events: seq<AcceptEvent>, e: AcceptEvent)
    requires FatalOf(events).None?
    ensures AcceptedBy(events + [e]) == AcceptedBy(events) + if e.NewConnection? then [e.peer] else []
    ensures FatalOf(events + [e]) ==
            if e.AcceptFailed? && e.code != ConnectionAborted && e.code != OperationAborted then Some(e.code) else None
  {
    assert (events + [e])[..|events|] == events;
  }

  /** No answer given so far changes when a peer arrives. */
  lemma PeerArrives(calls: seq<Call>, taken: seq<Request>, accepted: seq<Peer>, peer: Peer)
    requires Faithful(calls, taken, accepted, None) && NoneAborted(calls, accepted, None)
    ensures Faithful(calls, taken, accepted + [peer], None) && NoneAborted(calls, accepted + [peer], None)
  {
  }

  /** Nor when the fatal error does. */
  lemma ErrorArrives(calls: seq<Call>, taken: seq<Request>, accepted: seq<Peer>, code: ErrorCode)
    requires Faithful(calls, taken, accepted, None) && NoneAborted(calls, accepted, None)
    ensures Faithful(calls, taken, accepted, Some(code)) && NoneAborted(calls, accepted, Some(code))
  {
  }

  lemma ReactionsNone(calls: seq<Call>)
    ensures Reactions(calls, |calls|) == []
  {
  }

  lemma ReactionsGrow(calls: seq<Call>, call: Call, from: nat)
    requires from <= |calls|
    ensures Reactions(calls + [call], from) == Reactions(calls, from) + Reaction(call)
  {
    assert (calls + [call])[..|calls|] == calls;
  }

  /** The requests made by the handlers run are those the answers call for. */
  lemma {:induction false} ReactionsAre(calls: seq<Call>, taken: seq<Request>, asked: seq<Request>, from: nat,
                                        accepted: seq<Peer>, fatal: Option<ErrorCode>)
    requires Faithful(calls, taken, accepted, fatal) && taken <= asked
    ensures Reactions(calls, from) == ReactingTo(asked, from, |calls|, accepted, fatal)
    decreases |calls|
  {
    if from < |calls| {
      ReactionsAre(calls[..|calls| - 1], taken, asked, from, accepted, fatal);
    }
  }

  lemma AfterTakingUp(before: Progress, calls: seq<Call>, taken: seq<Request>, asked: seq<Request>)
    requires |taken| == before.nTaken + 1 && taken <= before.asked
    requires Faithful(calls, taken, AcceptedBy(before.events), FatalOf(before.events))
    requires |calls| == Answered(|taken|, AcceptedBy(before.events), FatalOf(before.events))
    requires asked == before.asked + Reactions(calls, Done(before))
    ensures Progress(asked, |taken|, before.events) == NextProgress(before, RunPosted)
  {
    ReactionsAre(calls, taken, before.asked, Done(before), AcceptedBy(before.events), FatalOf(before.events));
  }

  // ----- Where the requests come from -----

  /** `all` is `a` and `b`, each in its order, shuffled together. */
  predicate IsMerge(all: seq<Request>, a: seq<Request>, b: seq<Request>)
    decreases |all|
  {
    if all == [] then a == [] && b == []
    else
      var n := |all| - 1;
      || (a != [] && a[|a| - 1] == all[n] && IsMerge(all[..n], a[..|a| - 1], b))
      || (b != [] && b[|b| - 1] == all[n] && IsMerge(all[..n], a, b[..|b| - 1]))
  }

  lemma {:induction false} MergeCounts(all: seq<Request>, a: seq<Request>, b: seq<Request>)
    requires IsMerge(all, a, b)
    ensures multiset(all) == multiset(a) + multiset(b)
    decreases |all|
  {
    if all != [] {
      var n := |all| - 1;
      assert all == all[..n] + [all[n]];
      if a != [] && a[|a| - 1] == all[n] && IsMerge(all[..n], a[..|a| - 1], b) {
        assert a == a[..|a| - 1] + [a[|a| - 1]];
        MergeCounts(all[..n], a[..|a| - 1], b);
      } else {
        assert b == b[..|b| - 1] + [b[|b| - 1]];
        MergeCounts(all[..n], a, b[..|b| - 1]);
      }
    }
  }

  lemma MergeLeft(all: seq<Request>, a: seq<Request>, b: seq<Request>, x: Request)
    requires IsMerge(all, a, b)
    ensures IsMerge(all + [x], a + [x], b)
  {
    assert (all + [x])[..|all|] == all && (a + [x])[..|a|] == a;
  }

  lemma {:induction false} MergeRight(all: seq<Request>, a: seq<Request>, b: seq<Request>, more: seq<Request>)
    requires IsMerge(all, a, b)
    ensures IsMerge(all + more, a, b + more)
    decreases |more|
  {
    if more == [] {
      assert all + more == all && b + more == b;
    } else {
      var n := |more| - 1;
      MergeRight(all, a, b, more[..n]);
      assert (all + more)[..|all| + n] == all + more[..n] && (b + more)[..|b| + n] == b + more[..n];
    }
  }

  lemma {:induction false} ReactingSame(asked: seq<Request>, asked': seq<Request>, from: nat, upTo: nat,
                                        accepted: seq<Peer>, fatal: Option<ErrorCode>,
                                        accepted': seq<Peer>, fatal': Option<ErrorCode>)
    requires upTo <= |asked| && asked <= asked'
    requires forall i | from <= i < upTo :: Answer(i, accepted, fatal) == Answer(i, accepted', fatal')
    ensures ReactingTo(asked, from, upTo, accepted, fatal) == ReactingTo(asked', from, upTo, accepted', fatal')
    decreases upTo
  {
    if from < upTo {
      ReactingSame(asked, asked', from, upTo - 1, accepted, fatal, accepted', fatal');
    }
  }

  lemma {:induction false} ReactingSplit(asked: seq<Request>, mid: nat, upTo: nat, accepted: seq<Peer>, fatal: Option<ErrorCode>)
    requires mid <= upTo <= |asked|
    ensures ReactingTo(asked, 0, upTo, accepted, fatal)
            == ReactingTo(asked, 0, mid, accepted, fatal) + ReactingTo(asked, mid, upTo, accepted, fatal)
    decreases upTo
  {
    if mid < upTo {
      ReactingSplit(asked, mid, upTo - 1, accepted, fatal);
    }
  }

  /** Later completions change no answer that could be given. */
  lemma AnswersStay(events: seq<AcceptEvent>, e: AcceptEvent, n: nat)
    ensures Answered(n, AcceptedBy(events), FatalOf(events)) <= Answered(n, AcceptedBy(events + [e]), FatalOf(events + [e]))
    ensures forall i | 0 <= i < Answered(n, AcceptedBy(events), FatalOf(events)) ::
              Answer(i, AcceptedBy(events), FatalOf(events)) == Answer(i, AcceptedBy(events + [e]), FatalOf(events + [e]))
  {
    assert (events + [e])[..|events|] == events;
  }

  /** The requests are the users' and those of the handlers answered, each in order. */
  ghost predicate Accounted(p: Progress, roots: seq<Request>)
    requires p.nTaken <= |p.asked|
  {
    IsMerge(p.asked, roots, ReactingTo(p.asked, 0, Done(p), AcceptedBy(p.events), FatalOf(p.events)))
  }

  lemma AdvanceAccounts(p: Progress, nTaken: nat, events: seq<AcceptEvent>, roots: seq<Request>)
    requires p.nTaken <= nTaken <= |p.asked| && Accounted(p, roots)
    requires events == p.events || (|events| == |p.events| + 1 && events[..|p.events|] == p.events)
    ensures Accounted(Advance(p, nTaken, events), roots)
  {
    var q := Advance(p, nTaken, events);
    var accepted, fatal, accepted', fatal' := AcceptedBy(p.events), FatalOf(p.events), AcceptedBy(events), FatalOf(events);
    if events != p.events {
      assert events == p.events + [events[|p.events|]];
      AnswersStay(p.events, events[|p.events|], p.nTaken);
    }
    ReactingSame(p.asked, q.asked, 0, Done(p), accepted, fatal, accepted', fatal');
    ReactingSame(p.asked, q.asked, Done(p), Done(q), accepted', fatal', accepted', fatal');
    ReactingSplit(q.asked, Done(p), Done(q), accepted', fatal');
    MergeRight(p.asked, roots, ReactingTo(p.asked, 0, Done(p), accepted, fatal),
               ReactingTo(p.asked, Done(p), Done(q), accepted', fatal'));
  }

  lemma RequestAccounts(p: Progress, roots: seq<Request>, request: Request)
    requires p.nTaken <= |p.asked| && Accounted(p, roots)
    ensures Accounted(p.(asked := p.asked + [request]), roots + [request])
  {
    var accepted, fatal := AcceptedBy(p.events), FatalOf(p.events);
    MergeLeft(p.asked, roots, ReactingTo(p.asked, 0, Done(p), accepted, fatal), request);
    ReactingSame(p.asked, p.asked + [request], 0, Done(p), accepted, fatal, accepted, fatal);
  }

  lemma NextAccounts(p: Progress, roots: seq<Request>, task: Task)
    requires p.nTaken <= |p.asked| && Accounted(p, roots)
    ensures Accounted(NextProgress(p, task), if task.UserRequest? then roots + [task.request] else roots)
  {
    var next := NextProgress(p, task);
    if task.UserRequest? {
      RequestAccounts(p, roots, task.request);
    } else if next != p {
      var n := if task.RunPosted? then p.nTaken + 1 else p.nTaken;
      assert next == Advance(p, n, next.events);
      AdvanceAccounts(p, n, next.events, roots);
    }
  }

  lemma {:induction false} ProgressAccounts(schedule: seq<Task>)
    ensures Accounted(ProgressOf(schedule), Roots(schedule))
  {
    if schedule != [] {
      var n := |schedule| - 1;
      ProgressAccounts(schedule[..n]);
      NextAccounts(ProgressOf(schedule[..n]), Roots(schedule[..n]), schedule[n]);
      assert Roots(schedule) == if schedule[n].UserRequest? then Roots(schedule[..n]) + [schedule[n].request] else Roots(schedule[..n]);
    }
  }

  lemma {:induction false} SettledAccounts(p: Progress, roots: seq<Request>)
    requires p.nTaken <= |p.asked| && Accounted(p, roots)
    ensures Accounted(Settled(p), roots)
    decreases Load(p), |p.asked| - p.nTaken
  {
    if p.nTaken < |p.asked| {
      var next := NextProgress(p, RunPosted);
      SettlingShrinks(p);
      NextAccounts(p, roots, RunPosted);
      SettledAccounts(next, roots);
      assert Settled(p) == Settled(next);
    }
  }

  /** No request is dropped, made up or moved ahead of an earlier one from the same source: the requests a whole life
      deals with are those of the users and those of the handlers answered before the shutdown. */
  lemma RequestsOfALife(schedule: seq<Task>)
    ensures var end := Settled(ProgressOf(schedule));
            var accepted, fatal := AcceptedBy(end.events), FatalOf(end.events);
            var reactions := ReactingTo(end.asked, 0, Answered(|end.asked|, accepted, fatal), accepted, fatal);
            && IsMerge(end.asked, Roots(schedule), reactions)
            && multiset(end.asked) == multiset(Roots(schedule)) + multiset(reactions)
  {
    var end := Settled(ProgressOf(schedule));
    ProgressAccounts(schedule);
    SettledAccounts(ProgressOf(schedule), Roots(schedule));
    MergeCounts(end.asked, Roots(schedule),
                ReactingTo(end.asked, 0, Done(end), AcceptedBy(end.events), FatalOf(end.events)));
  }

  lemma {:induction false} HeardIs(schedule: seq<Task>)
    ensures ProgressOf(schedule).events == Heard(schedule)
  {
    if schedule != [] {
      HeardIs(schedule[..|schedule| - 1]);
    }
  }

  // ----- What is heard, in terms of the schedule -----

  /** The completions of a schedule, heard or not. */
  function Completions(schedule: seq<Task>): seq<AcceptEvent> {
    if schedule == [] then []
    else
      var last := schedule[|schedule| - 1];
      Completions(schedule[..|schedule| - 1]) + if last.Completion? then [last.event] else []
  }

  function PeersOf(events: seq<AcceptEvent>): seq<Peer> {
    if events == [] then []
    else
      var last := events[|events| - 1];
      PeersOf(events[..|events| - 1]) + if last.NewConnection? then [last.peer] else []
  }

  /** A completion after which the acceptor still listens: a connection, or one that was aborted halfway. */
  predicate GoesOn(event: AcceptEvent) {
    event.NewConnection? || event.code == ConnectionAborted
  }

  /** The number of completions before the first that failed otherwise. */
  function UntilFailure(events: seq<AcceptEvent>): (n: nat)
    ensures n <= |events|
    ensures forall i | 0 <= i < n :: events[i].NewConnection? || events[i] == AcceptFailed(ConnectionAborted)
    ensures n < |events| ==> events[n].AcceptFailed? && events[n].code != ConnectionAborted
  {
    if events == [] then 0
    else
      var n := |events| - 1;
      var before := UntilFailure(events[..n]);
      if before == n && GoesOn(events[n]) then n + 1 else before
  }

  /** What the acceptor gets of a schedule: all peers that connect before the first completion failing with anything but
      an aborted connection, in order, and the error of that one unless it is the cancellation. */
  lemma WhatIsAccepted(schedule: seq<Task>)
    ensures var all, heard := Completions(schedule), Heard(schedule);
            var n := UntilFailure(all);
            && Settled(ProgressOf(schedule)).events == heard
            && heard == (if n < |all| then all[..n + 1] else all)
            && AcceptedBy(heard) == PeersOf(all[..n])
            && FatalOf(heard) == if n < |all| && all[n].code != OperationAborted then Some(all[n].code) else None
  {
    HeardIs(schedule);
    AllHeard(schedule);
  }

  lemma {:induction false} AllHeard(schedule: seq<Task>)
    ensures IsHeard(Completions(schedule), Heard(schedule))
  {
    hide IsHeard, StillAccepting;
    if schedule == [] {
      NothingHeard();
    } else {
      var k := |schedule| - 1;
      AllHeard(schedule[..k]);
      var all, heard := Completions(schedule[..k]), Heard(schedule[..k]);
      if schedule[k].Completion? {
        OneMoreCompletion(all, heard, schedule[k].event);
        assert heard + [] == heard;
      } else {
        assert all + [] == all && heard + [] == heard;
      }
    }
  }

  lemma NothingHeard()
    ensures IsHeard([], [])
  {
  }

  ghost predicate IsHeard(all: seq<AcceptEvent>, heard: seq<AcceptEvent>) {
    var n := UntilFailure(all);
    && heard == (if n < |all| then all[..n + 1] else all)
    && AcceptedBy(heard) == PeersOf(all[..n])
    && FatalOf(heard) == if n < |all| && all[n].code != OperationAborted then Some(all[n].code) else None
  }

  lemma OneMoreCompletion(all: seq<AcceptEvent>, heard: seq<AcceptEvent>, e: AcceptEvent)
    requires IsHeard(all, heard)
    ensures IsHeard(all + [e], if StillAccepting(heard) then heard + [e] else heard)
  {
    var n, more := UntilFailure(all), all + [e];
    assert more[..|all|] == all;
    if n < |all| {
      assert more[..n] == all[..n] && more[..n + 1] == all[..n + 1];
    } else {
      assert all[..n] == all;
      EventsGrow(all, e);
      if GoesOn(e) {
        assert more[..n + 1] == more;
      } else {
        assert more[..n] == all && more[..n + 1] == more;
      }
    }
  }

  /** If no handler asks for more, the requests are the users' and nothing is ever left over. */
  lemma InertRequests(schedule: seq<Task>)
    requires AllInert(Roots(schedule))
    ensures var end := Settled(ProgressOf(schedule));
            && end.asked == Roots(schedule) && end.events == Heard(schedule)
            && NoLateReaction(end.asked, AcceptedBy(end.events), FatalOf(end.events))
  {
    HeardIs(schedule);
    InertProgress(schedule);
    InertSettles(ProgressOf(schedule));
  }

  lemma {:induction false} InertProgress(schedule: seq<Task>)
    requires AllInert(Roots(schedule))
    ensures ProgressOf(schedule).asked == Roots(schedule)
  {
    if schedule != [] {
      var n := |schedule| - 1;
      var roots, before := Roots(schedule), Roots(schedule[..n]);
      assert forall i | 0 <= i < |before| :: before[i] == roots[i];
      InertProgress(schedule[..n]);
      var p := ProgressOf(schedule[..n]);
      InertAdvance(p, if p.nTaken < |p.asked| then p.nTaken + 1 else p.nTaken, p.events);
      if schedule[n].Completion? {
        InertAdvance(p, p.nTaken, p.events + [schedule[n].event]);
      }
    }
  }

  lemma InertAdvance(p: Progress, nTaken: nat, events: seq<AcceptEvent>)
    requires nTaken <= |p.asked| && AllInert(p.asked)
    ensures Advance(p, nTaken, events).asked == p.asked
  {
    var accepted, fatal := AcceptedBy(events), FatalOf(events);
    NoReactions(p.asked, Done(p), Answered(nTaken, accepted, fatal), accepted, fatal);
  }

  lemma {:induction false} InertSettles(p: Progress)
    requires p.nTaken <= |p.asked| && AllInert(p.asked)
    ensures Settled(p).asked == p.asked
    decreases Load(p), |p.asked| - p.nTaken
  {
    hide AllInert, ReactingTo, AcceptedBy, FatalOf;
    if p.nTaken < |p.asked| {
      var next := NextProgress(p, RunPosted);
      SettlingShrinks(p);
      InertAdvance(p, p.nTaken + 1, p.events);
      InertSettles(next);
      assert Settled(p) == Settled(next);
    }
  }

  /** No request that has to wait for the shutdown makes a new request when it is told of it. */
  ghost predicate NoLateReaction(asked: seq<Request>, accepted: seq<Peer>, fatal: Option<ErrorCode>) {
    forall i | 0 <= i < |asked| && !Answerable(i, accepted, fatal) :: asked[i].onError == []
  }

  predicate IsQuiet(asked: seq<Request>, i: nat, accepted: seq<Peer>, fatal: Option<ErrorCode>)
    requires i < |asked|
  {
    Reaction(Call(asked[i], Answer(i, accepted, fatal))) == []
  }

  lemma {:induction false} NoReactions(asked: seq<Request>, from: nat, upTo: nat, accepted: seq<Peer>, fatal: Option<ErrorCode>)
    requires upTo <= |asked|
    ensures ReactingTo(asked, from, upTo, accepted, fatal) == [] <==>
              forall i | from <= i < upTo :: IsQuiet(asked, i, accepted, fatal)
    decreases upTo
  {
    if from < upTo {
      NoReactions(asked, from, upTo - 1, accepted, fatal);
      var before := ReactingTo(asked, from, upTo - 1, accepted, fatal);
      var last := Reaction(Call(asked[upTo - 1], Answer(upTo - 1, accepted, fatal)));
      assert last == [] <==> IsQuiet(asked, upTo - 1, accepted, fatal);
      assert before + last == [] <==> before == [] && last == [] by {
        assert |before + last| == |before| + |last|;
      }
    }
  }

  lemma LateReactions(asked: seq<Request>, accepted: seq<Peer>, fatal: Option<ErrorCode>)
    ensures ReactingTo(asked, Answered(|asked|, accepted, fatal), |asked|, accepted, fatal) == []
            <==> NoLateReaction(asked, accepted, fatal)
  {
    var answered := Answered(|asked|, accepted, fatal);
    NoReactions(asked, answered, |asked|, accepted, fatal);
    assert forall i | answered <= i < |asked| :: IsQuiet(asked, i, accepted, fatal) <==> asked[i].onError == [];
  }

  // ----- Accounting -----

  function DeliveredPeers(calls: seq<Call>): seq<Peer> {
    if calls == [] then []
    else
      var last := calls[|calls| - 1];
      DeliveredPeers(calls[..|calls| - 1]) + if last.outcome.GotPeer? then [last.outcome.peer] else []
  }

  function StoredPeers(results: seq<PeerOrError>): seq<Peer> {
    if results == [] then []
    else (if results[0].PeerResult? then [results[0].peer] else []) + StoredPeers(results[1..])
  }

  lemma {:induction false} DeliveredOf(calls: seq<Call>, taken: seq<Request>, accepted: seq<Peer>, fatal: Option<ErrorCode>)
    requires Faithful(calls, taken, accepted, fatal)
    ensures DeliveredPeers(calls) == accepted[..if |calls| <= |accepted| then |calls| else |accepted|]
  {
    if calls != [] {
      DeliveredOf(calls[..|calls| - 1], taken, accepted, fatal);
    }
  }

  lemma {:induction false} StoredOf(results: seq<PeerOrError>, accepted: seq<Peer>, from: nat, fatal: Option<ErrorCode>)
    requires IsSurplus(results, accepted, from, fatal)
    ensures StoredPeers(results) == if from <= |accepted| then accepted[from..] else []
    decreases |results|
  {
    if from < |accepted| {
      StoredOf(results[1..], accepted, from + 1, fatal);
    }
  }

  lemma DeliveredThenStored(calls: seq<Call>, taken: seq<Request>, results: seq<PeerOrError>,
                            accepted: seq<Peer>, fatal: Option<ErrorCode>)
    requires Faithful(calls, taken, accepted, fatal) && IsSurplus(results, accepted, |calls|, fatal)
    ensures DeliveredPeers(calls) + StoredPeers(results) == accepted
  {
    hide Faithful, IsSurplus, DeliveredPeers, StoredPeers;
    DeliveredOf(calls, taken, accepted, fatal);
    StoredOf(results, accepted, |calls|, fatal);
    if |calls| <= |accepted| {
      assert accepted[..|calls|] + accepted[|calls|..] == accepted;
    }
  }
}
