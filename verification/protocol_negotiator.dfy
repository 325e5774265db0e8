/**
 `Protocol_negotiator`: each side learns the other's highest version once and settles on a version of its own.
 */
module ProtocolNegotiator {

  type Ver = v: int | -0x8000 <= v <= 0x7FFF   // int16_t

  const UNSUPPORTED: Ver := 0
  const UNKNOWN: Ver := -1

  datatype ErrorCode = Success | TooOld | Invalid | Earlier(code: nat)

  /** The version range of one side. */
  datatype Range = Range(low: Ver, high: Ver) {
    predicate Valid() {
      0 < low <= high
    }
    predicate Has(v: int) {
      low <= v <= high
    }
  }

  predicate Disjoint(a: Range, b: Range) {
    a.high < b.low || b.high < a.low
  }

  ghost predicate IsHighestCommon(v: int, a: Range, b: Range) {
    a.Has(v) && b.Has(v) && forall w: int | a.Has(w) && b.Has(w) :: w <= v
  }

  /** What the class documentation has a side settle on. */
  function Documented(own: Range, opposingMax: Ver): Ver {
    if opposingMax <= 0 then UNSUPPORTED
    else if own.high <= opposingMax then own.high
    else if opposingMax >= own.low then opposingMax
    else UNSUPPORTED
  }

  /** What the code has it settle on: its own maximum whenever it can speak the other's. */
  function Settled(own: Range, opposingMax: Ver): Ver {
    if opposingMax <= 0 || opposingMax < own.low then UNSUPPORTED else own.high
  }

  lemma SettledIsKnown(own: Range, opposingMax: Ver)
    requires own.Valid()
    ensures Settled(own, opposingMax) != UNKNOWN
  {
  }

  /** The documented rule, for two opposed sides: the highest common version on both, or exactly one gives up. */
  lemma DocumentedRuleAgrees(a: Range, b: Range)
    requires a.Valid() && b.Valid()
    ensures !Disjoint(a, b) ==>
              Documented(a, b.high) == Documented(b, a.high) && IsHighestCommon(Documented(a, b.high), a, b)
    ensures Disjoint(a, b) <==>
              (Documented(a, b.high) == UNSUPPORTED) != (Documented(b, a.high) == UNSUPPORTED)
  {
    if !Disjoint(a, b) {
      var v := Documented(a, b.high);
      assert a.Has(v) && b.Has(v);
    }
  }

  /** The code departs from the documented rule exactly when the other side is older but still spoken. */
  lemma DepartsExactlyWhen(own: Range, opposingMax: Ver)
    requires own.Valid()
    ensures Settled(own, opposingMax) != Documented(own, opposingMax) <==> own.low <= opposingMax < own.high
  {
  }

  /** So two sides running the code end up as documented if and only if their maxima are equal or they have no version
      in common.  Otherwise the newer side settles on a version the older one does not speak. */
  lemma OpposedSides(a: Range, b: Range)
    requires a.Valid() && b.Valid()
    ensures (Settled(a, b.high) == Documented(a, b.high) && Settled(b, a.high) == Documented(b, a.high))
            <==> (a.high == b.high || Disjoint(a, b))
    ensures Disjoint(a, b) <==> (Settled(a, b.high) == UNSUPPORTED) != (Settled(b, a.high) == UNSUPPORTED)
    ensures !Disjoint(a, b) && a.high < b.high ==> Settled(a, b.high) == a.high && !a.Has(Settled(b, a.high))
  {
  }

  lemma OlderPeerIsNotMet()
    ensures var older, newer := Range(1, 1), Range(1, 2);
            && IsHighestCommon(1, older, newer)
            && Settled(older, newer.high) == 1 && Settled(newer, older.high) == 2
  {
    assert Range(1, 1).Has(1) && Range(1, 2).Has(1);
  }

  // What one negotiator does over a whole run

  datatype Op = Learn(opposingMax: Ver) | HandOut | Reset

  /** The operations since the last reset. */
  function Epoch(ops: seq<Op>): seq<Op> {
    if ops == [] || ops[|ops| - 1] == Reset then [] else Epoch(ops[..|ops| - 1]) + [ops[|ops| - 1]]
  }

  /** The first maximum learned in an epoch, if any. */
  function FirstLearned(epoch: seq<Op>): seq<Ver> {
    if epoch == [] then []
    else if epoch[0].Learn? then [epoch[0].opposingMax]
    else FirstLearned(epoch[1..])
  }

  predicate HandedOut(epoch: seq<Op>) {
    exists i | 0 <= i < |epoch| :: epoch[i] == HandOut
  }

  /** The number of epochs in which the maximum was asked for. */
  function EpochsWithHandOut(ops: seq<Op>): nat {
    if ops == [] then 0
    else
      var before := ops[..|ops| - 1];
      EpochsWithHandOut(before) + if ops[|ops| - 1] == HandOut && !HandedOut(Epoch(before)) then 1 else 0
  }

  lemma {:induction false} FirstLearnedStays(epoch: seq<Op>, op: Op)
    ensures FirstLearned(epoch + [op]) ==
            if FirstLearned(epoch) != [] then FirstLearned(epoch) else if op.Learn? then [op.opposingMax] else []
  {
    if epoch == [] {
      assert epoch + [op] == [op] && [op][1..] == [];
    } else {
      assert (epoch + [op])[1..] == epoch[1..] + [op];
      FirstLearnedStays(epoch[1..], op);
    }
  }

  lemma EpochGrows(ops: seq<Op>, op: Op)
    ensures Epoch(ops + [op]) == if op == Reset then [] else Epoch(ops) + [op]
    ensures HandedOut(Epoch(ops + [op])) <==> op != Reset && (HandedOut(Epoch(ops)) || op == HandOut)
    ensures EpochsWithHandOut(ops + [op]) == EpochsWithHandOut(ops) + if op == HandOut && !HandedOut(Epoch(ops)) then 1 else 0
    ensures FirstLearned(Epoch(ops + [op])) ==
            if op == Reset then [] else if FirstLearned(Epoch(ops)) != [] then FirstLearned(Epoch(ops))
            else if op.Learn? then [op.opposingMax] else []
  {
    assert (ops + [op])[..|ops|] == ops;
    if op != Reset {
      FirstLearnedStays(Epoch(ops), op);
      var grown := Epoch(ops) + [op];
      assert grown[|grown| - 1] == op;
      assert forall i | 0 <= i < |Epoch(ops)| :: grown[i] == Epoch(ops)[i];
    }
  }

  /** No reset between operation `i` and the end of `ops`. */
  predicate Lasts(ops: seq<Op>, i: nat) {
    i < |ops| && forall k | i < k < |ops| :: ops[k] != Reset
  }

  /** Operation `i` asks for the maximum, as none did before it since the last reset. */
  predicate AsksFirst(ops: seq<Op>, i: nat)
    requires i < |ops|
  {
    ops[i] == HandOut && !exists j | 0 <= j < i :: ops[j] == HandOut && Lasts(ops[..i], j)
  }

  /** An epoch in terms of the operations: who is in it, and in which order. */
  lemma {:induction false} EpochIsTheRest(ops: seq<Op>)
    ensures |Epoch(ops)| <= |ops| && Epoch(ops) == ops[|ops| - |Epoch(ops)|..]
    ensures forall i: nat | i < |ops| :: Lasts(ops, i) && ops[i] != Reset <==> |ops| - |Epoch(ops)| <= i
  {
    if ops != [] {
      var n := |ops| - 1;
      var front := ops[..n];
      EpochIsTheRest(front);
      assert ops == front + [ops[n]];
      assert forall i | 0 <= i < n :: Lasts(ops, i) <==> Lasts(front, i) && ops[n] != Reset;
      assert forall i | 0 <= i < n :: front[i] == ops[i];
    }
  }

  lemma {:induction false} HandedOutMeans(ops: seq<Op>)
    ensures HandedOut(Epoch(ops)) <==> exists j | 0 <= j < |ops| :: ops[j] == HandOut && Lasts(ops, j)
  {
    EpochIsTheRest(ops);
    var start := |ops| - |Epoch(ops)|;
    assert forall j | start <= j < |ops| :: ops[j] == Epoch(ops)[j - start];
    assert forall i | 0 <= i < |Epoch(ops)| :: Epoch(ops)[i] == ops[start + i];
  }

  function FirstRequests(ops: seq<Op>): set<nat> {
    set i: nat | i < |ops| && AsksFirst(ops, i)
  }

  /** The epochs in which the maximum is asked for are counted by the first such request of each. */
  lemma {:induction false} EachEpochOnce(ops: seq<Op>)
    ensures EpochsWithHandOut(ops) == |FirstRequests(ops)|
  {
    if ops != [] {
      hide FirstRequests, HandedOut, Epoch;
      EachEpochOnce(ops[..|ops| - 1]);
      OneMoreRequest(ops);
    } else {
      assert FirstRequests(ops) == {};
    }
  }

  lemma OneMoreRequest(ops: seq<Op>)
    requires ops != []
    ensures var n := |ops| - 1;
            && n !in FirstRequests(ops[..n])
            && FirstRequests(ops) == FirstRequests(ops[..n])
                                     + if ops[n] == HandOut && !HandedOut(Epoch(ops[..n])) then {n} else {}
  {
    hide AsksFirst, HandedOut, Epoch;
    AskingFirst(ops);
  }

  lemma AskingFirst(ops: seq<Op>)
    requires ops != []
    ensures forall i | 0 <= i < |ops| - 1 :: AsksFirst(ops[..|ops| - 1], i) <==> AsksFirst(ops, i)
    ensures AsksFirst(ops, |ops| - 1) <==> ops[|ops| - 1] == HandOut && !HandedOut(Epoch(ops[..|ops| - 1]))
  {
    hide Lasts, HandedOut, Epoch;
    var n := |ops| - 1;
    HandedOutMeans(ops[..n]);
    assert forall i | 0 <= i < n :: ops[..n][..i] == ops[..i];
    assert forall i | 0 <= i < n :: ops[..n][i] == ops[i];
  }

  /** Operation `i` is the first to learn a maximum since the last reset: no reset follows it. */
  predicate LearnsFirst(ops: seq<Op>, i: nat)
    requires i < |ops| && ops[i].Learn?
  {
    Lasts(ops, i) && forall j | 0 <= j < i && ops[j].Learn? :: !Lasts(ops, j)
  }

  /** The version settled on comes from the first maximum learned since the last reset, and from no other. */
  lemma FirstLearnedMeans(ops: seq<Op>)
    ensures FirstLearned(Epoch(ops)) == [] <==> forall i | 0 <= i < |ops| && ops[i].Learn? :: !Lasts(ops, i)
    ensures forall i | 0 <= i < |ops| && ops[i].Learn? && LearnsFirst(ops, i) :: FirstLearned(Epoch(ops)) == [ops[i].opposingMax]
  {
    hide Lasts, Epoch, FirstLearned, LearnsFirst;
    var epoch, start := Epoch(ops), |ops| - |Epoch(ops)|;
    EpochIsTheRest(ops);
    FirstLearnedIsFirst(epoch);
    assert forall j | start <= j < |ops| :: ops[j] == epoch[j - start];
    assert forall j | 0 <= j < |epoch| :: epoch[j] == ops[start + j];
    forall i | 0 <= i < |ops| && ops[i].Learn? && LearnsFirst(ops, i)
      ensures FirstLearned(epoch) == [ops[i].opposingMax]
    {
      FirstLearnedAt(ops, i);
    }
  }

  lemma FirstLearnedAt(ops: seq<Op>, i: nat)
    requires i < |ops| && ops[i].Learn? && LearnsFirst(ops, i)
    ensures FirstLearned(Epoch(ops)) == [ops[i].opposingMax]
  {
    hide Lasts, Epoch, FirstLearned;
    var epoch, start := Epoch(ops), |ops| - |Epoch(ops)|;
    EpochIsTheRest(ops);
    FirstLearnedIsFirst(epoch);
    assert epoch[i - start] == ops[i];
    forall j | 0 <= j < i - start
      ensures !epoch[j].Learn?
    {
      assert epoch[j] == ops[start + j] && Lasts(ops, start + j);
    }
  }

  lemma {:induction false} FirstLearnedIsFirst(epoch: seq<Op>)
    ensures FirstLearned(epoch) == [] <==> forall i | 0 <= i < |epoch| :: !epoch[i].Learn?
    ensures forall i | 0 <= i < |epoch| && epoch[i].Learn? && (forall j | 0 <= j < i :: !epoch[j].Learn?) ::
              FirstLearned(epoch) == [epoch[i].opposingMax]
  {
    if epoch != [] {
      FirstLearnedIsFirst(epoch[1..]);
      assert forall i | 1 <= i < |epoch| :: epoch[i] == epoch[1..][i - 1];
      assert forall i | 0 <= i < |epoch| - 1 :: epoch[1..][i] == epoch[i + 1];
    }
  }

  class Negotiator {
    var range: Range
    var maxSent: bool
    var negotiated: Ver
    ghost var ops: seq<Op>                   // all that was done to it

    /** Whatever happened before, only the current epoch counts: the value comes from the first maximum learned in it
        and no later one; and whether the maximum is still to be handed out depends on it alone. */
    ghost predicate Valid()
      reads this
    {
      && range.Valid() && (maxSent <==> HandedOut(Epoch(ops)))
      && var learned := FirstLearned(Epoch(ops));
         |learned| <= 1 && negotiated == if learned == [] then UNKNOWN else Settled(range, learned[0])
    }

    constructor (range: Range)
      requires range.Valid()
      ensures Valid() && this.range == range && ops == []
    {
      this.range, maxSent, negotiated, ops := range, false, UNKNOWN, [];
    }

    method ResetState()
      requires Valid()
      modifies this
      ensures Valid() && range == old(range) && ops == old(ops) + [Reset]
      ensures !maxSent && negotiated == UNKNOWN
    {
      EpochGrows(ops, Reset);
      ops := ops + [Reset];
      maxSent, negotiated := false, UNKNOWN;
    }

    /** `errCodeBefore` is what the caller's error code held: it stays when there is nothing to report. */
    method ComputeNegotiatedProtoVer(opposingMax: Ver, errCodeBefore: ErrorCode) returns (ok: bool, errCode: ErrorCode)
      requires Valid()
      modifies this
      ensures Valid() && range == old(range) && ops == old(ops) + [Learn(opposingMax)]
      ensures ok == (old(negotiated) == UNKNOWN) && maxSent == old(maxSent)
      ensures old(negotiated) != UNKNOWN ==> negotiated == old(negotiated) && errCode == errCodeBefore
      ensures old(negotiated) == UNKNOWN ==>
                && negotiated == Settled(range, opposingMax)
                && negotiated == (if 0 < opposingMax && range.low <= opposingMax then range.high else 0)
                && errCode == if negotiated != UNSUPPORTED then errCodeBefore else if opposingMax <= 0 then Invalid else TooOld
    {
      EpochGrows(ops, Learn(opposingMax));
      ops := ops + [Learn(opposingMax)];
      errCode := errCodeBefore;
      if negotiated != UNKNOWN {
        return false, errCode;
      }
      if opposingMax <= 0 {
        negotiated, errCode := UNSUPPORTED, Invalid;
      } else if range.high <= opposingMax {
        negotiated := range.high;
      } else if opposingMax >= range.low {
        negotiated := range.high;
      } else {
        negotiated, errCode := UNSUPPORTED, TooOld;
      }
      ok := true;
    }

    /** The maximum the first time in an epoch, and nothing to send after that. */
    method LocalMaxProtoVerForSending() returns (v: Ver)
      requires Valid()
      modifies this
      ensures Valid() && range == old(range) && negotiated == old(negotiated) && ops == old(ops) + [HandOut]
      ensures maxSent && v == if old(maxSent) then UNKNOWN else range.high
    {
      EpochGrows(ops, HandOut);
      ops := ops + [HandOut];
      if maxSent {
        return UNKNOWN;
      }
      maxSent := true;
      v := range.high;
    }

    method CopyAssign(src: Negotiator)
      requires src.Valid()
      modifies this
      ensures Valid() && range == src.range && maxSent == src.maxSent && negotiated == src.negotiated && ops == src.ops
      ensures src != this ==> unchanged(src)
    {
      range, maxSent, negotiated, ops := src.range, src.maxSent, src.negotiated, src.ops;
    }

    /** The target becomes what the source was; the source keeps its range and starts over. */
    method MoveAssign(src: Negotiator)
      requires Valid() && src.Valid()
      modifies this, src
      ensures Valid() && src.Valid()
      ensures range == old(src.range) && maxSent == old(src.maxSent) && negotiated == old(src.negotiated)
      ensures src.range == old(src.range)
      ensures src != this ==> !src.maxSent && src.negotiated == UNKNOWN
    {
      if src != this {
        CopyAssign(src);
        src.ResetState();
      }
    }

    lemma WhatIsSettled()
      requires Valid()
      ensures FirstLearned(Epoch(ops)) == [] ==> negotiated == -1
      ensures forall max | FirstLearned(Epoch(ops)) == [max] ::
                negotiated == if 0 < max && range.low <= max then range.high else 0
    {
    }

    method Do(op: Op) returns (handedOut: seq<Ver>)
      requires Valid()
      modifies this
      ensures Valid() && range == old(range) && ops == old(ops) + [op]
      ensures handedOut == if op == HandOut && !HandedOut(Epoch(old(ops))) then [range.high] else []
    {
      handedOut := [];
      match op {
        case Learn(opposingMax) =>
          var _, _ := ComputeNegotiatedProtoVer(opposingMax, Success);
        case HandOut =>
          var v := LocalMaxProtoVerForSending();
          handedOut := if v != UNKNOWN then [v] else [];
        case Reset =>
          ResetState();
      }
    }

    /** One operation, and what has been handed out with it. */
    method DoOne(op: Op, before: seq<Ver>) returns (handedOut: seq<Ver>)
      requires Valid()
      requires |before| == EpochsWithHandOut(ops) && forall v | v in before :: v == range.high
      modifies this
      ensures Valid() && range == old(range) && ops == old(ops) + [op]
      ensures |handedOut| == EpochsWithHandOut(ops) && forall v | v in handedOut :: v == range.high
    {
      EpochGrows(ops, op);
      hide EpochsWithHandOut, Epoch, FirstLearned, Negotiator.Valid;
      var more := Do(op);
      handedOut := before + more;
    }

    /** Over any run, the maximum is handed out once per epoch that asks for it, and is all that is handed out; and the
        version settled on is that of the first maximum learned since the last reset. */
    method Play(todo: seq<Op>) returns (handedOut: seq<Ver>)
      requires Valid() && ops == []
      modifies this
      ensures Valid() && range == old(range) && ops == todo
      ensures |handedOut| == |FirstRequests(todo)| && forall v | v in handedOut :: v == range.high
      ensures (forall i | 0 <= i < |todo| && todo[i].Learn? :: !Lasts(todo, i)) ==> negotiated == -1
      ensures forall i | 0 <= i < |todo| && todo[i].Learn? && LearnsFirst(todo, i) ::
                negotiated == if 0 < todo[i].opposingMax && range.low <= todo[i].opposingMax then range.high else 0
    {
      handedOut := [];
      assert |handedOut| == EpochsWithHandOut(ops);
      hide EpochsWithHandOut, Epoch, FirstLearned, FirstRequests, Lasts, LearnsFirst, Negotiator.Valid;
      for n := 0 to |todo|
        invariant Valid() && range == old(range) && ops == todo[..n]
        invariant |handedOut| == EpochsWithHandOut(ops) && forall v | v in handedOut :: v == range.high
      {
        handedOut := DoOne(todo[n], handedOut);
        assert ops == todo[..n + 1];
      }
      assert todo[..|todo|] == todo;
      EachEpochOnce(todo);
      FirstLearnedMeans(todo);
      WhatIsSettled();
    }
  }

  // Two opposed negotiators

  datatype Step = LeftSends | RightSends | LeftReads | RightReads

  /** Among the first `n` steps one is `later` with an `earlier` before it. */
  predicate HappensAfter(steps: seq<Step>, n: nat, earlier: Step, later: Step)
    requires n <= |steps|
  {
    exists i, j | 0 <= i < j < n :: steps[i] == earlier && steps[j] == later
  }

  lemma OneMoreStep(steps: seq<Step>, n: nat, earlier: Step, later: Step)
    requires n < |steps|
    ensures HappensAfter(steps, n + 1, earlier, later) <==>
              HappensAfter(steps, n, earlier, later) || (steps[n] == later && earlier in steps[..n])
    ensures forall s :: s in steps[..n + 1] <==> s in steps[..n] || s == steps[n]
  {
    assert steps[..n + 1] == steps[..n] + [steps[n]];
    if steps[n] == later && earlier in steps[..n] {
      var i :| 0 <= i < n && steps[..n][i] == earlier;
      assert steps[i] == earlier;
    }
  }

  /** Sends the maximum ahead of a message if it has not been sent. */
  method Announce(from: Negotiator, wire: seq<Ver>) returns (wire': seq<Ver>)
    requires from.Valid()
    modifies from
    ensures from.Valid() && from.range == old(from.range) && from.negotiated == old(from.negotiated) && from.maxSent
    ensures wire' == if old(from.maxSent) then wire else wire + [from.range.high]
  {
    var v := from.LocalMaxProtoVerForSending();
    wire' := if v == UNKNOWN then wire else wire + [v];
  }

  /** Reads the other side's maximum if it has arrived. */
  method Hear(to: Negotiator, wire: seq<Ver>) returns (wire': seq<Ver>)
    requires to.Valid()
    modifies to
    ensures to.Valid() && to.range == old(to.range) && to.maxSent == old(to.maxSent)
    ensures wire' == if wire == [] then [] else wire[1..]
    ensures to.negotiated == if wire == [] || old(to.negotiated) != UNKNOWN then old(to.negotiated)
                             else Settled(to.range, wire[0])
  {
    wire' := wire;
    if wire != [] {
      var _, _ := to.ComputeNegotiatedProtoVer(wire[0], Success);
      wire' := wire[1..];
    }
  }

  /** On any schedule of a session a side has settled exactly if it has read after the other side has sent, and then on
      the one value that the two ranges determine; no more than one maximum is ever under way in each direction. */
  method Session(left: Negotiator, right: Negotiator, steps: seq<Step>) returns (toRight: seq<Ver>, toLeft: seq<Ver>)
    requires left != right && left.Valid() && right.Valid()
    requires left.negotiated == UNKNOWN && right.negotiated == UNKNOWN && !left.maxSent && !right.maxSent
    modifies left, right
    ensures left.range == old(left.range) && right.range == old(right.range)
    ensures left.maxSent == (LeftSends in steps) && right.maxSent == (RightSends in steps)
    ensures left.negotiated == if HappensAfter(steps, |steps|, RightSends, LeftReads)
                               then Settled(left.range, right.range.high) else UNKNOWN
    ensures right.negotiated == if HappensAfter(steps, |steps|, LeftSends, RightReads)
                                then Settled(right.range, left.range.high) else UNKNOWN
    ensures toLeft == (if right.maxSent && left.negotiated == UNKNOWN then [right.range.high] else [])
    ensures toRight == (if left.maxSent && right.negotiated == UNKNOWN then [left.range.high] else [])
  {
    hide Settled;
    SettledIsKnown(left.range, right.range.high);
    SettledIsKnown(right.range, left.range.high);
    toRight, toLeft := [], [];
    for n := 0 to |steps|
      invariant left.Valid() && right.Valid() && left.range == old(left.range) && right.range == old(right.range)
      invariant left.maxSent == (LeftSends in steps[..n]) && right.maxSent == (RightSends in steps[..n])
      invariant left.negotiated == if HappensAfter(steps, n, RightSends, LeftReads)
                                   then Settled(left.range, right.range.high) else UNKNOWN
      invariant right.negotiated == if HappensAfter(steps, n, LeftSends, RightReads)
                                    then Settled(right.range, left.range.high) else UNKNOWN
      invariant toLeft == (if right.maxSent && left.negotiated == UNKNOWN then [right.range.high] else [])
      invariant toRight == (if left.maxSent && right.negotiated == UNKNOWN then [left.range.high] else [])
    {
      OneMoreStep(steps, n, RightSends, LeftReads);
      OneMoreStep(steps, n, LeftSends, RightReads);
      match steps[n] {
        case LeftSends =>
          toRight := Announce(left, toRight);
        case RightSends =>
          toLeft := Announce(right, toLeft);
        case LeftReads =>
          toLeft := Hear(left, toLeft);
        case RightReads =>
          toRight := Hear(right, toRight);
      }
    }
  }
}
