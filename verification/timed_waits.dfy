/**
 The arithmetic of the timed operations, the same in both message queue handles: what is left of the timeout when a
 wait has to be repeated because another process was faster.
 */
module TimedWaits {

  /** What a thread has asked of the clock and of wait_impl, latest first. */
  datatype Record = Fresh | ClockRead(before: Record, time: int) | Waited(before: Record, timeout: int)

  /** The sum of the times since `start` read after `base`. */
  function Taken(record: Record, base: Record, start: int): int {
    if record == base || record.Fresh? then 0
    else Taken(record.before, base, start) + if record.ClockRead? then record.time - start else 0
  }

  /** A timed operation begun at `base`: the clock is read at the start and once after each wait and before the next;
      each wait gets the timeout less all times read so far. */
  ghost predicate WellTimed(record: Record, base: Record, start: int, timeout: int) {
    match record
    case Fresh => false
    case ClockRead(before, time) =>
      || (before == base && time == start)
      || (before.Waited? && WellTimed(before, base, start, timeout) && time >= before.before.time)
    case Waited(before, given) =>
      before.ClockRead? && WellTimed(before, base, start, timeout) && given == timeout - Taken(before, base, start)
  }

  /** The clock has not moved at any reading since `base`. */
  ghost predicate Unmoved(record: Record, base: Record, start: int) {
    || record == base || record.Fresh?
    || ((record.ClockRead? ==> record.time == start) && Unmoved(record.before, base, start))
  }

  lemma {:induction false} TakenAtLeastLast(record: Record, base: Record, start: int, timeout: int)
    requires WellTimed(record, base, start, timeout) && record.ClockRead?
    ensures record != base && Taken(record, base, start) >= record.time - start >= 0
    ensures Taken(record, base, start) == 0 <==> Unmoved(record, base, start)
  {
    NotItsOwnBase(record, base, start, timeout);
    if !(record.before == base && record.time == start) {
      NotItsOwnBase(record.before, base, start, timeout);
      TakenAtLeastLast(record.before.before, base, start, timeout);
    }
  }

  lemma {:induction false} NotItsOwnBase(record: Record, base: Record, start: int, timeout: int)
    requires WellTimed(record, base, start, timeout)
    ensures record != base && Deeper(record, base)
  {
    if !(record.ClockRead? && record.before == base && record.time == start) {
      NotItsOwnBase(record.before, base, start, timeout);
    }
    assert Depth(record) == 1 + Depth(record.before);
  }

  function Depth(record: Record): nat {
    if record.Fresh? then 0 else 1 + Depth(record.before)
  }

  predicate Deeper(record: Record, base: Record) {
    Depth(record) > Depth(base)
  }

  /** Between two waits: the clock showed `after`, and `left` is the timeout less all earlier readings. */
  ghost predicate OnBudget(record: Record, base: Record, start: int, timeout: int, left: int, after: int) {
    && WellTimed(record, base, start, timeout) && record.ClockRead? && after == record.time
    && left - (after - start) == timeout - Taken(record, base, start)
  }

  lemma BudgetBegins(base: Record, start: int, timeout: int)
    ensures OnBudget(ClockRead(base, start), base, start, timeout, timeout, start)
  {
  }

  lemma LapEnds(before: Record, base: Record, start: int, timeout: int, left: int, after: int, later: int)
    requires OnBudget(before, base, start, timeout, left, after) && later >= after
    ensures WellTimed(Waited(before, left - (after - start)), base, start, timeout)
    ensures OnBudget(ClockRead(Waited(before, left - (after - start)), later), base, start, timeout, left - (after - start), later)
  {
    var waited := Waited(before, left - (after - start));
    NotItsOwnBase(ClockRead(waited, later), base, start, timeout);
    NotItsOwnBase(waited, base, start, timeout);
  }

  /** The timeout handed to any wait is at most what is really left at the reading before it, for any number of lost
      races; it is exactly what is left if and only if the clock had not moved at any earlier reading, since `now` is
      never advanced. */
  lemma BudgetNeverExceedsTimeLeft(record: Record, base: Record, start: int, timeout: int)
    requires WellTimed(record, base, start, timeout) && record.Waited?
    ensures record.timeout <= timeout - (record.before.time - start)
    ensures record.timeout == timeout - (record.before.time - start) <==> Unmoved(record.before.before, base, start)
  {
    var last := record.before;
    NotItsOwnBase(last, base, start, timeout);
    assert Taken(last, base, start) == Taken(last.before, base, start) + (last.time - start);
    if !(last.before == base && last.time == start) {
      NotItsOwnBase(last.before, base, start, timeout);
      TakenAtLeastLast(last.before.before, base, start, timeout);
      assert Taken(last.before, base, start) == Taken(last.before.before, base, start);
      assert Unmoved(last.before, base, start) == Unmoved(last.before.before, base, start);
    }
  }
}
