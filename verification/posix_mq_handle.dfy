/**
 `Posix_mq_handle`: opening or creating the queue while other processes create and unlink its name, the staged
 set-up of descriptors with its clean-up, swapping and moving handles, and the interrupt pipes.
 */
module PosixMqHandle {
  import opened Wrappers
  import opened TimedWaits

  type Fd = nat

  datatype ErrorCode = Success | FileExists | NoSuchFile | SystemError(errno: nat) | SInterrupted

  /** What other processes do to the queue's name. */
  datatype NameAction = CreateName | UnlinkName

  function Unlinks(actions: seq<NameAction>): nat {
    if actions == [] then 0 else Unlinks(actions[..|actions| - 1]) + if actions[|actions| - 1] == UnlinkName then 1 else 0
  }

  function TotalUnlinks(slices: seq<seq<NameAction>>): nat {
    if slices == [] then 0 else Unlinks(slices[0]) + TotalUnlinks(slices[1..])
  }

  /** Whether the name exists after `actions`. */
  function ExistsAfter(exists0: bool, actions: seq<NameAction>): bool {
    if actions == [] then exists0 else actions[|actions| - 1] == CreateName
  }

  lemma {:induction false} DisappearanceNeedsUnlink(actions: seq<NameAction>)
    requires !ExistsAfter(true, actions)
    ensures Unlinks(actions) >= 1
  {
  }

  /** How a wait is cut short or sees the world change: what happens, one event after the other, while the calling
      thread is elsewhere or asleep. */
  datatype Interlude = QueueTurns(writable: bool, readable: bool)
                     | OtherThreadInterrupts(sends: bool) | OtherThreadAllows(sends: bool)
                     | TimeUp | Signal(errno: nat)
                     | ThisThreadRuns

  /** Interludes, one after the other. */
  datatype Script = End | Then(now: Interlude, later: Script)

  function Length(script: Script): nat {
    if script.End? then 0 else 1 + Length(script.later)
  }

  /** `rest` is what is left of `script` once some of it has passed. */
  predicate IsTail(rest: Script, script: Script) {
    rest == script || (script.Then? && IsTail(rest, script.later))
  }

  predicate Contains(script: Script, x: Interlude) {
    script.Then? && (script.now == x || Contains(script.later, x))
  }

  lemma {:induction false} TailOfTail(rest: Script, middle: Script, script: Script)
    requires IsTail(rest, middle) && IsTail(middle, script)
    ensures IsTail(rest, script) && Length(rest) <= Length(middle) <= Length(script)
    ensures forall x | Contains(rest, x) :: Contains(middle, x)
    ensures forall x | Contains(middle, x) :: Contains(script, x)
  {
    TailIsShorter(rest, middle);
    TailIsShorter(middle, script);
    if middle != script {
      TailOfTail(rest, middle, script.later);
    }
  }

  lemma {:induction false} TailIsShorter(rest: Script, script: Script)
    requires IsTail(rest, script)
    ensures Length(rest) <= Length(script) && forall x | Contains(rest, x) :: Contains(script, x)
  {
    if rest != script {
      TailIsShorter(rest, script.later);
    }
  }

  /** One registration with an epoll set: the descriptor, and whether writability or readability is wanted. */
  datatype Watch = Watch(fd: Fd, writing: bool)

  /** What the coming system call ends with, and the fate of those after it; none left means no more faults. */
  function NextCode(faults: seq<Option<nat>>): ErrorCode {
    if faults != [] && faults[0].Some? then SystemError(faults[0].value) else Success
  }

  function Later(faults: seq<Option<nat>>): seq<Option<nat>> {
    if faults == [] then [] else faults[1..]
  }

  /** The descriptor table of the process and the name space of queues.  An `Fd` stands for one opening: it is never
      issued again, so that a second close of the same opening shows. */
  class Kernel {
    var open: set<Fd>
    var nextFd: nat
    var badCloses: nat                       // closes of something that is not open
    var faults: seq<Option<nat>>             // fate of the coming system calls
    var nameExists: bool
    var others: seq<seq<NameAction>>         // other processes, one slice before each mq_open
    var creations: nat                       // queues this process created, and how often it set permissions
    var permissionCalls: nat
    var permissionFailures: nat
    var peer: map<Fd, Fd>                    // the read end of each pipe, by write end
    var bytes: map<Fd, nat>                  // what each pipe holds, by read end
    var watched: map<Fd, set<Watch>>         // the registrations of each epoll set
    var writable: bool                       // whether the queue has room, and has messages
    var readable: bool
    var pushed: seq<nat>                     // what this process has sent
    var clock: int
    var ticks: seq<nat>                      // by how much the clock moves before each look at it
    var record: Record                       // the looks at the clock and the timed waits
    const favoursPipes: bool                 // what epoll_wait() reports if both are ready

    constructor (faults: seq<Option<nat>>, ticks: seq<nat>)
      ensures Valid() && open == {} && this.faults == faults && others == [] && !nameExists
      ensures permissionFailures == 0 && !writable && !readable && this.ticks == ticks && record == Fresh
      ensures !favoursPipes
    {
      clock, this.ticks, record, favoursPipes := 0, ticks, Fresh, false;
      open, nextFd, badCloses, this.faults := {}, 0, 0, faults;
      nameExists, others, creations, permissionCalls, permissionFailures := false, [], 0, 0, 0;
      peer, bytes, watched, writable, readable, pushed := map[], map[], map[], false, false, [];
    }

    ghost predicate Valid()
      reads `open, `nextFd, `bytes
    {
      && (forall fd | fd in open :: fd < nextFd)
      && (forall fd | fd in bytes :: fd < nextFd)
    }

    /** The open descriptors are the old ones plus `gained`; everything else opened in between was closed again,
        once. */
    twostate predicate Ledger(gained: set<Fd>)
      reads this
    {
      && old(nextFd) <= nextFd && badCloses == old(badCloses)
      && open == old(open) + gained && (forall fd | fd in gained :: old(nextFd) <= fd)
    }

    ghost predicate NoFaults()
      reads `faults
    {
      forall f | f in faults :: f == None
    }

    /** A system error is one of the faults that were to come; no fault is made up. */
    twostate predicate FailsOnlyByFault(errCode: ErrorCode)
      reads this
    {
      (forall f | f in faults :: f in old(faults)) && (errCode.SystemError? ==> Some(errCode.errno) in old(faults))
    }

    method NextFault() returns (errCode: ErrorCode)
      modifies `faults
      ensures errCode == NextCode(old(faults)) && faults == Later(old(faults)) && FailsOnlyByFault(errCode)
    {
      errCode := NextCode(faults);
      faults := Later(faults);
    }

    method NewFd() returns (fd: Fd)
      requires Valid()
      modifies `open, `nextFd
      ensures Valid() && Ledger({fd}) && nextFd == fd + 1
    {
      fd := nextFd;
      open, nextFd := open + {fd}, nextFd + 1;
    }

    method Close(fd: Fd)
      requires Valid()
      modifies `open, `badCloses
      ensures Valid() && open == old(open) - {fd}
      ensures badCloses == old(badCloses) + if fd in old(open) then 0 else 1
    {
      if fd !in open {
        badCloses := badCloses + 1;
      }
      open := open - {fd};
    }

    /** What the destructor, close() and assignment of a pipe end do: nothing if it is not open. */
    method CloseIfAny(fd: Option<Fd>)
      requires Valid() && AsSet(fd) <= open
      modifies `open, `badCloses
      ensures Valid() && open == old(open) - AsSet(fd) && badCloses == old(badCloses)
    {
      if fd.Some? {
        Close(fd.value);
      }
    }

    /** epoll_create1(). */
    method EpollCreate() returns (fd: Option<Fd>, errCode: ErrorCode)
      requires Valid()
      modifies `open, `nextFd, `faults, `watched
      ensures FailsOnlyByFault(errCode)
      ensures Valid() && (fd.Some? <==> errCode == Success)
      ensures errCode == NextCode(old(faults)) && faults == Later(old(faults))
      ensures Ledger(AsSet(fd))
      ensures watched == if fd.Some? then old(watched)[fd.value := {}] else old(watched)
    {
      fd := None;
      errCode := NextFault();
      if errCode == Success {
        var raw := NewFd();
        watched := watched[raw := {}];
        fd := Some(raw);
      }
    }

    /** epoll_ctl() with EPOLL_CTL_ADD. */
    method EpollAdd(epoll: Fd, watch: Watch) returns (errCode: ErrorCode)
      requires epoll in open && epoll in watched
      modifies `faults, `watched
      ensures FailsOnlyByFault(errCode)
      ensures errCode == Success || errCode.SystemError?
      ensures watched == if errCode == Success then old(watched)[epoll := old(watched)[epoll] + {watch}] else old(watched)
    {
      errCode := NextFault();
      if errCode == Success {
        watched := watched[epoll := watched[epoll] + {watch}];
      }
    }

    /** Two epoll_ctl() calls, the second only if the first succeeds. */
    method Register(epoll: Fd, first: Watch, second: Watch) returns (errCode: ErrorCode)
      requires epoll in open && epoll in watched && watched[epoll] == {}
      modifies `faults, `watched
      ensures FailsOnlyByFault(errCode)
      ensures errCode == Success || errCode.SystemError?
      ensures errCode == Success ==> watched == old(watched)[epoll := {first, second}]
      ensures forall e | e in old(watched) && e != epoll :: e in watched && watched[e] == old(watched[e])
    {
      errCode := EpollAdd(epoll, first);
      if errCode == Success {
        errCode := EpollAdd(epoll, second);
        assert errCode == Success ==> watched[epoll] == {first, second};
        assert errCode == Success ==> watched == old(watched)[epoll := {first, second}];
      }
    }

    /** connect_pipe(): both ends or neither. */
    method ConnectPipe() returns (reader: Option<Fd>, writer: Option<Fd>, errCode: ErrorCode)
      requires Valid()
      modifies `open, `nextFd, `faults, `peer, `bytes
      ensures FailsOnlyByFault(errCode)
      ensures Valid() && (reader.Some? <==> errCode == Success) && (writer.Some? <==> errCode == Success)
      ensures errCode == NextCode(old(faults)) && faults == Later(old(faults))
      ensures Ledger(AsSet(reader) + AsSet(writer)) && (reader.Some? ==> reader != writer)
      ensures if errCode == Success
              then peer == old(peer)[writer.value := reader.value] && bytes == old(bytes)[reader.value := 0]
              else peer == old(peer) && bytes == old(bytes)
    {
      reader, writer := None, None;
      errCode := NextFault();
      if errCode == Success {
        var r := NewFd();
        var w := NewFd();
        peer, bytes := peer[w := r], bytes[r := 0];
        reader, writer := Some(r), Some(w);
      }
    }

    /** mq_open(): the others act; then the call fails for a reason of its own, or by what it finds. */
    method MqOpen(create: bool) returns (fd: Option<Fd>, errCode: ErrorCode, ghost slice: seq<NameAction>)
      requires Valid()
      modifies `open, `nextFd, `faults, `nameExists, `others, `creations
      ensures FailsOnlyByFault(errCode)
      ensures Valid() && Ledger(AsSet(fd)) && (fd.Some? ==> fd.value !in bytes)
      ensures if old(others) == [] then slice == [] && others == [] else old(others) == [slice] + others
      ensures faults == Later(old(faults))
      ensures fd.Some? <==> errCode == Success
      ensures var found := ExistsAfter(old(nameExists), slice);
              && nameExists == (found || fd.Some?)
              && (fd.Some? ==> found == !create)
              && creations == old(creations) + (if fd.Some? && !found then 1 else 0)
              && errCode == (if NextCode(old(faults)) != Success then NextCode(old(faults))
                             else if found != create then Success else if create then FileExists else NoSuchFile)
    {
      fd, slice := None, [];
      if others != [] {
        slice := others[0];
        nameExists := ExistsAfter(nameExists, others[0]);
        others := others[1..];
      }
      errCode := NextFault();
      if errCode != Success {
        return;
      }
      if create == nameExists {
        errCode := if create then FileExists else NoSuchFile;
        return;
      }
      creations := creations + if nameExists then 0 else 1;
      nameExists := true;
      var raw := NewFd();
      fd := Some(raw);
    }

    /** set_resource_permissions() by descriptor. */
    method SetPermissions(fd: Fd) returns (errCode: ErrorCode)
      requires fd in open
      modifies `faults, `permissionCalls, `permissionFailures
      ensures FailsOnlyByFault(errCode)
      ensures permissionCalls == old(permissionCalls) + 1
      ensures errCode == NextCode(old(faults)) && faults == Later(old(faults))
      ensures permissionFailures == old(permissionFailures) + (if errCode == Success then 0 else 1)
    {
      permissionCalls := permissionCalls + 1;
      errCode := NextFault();
      permissionFailures := permissionFailures + if errCode == Success then 0 else 1;
    }

    /** pipe_produce(): one byte in. */
    method PipeProduce(writer: Fd)
      requires writer in open && writer in peer && peer[writer] in bytes && Valid()
      modifies `bytes
      ensures bytes == old(bytes)[peer[writer] := old(bytes)[peer[writer]] + 1]
    {
      bytes := bytes[peer[writer] := bytes[peer[writer]] + 1];
    }

    /** pipe_consume(): one byte out.  On an empty pipe the read would block. */
    method PipeConsume(reader: Fd)
      requires reader in open && reader in bytes && bytes[reader] > 0
      modifies `bytes
      ensures bytes == old(bytes)[reader := old(bytes)[reader] - 1]
    {
      bytes := bytes[reader := bytes[reader] - 1];
    }

    /** A clock that never goes backwards. */
    method FineClockNow() returns (now: int)
      modifies `clock, `ticks, `record
      ensures now == clock == old(clock) + Tick(old(ticks)) && ticks == TicksLater(old(ticks))
      ensures record == ClockRead(old(record), now)
    {
      clock, ticks := clock + Tick(ticks), TicksLater(ticks);
      record := ClockRead(record, clock);
      now := clock;
    }

    /** One of the events epoll_wait() has to choose from. */
    method Pick(ready: set<Watch>) returns (watch: Watch)
      requires ready != {}
      ensures watch in ready
      ensures forall w | w in ready && (w.fd in bytes) == favoursPipes :: (watch.fd in bytes) == favoursPipes
    {
      var preferred := set w | w in ready && (w.fd in bytes) == favoursPipes;
      assert forall w | w in ready && (w.fd in bytes) == favoursPipes :: w in preferred;
      watch :| watch in if preferred != {} then preferred else ready;
    }

    predicate IsReady(watch: Watch)
      reads `bytes, `writable, `readable
    {
      if watch.fd in bytes then !watch.writing && bytes[watch.fd] > 0 else if watch.writing then writable else readable
    }

    /** What a level-triggered epoll_wait() on `epoll` has to choose from. */
    function Ready(epoll: Fd): set<Watch>
      requires epoll in watched
      reads `bytes, `writable, `readable, `watched
    {
      set w | w in watched[epoll] && IsReady(w)
    }
  }

  function AsSet(fd: Option<Fd>): set<Fd> {
    if fd.Some? then {fd.value} else {}
  }

  /** The ways opening can fail: an existing name is an error only to a caller who insists on creating, a missing one
      only to a caller who will not create. */
  predicate CanEndWith(mode: Mode, errCode: ErrorCode) {
    match errCode
    case Success => true
    case FileExists => mode == CreateOnly
    case NoSuchFile => mode == OpenOnly
    case SystemError(_) => true
    case SInterrupted => false
  }

  predicate Apart(a: Option<Fd>, others: set<Option<Fd>>) {
    a.Some? ==> a !in others
  }

  /** What epoll_wait() comes back with; `StillAsleep` if it does not come back. */
  datatype EpollResult = Event(watch: Watch) | Nothing | Failed(errno: nat) | StillAsleep

  datatype Timeout = Forever | Nanoseconds(count: int)

  datatype Outcome = Returned(ok: bool, errCode: ErrorCode) | Asleep

  predicate Among(faults: seq<Option<nat>>, all: seq<Option<nat>>) {
    forall f | f in faults :: f in all
  }

  /** An error is the interrupt, or the number of a system call's fault, or of a signal that came. */
  predicate Explained(outcome: Outcome, faults: seq<Option<nat>>, script: Script) {
    outcome.Returned? && outcome.errCode != Success && outcome.errCode != SInterrupted ==>
      && outcome.errCode.SystemError?
      && (Some(outcome.errCode.errno) in faults || Contains(script, Signal(outcome.errCode.errno)))
  }

  const MILLION := 1_000_000

  /** round<milliseconds>() of a number of nanoseconds: to the nearest, and to the even one of two equally near. */
  function RoundToMs(ns: int): int {
    var lower := ns / MILLION;
    var rest := ns % MILLION;
    if 2 * rest < MILLION || (2 * rest == MILLION && lower % 2 == 0) then lower else lower + 1
  }

  /** The conversion of a wider integer to a 32-bit int. */
  function ToInt32(x: int): int {
    var low := x % 0x1_0000_0000;
    if low < 0x8000_0000 then low else low - 0x1_0000_0000
  }

  /** The argument of epoll_wait(); negative means to wait indefinitely. */
  function EpollTimeout(timeout: Timeout): int {
    if timeout.Forever? then -1 else ToInt32(RoundToMs(timeout.count))
  }

  lemma RoundIsNearest(ns: int, ms: int)
    ensures var d := ns - RoundToMs(ns) * MILLION;
            var e := ns - ms * MILLION;
            && (if d < 0 then -d else d) <= (if e < 0 then -e else e)
            && (d == -e && d != 0 ==> RoundToMs(ns) % 2 == 0)
  {
    var lower := ns / MILLION;
    if ms <= lower {
      assert (lower - ms) * MILLION >= 0;
    } else {
      assert (ms - (lower + 1)) * MILLION >= 0;
    }
  }

  /** Which waits have no time limit: up to some 24 days, those more than half a millisecond below zero. */
  lemma NegativeTimeoutsAreIndefinite(ns: int)
    requires -0x8000_0000 * MILLION <= ns <= 0x7FFF_FFFF * MILLION
    ensures EpollTimeout(Nanoseconds(ns)) < 0 <==> 2 * ns < -MILLION
    ensures EpollTimeout(Forever) == -1
  {
  }

  lemma SensibleTimeoutsHold(ns: int)
    ensures 0 <= ns <= 0x7FFF_FFFF * MILLION ==> EpollTimeout(Nanoseconds(ns)) >= 0
  {
  }

  /** Exactly which timeouts survive the conversion: those that round to a 32-bit number of milliseconds. */
  lemma LimitSurvives(ns: int)
    ensures EpollTimeout(Nanoseconds(ns)) == RoundToMs(ns) <==>
              -0x1_0000_0001 * MILLION <= 2 * ns < 0xFFFF_FFFF * MILLION
  {
  }

  /** Beyond, a long limit can come out as none, and another as no wait at all. */
  lemma LongTimeoutsWrap()
    ensures EpollTimeout(Nanoseconds(0x8000_0000 * MILLION)) < 0
    ensures EpollTimeout(Nanoseconds(0x1_0000_0000 * MILLION)) == 0
    ensures RoundToMs(0x8000_0000 * MILLION) > 0 && RoundToMs(0x1_0000_0000 * MILLION) > 0
  {
    LimitSurvives(0x8000_0000 * MILLION);
    LimitSurvives(0x1_0000_0000 * MILLION);
  }

  function Tick(ticks: seq<nat>): nat {
    if ticks == [] then 0 else ticks[0]
  }

  function TicksLater(ticks: seq<nat>): seq<nat> {
    if ticks == [] then [] else ticks[1..]
  }

  // ----- What waiting amounts to -----

  /** The state a wait looks at: the queue and the flags. */
  datatype World = World(writable: bool, readable: bool, interruptingSnd: bool, interruptingRcv: bool) {
    predicate Ready(sends: bool) {
      if sends then writable else readable
    }

    predicate Flag(sends: bool) {
      if sends then interruptingSnd else interruptingRcv
    }
  }

  function Played(w: World, x: Interlude): World {
    match x
    case QueueTurns(writable, readable) => w.(writable := writable, readable := readable)
    case OtherThreadInterrupts(sends) => if sends then w.(interruptingSnd := true) else w.(interruptingRcv := true)
    case OtherThreadAllows(sends) => if sends then w.(interruptingSnd := false) else w.(interruptingRcv := false)
    case _ => w
  }

  datatype Wake = SawQueue | SawInterrupt | SawNothing | SawError(errno: nat) | NeverWakes

  datatype Woken = Woken(wake: Wake, world: World, rest: Script)

  /** How a level-triggered wait of `ms` milliseconds ends, negative meaning no limit; no event left means that nothing
      happens any more but the passing of time. */
  function WakeUp(w: World, sends: bool, ms: int, script: Script, favoursPipes: bool): Woken
    decreases script
  {
    if w.Ready(sends) && !(w.Flag(sends) && favoursPipes) then Woken(SawQueue, w, script)
    else if w.Flag(sends) then Woken(SawInterrupt, w, script)
    else if ms == 0 then Woken(SawNothing, w, script)
    else
      match script
      case End => Woken(if ms > 0 then SawNothing else NeverWakes, w, End)
      case Then(now, later) =>
        if now.TimeUp? && ms > 0 then Woken(SawNothing, w, later)
        else if now.Signal? then Woken(SawError(now.errno), w, later)
        else WakeUp(Played(w, now), sends, ms, later, favoursPipes)
  }

  /** What each way of ending a wait is worth. */
  ghost predicate WakeMeans(w: World, sends: bool, ms: int, script: Script, woken: Woken) {
    && IsTail(woken.rest, script)
    && (woken.wake.SawQueue? ==> woken.world.Ready(sends))
    && (woken.wake.SawInterrupt? ==> woken.world.Flag(sends))
    && (woken.wake.SawNothing? || woken.wake.NeverWakes? ==> !woken.world.Ready(sends) && !woken.world.Flag(sends))
    && (woken.wake.SawNothing? ==> ms >= 0 && (ms > 0 ==> TimeIsUp(script, woken.rest)))
    && (woken.wake.SawNothing? && ms == 0 ==> woken.rest == script && woken.world == w)
    && (woken.wake.NeverWakes? ==> ms < 0 && woken.rest == End)
    && (woken.wake.SawError? ==> Contains(script, Signal(woken.wake.errno)))
    && (w.Ready(sends) || w.Flag(sends) ==>
          && woken.rest == script && woken.world == w
          && ((woken.wake.SawQueue? && w.Ready(sends)) || (woken.wake.SawInterrupt? && w.Flag(sends))))
    && (woken.wake.SawQueue? && !w.Ready(sends) ==> Length(woken.rest) < Length(script))
  }

  /** The event that ended a wait was the passing of its time; or there was nothing else to come. */
  predicate TimeIsUp(script: Script, rest: Script) {
    rest == End || EndsWithTimeUp(script, rest)
  }

  predicate EndsWithTimeUp(script: Script, rest: Script) {
    script.Then? && ((script.now == TimeUp && script.later == rest) || EndsWithTimeUp(script.later, rest))
  }

  lemma {:induction false} WakeMeaning(w: World, sends: bool, ms: int, script: Script, favoursPipes: bool)
    ensures WakeMeans(w, sends, ms, script, WakeUp(w, sends, ms, script, favoursPipes))
    decreases script
  {
    if script.Then? {
      WakeMeaning(Played(w, script.now), sends, ms, script.later, favoursPipes);
      TailIsShorter(WakeUp(Played(w, script.now), sends, ms, script.later, favoursPipes).rest, script.later);
    }
  }

  function Nth(script: Script, n: nat): Interlude
    requires n < Length(script)
  {
    if n == 0 then script.now else Nth(script.later, n - 1)
  }

  function WorldAfter(w: World, script: Script, n: nat): World
    requires n <= Length(script)
    decreases n
  {
    if n == 0 then w else WorldAfter(Played(w, script.now), script.later, n - 1)
  }

  /** A wait goes on as long as nothing stops it, and stops at the first thing that does: readiness, the flag, a signal,
      the passing of its time, or, for a poll, at once. */
  ghost predicate StopsAtFirstReason(w: World, sends: bool, ms: int, script: Script, favoursPipes: bool, woken: Woken) {
    && Length(woken.rest) <= Length(script)
    && var n := Length(script) - Length(woken.rest);
       && woken.world == WorldAfter(w, script, n)
       && (forall i | 0 <= i < n :: !WorldAfter(w, script, i).Ready(sends) && !WorldAfter(w, script, i).Flag(sends))
       && (forall i | 0 <= i < n - 1 :: !Nth(script, i).Signal? && !(Nth(script, i) == TimeUp && ms > 0))
       && (ms == 0 ==> n == 0)
       && if n > 0 && Nth(script, n - 1).Signal? then woken.wake == SawError(Nth(script, n - 1).errno)
          else if n > 0 && Nth(script, n - 1) == TimeUp && ms > 0 then woken.wake == SawNothing
          else if woken.world.Ready(sends) && !(woken.world.Flag(sends) && favoursPipes) then woken.wake == SawQueue
          else if woken.world.Flag(sends) then woken.wake == SawInterrupt
          else if ms == 0 then woken.wake == SawNothing
          else woken.rest == End && woken.wake == if ms > 0 then SawNothing else NeverWakes
  }

  lemma {:induction false} WakesAtFirstReason(w: World, sends: bool, ms: int, script: Script, favoursPipes: bool)
    ensures StopsAtFirstReason(w, sends, ms, script, favoursPipes, WakeUp(w, sends, ms, script, favoursPipes))
    decreases script
  {
    var woken := WakeUp(w, sends, ms, script, favoursPipes);
    if !w.Ready(sends) && !w.Flag(sends) && ms != 0 && script.Then? {
      var now, later := script.now, script.later;
      if (now == TimeUp && ms > 0) || now.Signal? {
        assert WorldAfter(w, script, 1) == WorldAfter(Played(w, now), later, 0) == w;
        assert Nth(script, 0) == now && WorldAfter(w, script, 0) == w;
      } else {
        WakesAtFirstReason(Played(w, now), sends, ms, later, favoursPipes);
        OneInterludeEarlier(w, sends, ms, script, favoursPipes, woken);
      }
    }
  }

  lemma OneInterludeEarlier(w: World, sends: bool, ms: int, script: Script, favoursPipes: bool, woken: Woken)
    requires script.Then? && !w.Ready(sends) && !w.Flag(sends) && ms != 0
    requires !script.now.Signal? && !(script.now == TimeUp && ms > 0)
    requires StopsAtFirstReason(Played(w, script.now), sends, ms, script.later, favoursPipes, woken)
    ensures StopsAtFirstReason(w, sends, ms, script, favoursPipes, woken)
  {
    var n := Length(script) - Length(woken.rest);
    forall i | 0 <= i < n
      ensures !WorldAfter(w, script, i).Ready(sends) && !WorldAfter(w, script, i).Flag(sends)
    {
      if i > 0 {
        assert WorldAfter(w, script, i) == WorldAfter(Played(w, script.now), script.later, i - 1);
      }
    }
    forall i | 0 <= i < n - 1
      ensures !Nth(script, i).Signal? && !(Nth(script, i) == TimeUp && ms > 0)
    {
      if i > 0 {
        assert Nth(script, i) == Nth(script.later, i - 1);
      }
    }
    if n > 1 {
      assert Nth(script, n - 1) == Nth(script.later, n - 2);
    }
  }

  /** The interrupt mode is sure to be reported, whichever of two ready descriptors the kernel favours, if and only if
      the queue is not ready as well. */
  lemma InterruptIsSure(w: World, sends: bool, ms: int, script: Script)
    requires w.Flag(sends)
    ensures (forall favoursPipes :: WakeUp(w, sends, ms, script, favoursPipes).wake.SawInterrupt?) <==> !w.Ready(sends)
  {
    assert WakeUp(w, sends, ms, script, false).wake.SawInterrupt? <==> !w.Ready(sends);
  }

  function OutcomeOf(wake: Wake): Outcome {
    match wake
    case SawQueue => Returned(true, Success)
    case SawInterrupt => Returned(false, SInterrupted)
    case SawNothing => Returned(false, Success)
    case SawError(errno) => Returned(false, SystemError(errno))
    case NeverWakes => Asleep
  }

  /** The others run until this thread does. */
  function RunsOn(w: World, script: Script): (result: (World, Script))
    decreases script
  {
    match script
    case End => (w, End)
    case Then(now, later) => if now == ThisThreadRuns then (w, later) else RunsOn(Played(w, now), later)
  }

  lemma {:induction false} RunsOnTail(w: World, script: Script)
    ensures var rest := RunsOn(w, script).1;
            IsTail(rest, script) && Length(rest) <= Length(script) && (script.Then? ==> Length(rest) < Length(script))
    decreases script
  {
    if script.Then? {
      RunsOnTail(Played(w, script.now), script.later);
    }
  }

  /** One attempt to send and, if it would block, one wait. */
  datatype Round = Round(again: bool, outcome: Outcome, world: World, rest: Script)

  function RoundOf(w: World, code: ErrorCode, timeout: Timeout, interludes: Script, favoursPipes: bool): Round {
    var (w', rest) := RunsOn(w, interludes);
    if code != Success || w'.writable then Round(false, Returned(code == Success, code), w', rest)
    else
      var woken := WakeUp(w', true, EpollTimeout(timeout), rest, favoursPipes);
      Round(woken.wake.SawQueue?, OutcomeOf(woken.wake), woken.world, woken.rest)
  }

  /** What a finished or hanging send says about the state it is left in, `timeout` being its last time limit. */
  predicate SendReport(w: World, outcome: Outcome, timeout: Timeout) {
    match outcome
    case Asleep => EpollTimeout(timeout) < 0 && !w.Flag(true) && !w.writable
    case Returned(ok, errCode) =>
      && (ok ==> errCode == Success)
      && (errCode == SInterrupted ==> w.Flag(true))
      && (!ok && errCode == Success ==> !w.Flag(true) && !w.writable && EpollTimeout(timeout) >= 0)
  }

  lemma RoundMeaning(w: World, faults: seq<Option<nat>>, timeout: Timeout, script: Script, favoursPipes: bool)
    ensures var round := RoundOf(w, NextCode(faults), timeout, script, favoursPipes);
            && IsTail(round.rest, script)
            && (round.again ==> Length(round.rest) < Length(script))
            && (!round.again ==> SendReport(round.world, round.outcome, timeout) && Explained(round.outcome, faults, script))
  {
    var (w', rest) := RunsOn(w, script);
    RunsOnTail(w, script);
    TailIsShorter(rest, script);
    WakeMeaning(w', true, EpollTimeout(timeout), rest, favoursPipes);
    TailOfTail(RoundOf(w, NextCode(faults), timeout, script, favoursPipes).rest, rest, script);
  }

  /** The others have run on, from `w` to `w'`, up to and including this thread's turn or to the end. */
  ghost predicate GetsToRun(w: World, script: Script, w': World, rest: Script) {
    && IsTail(rest, script) && Length(rest) <= Length(script)
    && var n := Length(script) - Length(rest);
       && w' == WorldAfter(w, script, n) && (forall i | 0 <= i < n - 1 :: Nth(script, i) != ThisThreadRuns)
       && (rest != End ==> n > 0 && Nth(script, n - 1) == ThisThreadRuns)
       && (script != End ==> n > 0)
  }

  lemma {:induction false} RunsToItsTurn(w: World, script: Script)
    ensures GetsToRun(w, script, RunsOn(w, script).0, RunsOn(w, script).1)
    decreases script
  {
    var (w', rest) := RunsOn(w, script);
    RunsOnTail(w, script);
    if script.Then? {
      var now, later := script.now, script.later;
      if now == ThisThreadRuns {
        assert Length(script) - Length(rest) == 1 && WorldAfter(w, script, 1) == WorldAfter(w, later, 0);
        assert Nth(script, 0) == now;
      } else {
        RunsToItsTurn(Played(w, now), later);
        var n := Length(script) - Length(rest);
        assert forall i | 1 <= i < n :: Nth(script, i) == Nth(later, i - 1);
        assert Nth(script, 0) == now;
      }
    }
  }

  /** An attempt that fails or succeeds ends the send, as the system call does.  One that would block is followed by a
      wait, and by another attempt if and only if the wait saw the queue; otherwise the send ends as the wait does. */
  ghost predicate RoundMeans(w: World, code: ErrorCode, ms: int, script: Script, favoursPipes: bool, round: Round) {
    exists w', rest, woken: Woken ::
      && GetsToRun(w, script, w', rest) && StopsAtFirstReason(w', true, ms, rest, favoursPipes, woken)
      && if code != Success then round == Round(false, Returned(false, code), w', rest)
         else if w'.writable then round == Round(false, Returned(true, Success), w', rest)
         else
           && round.world == woken.world && round.rest == woken.rest && (round.again <==> woken.wake.SawQueue?)
           && match woken.wake
              case SawQueue => true
              case SawInterrupt => round.outcome == Returned(false, SInterrupted)
              case SawNothing => round.outcome == Returned(false, Success)
              case SawError(errno) => round.outcome == Returned(false, SystemError(errno))
              case NeverWakes => round.outcome == Asleep
  }

  lemma RoundInPlainTerms(w: World, code: ErrorCode, timeout: Timeout, script: Script, favoursPipes: bool)
    ensures RoundMeans(w, code, EpollTimeout(timeout), script, favoursPipes, RoundOf(w, code, timeout, script, favoursPipes))
  {
    hide GetsToRun, StopsAtFirstReason, WakeUp;
    RunsToItsTurn(w, script);
    var (w', rest) := RunsOn(w, script);
    WakesAtFirstReason(w', true, EpollTimeout(timeout), rest, favoursPipes);
  }

  /** How a send without a time limit ends, from what the others do alone. */
  function SendEndsForever(w: World, faults: seq<Option<nat>>, interludes: Script, favoursPipes: bool): Outcome
    decreases Length(interludes)
  {
    var round := RoundOf(w, NextCode(faults), Forever, interludes, favoursPipes);
    RoundMeaning(w, faults, Forever, interludes, favoursPipes);
    if !round.again then round.outcome else SendEndsForever(round.world, Later(faults), round.rest, favoursPipes)
  }

  /** How a timed send ends, from what the others and the clock do alone: `left` is the timeout less all readings but
      the last, which showed `elapsed`. */
  function SendEnds(w: World, faults: seq<Option<nat>>, left: int, elapsed: int, ticks: seq<nat>,
                    interludes: Script, favoursPipes: bool): Outcome
    decreases Length(interludes)
  {
    var round := RoundOf(w, NextCode(faults), Nanoseconds(left - elapsed), interludes, favoursPipes);
    RoundMeaning(w, faults, Nanoseconds(left - elapsed), interludes, favoursPipes);
    if !round.again then round.outcome
    else SendEnds(round.world, Later(faults), left - elapsed, elapsed + Tick(ticks), TicksLater(ticks), round.rest, favoursPipes)
  }

  lemma SendEndsStep(w: World, faults: seq<Option<nat>>, left: int, elapsed: int, ticks: seq<nat>,
                     script: Script, favoursPipes: bool)
    ensures var round := RoundOf(w, NextCode(faults), Nanoseconds(left - elapsed), script, favoursPipes);
            SendEnds(w, faults, left, elapsed, ticks, script, favoursPipes)
            == if !round.again then round.outcome
               else SendEnds(round.world, Later(faults), left - elapsed, elapsed + Tick(ticks), TicksLater(ticks), round.rest, favoursPipes)
  {
  }

  /** Whichever send it is, round for round. */
  lemma SendInPlainTerms(w: World, faults: seq<Option<nat>>, left: int, elapsed: int, ticks: seq<nat>,
                         script: Script, favoursPipes: bool)
    ensures exists round ::
              && RoundMeans(w, NextCode(faults), -1, script, favoursPipes, round)
              && SendEndsForever(w, faults, script, favoursPipes)
                 == if !round.again then round.outcome
                    else SendEndsForever(round.world, Later(faults), round.rest, favoursPipes)
    ensures exists round ::
              && RoundMeans(w, NextCode(faults), EpollTimeout(Nanoseconds(left - elapsed)), script, favoursPipes, round)
              && SendEnds(w, faults, left, elapsed, ticks, script, favoursPipes)
                 == if !round.again then round.outcome
                    else SendEnds(round.world, Later(faults), left - elapsed, elapsed + Tick(ticks), TicksLater(ticks),
                                  round.rest, favoursPipes)
  {
    hide RoundMeans, RoundOf;
    RoundInPlainTerms(w, NextCode(faults), Forever, script, favoursPipes);
    RoundInPlainTerms(w, NextCode(faults), Nanoseconds(left - elapsed), script, favoursPipes);
    SendEndsStep(w, faults, left, elapsed, ticks, script, favoursPipes);
  }

  /** What a timed send has to go on between two rounds. */
  datatype SendState = SendState(world: World, faults: seq<Option<nat>>, ticks: seq<nat>, record: Record,
                                 left: int, after: int, rest: Script)

  /** What does not change from round to round, `ends` being how it is bound to end. */
  datatype SendFrame = SendFrame(base: Record, start: int, timeout: int, faults: seq<Option<nat>>, script: Script,
                                 favoursPipes: bool, ends: Outcome)

  /** It is on its budget, and bound to end as the whole will. */
  ghost predicate InSend(s: SendState, f: SendFrame) {
    && OnBudget(s.record, f.base, f.start, f.timeout, s.left, s.after) && IsTail(s.rest, f.script) && Among(s.faults, f.faults)
    && SendEnds(s.world, s.faults, s.left, s.after - f.start, s.ticks, s.rest, f.favoursPipes) == f.ends
  }

  /** What a finished or hanging timed send amounts to: it kept its budget, reports the truth and ends as bound to. */
  ghost predicate SendOver(w: World, record: Record, f: SendFrame, outcome: Outcome) {
    && WellTimed(record, f.base, f.start, f.timeout) && outcome == f.ends && Explained(outcome, f.faults, f.script)
    && (outcome == Asleep || outcome == Returned(false, Success) ==>
          record.Waited? && SendReport(w, outcome, Nanoseconds(record.timeout)))
    && (outcome == Returned(false, SInterrupted) ==> w.Flag(true))
  }

  /** What is left of a timed send after a round that calls for another. */
  function NextState(s: SendState, budget: int, round: Round): SendState {
    var later := s.after + Tick(s.ticks);
    SendState(round.world, Later(s.faults), TicksLater(s.ticks), ClockRead(Waited(s.record, budget), later), budget, later, round.rest)
  }

  lemma LapMeaning(s: SendState, round: Round, f: SendFrame)
    requires InSend(s, f)
    requires round == RoundOf(s.world, NextCode(s.faults), Nanoseconds(s.left - (s.after - f.start)), s.rest, f.favoursPipes)
    ensures var budget := s.left - (s.after - f.start);
            && (round.again ==> Length(round.rest) < Length(s.rest) && InSend(NextState(s, budget, round), f))
            && (!round.again ==>
                  && SendOver(round.world, Waited(s.record, budget), f, round.outcome)
                  && (round.outcome != Asleep && round.outcome != Returned(false, Success) ==>
                        SendOver(round.world, s.record, f, round.outcome)))
  {
    hide SendEnds, RoundOf, EpollTimeout, IsTail, Contains;
    var budget := s.left - (s.after - f.start);
    RoundMeaning(s.world, s.faults, Nanoseconds(budget), s.rest, f.favoursPipes);
    SendEndsStep(s.world, s.faults, s.left, s.after - f.start, s.ticks, s.rest, f.favoursPipes);
    LapEnds(s.record, f.base, f.start, f.timeout, s.left, s.after, s.after + Tick(s.ticks));
    TailIsShorter(s.rest, f.script);
    TailOfTail(round.rest, s.rest, f.script);
  }

  /** Nobody turns the mode for sends off. */
  predicate NobodyAllows(script: Script) {
    script.End? || (script.now != OtherThreadAllows(true) && NobodyAllows(script.later))
  }

  lemma {:induction false} RunsOnInterrupted(w: World, script: Script)
    requires w.Flag(true) && NobodyAllows(script)
    ensures RunsOn(w, script).0.Flag(true)
    decreases script
  {
    if script.Then? {
      RunsOnInterrupted(Played(w, script.now), script.later);
    }
  }

  /** With the mode on, and while nobody turns it off, a send never sleeps and is never repeated.  It still succeeds if it
      finds room; it is interrupted if and only if the queue is full when it tries. */
  lemma InterruptedSend(w: World, timeout: Timeout, script: Script, favoursPipes: bool)
    requires w.Flag(true) && NobodyAllows(script)
    ensures var round := RoundOf(w, Success, timeout, script, favoursPipes);
            && !round.again
            && round.outcome == if RunsOn(w, script).0.writable then Returned(true, Success) else Returned(false, SInterrupted)
  {
    RunsOnInterrupted(w, script);
  }

  /** A timed send that has lost races is without a time limit exactly if the readings taken off have driven its budget
      more than half a millisecond below zero. */
  lemma LimitIsGone(record: Record, base: Record, start: int, timeout: int)
    requires WellTimed(record, base, start, timeout) && record.Waited?
    requires -0x8000_0000 * MILLION <= record.timeout <= 0x7FFF_FFFF * MILLION
    ensures EpollTimeout(Nanoseconds(record.timeout)) < 0 <==> 2 * (timeout - Taken(record.before, base, start)) < -MILLION
  {
    NegativeTimeoutsAreIndefinite(record.timeout);
  }

  /** The room in the queue comes and goes before this thread can use it; and once more. */
  const LOST_RACES := Then(ThisThreadRuns, LoseRace(LoseRace(End)))

  function LoseRace(later: Script): Script {
    Then(QueueTurns(true, false), Then(QueueTurns(false, false), Then(ThisThreadRuns, later)))
  }

  /** Two lost races are enough to make a timed send hang with time to spare: 10 milliseconds, looked at after 6 and
      after 7. */
  lemma LostRacesCanRemoveTheTimeout(favoursPipes: bool)
    ensures SendEnds(World(false, false, false, false), [], 10 * MILLION, 0, [6 * MILLION, MILLION], LOST_RACES, favoursPipes)
            == Asleep
  {
    var idle, open := World(false, false, false, false), World(true, false, false, false);
    var lost := Then(QueueTurns(false, false), Then(ThisThreadRuns, End));
    var lostTwice := Then(QueueTurns(false, false), Then(ThisThreadRuns, LoseRace(End)));
    assert RunsOn(open, lost) == RunsOn(idle, Then(ThisThreadRuns, End)) == (idle, End);
    assert SendEnds(open, [], 4 * MILLION, 7 * MILLION, [], lost, favoursPipes) == Asleep;
    assert RunsOn(open, lostTwice) == RunsOn(idle, Then(ThisThreadRuns, LoseRace(End))) == (idle, LoseRace(End));
    assert WakeUp(idle, true, 4, LoseRace(End), favoursPipes) == Woken(SawQueue, open, lost);
    assert SendEnds(open, [], 10 * MILLION, 6 * MILLION, [MILLION], lostTwice, favoursPipes) == Asleep;
  }

  datatype Mode = CreateOnly | OpenOrCreate | OpenOnly

  class MqHandle {
    var mq: Option<Fd>
    var epollSnd: Option<Fd>
    var epollRcv: Option<Fd>
    var interrupterSnd: Option<Fd>
    var interruptDetectorSnd: Option<Fd>
    var interrupterRcv: Option<Fd>
    var interruptDetectorRcv: Option<Fd>
    var interruptingSnd: bool
    var interruptingRcv: bool

    ghost predicate Owns(fd: Fd)
      reads `mq, `epollSnd, `epollRcv, `interrupterSnd, `interruptDetectorSnd, `interrupterRcv, `interruptDetectorRcv
    {
      || mq == Some(fd) || epollSnd == Some(fd) || epollRcv == Some(fd)
      || interrupterSnd == Some(fd) || interruptDetectorSnd == Some(fd)
      || interrupterRcv == Some(fd) || interruptDetectorRcv == Some(fd)
    }

    /** Everything the handle holds is open, and nothing is held twice. */
    ghost predicate Holds(k: Kernel)
      reads `mq, `epollSnd, `epollRcv, `interrupterSnd, `interruptDetectorSnd, `interrupterRcv, `interruptDetectorRcv
      reads k`open, k`nextFd, k`bytes
    {
      && k.Valid() && (forall fd | Owns(fd) :: fd in k.open)
      && Apart(mq, {epollSnd, epollRcv, interrupterSnd, interruptDetectorSnd, interrupterRcv, interruptDetectorRcv})
      && Apart(epollSnd, {epollRcv, interrupterSnd, interruptDetectorSnd, interrupterRcv, interruptDetectorRcv})
      && Apart(epollRcv, {interrupterSnd, interruptDetectorSnd, interrupterRcv, interruptDetectorRcv})
      && Apart(interrupterSnd, {interruptDetectorSnd, interrupterRcv, interruptDetectorRcv})
      && Apart(interruptDetectorSnd, {interrupterRcv, interruptDetectorRcv})
      && Apart(interrupterRcv, {interruptDetectorRcv})
    }

    /** No descriptor was lost, closed twice, or taken from somebody else: the process has the descriptors it had,
        apart from what this handle holds. */
    twostate predicate Balanced(k: Kernel)
      reads this, k
    {
      && Holds(k) && k.badCloses == old(k.badCloses) && old(k.nextFd) <= k.nextFd
      && forall fd: Fd :: (fd in k.open && !Owns(fd)) <==> old(fd in k.open && !Owns(fd))
    }

    predicate QueueOpen()
      reads `mq, `epollSnd, `epollRcv
    {
      mq.Some? && epollSnd.Some? && epollRcv.Some?
    }

    predicate QueueNull()
      reads `mq, `epollSnd, `epollRcv
    {
      mq.None? && epollSnd.None? && epollRcv.None?
    }

    predicate PipesNull()
      reads `interrupterSnd, `interruptDetectorSnd, `interrupterRcv, `interruptDetectorRcv
    {
      interrupterSnd.None? && interruptDetectorSnd.None? && interrupterRcv.None? && interruptDetectorRcv.None?
    }

    constructor ()
      ensures QueueNull() && PipesNull() && !interruptingSnd && !interruptingRcv
    {
      mq, epollSnd, epollRcv := None, None, None;
      interrupterSnd, interruptDetectorSnd, interrupterRcv, interruptDetectorRcv := None, None, None, None;
      interruptingSnd, interruptingRcv := false, false;
    }

    /** The pipe between `writer` and `reader` holds one byte when the flag is on and none when it is off. */
    ghost predicate Coupled(k: Kernel, writer: Option<Fd>, reader: Option<Fd>, flag: bool)
      reads k`peer, k`bytes
    {
      && writer.Some? && reader.Some? && writer.value in k.peer && k.peer[writer.value] == reader.value
      && reader.value in k.bytes && k.bytes[reader.value] == if flag then 1 else 0
    }

    ghost predicate PipesCoupled(k: Kernel)
      reads `interrupterSnd, `interruptDetectorSnd, `interrupterRcv, `interruptDetectorRcv, `interruptingSnd, `interruptingRcv, k`peer, k`bytes
    {
      && Coupled(k, interrupterSnd, interruptDetectorSnd, interruptingSnd)
      && Coupled(k, interrupterRcv, interruptDetectorRcv, interruptingRcv)
    }

    /** `epoll` watches the queue in its own direction and that direction's pipe. */
    ghost predicate Watches(k: Kernel, epoll: Option<Fd>, detector: Option<Fd>, writing: bool)
      reads `mq, k`bytes, k`watched
    {
      && mq.Some? && mq.value !in k.bytes && epoll.Some? && detector.Some? && epoll.value in k.watched
      && k.watched[epoll.value] == {Watch(mq.value, writing), Watch(detector.value, false)}
    }

    /** A handle in working order. */
    ghost predicate Wired(k: Kernel)
      reads `mq, `epollSnd, `epollRcv, `interrupterSnd, `interruptDetectorSnd, `interrupterRcv, `interruptDetectorRcv, `interruptingSnd, `interruptingRcv
      reads k`open, k`nextFd, k`bytes, k`peer, k`watched
    {
      && Holds(k) && QueueOpen() && PipesCoupled(k)
      && Watches(k, epollSnd, interruptDetectorSnd, true) && Watches(k, epollRcv, interruptDetectorRcv, false)
    }

    /** connect_pipe() on the two ends of one direction. */
    method ConnectDirection(k: Kernel, sends: bool) returns (errCode: ErrorCode)
      requires Holds(k) && (if sends then PipesNull() else QueueNull() && interrupterRcv.None? && interruptDetectorRcv.None?)
      requires !sends && interrupterSnd.Some? ==> Coupled(k, interrupterSnd, interruptDetectorSnd, false)
      modifies this`interrupterSnd, this`interruptDetectorSnd, this`interrupterRcv, this`interruptDetectorRcv
      modifies k`open, k`nextFd, k`faults, k`peer, k`bytes
      ensures k.FailsOnlyByFault(errCode)
      ensures Balanced(k) && errCode == NextCode(old(k.faults)) && k.faults == Later(old(k.faults))
      ensures sends ==> interrupterRcv.None? && interruptDetectorRcv.None?
      ensures !sends ==> interrupterSnd == old(interrupterSnd) && interruptDetectorSnd == old(interruptDetectorSnd)
      ensures sends && errCode == Success ==> Coupled(k, interrupterSnd, interruptDetectorSnd, false)
      ensures !sends && errCode == Success ==> Coupled(k, interrupterRcv, interruptDetectorRcv, false)
      ensures !sends && old(interrupterSnd.Some?) ==> Coupled(k, interrupterSnd, interruptDetectorSnd, false)
      ensures sends && errCode != Success ==> PipesNull()
      ensures !sends && errCode != Success ==> interrupterRcv.None? && interruptDetectorRcv.None?
    {
      var reader, writer;
      reader, writer, errCode := k.ConnectPipe();
      if sends {
        interruptDetectorSnd, interrupterSnd := reader, writer;
      } else {
        interruptDetectorRcv, interrupterRcv := reader, writer;
      }
    }

    method PipeSetup(k: Kernel) returns (errCode: ErrorCode)
      requires Holds(k) && QueueNull() && PipesNull() && !interruptingSnd && !interruptingRcv
      modifies `interrupterSnd, `interruptDetectorSnd, `interrupterRcv, `interruptDetectorRcv
      modifies k`open, k`nextFd, k`badCloses, k`faults, k`peer, k`bytes
      ensures k.FailsOnlyByFault(errCode)
      ensures Balanced(k) && (errCode == Success || errCode.SystemError?)
      ensures if errCode == Success then PipesCoupled(k) else PipesNull()
      ensures NextCode(old(k.faults)) == NextCode(Later(old(k.faults))) == Success ==>
                errCode == Success && k.faults == Later(Later(old(k.faults)))
    {
      errCode := ConnectDirection(k, true);
      if errCode == Success {
        errCode := ConnectDirection(k, false);
      }
      if errCode != Success {
        CloseSndPipe(k);
      }
    }

    method CloseSndPipe(k: Kernel)
      requires Holds(k)
      modifies `interrupterSnd, `interruptDetectorSnd, k`open, k`badCloses
      ensures Balanced(k) && interrupterSnd.None? && interruptDetectorSnd.None?
    {
      k.CloseIfAny(interrupterSnd);
      k.CloseIfAny(interruptDetectorSnd);
      interrupterSnd, interruptDetectorSnd := None, None;
    }

    /** One mq_open(), into `mq`. */
    method DoMqOpen(k: Kernel, create: bool) returns (errCode: ErrorCode, ghost slice: seq<NameAction>)
      requires Holds(k) && QueueNull()
      modifies `mq, k`open, k`nextFd, k`faults, k`nameExists, k`others, k`creations
      ensures k.FailsOnlyByFault(errCode)
      ensures Balanced(k) && (mq.Some? <==> errCode == Success) && (mq.Some? ==> mq.value !in k.bytes)
      ensures if old(k.others) == [] then slice == [] && k.others == [] else old(k.others) == [slice] + k.others
      ensures var found := ExistsAfter(old(k.nameExists), slice);
              && k.nameExists == (found || mq.Some?)
              && (mq.Some? ==> found == !create)
              && k.creations == old(k.creations) + (if mq.Some? && !found then 1 else 0)
              && errCode == (if NextCode(old(k.faults)) != Success then NextCode(old(k.faults))
                             else if found != create then Success else if create then FileExists else NoSuchFile)
      ensures k.faults == Later(old(k.faults))
    {
      mq, errCode, slice := k.MqOpen(create);
    }

    /** What opening a queue comes to: no descriptor and an error; or one descriptor, with the permissions set once if
        this call created the queue and never otherwise, and success unless setting them failed. */
    twostate predicate Opened(k: Kernel, errCode: ErrorCode)
      reads this, k
    {
      && Balanced(k) && epollSnd.None? && epollRcv.None? && errCode != SInterrupted
      && k.permissionCalls - old(k.permissionCalls) == k.creations - old(k.creations)
      && (k.creations == old(k.creations) || (k.creations == old(k.creations) + 1 && mq.Some?))
      && (mq.Some? ==> mq.value !in k.bytes && k.nameExists)
      && (errCode == Success ==> mq.Some?)
      && (mq.Some? && errCode != Success <==> k.permissionFailures > old(k.permissionFailures))
      && (mq.Some? && errCode != Success ==> k.creations == old(k.creations) + 1 && errCode.SystemError?)
    }

    method OpenCreateOnly(k: Kernel) returns (errCode: ErrorCode)
      requires Holds(k) && QueueNull()
      modifies `mq, k`open, k`nextFd, k`faults, k`nameExists, k`others, k`creations, k`permissionCalls, k`permissionFailures
      ensures k.FailsOnlyByFault(errCode)
      ensures Opened(k, errCode) && (mq.Some? ==> k.creations == old(k.creations) + 1) && CanEndWith(CreateOnly, errCode)
      ensures old(k.others == [] && !k.nameExists) && NextCode(old(k.faults)) == Success ==>
                mq.Some? && errCode == NextCode(Later(old(k.faults)))
      ensures old(k.others == [] && k.NoFaults()) ==>
                errCode == (if old(k.nameExists) then FileExists else Success) && k.nameExists
                && k.creations == old(k.creations) + (if old(k.nameExists) then 0 else 1)
    {
      ghost var slice;
      errCode, slice := DoMqOpen(k, true);
      if errCode == Success {
        errCode := k.SetPermissions(mq.value);
      }
    }

    /** One lap of the create-or-open loop: done, or the name vanished between its two attempts. */
    method OpenOrCreateLap(k: Kernel) returns (errCode: ErrorCode, success: bool)
      requires Holds(k) && QueueNull()
      modifies `mq, k`open, k`nextFd, k`faults, k`nameExists, k`others, k`creations, k`permissionCalls, k`permissionFailures
      ensures k.FailsOnlyByFault(errCode) && (success || errCode == Success || errCode.SystemError?)
      ensures TotalUnlinks(k.others) <= old(TotalUnlinks(k.others))
      ensures if success || errCode != Success then Opened(k, if success then Success else errCode)
              else && Balanced(k) && QueueNull() && k.creations == old(k.creations)
                   && k.permissionCalls == old(k.permissionCalls) && k.permissionFailures == old(k.permissionFailures)
                   && TotalUnlinks(k.others) < old(TotalUnlinks(k.others))
      ensures old(k.others == [] && k.NoFaults()) ==>
                success && k.nameExists && k.creations == old(k.creations) + (if old(k.nameExists) then 0 else 1)
    {
      ghost var slice;
      success := false;
      errCode, slice := DoMqOpen(k, true);
      if errCode == Success {
        errCode := k.SetPermissions(mq.value);
        success := errCode == Success;
        return;
      }
      if errCode != FileExists {
        return;
      }
      errCode, slice := DoMqOpen(k, false);
      if errCode == Success {
        success := true;
        return;
      }
      if errCode != NoSuchFile {
        return;
      }
      DisappearanceNeedsUnlink(slice);
      errCode := Success;
    }

    /** The create-or-open loop: each lap but the last is paid for by somebody else's unlink. */
    method OpenOrCreateLoop(k: Kernel) returns (errCode: ErrorCode, ghost retries: nat)
      requires Holds(k) && QueueNull()
      modifies `mq, k`open, k`nextFd, k`faults, k`nameExists, k`others, k`creations, k`permissionCalls, k`permissionFailures
      ensures k.FailsOnlyByFault(errCode)
      ensures Opened(k, errCode)
      ensures errCode == Success || errCode.SystemError?
      ensures retries + TotalUnlinks(k.others) <= old(TotalUnlinks(k.others))
      ensures old(k.others == [] && k.NoFaults()) ==>
                errCode == Success && k.nameExists && k.creations == old(k.creations) + (if old(k.nameExists) then 0 else 1)
    {
      var success;
      errCode, success := OpenOrCreateLap(k);
      retries := 0;
      while !success && errCode == Success
        invariant success || errCode == Success || errCode.SystemError?
        invariant if success || errCode != Success then Opened(k, if success then Success else errCode)
                  else && Balanced(k) && QueueNull() && k.creations == old(k.creations)
                       && k.permissionCalls == old(k.permissionCalls) && k.permissionFailures == old(k.permissionFailures)
                       && retries + 1 + TotalUnlinks(k.others) <= old(TotalUnlinks(k.others))
        invariant retries + TotalUnlinks(k.others) <= old(TotalUnlinks(k.others))
        invariant k.FailsOnlyByFault(errCode)
        invariant old(k.others == [] && k.NoFaults()) ==>
                    success && k.nameExists && k.creations == old(k.creations) + (if old(k.nameExists) then 0 else 1)
        decreases !success && errCode == Success, TotalUnlinks(k.others)
      {
        errCode, success := OpenOrCreateLap(k);
        retries := retries + 1;
      }
      if success {
        errCode := Success;
      }
    }

    method SetNonBlocking(k: Kernel) returns (errCode: ErrorCode)
      modifies k`faults
      ensures k.FailsOnlyByFault(errCode)
      ensures errCode == Success || errCode.SystemError?
    {
      errCode := k.NextFault();
    }

    method CloseMq(k: Kernel)
      requires Holds(k)
      modifies `mq, k`open, k`badCloses
      ensures Balanced(k) && mq.None?
    {
      k.CloseIfAny(mq);
      mq := None;
    }

    method CloseRcvPipe(k: Kernel)
      requires Holds(k)
      modifies `interrupterRcv, `interruptDetectorRcv, k`open, k`badCloses
      ensures Balanced(k) && interrupterRcv.None? && interruptDetectorRcv.None?
    {
      k.CloseIfAny(interruptDetectorRcv);
      k.CloseIfAny(interrupterRcv);
      interrupterRcv, interruptDetectorRcv := None, None;
    }

    method CloseEpoll(k: Kernel, sends: bool)
      requires Holds(k)
      modifies `epollSnd, `epollRcv, k`open, k`badCloses
      ensures Balanced(k) && epollSnd == (if sends then None else old(epollSnd))
      ensures epollRcv == (if sends then old(epollRcv) else None)
    {
      k.CloseIfAny(if sends then epollSnd else epollRcv);
      if sends {
        epollSnd := None;
      } else {
        epollRcv := None;
      }
    }

    twostate predicate PipesUntouched()
      reads this
    {
      && interrupterSnd == old(interrupterSnd) && interruptDetectorSnd == old(interruptDetectorSnd)
      && interrupterRcv == old(interrupterRcv) && interruptDetectorRcv == old(interruptDetectorRcv)
    }

    /** epoll_create1() for one direction. */
    method CreateEpoll(k: Kernel, sends: bool) returns (errCode: ErrorCode)
      requires Holds(k) && (if sends then epollSnd else epollRcv).None?
      modifies `epollSnd, `epollRcv, k`open, k`nextFd, k`faults, k`watched
      ensures k.FailsOnlyByFault(errCode)
      ensures Balanced(k) && errCode == NextCode(old(k.faults)) && k.faults == Later(old(k.faults))
      ensures var epoll := if sends then epollSnd else epollRcv;
              && (epoll.Some? <==> errCode == Success)
              && k.watched == if epoll.Some? then old(k.watched)[epoll.value := {}] else old(k.watched)
      ensures if sends then epollRcv == old(epollRcv) else epollSnd == old(epollSnd)
    {
      var epoll;
      epoll, errCode := k.EpollCreate();
      if sends {
        epollSnd := epoll;
      } else {
        epollRcv := epoll;
      }
    }

    method ClosePipesAndMq(k: Kernel)
      requires Holds(k)
      modifies `mq, `interrupterSnd, `interruptDetectorSnd, `interrupterRcv, `interruptDetectorRcv, k`open, k`badCloses
      ensures Balanced(k) && mq.None? && PipesNull()
    {
      CloseSndPipe(k);
      CloseRcvPipe(k);
      CloseMq(k);
    }

    /** The set-up of one direction. */
    method EpollSetupOne(k: Kernel, sends: bool) returns (errCode: ErrorCode)
      requires Holds(k) && mq.Some? && mq.value !in k.bytes && PipesCoupled(k)
      requires (if sends then epollSnd else epollRcv).None?
      modifies `mq, `epollSnd, `epollRcv, `interrupterSnd, `interruptDetectorSnd, `interrupterRcv, `interruptDetectorRcv
      modifies k`open, k`nextFd, k`badCloses, k`faults, k`watched
      ensures k.FailsOnlyByFault(errCode)
      ensures Balanced(k) && (errCode == Success || errCode.SystemError?)
      ensures if sends then epollRcv == old(epollRcv) else epollSnd == old(epollSnd)
      ensures errCode == Success ==>
                && mq == old(mq) && PipesUntouched()
                && Watches(k, if sends then epollSnd else epollRcv,
                           if sends then interruptDetectorSnd else interruptDetectorRcv, sends)
                && (forall e | e in old(k.watched) && e in old(k.open) :: e in k.watched && k.watched[e] == old(k.watched[e]))
      ensures errCode != Success ==>
                && mq.None? && (if sends then epollSnd else epollRcv).None?
                && if NextCode(old(k.faults)) != Success then PipesNull() else PipesUntouched()
    {
      errCode := CreateEpoll(k, sends);
      if errCode != Success {
        ClosePipesAndMq(k);
        return;
      }
      errCode := FillEpoll(k, sends);
    }

    /** The epoll_ctl() calls for one direction; on failure the epoll set and the queue go, the pipes stay. */
    method FillEpoll(k: Kernel, sends: bool) returns (errCode: ErrorCode)
      requires Holds(k) && mq.Some? && mq.value !in k.bytes && interruptDetectorSnd.Some? && interruptDetectorRcv.Some?
      requires var epoll := if sends then epollSnd else epollRcv;
               epoll.Some? && epoll.value in k.watched && k.watched[epoll.value] == {}
      modifies `mq, `epollSnd, `epollRcv, k`open, k`badCloses, k`faults, k`watched
      ensures k.FailsOnlyByFault(errCode)
      ensures Balanced(k) && (errCode == Success || errCode.SystemError?)
      ensures if sends then epollRcv == old(epollRcv) else epollSnd == old(epollSnd)
      ensures if errCode == Success then mq == old(mq) else mq.None? && (if sends then epollSnd else epollRcv).None?
      ensures errCode == Success ==>
                && epollSnd == old(epollSnd) && epollRcv == old(epollRcv)
                && Watches(k, if sends then epollSnd else epollRcv,
                           if sends then interruptDetectorSnd else interruptDetectorRcv, sends)
      ensures forall e | e in old(k.watched) && Some(e) != old(if sends then epollSnd else epollRcv) ::
                e in k.watched && k.watched[e] == old(k.watched[e])
    {
      errCode := k.Register((if sends then epollSnd else epollRcv).value, Watch(mq.value, sends),
                            Watch((if sends then interruptDetectorSnd else interruptDetectorRcv).value, false));
      if errCode != Success {
        CloseEpoll(k, sends);
        CloseMq(k);
      }
    }

    /** Both directions.  If anything fails, the queue and both epoll sets are given up. */
    method EpollSetup(k: Kernel) returns (errCode: ErrorCode)
      requires Holds(k) && mq.Some? && mq.value !in k.bytes && PipesCoupled(k) && epollSnd.None? && epollRcv.None?
      modifies `mq, `epollSnd, `epollRcv, `interrupterSnd, `interruptDetectorSnd, `interrupterRcv, `interruptDetectorRcv
      modifies k`open, k`nextFd, k`badCloses, k`faults, k`watched
      ensures k.FailsOnlyByFault(errCode)
      ensures Balanced(k) && (errCode == Success || errCode.SystemError?)
      ensures if errCode == Success then Wired(k) && mq == old(mq)
              else QueueNull() && (PipesNull() || PipesUntouched())
    {
      errCode := EpollSetupOne(k, true);
      if errCode == Success {
        errCode := EpollSetupOne(k, false);
        if errCode != Success {
          CloseEpoll(k, true);
        }
      }
    }

    /** How the attempt to open and set up the queue's own descriptors ends: all of them or none, except that a failure
        to set permissions leaves the queue open without its epoll sets. */
    twostate predicate SetUp(k: Kernel, mode: Mode, errCode: ErrorCode)
      reads this, k
    {
      && Balanced(k) && (errCode == Success ==> Wired(k))
      && (errCode != Success ==>
            epollSnd.None? && epollRcv.None? && (mq.Some? <==> k.permissionFailures > old(k.permissionFailures)))
      && k.permissionCalls - old(k.permissionCalls) == k.creations - old(k.creations)
      && CanEndWith(mode, errCode) && k.FailsOnlyByFault(errCode)
    }

    /** What each mode does to the name.  Without system faults and other processes there is one way it can end. */
    twostate predicate AsAsked(k: Kernel, mode: Mode, errCode: ErrorCode)
      reads this, k
    {
      && (mode == OpenOnly ==> k.creations == old(k.creations))
      && (mode == CreateOnly && mq.Some? ==> k.creations == old(k.creations) + 1)
      && (old(k.others == [] && k.NoFaults()) ==>
            && errCode == (match mode
                           case CreateOnly => if old(k.nameExists) then FileExists else Success
                           case OpenOrCreate => Success
                           case OpenOnly => if old(k.nameExists) then Success else NoSuchFile)
            && k.nameExists == (old(k.nameExists) || mode != OpenOnly)
            && k.creations == old(k.creations) + (if mode != OpenOnly && !old(k.nameExists) then 1 else 0))
    }

    /** The queue will be created, but setting its permissions will fail. */
    predicate PermissionsWillFail(k: Kernel, mode: Mode, faults: seq<Option<nat>>)
      reads k`others, k`nameExists
    {
      && mode == CreateOnly && k.others == [] && !k.nameExists
      && NextCode(faults) == Success && NextCode(Later(faults)) != Success
    }

    /** The constructors. */
    method Construct(k: Kernel, mode: Mode) returns (errCode: ErrorCode)
      requires Holds(k) && QueueNull() && PipesNull() && !interruptingSnd && !interruptingRcv
      modifies `mq, `epollSnd, `epollRcv, `interrupterSnd, `interruptDetectorSnd, `interrupterRcv, `interruptDetectorRcv
      modifies k`open, k`nextFd, k`badCloses, k`faults, k`peer, k`bytes, k`watched,
               k`nameExists, k`others, k`creations, k`permissionCalls, k`permissionFailures
      ensures SetUp(k, mode, errCode)
      ensures NextCode(old(k.faults)) == NextCode(Later(old(k.faults))) == Success
                && old(PermissionsWillFail(k, mode, Later(Later(k.faults)))) ==>
                mq.Some? && errCode == NextCode(Later(Later(Later(old(k.faults)))))
      ensures AsAsked(k, mode, errCode)
    {
      hide Wired, Later, PermissionsWillFail;
      errCode := PipeSetup(k);
      if errCode == Success {
        errCode := QueueSetup(k, mode);
      }
    }

    method QueueSetup(k: Kernel, mode: Mode) returns (errCode: ErrorCode)
      requires Holds(k) && QueueNull() && PipesCoupled(k)
      modifies `mq, `epollSnd, `epollRcv, `interrupterSnd, `interruptDetectorSnd, `interrupterRcv, `interruptDetectorRcv
      modifies k`open, k`nextFd, k`badCloses, k`faults, k`peer, k`bytes, k`watched,
               k`nameExists, k`others, k`creations, k`permissionCalls, k`permissionFailures
      ensures SetUp(k, mode, errCode)
      ensures old(PermissionsWillFail(k, mode, k.faults)) ==> mq.Some? && errCode == NextCode(Later(old(k.faults)))
      ensures AsAsked(k, mode, errCode)
    {
      errCode := OpenQueue(k, mode);
      if errCode == Success {
        errCode := Configure(k);
      }
    }

    /** What remains once the queue is open. */
    method Configure(k: Kernel) returns (errCode: ErrorCode)
      requires Holds(k) && mq.Some? && mq.value !in k.bytes && PipesCoupled(k) && epollSnd.None? && epollRcv.None?
      modifies `mq, `epollSnd, `epollRcv, `interrupterSnd, `interruptDetectorSnd, `interrupterRcv, `interruptDetectorRcv
      modifies k`open, k`nextFd, k`badCloses, k`faults, k`watched
      ensures k.FailsOnlyByFault(errCode)
      ensures Balanced(k) && (errCode == Success || errCode.SystemError?)
      ensures if errCode == Success then Wired(k) else QueueNull()
    {
      errCode := SetNonBlocking(k);
      if errCode == Success {
        errCode := EpollSetup(k);
      } else {
        CloseMq(k);
      }
    }

    method OpenQueue(k: Kernel, mode: Mode) returns (errCode: ErrorCode)
      requires Holds(k) && QueueNull()
      modifies `mq, k`open, k`nextFd, k`faults, k`nameExists, k`others, k`creations, k`permissionCalls, k`permissionFailures
      ensures k.FailsOnlyByFault(errCode)
      ensures Opened(k, errCode) && CanEndWith(mode, errCode)
      ensures mode == CreateOnly && old(k.others == [] && !k.nameExists) && NextCode(old(k.faults)) == Success ==>
                mq.Some? && errCode == NextCode(Later(old(k.faults)))
      ensures AsAsked(k, mode, errCode)
    {
      match mode {
        case CreateOnly =>
          errCode := OpenCreateOnly(k);
        case OpenOrCreate =>
          ghost var retries;
          errCode, retries := OpenOrCreateLoop(k);
        case OpenOnly =>
          ghost var slice;
          errCode, slice := DoMqOpen(k, false);
      }
    }

    /** The destructor, with its members' own.  `asserted` is whether its assertions hold: all of the queue's descriptors
        or none. */
    method Destroy(k: Kernel) returns (asserted: bool)
      requires Holds(k)
      modifies this, k`open, k`badCloses
      ensures asserted <==> old(QueueOpen() || QueueNull())
      ensures Balanced(k) && (asserted ==> QueueNull() && PipesNull())
    {
      asserted := if mq.None? then epollSnd.None? && epollRcv.None? else epollSnd.Some? && epollRcv.Some?;
      if asserted {
        CloseEpoll(k, true);
        CloseEpoll(k, false);
        ClosePipesAndMq(k);
      }
    }

    /** What an exception out of a constructor destroys: the pipe ends, which close themselves, and nothing else. */
    method Unwind(k: Kernel)
      requires Holds(k)
      modifies `interrupterSnd, `interruptDetectorSnd, `interrupterRcv, `interruptDetectorRcv, k`open, k`badCloses
      ensures Balanced(k) && PipesNull()
    {
      CloseSndPipe(k);
      CloseRcvPipe(k);
    }

    /** Construction by a caller who gave no place for the error.  The descriptors open after a throw are those open
        before, plus the queue's own, which nobody holds any more, if setting permissions failed. */
    method ConstructOrThrow(k: Kernel, mode: Mode) returns (errCode: ErrorCode)
      requires Holds(k) && QueueNull() && PipesNull() && !interruptingSnd && !interruptingRcv
      modifies `mq, `epollSnd, `epollRcv, `interrupterSnd, `interruptDetectorSnd, `interrupterRcv, `interruptDetectorRcv
      modifies k`open, k`nextFd, k`badCloses, k`faults, k`peer, k`bytes, k`watched,
               k`nameExists, k`others, k`creations, k`permissionCalls, k`permissionFailures
      ensures Balanced(k) && (errCode == Success ==> Wired(k))
      ensures errCode != Success ==> forall fd :: fd in k.open <==> fd in old(k.open) || mq == Some(fd)
      ensures errCode != Success ==> (mq.Some? <==> k.permissionFailures > old(k.permissionFailures))
      ensures NextCode(old(k.faults)) == NextCode(Later(old(k.faults))) == Success
                && old(PermissionsWillFail(k, mode, Later(Later(k.faults)))) ==>
                mq.Some? && errCode == NextCode(Later(Later(Later(old(k.faults)))))
      ensures AsAsked(k, mode, errCode)
    {
      errCode := Construct(k, mode);
      if errCode != Success {
        Unwind(k);
      }
    }

    /** All of this handle's state is what `other`'s was. */
    twostate predicate TookOver(other: MqHandle)
      reads this, other
    {
      && mq == old(other.mq) && epollSnd == old(other.epollSnd) && epollRcv == old(other.epollRcv)
      && interrupterSnd == old(other.interrupterSnd) && interruptDetectorSnd == old(other.interruptDetectorSnd)
      && interrupterRcv == old(other.interrupterRcv) && interruptDetectorRcv == old(other.interruptDetectorRcv)
      && interruptingSnd == old(other.interruptingSnd) && interruptingRcv == old(other.interruptingRcv)
    }

    /** release() on every open pipe end. */
    method Unload() returns (fds: seq<Option<Fd>>)
      modifies `interrupterSnd, `interruptDetectorSnd, `interrupterRcv, `interruptDetectorRcv
      ensures fds == old([interrupterSnd, interrupterRcv, interruptDetectorSnd, interruptDetectorRcv])
      ensures PipesNull()
    {
      fds := [interrupterSnd, interrupterRcv, interruptDetectorSnd, interruptDetectorRcv];
      interrupterSnd, interrupterRcv, interruptDetectorSnd, interruptDetectorRcv := None, None, None, None;
    }

    /** Assigns new pipe ends around `fds`.  Assigning would close what is there, so nothing may be. */
    method Reload(fds: seq<Option<Fd>>)
      requires PipesNull() && |fds| == 4
      modifies `interrupterSnd, `interruptDetectorSnd, `interrupterRcv, `interruptDetectorRcv
      ensures [interrupterSnd, interrupterRcv, interruptDetectorSnd, interruptDetectorRcv] == fds
    {
      interrupterSnd, interrupterRcv, interruptDetectorSnd, interruptDetectorRcv := fds[0], fds[1], fds[2], fds[3];
    }

    /** swap(): each handle gets all the other had.  The kernel is not involved: no descriptor is opened or closed. */
    method Swap(other: MqHandle)
      modifies this, other
      ensures TookOver(other) && other.TookOver(this)
    {
      mq, other.mq := other.mq, mq;
      epollSnd, other.epollSnd := other.epollSnd, epollSnd;
      epollRcv, other.epollRcv := other.epollRcv, epollRcv;
      interruptingSnd, other.interruptingSnd := other.interruptingSnd, interruptingSnd;
      interruptingRcv, other.interruptingRcv := other.interruptingRcv, interruptingRcv;
      var fds1 := Unload();
      var fds2 := other.Unload();
      Reload(fds2);
      other.Reload(fds1);
    }

    ghost predicate OwnsOfQueue(fd: Fd)
      reads this
    {
      mq == Some(fd) || epollSnd == Some(fd) || epollRcv == Some(fd)
    }

    /** Move assignment.  The target's pipes are closed; its queue and epoll descriptors are forgotten, not closed: they
        stay open and neither handle has them. */
    method MoveAssign(k: Kernel, src: MqHandle)
      requires Holds(k) && src.Holds(k) && (src != this ==> forall fd | Owns(fd) :: !src.Owns(fd))
      modifies this, src, k`open, k`badCloses
      ensures TookOver(src) && Holds(k) && src.Holds(k) && k.badCloses == old(k.badCloses)
      ensures src == this ==> k.open == old(k.open)
      ensures src != this ==> src.QueueNull() && src.PipesNull()
      ensures src != this ==> src.interruptingSnd == old(interruptingSnd) && src.interruptingRcv == old(interruptingRcv)
      ensures src != this ==>
                forall fd :: (fd in k.open && !Owns(fd) && !src.Owns(fd)) <==>
                             old(fd in k.open && !src.Owns(fd) && (!Owns(fd) || OwnsOfQueue(fd)))
    {
      if src != this {
        mq, epollSnd, epollRcv := None, None, None;
        Unwind(k);
        assert src.Holds(k) && QueueNull() && PipesNull();
        Swap(src);
        assert forall fd | Owns(fd) :: old(src.Owns(fd));
      }
    }

    predicate Flag(sends: bool)
      reads `interruptingSnd, `interruptingRcv
    {
      if sends then interruptingSnd else interruptingRcv
    }

    predicate QueueReady(k: Kernel, sends: bool)
      reads k`writable, k`readable
    {
      if sends then k.writable else k.readable
    }

    /** Only the flag of direction `sends` may have changed, and it is `on`. */
    twostate predicate OnlyFlag(sends: bool, on: bool)
      reads this
    {
      && mq == old(mq) && epollSnd == old(epollSnd) && epollRcv == old(epollRcv) && PipesUntouched()
      && Flag(sends) == on && Flag(!sends) == old(Flag(!sends))
    }

    /** interrupt_sends() and interrupt_receives(). */
    method Interrupt(k: Kernel, sends: bool) returns (ok: bool)
      requires Wired(k)
      modifies `interruptingSnd, `interruptingRcv, k`bytes
      ensures Wired(k) && OnlyFlag(sends, true)
      ensures ok == !old(Flag(sends)) && (!ok ==> k.bytes == old(k.bytes))
    {
      if Flag(sends) {
        return false;
      }
      if sends {
        interruptingSnd := true;
      } else {
        interruptingRcv := true;
      }
      k.PipeProduce((if sends then interrupterSnd else interrupterRcv).value);
      ok := true;
    }

    /** allow_sends() and allow_receives(). */
    method Allow(k: Kernel, sends: bool) returns (ok: bool)
      requires Wired(k)
      modifies `interruptingSnd, `interruptingRcv, k`bytes
      ensures Wired(k) && OnlyFlag(sends, false)
      ensures ok == old(Flag(sends)) && (!ok ==> k.bytes == old(k.bytes))
    {
      if !Flag(sends) {
        return false;
      }
      if sends {
        interruptingSnd := false;
      } else {
        interruptingRcv := false;
      }
      k.PipeConsume((if sends then interruptDetectorSnd else interruptDetectorRcv).value);
      ok := true;
    }

    /** The state a wait looks at. */
    ghost function Seen(k: Kernel): World
      reads `interruptingSnd, `interruptingRcv, k`writable, k`readable
    {
      World(k.writable, k.readable, interruptingSnd, interruptingRcv)
    }

    method Play(k: Kernel, interlude: Interlude)
      requires Wired(k)
      modifies `interruptingSnd, `interruptingRcv, k`bytes, k`writable, k`readable
      ensures Wired(k) && Seen(k) == Played(old(Seen(k)), interlude)
    {
      match interlude {
        case QueueTurns(writable, readable) =>
          k.writable, k.readable := writable, readable;
        case OtherThreadInterrupts(sends) =>
          var _ := Interrupt(k, sends);
        case OtherThreadAllows(sends) =>
          var _ := Allow(k, sends);
        case _ =>
      }
    }

    ghost function EpollFor(k: Kernel, sends: bool): Fd
      requires Wired(k)
      reads `mq, `epollSnd, `epollRcv, `interrupterSnd, `interruptDetectorSnd, `interrupterRcv, `interruptDetectorRcv, `interruptingSnd, `interruptingRcv
      reads k`open, k`nextFd, k`bytes, k`peer, k`watched
    {
      (if sends then epollSnd else epollRcv).value
    }

    ghost function DetectorFor(k: Kernel, sends: bool): Fd
      requires Wired(k)
      reads `mq, `epollSnd, `epollRcv, `interrupterSnd, `interruptDetectorSnd, `interrupterRcv, `interruptDetectorRcv, `interruptingSnd, `interruptingRcv
      reads k`open, k`nextFd, k`bytes, k`peer, k`watched
    {
      (if sends then interruptDetectorSnd else interruptDetectorRcv).value
    }

    /** What epoll_wait() may report for a direction: the queue if it is ready, the pipe if the flag is on; with both,
        either, since it is asked for one event at most. */
    lemma ReadyMeans(k: Kernel, sends: bool)
      requires Wired(k)
      ensures k.Ready(EpollFor(k, sends))
              == (if QueueReady(k, sends) then {Watch(mq.value, sends)} else {})
                 + (if Flag(sends) then {Watch(DetectorFor(k, sends), false)} else {})
      ensures mq.value !in k.bytes && DetectorFor(k, sends) in k.bytes
    {
    }

    /** Whether `result` is how `wake` comes back from epoll_wait(). */
    ghost predicate Matches(k: Kernel, sends: bool, result: EpollResult, wake: Wake)
      requires Wired(k)
      reads `mq, `epollSnd, `epollRcv, `interrupterSnd, `interruptDetectorSnd, `interrupterRcv, `interruptDetectorRcv, `interruptingSnd, `interruptingRcv
      reads k`open, k`nextFd, k`bytes, k`peer, k`watched
    {
      match wake
      case SawQueue => result == Event(Watch(mq.value, sends))
      case SawInterrupt => result == Event(Watch(DetectorFor(k, sends), false))
      case SawNothing => result == Nothing
      case SawError(errno) => result == Failed(errno)
      case NeverWakes => result == StillAsleep
    }

    /** What an epoll_wait() finds ready, if anything. */
    method Look(k: Kernel, sends: bool) returns (event: Option<Watch>)
      requires Wired(k)
      ensures event.None? <==> !Seen(k).Ready(sends) && !Seen(k).Flag(sends)
      ensures event.Some? ==>
                event.value == if Seen(k).Ready(sends) && !(Seen(k).Flag(sends) && k.favoursPipes)
                               then Watch(mq.value, sends) else Watch(DetectorFor(k, sends), false)
    {
      ReadyMeans(k, sends);
      event := None;
      var ready := k.Ready((if sends then epollSnd else epollRcv).value);
      if ready != {} {
        var watch := k.Pick(ready);
        event := Some(watch);
      }
    }

    method EpollWait(k: Kernel, sends: bool, ms: int, interludes: Script)
      returns (result: EpollResult, rest: Script)
      requires Wired(k)
      modifies `interruptingSnd, `interruptingRcv, k`bytes, k`writable, k`readable
      ensures Wired(k)
      ensures var woken := WakeUp(old(Seen(k)), sends, ms, interludes, k.favoursPipes);
              Seen(k) == woken.world && rest == woken.rest && Matches(k, sends, result, woken.wake)
    {
      rest := interludes;
      while true
        invariant Wired(k)
        invariant WakeUp(Seen(k), sends, ms, rest, k.favoursPipes)
               == WakeUp(old(Seen(k)), sends, ms, interludes, k.favoursPipes)
        decreases rest
      {
        var event := Look(k, sends);
        if event.Some? {
          return Event(event.value), rest;
        }
        if ms == 0 {
          return Nothing, rest;
        }
        if rest == End {
          return if ms > 0 then Nothing else StillAsleep, rest;
        }
        var next := rest.now;
        rest := rest.later;
        if next.TimeUp? && ms > 0 {
          return Nothing, rest;
        }
        if next.Signal? {
          return Failed(next.errno), rest;
        }
        Play(k, next);
      }
    }

    /** wait_impl().  A reported interrupt means the flag is on, success that the queue is ready, failure without error
        that neither held when time was up.  With the flag on, or the queue ready, it returns without waiting. */
    method WaitImpl(k: Kernel, timeout: Timeout, sends: bool, interludes: Script)
      returns (outcome: Outcome, rest: Script)
      requires Wired(k)
      modifies `interruptingSnd, `interruptingRcv, k`bytes, k`writable, k`readable, k`record
      ensures Wired(k)
      ensures k.record == if timeout.Forever? then old(k.record) else Waited(old(k.record), timeout.count)
      ensures var woken := WakeUp(old(Seen(k)), sends, EpollTimeout(timeout), interludes, k.favoursPipes);
              && Seen(k) == woken.world && rest == woken.rest && outcome == OutcomeOf(woken.wake)
              && WakeMeans(old(Seen(k)), sends, EpollTimeout(timeout), interludes, woken)
              && StopsAtFirstReason(old(Seen(k)), sends, EpollTimeout(timeout), interludes, k.favoursPipes, woken)
    {
      if timeout.Nanoseconds? {
        k.record := Waited(k.record, timeout.count);
      }
      outcome, rest := WaitFor(k, EpollTimeout(timeout), sends, interludes);
      WakeMeaning(old(Seen(k)), sends, EpollTimeout(timeout), interludes, k.favoursPipes);
      WakesAtFirstReason(old(Seen(k)), sends, EpollTimeout(timeout), interludes, k.favoursPipes);
    }

    /** epoll_wait() and what is made of its result. */
    method WaitFor(k: Kernel, ms: int, sends: bool, interludes: Script)
      returns (outcome: Outcome, rest: Script)
      requires Wired(k)
      modifies `interruptingSnd, `interruptingRcv, k`bytes, k`writable, k`readable
      ensures Wired(k)
      ensures var woken := WakeUp(old(Seen(k)), sends, ms, interludes, k.favoursPipes);
              Seen(k) == woken.world && rest == woken.rest && outcome == OutcomeOf(woken.wake)
    {
      var result;
      result, rest := EpollWait(k, sends, ms, interludes);
      ReadyMeans(k, sends);
      match result {
        case StillAsleep =>
          outcome := Asleep;
        case Failed(errno) =>
          outcome := Returned(false, SystemError(errno));
        case Nothing =>
          outcome := Returned(false, Success);
        case Event(watch) =>
          if watch.fd != mq.value {
            outcome := Returned(false, SInterrupted);
          } else {
            outcome := Returned(true, Success);
          }
      }
    }

    /** A non-blocking mq_send(): one copy, or would-block, or an error. */
    method MqSend(k: Kernel, blob: nat) returns (ok: bool, errCode: ErrorCode)
      requires mq.Some?
      modifies k`pushed, k`faults
      ensures k.FailsOnlyByFault(errCode) && errCode == NextCode(old(k.faults)) && k.faults == Later(old(k.faults))
      ensures k.pushed == old(k.pushed) + (if ok then [blob] else [])
      ensures ok <==> errCode == Success && k.writable
    {
      ok := false;
      errCode := k.NextFault();
      if errCode == Success && k.writable {
        k.pushed := k.pushed + [blob];
        ok := true;
      }
    }

    /** Lets the others run until this thread does. */
    method LetOthersRun(k: Kernel, interludes: Script) returns (rest: Script)
      requires Wired(k)
      modifies `interruptingSnd, `interruptingRcv, k`bytes, k`writable, k`readable
      ensures Wired(k) && (Seen(k), rest) == RunsOn(old(Seen(k)), interludes)
    {
      rest := interludes;
      while rest != End
        invariant Wired(k) && RunsOn(Seen(k), rest) == RunsOn(old(Seen(k)), interludes)
        decreases rest
      {
        var next := rest.now;
        rest := rest.later;
        if next == ThisThreadRuns {
          return;
        }
        Play(k, next);
      }
    }

    /** One attempt and, if it would block, one wait.  `again`: the queue was then seen to have room. */
    method SendRound(k: Kernel, blob: nat, timeout: Timeout, interludes: Script)
      returns (again: bool, outcome: Outcome, rest: Script)
      requires Wired(k)
      modifies `interruptingSnd, `interruptingRcv, k`bytes, k`writable, k`readable, k`pushed, k`faults, k`record
      ensures Wired(k) && k.faults == Later(old(k.faults))
      ensures Round(again, outcome, Seen(k), rest)
              == RoundOf(old(Seen(k)), NextCode(old(k.faults)), timeout, interludes, k.favoursPipes)
      ensures k.pushed == old(k.pushed) + (if !again && outcome.Returned? && outcome.ok then [blob] else [])
      ensures k.record == old(k.record)
              || (timeout.Nanoseconds? && k.record == Waited(old(k.record), timeout.count))
      ensures timeout.Nanoseconds? && (again || outcome == Asleep || outcome == Returned(false, Success)) ==>
                k.record == Waited(old(k.record), timeout.count)
    {
      rest := LetOthersRun(k, interludes);
      var ok, errCode := MqSend(k, blob);
      again, outcome := false, Returned(ok, errCode);
      if !ok && errCode == Success {
        outcome, rest := WaitImpl(k, timeout, true, rest);
        again := outcome.Returned? && outcome.ok;
      }
    }

    /** send().  It comes back only with one copy sent, interrupted, or with an error; and while it does not come back
        the queue is full and the flag off. */
    method Send(k: Kernel, blob: nat, interludes: Script) returns (outcome: Outcome)
      requires Wired(k)
      modifies `interruptingSnd, `interruptingRcv, k`bytes, k`writable, k`readable, k`pushed, k`faults, k`record
      ensures Wired(k) && k.pushed == old(k.pushed) + (if outcome.Returned? && outcome.ok then [blob] else [])
      ensures SendReport(Seen(k), outcome, Forever) && (outcome.Returned? ==> (outcome.ok <==> outcome.errCode == Success))
      ensures Explained(outcome, old(k.faults), interludes)
      ensures outcome == SendEndsForever(old(Seen(k)), old(k.faults), interludes, k.favoursPipes)
    {
      hide RoundOf;
      var again, rest := true, interludes;
      while true
        invariant Wired(k) && k.pushed == old(k.pushed)
        invariant IsTail(rest, interludes) && Among(k.faults, old(k.faults))
        invariant SendEndsForever(Seen(k), k.faults, rest, k.favoursPipes)
               == SendEndsForever(old(Seen(k)), old(k.faults), interludes, k.favoursPipes)
        decreases Length(rest)
      {
        ghost var before := rest;
        RoundMeaning(Seen(k), k.faults, Forever, rest, k.favoursPipes);
        TailIsShorter(rest, interludes);
        again, outcome, rest := SendRound(k, blob, Forever, rest);
        TailOfTail(rest, before, interludes);
        if !again {
          return;
        }
      }
    }

    /** One round of timed_send() and, if it is to be tried again, a look at the clock. */
    method SendLap(k: Kernel, blob: nat, budget: int, interludes: Script)
      returns (again: bool, outcome: Outcome, after: int, rest: Script)
      requires Wired(k)
      modifies `interruptingSnd, `interruptingRcv, k`bytes, k`writable, k`readable, k`pushed, k`faults
      modifies k`clock, k`ticks, k`record
      ensures Wired(k) && k.faults == Later(old(k.faults))
      ensures Round(again, outcome, Seen(k), rest)
              == RoundOf(old(Seen(k)), NextCode(old(k.faults)), Nanoseconds(budget), interludes, k.favoursPipes)
      ensures k.pushed == old(k.pushed) + (if !again && outcome.Returned? && outcome.ok then [blob] else [])
      ensures if again then
                && after == k.clock == old(k.clock) + Tick(old(k.ticks)) && k.ticks == TicksLater(old(k.ticks))
                && k.record == ClockRead(Waited(old(k.record), budget), after)
              else
                || k.record == Waited(old(k.record), budget)
                || (k.record == old(k.record) && outcome != Asleep && outcome != Returned(false, Success))
    {
      after := k.clock;
      again, outcome, rest := SendRound(k, blob, Nanoseconds(budget), interludes);
      if again {
        after := k.FineClockNow();
      }
    }

    /** A round in the light of the whole. */
    method SendTurn(k: Kernel, blob: nat, left: int, after: int, interludes: Script, start: int, ghost f: SendFrame)
      returns (again: bool, outcome: Outcome, left': int, after': int, rest: Script)
      requires Wired(k) && InSend(StateOf(k, left, after, interludes), f) && start == f.start && f.favoursPipes == k.favoursPipes
      requires after == k.clock
      modifies `interruptingSnd, `interruptingRcv, k`bytes, k`writable, k`readable, k`pushed, k`faults
      modifies k`clock, k`ticks, k`record
      ensures Wired(k)
      ensures k.pushed == old(k.pushed) + (if !again && outcome.Returned? && outcome.ok then [blob] else [])
      ensures again ==> InSend(StateOf(k, left', after', rest), f) && Length(rest) < Length(interludes) && after' == k.clock
      ensures !again ==> SendOver(Seen(k), k.record, f, outcome)
    {
      hide SendOver, SendEnds, RoundOf, WellTimed;
      ghost var s := StateOf(k, left, after, interludes);
      left' := left - (after - start);
      again, outcome, after', rest := SendLap(k, blob, left', interludes);
      LapMeaning(s, Round(again, outcome, Seen(k), rest), f);
    }

    /** The loop of timed_send(). */
    method SendLaps(k: Kernel, blob: nat, timeout: int, start: int, interludes: Script, ghost f: SendFrame)
      returns (outcome: Outcome)
      requires Wired(k) && InSend(StateOf(k, timeout, start, interludes), f) && start == f.start && f.favoursPipes == k.favoursPipes
      requires start == k.clock
      modifies `interruptingSnd, `interruptingRcv, k`bytes, k`writable, k`readable, k`pushed, k`faults
      modifies k`clock, k`ticks, k`record
      ensures Wired(k) && k.pushed == old(k.pushed) + (if outcome.Returned? && outcome.ok then [blob] else [])
      ensures SendOver(Seen(k), k.record, f, outcome)
    {
      hide InSend, SendOver;
      var left, after, rest, again := timeout, start, interludes, true;
      while true
        invariant Wired(k) && InSend(StateOf(k, left, after, rest), f)
        invariant k.pushed == old(k.pushed) && after == k.clock
        decreases Length(rest)
      {
        again, outcome, left, after, rest := SendTurn(k, blob, left, after, rest, start, f);
        if !again {
          return;
        }
      }
    }

    ghost function StateOf(k: Kernel, left: int, after: int, rest: Script): SendState
      reads this, k
    {
      SendState(Seen(k), k.faults, k.ticks, k.record, left, after, rest)
    }

    /** timed_send().  `start` is what the clock showed at the beginning; each later reading is taken off the budget
        whole.  Success is exactly one copy sent.  How it ends follows from what the others and the clock do; with a
        sensible timeout it hangs only after a lost race. */
    method TimedSend(k: Kernel, blob: nat, timeout: int, interludes: Script) returns (outcome: Outcome, start: int)
      requires Wired(k)
      modifies `interruptingSnd, `interruptingRcv, k`bytes, k`writable, k`readable, k`pushed, k`faults
      modifies k`clock, k`ticks, k`record
      ensures Wired(k) && k.pushed == old(k.pushed) + (if outcome.Returned? && outcome.ok then [blob] else [])
      ensures outcome == SendEnds(old(Seen(k)), old(k.faults), timeout, 0, TicksLater(old(k.ticks)), interludes, k.favoursPipes)
      ensures WellTimed(k.record, old(k.record), start, timeout)
      ensures outcome == Asleep || outcome == Returned(false, Success) ==>
                k.record.Waited? && SendReport(Seen(k), outcome, Nanoseconds(k.record.timeout))
      ensures outcome == Asleep && 0 <= timeout <= 0x7FFF_FFFF * MILLION ==>
                k.record != Waited(ClockRead(old(k.record), start), timeout)
      ensures outcome == Returned(false, SInterrupted) ==> interruptingSnd
      ensures Explained(outcome, old(k.faults), interludes)
    {
      start := k.FineClockNow();
      BudgetBegins(old(k.record), start, timeout);
      outcome := SendLaps(k, blob, timeout, start, interludes,
                          SendFrame(old(k.record), start, timeout, k.faults, interludes, k.favoursPipes,
                                    SendEnds(Seen(k), k.faults, timeout, 0, k.ticks, interludes, k.favoursPipes)));
      SensibleTimeoutsHold(timeout);
    }
  }

  /** The move constructor: the new handle has all the old one had; nothing is left behind, lost or closed. */
  method MoveConstruct(k: Kernel, src: MqHandle) returns (h: MqHandle)
    requires src.Holds(k)
    modifies src, k`open, k`badCloses
    ensures fresh(h) && h.Holds(k) && src.QueueNull() && src.PipesNull() && !src.interruptingSnd && !src.interruptingRcv
    ensures h.mq == old(src.mq) && h.epollSnd == old(src.epollSnd) && h.epollRcv == old(src.epollRcv)
    ensures h.interrupterSnd == old(src.interrupterSnd) && h.interruptDetectorSnd == old(src.interruptDetectorSnd)
    ensures h.interrupterRcv == old(src.interrupterRcv) && h.interruptDetectorRcv == old(src.interruptDetectorRcv)
    ensures h.interruptingSnd == old(src.interruptingSnd) && h.interruptingRcv == old(src.interruptingRcv)
    ensures k.open == old(k.open) && k.badCloses == old(k.badCloses) && (old(src.Wired(k)) ==> h.Wired(k))
  {
    h := new MqHandle();
    h.MoveAssign(k, src);
  }

  /** A construction that throws and leaks: the fourth system call, which sets the permissions, is the one to fail. */
  method LeakADescriptor() returns (k: Kernel, h: MqHandle, errCode: ErrorCode)
    ensures fresh(k) && fresh(h) && errCode == SystemError(13)
    ensures h.mq.Some? && h.epollSnd.None? && h.epollRcv.None? && k.open == {h.mq.value}
  {
    k := new Kernel([None, None, None, Some(13)], []);
    h := new MqHandle();
    ghost var f := k.faults;
    assert Later(f) == [None, None, Some(13)] && Later(Later(f)) == [None, Some(13)] && Later(Later(Later(f))) == [Some(13)];
    errCode := h.ConstructOrThrow(k, CreateOnly);
  }

  /** A handle in working order on a full queue, with a clock to move as `ticks` says. */
  method NewSender(ticks: seq<nat>) returns (k: Kernel, h: MqHandle)
    ensures fresh(k) && fresh(h) && h.Wired(k) && h.Seen(k) == World(false, false, false, false)
    ensures k.ticks == ticks && k.faults == [] && k.record == Fresh && !k.favoursPipes
  {
    hide MqHandle.Wired, MqHandle.PermissionsWillFail, Later;
    k := new Kernel([], ticks);
    h := new MqHandle();
    var errCode := h.Construct(k, OpenOrCreate);
    assert errCode == Success;
    k.faults := [];
  }

  /** A timed send of 10 milliseconds that hangs: the clock shows 6 milliseconds after the first lost race and 7 after
      the second. */
  method HangInTimedSend() returns (outcome: Outcome, k: Kernel, start: int)
    ensures fresh(k) && outcome == Asleep && WellTimed(k.record, Fresh, start, 10 * MILLION)
    ensures k.record.Waited? && EpollTimeout(Nanoseconds(k.record.timeout)) < 0
  {
    hide SendEnds, EpollTimeout, WellTimed;
    var h;
    k, h := NewSender([0, 6 * MILLION, MILLION]);
    LostRacesCanRemoveTheTimeout(k.favoursPipes);
    assert TicksLater(k.ticks) == [6 * MILLION, MILLION];
    outcome, start := h.TimedSend(k, 0, 10 * MILLION, LOST_RACES);
  }

  /** A wait in interrupted mode that does not report it: the queue has room, and the kernel names that. */
  method MissAnInterrupt() returns (outcome: Outcome, k: Kernel, h: MqHandle)
    ensures fresh(k) && fresh(h) && h.Wired(k) && h.interruptingSnd && outcome == Returned(true, Success)
  {
    k, h := NewSender([]);
    k.writable := true;
    var ok := h.Interrupt(k, true);
    var rest;
    outcome, rest := h.WaitImpl(k, Forever, true, End);
  }

  /** A second handle in working order beside `other`. */
  method NewBeside(k: Kernel, other: MqHandle) returns (h: MqHandle)
    requires other.Holds(k) && k.faults == []
    modifies k
    ensures fresh(h) && h.Wired(k) && other.Holds(k) && forall fd | other.Owns(fd) :: !h.Owns(fd)
  {
    hide MqHandle.Wired, MqHandle.PermissionsWillFail;
    h := new MqHandle();
    var errCode := h.Construct(k, OpenOrCreate);
    assert errCode == Success;
    assert forall fd | other.Owns(fd) :: fd in k.open && !h.Owns(fd);
  }

  /** A move assignment that forgets a descriptor: the one of the target's queue. */
  method ForgetADescriptor() returns (k: Kernel, target: MqHandle, src: MqHandle, fd: Fd)
    ensures fresh(k) && fresh(target) && fresh(src) && target.Wired(k)
    ensures fd in k.open && !target.Owns(fd) && !src.Owns(fd)
  {
    k, target := NewSender([]);
    src := NewBeside(k, target);
    fd := target.mq.value;
    target.MoveAssign(k, src);
  }
}
