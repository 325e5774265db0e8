/**
 Blobs and native handles over a local stream socket: `nb_write_some_with_native_handle()`,
 `nb_read_some_with_native_handle()`, and messages put together again from whatever pieces the stream makes of them.
 */
module AsioLocalStreamSocket {
  import opened Wrappers

  type Byte = b: int | 0 <= b < 256

  type Handle = nat

  datatype ErrorCode = Success | WouldBlock | Eof | UnexpectedPayloadBeyondHandle | SystemError(errno: nat)

  /** A byte of the stream, and the handle that travels with it. */
  datatype Cell = Cell(byte: Byte, handle: Option<Handle>)

  datatype Message = Message(handle: Option<Handle>, blob: seq<Byte>)

  /** What the kernel will do with one call: refuse it, for now or for good; or move bytes, `most` of them if that is
      possible. */
  datatype Fate = Refuse(errno: Option<nat>) | Move(most: nat, ctrunc: bool, strange: seq<Ancillary>)

  predicate IsFatal(fate: Fate) {
    fate.Refuse? && fate.errno.Some?
  }

  function CodeOf(fate: Fate): ErrorCode {
    if fate.Move? then Success else if fate.errno.Some? then SystemError(fate.errno.value) else WouldBlock
  }

  datatype Ancillary = Rights(handle: Handle) | OtherAncillary

  datatype Received = Failed(code: ErrorCode) | Got(bytes: seq<Byte>, ctrunc: bool, ancillary: seq<Ancillary>)

  /** The cells from index `from` on are the first `n` bytes of `blob`, with `handle` on the first. */
  predicate Carries(cells: seq<Cell>, from: nat, handle: Option<Handle>, blob: seq<Byte>, n: nat) {
    && from + n <= |cells| && n <= |blob|
    && forall k | 0 <= k < n :: cells[from + k] == Cell(blob[k], if k == 0 then handle else None)
  }

  /** No handle but on the first byte. */
  predicate OneAtMost(cells: seq<Cell>) {
    forall k | 1 <= k < |cells| :: cells[k].handle == None
  }

  function HandleOf(cells: seq<Cell>): Option<Handle> {
    if cells == [] then None else cells[0].handle
  }

  /** All messages laid end to end: `whole` is the stream they make, message `i` beginning at `starts[i]`. */
  predicate IsLayout(messages: seq<Message>, starts: seq<nat>, whole: seq<Cell>) {
    && |starts| == |messages| + 1 && starts[0] == 0 && starts[|messages|] == |whole|
    && forall i {:trigger messages[i]} | 0 <= i < |messages| ::
         && starts[i + 1] == starts[i] + |messages[i].blob|
         && Carries(whole, starts[i], messages[i].handle, messages[i].blob, |messages[i].blob|)
  }

  function CellsOf(handle: Option<Handle>, blob: seq<Byte>): (cells: seq<Cell>)
    ensures |cells| == |blob| && Carries(cells, 0, handle, blob, |blob|)
  {
    seq(|blob|, k requires 0 <= k < |blob| => Cell(blob[k], if k == 0 then handle else None))
  }

  function BytesOf(cells: seq<Cell>): (bytes: seq<Byte>)
    ensures |bytes| == |cells| && forall k | 0 <= k < |cells| :: bytes[k] == cells[k].byte
  {
    seq(|cells|, k requires 0 <= k < |cells| => cells[k].byte)
  }

  lemma {:induction false} LayoutExists(messages: seq<Message>) returns (starts: seq<nat>, whole: seq<Cell>)
    ensures IsLayout(messages, starts, whole)
  {
    if messages == [] {
      return [0], [];
    }
    var n := |messages| - 1;
    var starts0, whole0 := LayoutExists(messages[..n]);
    var m := messages[n];
    starts, whole := starts0 + [|whole0| + |m.blob|], whole0 + CellsOf(m.handle, m.blob);
    forall i | 0 <= i < |messages|
      ensures starts[i + 1] == starts[i] + |messages[i].blob|
              && Carries(whole, starts[i], messages[i].handle, messages[i].blob, |messages[i].blob|)
    {
      if i < n {
        assert messages[..n][i] == messages[i];
        assert starts[i] == starts0[i] && starts[i + 1] == starts0[i + 1];
      } else {
        assert starts[i] == |whole0|;
      }
    }
  }

  /** One end of a socket pair, seen from both sides: `pipe` is what has been written and not yet read. */
  class Socket {
    var pipe: seq<Cell>
    var closed: bool

    /** sendmsg() and write_some(): one byte at least and the handle with the first; or nothing. */
    method SendMsg(handle: Option<Handle>, blob: seq<Byte>, fate: Fate) returns (n: nat, errCode: ErrorCode)
      requires blob != []
      modifies `pipe
      ensures n <= |blob| && (n > 0 <==> errCode == Success)
      ensures errCode == CodeOf(fate)
      ensures |pipe| == |old(pipe)| + n && pipe[..|old(pipe)|] == old(pipe)
      ensures Carries(pipe, |old(pipe)|, handle, blob, n)
    {
      errCode := CodeOf(fate);
      if fate.Refuse? {
        return 0, errCode;
      }
      n := if 1 <= fate.most <= |blob| then fate.most else |blob|;
      pipe := pipe + CellsOf(handle, blob[..n]);
    }

    /** recvmsg().  What becomes of handles in the middle of what is read is anybody's guess. */
    method RecvMsg(size: nat, fate: Fate) returns (got: Received)
      requires size > 0
      modifies `pipe
      ensures match got
              case Failed(code) =>
                && pipe == old(pipe) && (fate.Move? ==> pipe == [] && !closed)
                && code == if fate.Refuse? then CodeOf(fate) else WouldBlock
              case Got(bytes, ctrunc, ancillary) =>
                && fate.Move? && |bytes| <= size && |bytes| <= |old(pipe)| && pipe == old(pipe)[|bytes|..]
                && (bytes == [] ==> old(pipe) == [] && closed)
                && bytes == BytesOf(old(pipe)[..|bytes|])
                && var read := old(pipe)[..|bytes|];
                   OneAtMost(read) ==>
                     !ctrunc && ancillary == if HandleOf(read).Some? then [Rights(HandleOf(read).value)] else []
    {
      if fate.Refuse? {
        return Failed(CodeOf(fate));
      }
      if pipe == [] {
        return if closed then Got([], false, []) else Failed(WouldBlock);
      }
      var most := if size < |pipe| then size else |pipe|;
      var n := if 1 <= fate.most <= most then fate.most else most;
      var read := pipe[..n];
      pipe := pipe[n..];
      if OneAtMost(read) {
        got := Got(BytesOf(read), false, if HandleOf(read).Some? then [Rights(HandleOf(read).value)] else []);
      } else {
        got := Got(BytesOf(read), fate.ctrunc, fate.strange);
      }
    }
  }

  /** The promised meaning of a read: on any error no bytes and no handle count as received; otherwise all bytes do,
      and the one handle that came along. */
  predicate ReadMeans(got: Received, bytes: seq<Byte>, handle: Option<Handle>, errCode: ErrorCode) {
    && (errCode == Success ==> got.Got? && bytes == got.bytes != [] && !got.ctrunc
                               && got.ancillary == if handle.Some? then [Rights(handle.value)] else [])
    && (errCode != Success ==> bytes == [] && handle.None?)
    && (got.Failed? <==> errCode == WouldBlock || errCode.SystemError?)
    && (got.Failed? ==> errCode == got.code)
    && (errCode == Eof <==> got.Got? && got.bytes == [])
  }

  method NbReadSome(socket: Socket, size: nat, fate: Fate)
    returns (bytes: seq<Byte>, handle: Option<Handle>, errCode: ErrorCode, ghost got: Received)
    requires size > 0
    modifies socket`pipe
    ensures ReadMeans(got, bytes, handle, errCode)
    ensures errCode == UnexpectedPayloadBeyondHandle <==>
              got.Got? && got.bytes != [] && (got.ctrunc || |got.ancillary| > 1 || OtherAncillary in got.ancillary)
    ensures if errCode == Success || errCode == UnexpectedPayloadBeyondHandle
            then 1 <= |got.bytes| <= size && |got.bytes| <= |old(socket.pipe)| && socket.pipe == old(socket.pipe)[|got.bytes|..]
            else socket.pipe == old(socket.pipe)
    ensures errCode == Eof ==> socket.pipe == [] && socket.closed
    ensures fate.Refuse? ==>
              errCode == CodeOf(fate) == if fate.errno.None? then WouldBlock else SystemError(fate.errno.value)
    ensures fate.Move? && old(socket.pipe) != [] ==> errCode == Success || errCode == UnexpectedPayloadBeyondHandle
    ensures fate.Move? && old(socket.pipe) == [] ==> errCode == if socket.closed then Eof else WouldBlock
    ensures errCode == Success ==> bytes == BytesOf(old(socket.pipe)[..|bytes|])
    ensures got.Got? && got.bytes != [] && OneAtMost(old(socket.pipe)[..|got.bytes|]) ==>
              errCode == Success && handle == HandleOf(old(socket.pipe)[..|got.bytes|])
  {
    bytes, handle := [], None;
    var result := socket.RecvMsg(size, fate);
    got := result;
    if result.Failed? {
      return bytes, handle, result.code, got;
    }
    if result.bytes == [] {
      return bytes, handle, Eof, got;
    }
    if result.ctrunc {
      return bytes, handle, UnexpectedPayloadBeyondHandle, got;
    }
    if result.ancillary != [] {
      if !result.ancillary[0].Rights? {
        return bytes, handle, UnexpectedPayloadBeyondHandle, got;
      }
      handle := Some(result.ancillary[0].handle);
      if |result.ancillary| > 1 {
        handle := None;
        return bytes, handle, UnexpectedPayloadBeyondHandle, got;
      }
    }
    return result.bytes, handle, Success, got;
  }

  /** nb_write_some_with_native_handle(). */
  method NbWriteSome(socket: Socket, handle: Handle, blob: seq<Byte>, fate: Fate) returns (n: nat, errCode: ErrorCode)
    requires blob != []
    modifies socket`pipe
    ensures n <= |blob| && (n > 0 <==> errCode == Success)
    ensures match fate
            case Refuse(None) => errCode == WouldBlock
            case Refuse(Some(errno)) => errCode == SystemError(errno)
            case Move(_, _, _) => errCode == Success
    ensures errCode == CodeOf(fate)
    ensures |socket.pipe| == |old(socket.pipe)| + n && socket.pipe[..|old(socket.pipe)|] == old(socket.pipe)
    ensures Carries(socket.pipe, |old(socket.pipe)|, Some(handle), blob, n)
  {
    n, errCode := socket.SendMsg(Some(handle), blob, fate);
  }

  /** A stretch of the stream, `at` bytes into message `i`. */
  predicate IsStretch(pipe: seq<Cell>, whole: seq<Cell>, at: nat) {
    at + |pipe| <= |whole| && forall k | 0 <= k < |pipe| :: pipe[k] == whole[at + k]
  }

  /** A read that asks for no more than the rest of the message finds bytes of that message only, and the handle, if
      there is one, if and only if it reads the first byte. */
  lemma ReadStaysInside(messages: seq<Message>, starts: seq<nat>, whole: seq<Cell>, i: nat, at: nat, read: seq<Cell>)
    requires IsLayout(messages, starts, whole) && i < |messages| && read != [] && at + |read| <= |messages[i].blob|
    requires IsStretch(read, whole, starts[i] + at)
    ensures OneAtMost(read) && BytesOf(read) == messages[i].blob[at..at + |read|]
    ensures HandleOf(read) == if at == 0 then messages[i].handle else None
  {
    var m := messages[i];
    forall k | 0 <= k < |read|
      ensures read[k] == Cell(m.blob[at + k], if at + k == 0 then m.handle else None)
    {
      assert read[k] == whole[starts[i] + (at + k)];
    }
  }

  /** A write of the next bytes of message `i` lengthens the stretch under way. */
  lemma WriteContinues(messages: seq<Message>, starts: seq<nat>, whole: seq<Cell>, i: nat, at: nat,
                       pipe: seq<Cell>, pipe': seq<Cell>, n: nat)
    requires IsLayout(messages, starts, whole) && i < |messages| && at + n <= |messages[i].blob|
    requires |pipe'| == |pipe| + n && pipe'[..|pipe|] == pipe && |pipe| <= starts[i] + at
    requires IsStretch(pipe, whole, starts[i] + at - |pipe|)
    requires Carries(pipe', |pipe|, if at == 0 then messages[i].handle else None, messages[i].blob[at..], n)
    ensures IsStretch(pipe', whole, starts[i] + at - |pipe|)
  {
    var m := messages[i];
    forall k | 0 <= k < |pipe'|
      ensures pipe'[k] == whole[starts[i] + at - |pipe| + k]
    {
      if k < |pipe| {
        assert pipe'[k] == pipe'[..|pipe|][k];
      } else {
        var l := k - |pipe|;
        assert pipe'[|pipe| + l] == Cell(m.blob[at..][l], if l == 0 then (if at == 0 then m.handle else None) else None);
        assert whole[starts[i] + (at + l)] == Cell(m.blob[at + l], if at + l == 0 then m.handle else None);
      }
    }
  }

  datatype Step = Write(fate: Fate) | Read(ask: nat, fate: Fate) | Close

  /** Both ends of one direction at work.  The sender puts each handle on the first byte of its message and mixes no
      other bytes into that call; the receiver, who knows the lengths, never asks for more than the rest of the current
      message. */
  class Transfer {
    const messages: seq<Message>
    const socket: Socket
    var sending: nat                         // the message being written, and how much of it has been
    var sent: nat
    var sendError: ErrorCode
    var partial: seq<Byte>                   // of the message being read
    var handle: Option<Handle>
    var received: seq<Message>
    var receiveError: ErrorCode
    ghost const starts: seq<nat>
    ghost const whole: seq<Cell>

    /** The received messages and the part of the next one are what was sent. */
    ghost predicate InOrder()
      reads this
    {
      && |received| <= |messages| && (forall i | 0 <= i < |received| :: received[i] == messages[i])
      && (|received| == |messages| ==> partial == [] && handle.None?)
      && (|received| < |messages| ==>
            var m := messages[|received|];
            && |partial| < |m.blob| && partial == m.blob[..|partial|]
            && handle == if partial == [] then None else m.handle)
    }

    /** What has been received is what was sent, so far; and the stream between holds what lies between. */
    ghost predicate Valid()
      reads this, socket
    {
      && (forall m | m in messages :: m.blob != [])
      && sending <= |messages| && (if sending < |messages| then sent < |messages[sending].blob| else sent == 0)
      && InOrder()
      && IsLayout(messages, starts, whole)
      && starts[sending] + sent == starts[|received|] + |partial| + |socket.pipe|
      && IsStretch(socket.pipe, whole, starts[|received|] + |partial|)
      && (receiveError == Success || receiveError == Eof || receiveError.SystemError?)
      && (receiveError == Eof ==> socket.closed && socket.pipe == [])
    }

    constructor (messages: seq<Message>, socket: Socket)
      requires (forall m | m in messages :: m.blob != []) && socket.pipe == []
      ensures Valid() && this.messages == messages && this.socket == socket
      ensures received == [] && receiveError == Success && sendError == Success
    {
      ghost var starts, whole := LayoutExists(messages);
      this.messages, this.socket, this.starts, this.whole := messages, socket, starts, whole;
      sending, sent, sendError := 0, 0, Success;
      partial, handle, received, receiveError := [], None, [], Success;
    }

    /** One write call: of the whole message with its handle, or of what remains of it. */
    method WriteCall(fate: Fate) returns (n: nat, errCode: ErrorCode)
      requires Valid() && sending < |messages|
      modifies socket`pipe
      ensures sent + n <= |messages[sending].blob| && (n > 0 <==> errCode == Success) && errCode == CodeOf(fate)
      ensures |socket.pipe| == |old(socket.pipe)| + n
      ensures IsStretch(socket.pipe, whole, starts[|received|] + |partial|)
    {
      var m := messages[sending];
      var blob := m.blob[sent..];
      if sent == 0 && m.handle.Some? {
        n, errCode := NbWriteSome(socket, m.handle.value, blob, fate);
      } else {
        n, errCode := socket.SendMsg(None, blob, fate);
      }
      WriteContinues(messages, starts, whole, sending, sent, old(socket.pipe), socket.pipe, n);
    }

    /** How much of the stream has been written, and how much received. */
    ghost function Written(): nat
      requires Valid()
      reads this, socket
    {
      starts[sending] + sent
    }

    ghost function Delivered(): nat
      requires Valid()
      reads this, socket
    {
      starts[|received|] + |partial|
    }

    /** The sender has been stopped by nothing. */
    predicate CanWrite()
      reads this, socket
    {
      !socket.closed && sendError == Success
    }

    method Write(fate: Fate) returns (n: nat)
      requires Valid()
      modifies `sending, `sent, `sendError, socket`pipe
      ensures Valid() && Written() == old(Written()) + n
      ensures n > 0 <==> old(CanWrite()) && fate.Move? && old(sending) < |messages|
      ensures CanWrite() <==> old(CanWrite()) && (old(sending) == |messages| || !IsFatal(fate))
    {
      n := 0;
      if sending == |messages| || socket.closed || sendError != Success {
        return;
      }
      n := WriteOn(fate);
    }

    method WriteOn(fate: Fate) returns (n: nat)
      requires Valid() && CanWrite() && sending < |messages|
      modifies `sending, `sent, `sendError, socket`pipe
      ensures Valid() && Written() == old(Written()) + n && (n > 0 <==> fate.Move?)
      ensures CanWrite() <==> !IsFatal(fate)
    {
      var errCode;
      n, errCode := WriteCall(fate);
      if errCode == Success {
        MoveOn(n);
      } else if errCode != WouldBlock {
        sendError := errCode;
      }
    }

    method MoveOn(n: nat)
      requires IsLayout(messages, starts, whole) && (forall m | m in messages :: m.blob != [])
      requires sending < |messages| && sent + n <= |messages[sending].blob|
      modifies `sending, `sent
      ensures sending <= |messages| && (if sending < |messages| then sent < |messages[sending].blob| else sent == 0)
      ensures starts[sending] + sent == old(starts[sending] + sent) + n
    {
      sent := sent + n;
      if sent == |messages[sending].blob| {
        sending, sent := sending + 1, 0;
      }
    }

    /** One read call, for some of what remains of the message. */
    method ReadCall(size: nat, fate: Fate) returns (bytes: seq<Byte>, h: Option<Handle>, errCode: ErrorCode)
      requires Valid() && |received| < |messages| && 1 <= size <= |messages[|received|].blob| - |partial|
      modifies socket`pipe
      ensures errCode == Success || errCode == WouldBlock || errCode == Eof || errCode.SystemError?
      ensures errCode == if fate.Refuse? then CodeOf(fate)
                         else if old(socket.pipe) != [] then Success else if socket.closed then Eof else WouldBlock
      ensures errCode != Success ==> socket.pipe == old(socket.pipe)
      ensures errCode == Eof ==> socket.closed && socket.pipe == []
      ensures errCode == Success ==>
                var m := messages[|received|];
                && 1 <= |bytes| <= size && bytes == m.blob[|partial|..|partial| + |bytes|]
                && h == (if partial == [] then m.handle else None)
                && |socket.pipe| == |old(socket.pipe)| - |bytes|
                && IsStretch(socket.pipe, whole, starts[|received|] + |partial| + |bytes|)
    {
      ghost var got;
      bytes, h, errCode, got := NbReadSome(socket, size, fate);
      if got.Got? && got.bytes != [] {
        ReadStaysInside(messages, starts, whole, |received|, |partial|, old(socket.pipe)[..|got.bytes|]);
      }
    }

    method Read(ask: nat, fate: Fate) returns (n: nat)
      requires Valid()
      modifies `partial, `handle, `received, `receiveError, socket`pipe
      ensures Valid() && Delivered() == old(Delivered()) + n
      ensures n > 0 <==>
                fate.Move? && old(|received| < |messages| && receiveError == Success && socket.pipe != [])
      ensures !IsFatal(fate) && (old(socket.pipe) != [] || !socket.closed || old(|received|) == |messages|) ==>
                receiveError == old(receiveError)
    {
      n := 0;
      if |received| == |messages| || receiveError != Success {
        return;
      }
      var left := |messages[|received|].blob| - |partial|;
      n := ReadOn(if 1 <= ask <= left then ask else left, fate);
    }

    method ReadOn(size: nat, fate: Fate) returns (n: nat)
      requires Valid() && receiveError == Success
      requires |received| < |messages| && 1 <= size <= |messages[|received|].blob| - |partial|
      modifies `partial, `handle, `received, `receiveError, socket`pipe
      ensures Valid() && Delivered() == old(Delivered()) + n && (n > 0 <==> fate.Move? && old(socket.pipe) != [])
      ensures !IsFatal(fate) && (old(socket.pipe) != [] || !socket.closed) ==> receiveError == Success
    {
      n := 0;
      var bytes, h, errCode := ReadCall(size, fate);
      if errCode == Success {
        n := |bytes|;
        Take(bytes, h);
      } else if errCode != WouldBlock {
        receiveError := errCode;
      }
    }

    /** Adds what was read to the current message. */
    method Take(bytes: seq<Byte>, h: Option<Handle>)
      requires InOrder() && |received| < |messages| && bytes != []
      requires var m := messages[|received|];
               && |partial| + |bytes| <= |m.blob| && bytes == m.blob[|partial|..|partial| + |bytes|]
               && h == if partial == [] then m.handle else None
      requires (forall m | m in messages :: m.blob != []) && IsLayout(messages, starts, whole)
      modifies `partial, `handle, `received
      ensures InOrder()
      ensures starts[|received|] + |partial| == old(starts[|received|] + |partial|) + |bytes|
    {
      if partial == [] {
        handle := h;
      }
      partial := partial + bytes;
      if |partial| == |messages[|received|].blob| {
        assert partial == messages[|received|].blob;
        received := received + [Message(handle, partial)];
        partial, handle := [], None;
      }
    }

    method Turn(step: Step)
      requires Valid()
      modifies `sending, `sent, `sendError, `partial, `handle, `received, `receiveError, socket`pipe, socket`closed
      ensures Valid() && Written() >= old(Written()) && Delivered() >= old(Delivered())
      ensures old(CanWrite()) && Accepted(step, true) && old(Written()) < |whole| ==> Written() > old(Written())
      ensures old(CanWrite()) && !Stops(step, true) ==> CanWrite()
      ensures step.Close? ==> socket.closed
      ensures old(receiveError) == Success && Accepted(step, false) && old(Delivered() < Written()) ==>
                Delivered() > old(Delivered())
      ensures !Stops(step, false) && old(CanWrite() || Written() == |whole|) ==> receiveError == old(receiveError)
    {
      if |received| < |messages| {
        BeforeTheEnd(messages, starts, whole, |received|, |partial|);
      }
      if sending < |messages| {
        BeforeTheEnd(messages, starts, whole, sending, sent);
      }
      match step {
        case Write(fate) =>
          var _ := Write(fate);
        case Read(ask, fate) =>
          var _ := Read(ask, fate);
        case Close =>
          socket.closed := true;
      }
    }

    /** Either end at work any number of times, in any order, with any sizes, refusals and failures; the sender may
        close.  What has been received is always the messages sent, the first so many of them, blob and handle.  Each
        accepted write and each accepted read brings the transfer at least one byte further, until it is complete. */
    method Play(steps: seq<Step>)
      requires Valid()
      modifies this, socket
      ensures Valid() && |received| <= |messages| && received == messages[..|received|]
      ensures Written() == Delivered() == |whole| ==> received == messages
      ensures old(CanWrite()) ==> Written() >= AtMost(|whole|, old(Written()) + Effective(steps, true))
      ensures old(receiveError) == Success && old(Written()) == |whole| ==>
                Delivered() >= AtMost(|whole|, old(Delivered()) + Effective(steps, false))
      ensures old(receiveError == Success && CanWrite()) && old(Written()) + Effective(steps, true) >= |whole|
                && (forall step | step in steps :: !Stops(step, false)) ==>
                receiveError == Success
      ensures receiveError == Eof ==> socket.closed && socket.pipe == []
    {
      ghost var stays := receiveError == Success && CanWrite() && Written() + Effective(steps, true) >= |whole|
                         && forall step | step in steps :: !Stops(step, false);
      for n := 0 to |steps|
        invariant Valid() && Written() >= old(Written())
        invariant old(CanWrite()) ==>
                    Written() + (if CanWrite() then Effective(steps[n..], true) else 0)
                    >= AtMost(|whole|, old(Written()) + Effective(steps, true))
        invariant old(receiveError) == Success && old(Written()) == |whole| ==>
                    Delivered() + (if receiveError == Success then Effective(steps[n..], false) else 0)
                    >= AtMost(|whole|, old(Delivered()) + Effective(steps, false))
        invariant stays ==> receiveError == Success
      {
        assert steps[n..][0] == steps[n] && steps[n..][1..] == steps[n + 1..];
        Turn(steps[n]);
      }
      if |received| < |messages| {
        BeforeTheEnd(messages, starts, whole, |received|, |partial|);
      }
    }

    /** With as many writes accepted as there are bytes before anything stops the sender, and after that as many reads,
        all is received: whatever the sizes, would-blocks and reads in between. */
    method Deliver(first: seq<Step>, second: seq<Step>)
      requires Valid() && CanWrite() && receiveError == Success
      requires Effective(first, true) >= |whole| && (forall step | step in first :: !Stops(step, false))
      requires Effective(second, false) >= |whole|
      modifies this, socket
      ensures received == messages
    {
      Play(first);
      Play(second);
    }
  }

  /** A write, or else a read, that the kernel does not refuse. */
  predicate Accepted(step: Step, writes: bool) {
    if writes then step.Write? && step.fate.Move? else step.Read? && step.fate.Move?
  }

  /** What ends the sender's work, or else the receiver's. */
  predicate Stops(step: Step, writes: bool) {
    if writes then StopsSender(step) else StopsReceiver(step)
  }

  predicate StopsSender(step: Step) {
    match step
    case Close => true
    case Write(Refuse(Some(_))) => true
    case _ => false
  }

  predicate StopsReceiver(step: Step) {
    match step
    case Read(_, Refuse(Some(_))) => true
    case _ => false
  }

  /** The number of accepted writes, or else reads, before a stop. */
  function Effective(steps: seq<Step>, writes: bool): nat
    decreases |steps|
  {
    if steps == [] || Stops(steps[0], writes) then 0
    else (if Accepted(steps[0], writes) then 1 else 0) + Effective(steps[1..], writes)
  }

  /** The effective steps are those before the first stop which move bytes.  The sender is stopped by its own closing
      and by a fatal error of a write, the receiver by a fatal error of a read. */
  lemma EffectiveSteps(steps: seq<Step>, n: nat)
    requires n <= |steps|
    ensures (forall i | 0 <= i < n :: !StopsSender(steps[i])) && (n < |steps| ==> StopsSender(steps[n])) ==>
              Effective(steps, true) == |set i: nat | i < n && steps[i].Write? && steps[i].fate.Move?|
    ensures (forall i | 0 <= i < n :: !StopsReceiver(steps[i])) && (n < |steps| ==> StopsReceiver(steps[n])) ==>
              Effective(steps, false) == |set i: nat | i < n && steps[i].Read? && steps[i].fate.Move?|
  {
    if forall i | 0 <= i < n :: !Stops(steps[i], true) {
      EffectiveCounts(steps, true, n);
      assert (set i: nat | i < n && steps[i].Write? && steps[i].fate.Move?) == AcceptedBefore(steps, true, n);
    }
    if forall i | 0 <= i < n :: !Stops(steps[i], false) {
      EffectiveCounts(steps, false, n);
      assert (set i: nat | i < n && steps[i].Read? && steps[i].fate.Move?) == AcceptedBefore(steps, false, n);
    }
  }

  function AcceptedBefore(steps: seq<Step>, writes: bool, n: nat): set<nat>
    requires n <= |steps|
  {
    set i: nat | i < n && Accepted(steps[i], writes)
  }

  lemma {:induction false} EffectiveCounts(steps: seq<Step>, writes: bool, n: nat)
    requires n <= |steps| && forall i | 0 <= i < n :: !Stops(steps[i], writes)
    ensures Effective(steps, writes) == |AcceptedBefore(steps, writes, n)| + Effective(steps[n..], writes)
  {
    if n == 0 {
      assert steps[0..] == steps && AcceptedBefore(steps, writes, 0) == {};
    } else {
      var m := n - 1;
      EffectiveCounts(steps, writes, m);
      assert steps[m..][1..] == steps[n..] && steps[m..][0] == steps[m];
      assert AcceptedBefore(steps, writes, n)
          == AcceptedBefore(steps, writes, m) + if Accepted(steps[m], writes) then {m} else {};
    }
  }

  function AtMost(limit: nat, n: nat): nat {
    if n < limit then n else limit
  }

  /** A position before the end of the messages is before the end of the stream: no message is empty. */
  lemma {:induction false} BeforeTheEnd(messages: seq<Message>, starts: seq<nat>, whole: seq<Cell>, i: nat, at: nat)
    requires IsLayout(messages, starts, whole) && (forall m | m in messages :: m.blob != [])
    requires i < |messages| && at < |messages[i].blob|
    ensures starts[i] + at < starts[|messages|]
    decreases |messages| - i
  {
    assert starts[i + 1] == starts[i] + |messages[i].blob|;
    if i + 1 < |messages| {
      BeforeTheEnd(messages, starts, whole, i + 1, 0);
    }
  }
}
