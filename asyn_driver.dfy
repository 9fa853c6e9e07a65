/** AsynDriverInterface as an object: the bus interface of StreamDevice for
    asyn ports. Its fields are those of the class it models; each method
    performs the updates of its counterpart in the order the source makes
    them, and its contract ties the new state and the client callbacks it
    made to the transition of the same name in AsynSteps. Calls into asyn
    are replaced by parameters carrying their results; the client callbacks
    made are recorded in the ghost log. */
module AsynDriver {
  import opened StreamBusInterface
  import opened AsynState
  import opened AsynRead
  import opened AsynSteps

  class AsynDriverInterface {
    const bus: BusInterface       // the base part: eos and eoslen
    const priority: int           // what the client's priority() answers
    var ioAction: IoAction
    var lockTimeout: Timeout
    var writeTimeout: nat
    var readTimeout: nat
    var replyTimeout: nat
    var expectedLength: int
    var eventMask: bv64
    var receivedEvent: bv64
    var capacity: nat             // capacity of inputBuffer
    var outputBuffer: int
    var outputSize: SizeT
    var peeksize: int
    var timer: Timer
    var queued: Pending
    var blocked: bool
    var events: EventSource
    var asyncInput: bool          // intrPvtOctet is set
    ghost var log: seq<Callback>  // client callbacks made so far

    /** The state of the object as a Channel value. */
    function Snapshot(): Channel
      reads this, bus
    {
      Channel(ioAction, priority, lockTimeout, writeTimeout, readTimeout, replyTimeout,
              expectedLength, eventMask, receivedEvent, capacity, outputBuffer, outputSize,
              peeksize, bus.eos, bus.eoslen, timer, queued, blocked, events, asyncInput)
    }

    constructor (clientPriority: int, bufferCapacity: nat)
      ensures fresh(bus)
      ensures Snapshot() == NewChannel(clientPriority, bufferCapacity) && log == []
    {
      bus := new BusInterface();
      priority := clientPriority;
      ioAction := None;
      lockTimeout := Ms(0);
      writeTimeout, readTimeout, replyTimeout := 0, 0, 0;
      expectedLength := 0;
      eventMask := 0;
      receivedEvent := 0;
      capacity := bufferCapacity;
      outputBuffer, outputSize := NULL, 0;
      peeksize := 1;
      timer := Idle;
      queued := NotQueued;
      blocked := false;
      events := NoEvents;
      asyncInput := false;
      log := [];
    }

    /** pasynManager->queueRequest, whose result is queueOk. */
    method Enqueue(p: int, timeout: Timeout, queueOk: bool)
      modifies this
      ensures Snapshot() == Queue(old(Snapshot()), p, timeout, queueOk) && log == old(log)
    {
      if queueOk {
        queued := Queued(QueueRequest(p, timeout));
      }
    }

    method ConnectToBus(deviceFound: bool, hasCommon: bool, hasOctet: bool, gpib: bool,
                        int32: Registration, uint32: Registration) returns (ok: bool)
      modifies this
      ensures var s := AsynSteps.ConnectToBus(old(Snapshot()), deviceFound, hasCommon, hasOctet, gpib, int32, uint32);
        ok == s.ok && Snapshot() == s.next && log == old(log)
    {
      if !deviceFound || !hasCommon || !hasOctet {
        return false;
      }
      if gpib {
        peeksize := GPIB_PEEKSIZE;
      }
      if int32 == Registered {
        events := Int32Events;
        return true;
      }
      if uint32 == Registered {
        events := UInt32Events;
        return true;
      }
      events := NoEvents;
      return true;
    }

    method SupportsEvent() returns (r: bool)
      ensures r == AsynSteps.SupportsEvent(Snapshot())
      ensures r <==> events == Int32Events || events == UInt32Events
    {
      r := events != NoEvents;
    }

    method SupportsAsyncRead(registerOk: bool) returns (ok: bool)
      modifies this
      ensures var s := AsynSteps.SupportsAsyncRead(old(Snapshot()), registerOk);
        ok == s.ok && Snapshot() == s.next && log == old(log)
    {
      if asyncInput {
        return true;
      }
      if !registerOk {
        return false;
      }
      asyncInput := true;
      return true;
    }

    method LockRequest(lockTimeoutMs: nat, connectOk: bool, queueOk: bool) returns (ok: bool)
      modifies this
      ensures var s := AsynSteps.LockRequest(old(Snapshot()), lockTimeoutMs, connectOk, queueOk);
        ok == s.ok && Snapshot() == s.next && log == old(log)
    {
      lockTimeout := if lockTimeoutMs == 0 then Forever else Ms(lockTimeoutMs);
      if lockTimeoutMs == 0 && !connectOk {
        return false;
      }
      ioAction := Lock;
      Enqueue(priority, lockTimeout, queueOk);
      ok := queueOk;
    }

    method LockHandler()
      modifies this
      ensures var s := AsynSteps.LockHandler(old(Snapshot()));
        Snapshot() == s.next && log == old(log) + s.emitted
    {
      blocked := true;
      log := log + [LockCallback(IoSuccess)];
    }

    method Unlock() returns (ok: bool)
      modifies this
      ensures var s := AsynSteps.Unlock(old(Snapshot()));
        ok == s.ok && Snapshot() == s.next && log == old(log)
    {
      blocked := false;
      ok := true;
    }

    method WriteRequest(output: int, size: SizeT, writeTimeoutMs: nat, queueOk: bool) returns (ok: bool)
      modifies this
      ensures var s := AsynSteps.WriteRequest(old(Snapshot()), output, size, writeTimeoutMs, queueOk);
        ok == s.ok && Snapshot() == s.next && log == old(log)
    {
      ghost var c := Snapshot();
      outputBuffer := output;
      outputSize := size;
      writeTimeout := writeTimeoutMs;
      ioAction := Write;
      assert Snapshot() == c.(outputBuffer := output, outputSize := size, writeTimeout := writeTimeoutMs, ioAction := Write);
      Enqueue(priority, Ms(writeTimeoutMs), queueOk);
      ok := queueOk;
    }

    method WriteHandler(flushOk: bool, reply: WriteReply, queueOk: bool)
      modifies this
      ensures var s := AsynSteps.WriteHandler(old(Snapshot()), flushOk, reply, queueOk);
        Snapshot() == s.next && log == old(log) + s.emitted
    {
      receivedEvent := 0;
      if !flushOk {
        log := log + [WriteCallback(IoFault)];
        return;
      }
      match reply.status {
        case AsynSuccess =>
          WriteProgress(reply.written, queueOk);
        case AsynTimeout =>
          log := log + [WriteCallback(IoTimeout)];
        case AsynOverflow =>
          log := log + [WriteCallback(IoFault)];
        case AsynError =>
          log := log + [WriteCallback(IoFault)];
      }
    }

    /** The successful branch of writeHandler: the cursor moves past the
        bytes written; what is left is queued again with the lock timeout,
        and success is reported once nothing is left. */
    method WriteProgress(written: SizeT, queueOk: bool)
      requires receivedEvent == 0
      modifies this
      ensures var s := AsynSteps.WriteHandler(old(Snapshot()), true, WriteReply(AsynSuccess, written), queueOk);
        Snapshot() == s.next && log == old(log) + s.emitted
    {
      ghost var c := Snapshot();
      outputBuffer := outputBuffer + written;
      outputSize := SizeSub(outputSize, written);
      if outputSize > 0 {
        assert Snapshot() == c.(outputBuffer := c.outputBuffer + written, outputSize := SizeSub(c.outputSize, written));
        Enqueue(priority, lockTimeout, queueOk);
        if !queueOk {
          log := log + [WriteCallback(IoFault)];
        }
        return;
      }
      log := log + [WriteCallback(IoSuccess)];
    }

    method ReadRequest(replyTimeoutMs: nat, readTimeoutMs: nat, expected: int, async: bool, queueOk: bool)
      returns (ok: bool)
      modifies this
      ensures var s := AsynSteps.ReadRequest(old(Snapshot()), replyTimeoutMs, readTimeoutMs, expected, async, queueOk);
        ok == s.ok && Snapshot() == s.next && log == old(log)
    {
      ghost var c := Snapshot();
      readTimeout := readTimeoutMs;
      replyTimeout := replyTimeoutMs;
      expectedLength := expected;
      var queueTimeout;
      if async {
        ioAction := AsyncRead;
        queueTimeout := Ms(0);
      } else {
        ioAction := Read;
        queueTimeout := Ms(replyTimeoutMs);
      }
      assert Snapshot() == c.(readTimeout := readTimeoutMs, replyTimeout := replyTimeoutMs,
                              expectedLength := expected, ioAction := ioAction);
      Enqueue(priority, queueTimeout, queueOk);
      ok := queueOk || async;
    }

    /** The end-of-message fallback of readHandler: setInputEos is tried on
        ever shorter suffixes until one is accepted or none is left. */
    method FallBackEos(accepts: (int, int) -> bool)
      modifies bus
      ensures var k := EosDrops(accepts, old(bus.eos), old(bus.eoslen));
        Snapshot() == old(Snapshot()).(eos := old(bus.eos) + k, eoslen := old(bus.eoslen) - k)
    {
      ghost var e0, l0 := bus.eos, bus.eoslen;
      while bus.eoslen >= 0
        invariant bus.eoslen == l0 - (bus.eos - e0)
        invariant EosDrops(accepts, e0, l0) == (bus.eos - e0) + EosDrops(accepts, bus.eos, bus.eoslen)
        decreases bus.eoslen + 1
      {
        if accepts(bus.eos, bus.eoslen) {
          break;
        }
        bus.eos := bus.eos + 1;
        bus.eoslen := bus.eoslen - 1;
      }
    }

    /** readHandler: the end-of-message fallback, the buffer sizing and the
        read loop; `calls` are the asynOctet read calls made, `finished`
        whether the loop ended by itself before the results ran out. */
    method ReadHandler(accepts: (int, int) -> bool, turns: seq<ReadTurn>)
      returns (calls: seq<ReadCall>, finished: bool)
      modifies this, bus
      ensures var run := AsynRead.ReadHandler(old(Snapshot()), accepts, turns);
        Snapshot() == run.next && log == old(log) + run.emitted &&
        calls == run.calls && finished == run.finished
    {
      FallBackEos(accepts);
      var async, bytesToRead, timeout := SizeBuffer();
      assert Snapshot() == ReadSetup(old(Snapshot()), accepts);
      calls, finished := ReadCalls(async, turns, bytesToRead, timeout);
    }

    /** The buffer sizing of readHandler: the buffer is reserved for the
        expected length (or its whole capacity), the first call asks for
        the expected length only when peeking is off, and an asynchronous
        read polls without waiting. */
    method SizeBuffer() returns (async: bool, bytesToRead: int, timeout: nat)
      modifies this
      ensures async == (old(ioAction) == AsyncRead)
      ensures bytesToRead == FirstReadSize(peeksize, expectedLength)
      ensures timeout == if async then 0 else replyTimeout
      ensures var bufferSize := if old(expectedLength) > 0 then old(expectedLength) else old(capacity) - 1;
        Snapshot() == old(Snapshot()).(capacity := Reserve(old(capacity), bufferSize), ioAction := Read) &&
        log == old(log)
    {
      async := ioAction == AsyncRead;
      bytesToRead := peeksize;
      var bufferSize;
      if expectedLength > 0 {
        bufferSize := expectedLength;
        if peeksize > 1 {
          bytesToRead := expectedLength;
        }
      } else {
        bufferSize := capacity - 1;
      }
      capacity := Reserve(capacity, bufferSize);
      timeout := if async then 0 else replyTimeout;
      ioAction := Read;
    }

    /** The read loop of readHandler, from the first call of `size` bytes
        with `firstTimeout` on: the passes after which reading goes on,
        then the pass that ends the loop, if the results do not run out
        first. */
    method ReadCalls(async: bool, turns: seq<ReadTurn>, size: int, firstTimeout: nat)
      returns (calls: seq<ReadCall>, finished: bool)
      requires ioAction == Read
      modifies this
      ensures var run := ReadLoop(old(Snapshot()), async, turns, size, firstTimeout, true);
        Snapshot() == run.next && log == old(log) + run.emitted &&
        calls == run.calls && finished == run.finished
    {
      ghost var start := Snapshot();
      var i, bytesToRead, timeout, waitForReply;
      ghost var emitted;
      i, calls, bytesToRead, timeout, waitForReply, emitted := ContinuingPasses(async, turns, size, firstTimeout);
      log := log + emitted;
      assert Snapshot() == start;
      if i == |turns| {
        assert turns[i..] == [];
        return calls, false;
      }
      assert turns[i..][0] == turns[i];
      calls := calls + [ReadCall(bytesToRead, timeout)];
      var _, _, _ := ReadOnce(async, turns[i], bytesToRead, waitForReply);
      finished := true;
    }

    /** The passes of the read loop after which reading goes on: each
        reports its result and asks for the next chunk, and none changes a
        field. They stop at the first result that ends the loop. */
    method ContinuingPasses(async: bool, turns: seq<ReadTurn>, size: int, firstTimeout: nat)
      returns (i: nat, calls: seq<ReadCall>, bytesToRead: int, timeout: nat, waitForReply: bool,
               ghost emitted: seq<Callback>)
      ensures i <= |turns|
      ensures i < |turns| ==> !Continues(turns[i], waitForReply, async)
      ensures RunSplit(ReadLoop(Snapshot(), async, turns, size, firstTimeout, true), emitted, calls,
                       ReadLoop(Snapshot(), async, turns[i..], bytesToRead, timeout, waitForReply))
    {
      ghost var c := Snapshot();
      var bufferCapacity: int, nextTimeout: nat := capacity, readTimeout;
      assert bufferCapacity == c.capacity && nextTimeout == c.readTimeout;
      ghost var whole := ReadLoop(c, async, turns, size, firstTimeout, true);
      emitted, calls := [], [];
      bytesToRead, timeout, waitForReply := size, firstTimeout, true;
      i := 0;
      assert turns[i..] == turns;
      while i < |turns| && Continues(turns[i], waitForReply, async)
        invariant i <= |turns|
        invariant RunSplit(whole, emitted, calls, ReadLoop(c, async, turns[i..], bytesToRead, timeout, waitForReply))
      {
        var t := turns[i];
        ContinuingPass(c, async, turns, i, bytesToRead, timeout, waitForReply, whole, emitted, calls);
        calls := calls + [ReadCall(bytesToRead, timeout)];
        emitted := emitted + [ReadCallback(ReadStatus(t, waitForReply), t.received)];
        bytesToRead := NextReadSize(t.readMore, bufferCapacity);
        timeout := nextTimeout;
        waitForReply := false;
        i := i + 1;
      }
    }

    /** One pass of the read loop, for the result `t` of a call of
        `bytesToRead` bytes. */
    method ReadOnce(async: bool, t: ReadTurn, bytesToRead: int, waitForReply: bool)
      returns (stop: bool, nextSize: int, ghost cbs: seq<Callback>)
      requires ioAction == Read
      modifies this
      ensures var p := ReadPass(old(Snapshot()), async, t, bytesToRead, waitForReply);
        stop == p.stop && nextSize == p.nextSize && Snapshot() == p.next && cbs == p.emitted
      ensures log == old(log) + cbs
    {
      nextSize := 0;
      if async && waitForReply && t.status == AsynTimeout && t.received == 0 {
        // no input to a poll: the poll timer takes over
        AwaitNextPoll();
        return true, nextSize, [];
      }
      var cb, readMore := ReadResult(t, waitForReply, bytesToRead);
      cbs := [cb];
      if readMore == 0 {
        return true, nextSize, cbs;
      }
      nextSize := if readMore > 0 then readMore else capacity - 1;
      stop := false;
    }

    /** One result of asynOctet read that is not a poll without input: the
        callback it produces and the client's readMore; an overflow grows
        the input buffer. */
    method ReadResult(t: ReadTurn, waitForReply: bool, bytesToRead: int) returns (cb: Callback, readMore: int)
      modifies this
      ensures cb == ReadCallback(ReadStatus(t, waitForReply), t.received)
      ensures readMore == if t.status == AsynSuccess || t.status == AsynTimeout then t.readMore else 0
      ensures t.status == AsynOverflow ==>
        var grown := Reserve(old(capacity), if bytesToRead == 1 then PEEK_OVERFLOW_RESERVE else 2 * old(capacity));
        Snapshot() == old(Snapshot()).(capacity := grown, peeksize := grown)
      ensures t.status != AsynOverflow ==> Snapshot() == old(Snapshot())
      ensures log == old(log) + [cb]
    {
      readMore := 0;
      match t.status {
        case AsynSuccess =>
          readMore := t.readMore;
          cb := ReadCallback(if t.eom then IoEnd else IoSuccess, t.received);
        case AsynTimeout =>
          readMore := t.readMore;
          if t.received == 0 && waitForReply {
            cb := ReadCallback(IoNoReply, 0);
          } else {
            cb := ReadCallback(IoTimeout, t.received);
          }
        case AsynOverflow =>
          if bytesToRead == 1 {
            capacity := Reserve(capacity, PEEK_OVERFLOW_RESERVE);
          } else {
            capacity := Reserve(capacity, capacity * 2);
          }
          peeksize := capacity;
          cb := ReadCallback(IoFault, t.received);
        case AsynError =>
          cb := ReadCallback(IoFault, t.received);
      }
      log := log + [cb];
    }

    /** A poll found no input: back to AsyncRead, and the poll timer is
        started unless the reply timeout is zero. */
    method AwaitNextPoll()
      modifies this
      ensures Snapshot() == old(Snapshot()).(ioAction := AsyncRead,
        timer := if replyTimeout != 0 then Armed(replyTimeout) else old(timer))
      ensures log == old(log)
    {
      ioAction := AsyncRead;
      if replyTimeout != 0 {
        timer := Armed(replyTimeout);
      }
    }

    /** intrCallbackOctet: unsolicited input, taken only while a poll or an
        async read is pending. */
    method IntrCallbackOctet(received: nat, readMore: int)
      modifies this
      ensures var s := AsynSteps.OctetInterrupt(old(Snapshot()), received, readMore);
        Snapshot() == s.next && log == old(log) + s.emitted
    {
      if ioAction == AsyncRead || ioAction == AsyncReadMore {
        ioAction := AsyncReadCancelled;
        timer := Idle;
        AsynReadHandler(received, readMore);
      }
    }

    method AsynReadHandler(received: nat, readMore: int)
      modifies this
      ensures var s := AsynSteps.AsynReadHandler(old(Snapshot()), received, readMore);
        Snapshot() == s.next && log == old(log) + s.emitted
    {
      var more := 1;
      if received > 0 {
        log := log + [ReadCallback(IoSuccess, received)];
        more := readMore;
      }
      if more != 0 {
        ioAction := AsyncReadMore;
        timer := Armed(readTimeout);
      } else {
        ioAction := AsyncRead;
        timer := Armed(replyTimeout);
      }
    }

    method AcceptEvent(mask: bv64, replyTimeoutMs: nat) returns (ok: bool)
      modifies this
      ensures var s := AsynSteps.AcceptEvent(old(Snapshot()), mask, replyTimeoutMs);
        ok == s.ok && Snapshot() == s.next && log == old(log) + s.emitted
    {
      if Meets(receivedEvent, mask) {
        receivedEvent := 0;
        log := log + [EventCallback(IoSuccess)];
        return true;
      }
      eventMask := mask;
      ioAction := ReceiveEvent;
      timer := Armed(replyTimeoutMs);
      return true;
    }

    /** intrCallbackInt32 and intrCallbackUInt32 after the conversion of the
        value to unsigned long. */
    method EventCallbackValue(data: bv64)
      modifies this
      ensures var s := AsynSteps.EventInterrupt(old(Snapshot()), data);
        Snapshot() == s.next && log == old(log) + s.emitted
    {
      if eventMask != 0 {
        if Meets(data, eventMask) {
          eventMask := 0;
          log := log + [EventCallback(IoSuccess)];
        }
        return;
      }
      receivedEvent := data;
    }

    method IntrCallbackInt32(data: Word32)
      modifies this
      ensures var s := AsynSteps.EventInterrupt(old(Snapshot()), Int32ToEvent(data));
        Snapshot() == s.next && log == old(log) + s.emitted
    {
      EventCallbackValue(Int32ToEvent(data));
    }

    method IntrCallbackUInt32(data: Word32)
      modifies this
      ensures var s := AsynSteps.EventInterrupt(old(Snapshot()), UInt32ToEvent(data));
        Snapshot() == s.next && log == old(log) + s.emitted
    {
      EventCallbackValue(UInt32ToEvent(data));
    }

    /** timerExpired; autoConnect and connected are what asynManager answers. */
    method TimerExpired(autoConnect: bool, connected: bool, queueOk: bool)
      modifies this
      ensures var s := AsynSteps.TimerExpired(old(Snapshot()), autoConnect, connected, queueOk);
        Snapshot() == s.next && log == old(log) + s.emitted
    {
      timer := Idle;
      ghost var c := Snapshot();
      match ioAction {
        case ReceiveEvent =>
          ioAction := None;
          log := log + [EventCallback(IoTimeout)];
        case AsyncReadMore =>
          log := log + [ReadCallback(IoTimeout, 0)];
          ioAction := AsyncRead;
          timer := Armed(replyTimeout);
        case AsyncRead =>
          if autoConnect && !connected {
            timer := Armed(replyTimeout);
          } else {
            assert Snapshot() == c;
            Enqueue(QUEUE_PRIORITY_LOW, Ms(replyTimeout), queueOk);
          }
        case _ =>
      }
    }

    method ConnectRequest(connectTimeoutMs: nat, queueOk: bool) returns (ok: bool)
      modifies this
      ensures var s := AsynSteps.ConnectRequest(old(Snapshot()), connectTimeoutMs, queueOk);
        ok == s.ok && Snapshot() == s.next && log == old(log)
    {
      ioAction := Connect;
      Enqueue(QUEUE_PRIORITY_CONNECT, Ms(connectTimeoutMs), queueOk);
      ok := queueOk;
    }

    method ConnectHandler(connectOk: bool)
      modifies this
      ensures var s := AsynSteps.ConnectHandler(old(Snapshot()), connectOk);
        Snapshot() == s.next && log == old(log) + s.emitted
    {
      if !connectOk {
        log := log + [ConnectCallback(IoFault)];
        return;
      }
      log := log + [ConnectCallback(IoSuccess)];
    }

    method Disconnect(queueOk: bool) returns (ok: bool)
      modifies this
      ensures var s := AsynSteps.DisconnectRequest(old(Snapshot()), queueOk);
        ok == s.ok && Snapshot() == s.next && log == old(log)
    {
      ioAction := IoAction.Disconnect;
      Enqueue(QUEUE_PRIORITY_CONNECT, Ms(0), queueOk);
      ok := queueOk;
    }

    method CancelAll()
      modifies this
      ensures var s := AsynSteps.CancelAll(old(Snapshot()));
        Snapshot() == s.next && log == old(log)
    {
      timer := Idle;
      queued := NotQueued;
    }

    /** handleRequest: the turn queued earlier is granted. */
    method HandleRequest(tr: Transport)
      modifies this, bus
      ensures var s := AsynSteps.HandleRequest(old(Snapshot()), tr);
        Snapshot() == s.next && log == old(log) + s.emitted
    {
      queued := NotQueued;
      match ioAction {
        case Lock => LockHandler();
        case Write => WriteHandler(tr.flushOk, tr.write, tr.requeueOk);
        case AsyncRead =>
          var _, _ := ReadHandler(tr.accepts, tr.turns);
        case Read =>
          var _, _ := ReadHandler(tr.accepts, tr.turns);
        case Connect => ConnectHandler(tr.connectOk);
        case Disconnect =>
        case _ =>
      }
    }

    /** handleTimeout: the queued turn was not granted in time. */
    method HandleTimeout()
      modifies this
      ensures var s := AsynSteps.HandleTimeout(old(Snapshot()));
        Snapshot() == s.next && log == old(log) + s.emitted
    {
      queued := NotQueued;
      match ioAction {
        case Lock => log := log + [LockCallback(IoTimeout)];
        case Write => log := log + [WriteCallback(IoTimeout)];
        case Read => log := log + [ReadCallback(IoFault, 0)];
        case AsyncRead => timer := Armed(replyTimeout);
        case Connect => log := log + [ConnectCallback(IoTimeout)];
        case _ =>
      }
    }
  }
}
