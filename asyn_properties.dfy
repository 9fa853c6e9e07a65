/** Properties that span several entry points of an asyn channel: partial
    writes over continuation turns, early and late events, the race between
    unsolicited input and the poll timer, which callback each turn can
    produce, and the concrete exchanges a StreamDevice protocol performs. */
module AsynProperties {
  import opened StreamBusInterface
  import opened AsynState
  import opened AsynRead
  import opened AsynSteps

  // ---------------------------------------------------------------------
  // Partial writes

  /** The total of a sequence of byte counts. */
  function Sum(ws: seq<SizeT>): (s: int)
    ensures s >= 0
    ensures |ws| > 0 ==> s >= ws[0]
    decreases |ws|
  {
    if |ws| == 0 then 0 else ws[0] + Sum(ws[1..])
  }

  /** A granted turn in which the flush and writeRaw succeed, writeRaw
      writing `written` bytes, and any re-queue is accepted. */
  function WriteTransport(written: SizeT): Transport
  {
    Transport(true, WriteReply(AsynSuccess, written), true, (addr: int, len: int) => true, [], true)
  }

  /** Successive write turns, the k-th writing written[k] bytes, up to the
      first turn that reports to the client. */
  function WriteTurns(c: Channel, written: seq<SizeT>): Step
    decreases |written|
  {
    if |written| == 0 then Step(true, c, [])
    else
      var s := HandleRequest(c, WriteTransport(written[0]));
      if s.emitted != [] then s else WriteTurns(s.next, written[1..])
  }

  /** However the device splits a write, the buffer cursor advances by
      exactly the bytes written and the remaining size drops by as much;
      success is reported once, and only when every byte of the request has
      been written; until then each turn re-queues with the lock timeout and
      reports nothing. */
  lemma {:induction false} PartialWritesDeliverWholeBuffer(c: Channel, written: seq<SizeT>)
    requires c.ioAction == Write
    requires |written| > 0
    requires Sum(written) <= c.outputSize
    ensures var r := WriteTurns(c, written);
      (r.emitted == [WriteCallback(IoSuccess)] <==> Sum(written) == c.outputSize) &&
      (Sum(written) < c.outputSize ==>
        r.emitted == [] && r.next.queued == Queued(QueueRequest(c.priority, c.lockTimeout))) &&
      r.next.outputBuffer == c.outputBuffer + Sum(written) &&
      r.next.outputSize == c.outputSize - Sum(written) &&
      r.next.receivedEvent == 0
    decreases |written|
  {
    var w := written[0];
    var s := HandleRequest(c, WriteTransport(w));
    assert Sum(written) == w + Sum(written[1..]);
    if w == c.outputSize {
      assert s.emitted == [WriteCallback(IoSuccess)];
    } else {
      assert s.emitted == [];
      assert s.next.ioAction == Write && s.next.outputSize == c.outputSize - w;
      assert s.next.priority == c.priority && s.next.lockTimeout == c.lockTimeout;
      if |written| > 1 {
        PartialWritesDeliverWholeBuffer(s.next, written[1..]);
      }
    }
  }

  /** writeRequest("ACK\n", 4 bytes, 1000 ms) to a device that takes all four
      bytes at once: exactly one success, no continuation turn queued. */
  lemma AckWrittenInOneTurn(c: Channel, ack: int)
    ensures var q := WriteRequest(c, ack, 4, 1000, true);
      var h := HandleRequest(q.next, WriteTransport(4));
      q.ok && q.next.queued == Queued(QueueRequest(c.priority, Ms(1000))) &&
      q.emitted + h.emitted == [WriteCallback(IoSuccess)] &&
      h.next.queued == NotQueued && h.next.outputSize == 0 && h.next.outputBuffer == ack + 4
  {
  }

  /** The same four bytes taken two at a time: the first turn re-queues, the
      second reports the one success. */
  lemma AckWrittenInTwoTurns(c: Channel, ack: int)
    ensures var q := WriteRequest(c, ack, 4, 1000, true);
      var first := HandleRequest(q.next, WriteTransport(2));
      var second := HandleRequest(first.next, WriteTransport(2));
      first.emitted == [] && first.next.queued == Queued(QueueRequest(c.priority, c.lockTimeout)) &&
      second.emitted == [WriteCallback(IoSuccess)] && second.next.outputBuffer == ack + 4
  {
  }

  /** A write turn asynManager never grants ends in a write timeout. */
  lemma WriteQueueTimeout(c: Channel, output: int, size: SizeT, ms: nat)
    ensures var q := WriteRequest(c, output, size, ms, true);
      HandleTimeout(q.next).emitted == [WriteCallback(IoTimeout)]
  {
  }

  // ---------------------------------------------------------------------
  // Events

  /** Two events that arrive before any wait is armed: only the second is
      kept, and a later acceptEvent succeeds at once exactly when the second
      meets its mask. */
  lemma LatchedEventLastWins(c: Channel, v1: bv64, v2: bv64, mask: bv64, ms: nat)
    requires c.eventMask == 0
    ensures var e1 := EventInterrupt(c, v1);
      var e2 := EventInterrupt(e1.next, v2);
      var a := AcceptEvent(e2.next, mask, ms);
      e1.emitted == [] && e2.emitted == [] && e2.next.receivedEvent == v2 &&
      (Meets(v2, mask) ==> a.emitted == [EventCallback(IoSuccess)] && a.next.receivedEvent == 0) &&
      (!Meets(v2, mask) ==> a.emitted == [] && a.next.ioAction == ReceiveEvent)
  {
    var e1 := EventInterrupt(c, v1);
    assert e1.next == c.(receivedEvent := v1) && e1.emitted == [];
    var e2 := EventInterrupt(e1.next, v2);
    assert e2.next == c.(receivedEvent := v2) && e2.emitted == [];
  }

  /** A 32-bit event as the Int32 interrupt delivers it: sign-extended, so a
      negative value meets every mask bit above bit 31. */
  lemma NegativeInt32EventMeetsHighMask(c: Channel, data: Word32)
    requires c.eventMask == 0xFFFF_FFFF_0000_0000
    requires data & 0x8000_0000 != 0
    ensures EventInterrupt(c, Int32ToEvent(data)).emitted == [EventCallback(IoSuccess)]
    ensures EventInterrupt(c, UInt32ToEvent(data)).emitted == []
  {
    assert Meets(Int32ToEvent(data), c.eventMask);
    assert !Meets(UInt32ToEvent(data), c.eventMask);
  }

  /** An event wait with no event arriving: the timer fires and exactly one
      timeout is reported. The mask stays armed and the latched value is
      untouched, so an event arriving later still produces a success
      callback for a wait that has already timed out. */
  lemma EventWaitTimesOut(c: Channel, mask: bv64, ms: nat, autoConnect: bool, connected: bool, queueOk: bool,
                          late: bv64)
    requires !Meets(c.receivedEvent, mask)
    requires Meets(late, mask)
    ensures var a := AcceptEvent(c, mask, ms);
      var t := TimerExpired(a.next, autoConnect, connected, queueOk);
      a.next.timer == Armed(ms) &&
      a.emitted + t.emitted == [EventCallback(IoTimeout)] &&
      t.next.ioAction == None && t.next.receivedEvent == c.receivedEvent &&
      t.next.eventMask == mask &&
      EventInterrupt(t.next, late).emitted == [EventCallback(IoSuccess)]
  {
  }

  /** An awaited event is reported, but neither the timer nor the action is
      reset: if the timer then fires before the client has moved on, the
      same wait is also reported as timed out. Once the client has issued a
      synchronous read the stale expiry does nothing. */
  lemma DeliveredEventLeavesTimerArmed(c: Channel, mask: bv64, ms: nat, v: bv64,
                                       autoConnect: bool, connected: bool, queueOk: bool,
                                       replyMs: nat, readMs: nat, expected: int)
    requires mask != 0 && !Meets(c.receivedEvent, mask) && Meets(v, mask)
    ensures var a := AcceptEvent(c, mask, ms);
      var e := EventInterrupt(a.next, v);
      var t := TimerExpired(e.next, autoConnect, connected, queueOk);
      e.next.timer == Armed(ms) && e.next.ioAction == ReceiveEvent &&
      a.emitted + e.emitted + t.emitted == [EventCallback(IoSuccess), EventCallback(IoTimeout)]
    ensures var e := EventInterrupt(AcceptEvent(c, mask, ms).next, v);
      var r := ReadRequest(e.next, replyMs, readMs, expected, false, true);
      TimerExpired(r.next, autoConnect, connected, queueOk).emitted == []
  {
    var a := AcceptEvent(c, mask, ms);
    assert a.emitted == [] && a.next == c.(eventMask := mask, ioAction := ReceiveEvent, timer := Armed(ms));
    var e := EventInterrupt(a.next, v);
    assert e.emitted == [EventCallback(IoSuccess)] && e.next == a.next.(eventMask := 0);
    var t := TimerExpired(e.next, autoConnect, connected, queueOk);
    assert t.emitted == [EventCallback(IoTimeout)];
  }

  /** Every write turn discards events latched before it. */
  lemma WriteTurnDropsLatchedEvent(c: Channel, v: bv64, tr: Transport, mask: bv64, ms: nat)
    requires c.eventMask == 0 && c.ioAction == Write
    requires Meets(v, mask)
    ensures var e := EventInterrupt(c, v);
      var h := HandleRequest(e.next, tr);
      e.next.receivedEvent == v && h.next.receivedEvent == 0 &&
      AcceptEvent(h.next, mask, ms).emitted == []
  {
  }

  // ---------------------------------------------------------------------
  // Unsolicited input and the poll timer

  /** Once input has been taken (the AsyncReadCancelled window), a timer
      expiry, a granted poll and a poll timeout all do nothing. */
  lemma CancelledTagSuppresses(c: Channel, tr: Transport, autoConnect: bool, connected: bool, queueOk: bool)
    requires c.ioAction == AsyncReadCancelled
    ensures TimerExpired(c, autoConnect, connected, queueOk) == Step(true, c.(timer := Idle), [])
    ensures HandleRequest(c, tr) == Step(true, c.(queued := NotQueued), [])
    ensures HandleTimeout(c) == Step(true, c.(queued := NotQueued), [])
  {
  }

  /** The race of intrCallbackOctet with the timer and with asynManager: a
      timer expiry, a granted poll or a poll timeout that slips in between
      setting AsyncReadCancelled and asynReadHandler reports nothing, and
      the input is handled exactly as if it had not happened (apart from a
      granted or timed-out poll leaving the queue). */
  lemma InputRaceWindowHarmless(c: Channel, received: nat, readMore: int, tr: Transport,
                                autoConnect: bool, connected: bool, queueOk: bool)
    requires AwaitsAsyncInput(c)
    ensures var w := CancelForInput(c);
      var t := TimerExpired(w, autoConnect, connected, queueOk);
      t.emitted == [] && AsynReadHandler(t.next, received, readMore) == OctetInterrupt(c, received, readMore)
    ensures var w := CancelForInput(c);
      var o := OctetInterrupt(c, received, readMore);
      var h := HandleRequest(w, tr);
      h.emitted == [] && AsynReadHandler(h.next, received, readMore) == o.(next := o.next.(queued := NotQueued))
    ensures var w := CancelForInput(c);
      var o := OctetInterrupt(c, received, readMore);
      var h := HandleTimeout(w);
      h.emitted == [] && AsynReadHandler(h.next, received, readMore) == o.(next := o.next.(queued := NotQueued))
  {
  }

  /** Unsolicited input while a poll or an async read is pending: it is
      handed to the client if non-empty; the channel then waits for more
      with the read timeout, or polls again after the reply timeout. */
  lemma AsyncInputOutcome(c: Channel, received: nat, readMore: int)
    requires AwaitsAsyncInput(c)
    ensures var o := OctetInterrupt(c, received, readMore);
      o.emitted == (if received > 0 then [ReadCallback(IoSuccess, received)] else []) &&
      (o.next.ioAction == AsyncReadMore <==> received == 0 || readMore != 0) &&
      (o.next.ioAction == AsyncReadMore ==> o.next.timer == Armed(c.readTimeout)) &&
      (o.next.ioAction != AsyncReadMore ==> o.next.ioAction == AsyncRead && o.next.timer == Armed(c.replyTimeout))
  {
  }

  /** Input followed by silence: the input is reported, then the read
      timeout is reported with no data and polling resumes. */
  lemma AsyncInputThenSilence(c: Channel, received: nat, readMore: int,
                              autoConnect: bool, connected: bool, queueOk: bool)
    requires AwaitsAsyncInput(c)
    requires received > 0 && readMore != 0
    ensures var o := OctetInterrupt(c, received, readMore);
      var t := TimerExpired(o.next, autoConnect, connected, queueOk);
      o.emitted + t.emitted == [ReadCallback(IoSuccess, received), ReadCallback(IoTimeout, 0)] &&
      t.next.ioAction == AsyncRead && t.next.timer == Armed(c.replyTimeout)
  {
  }

  /** The polling cycle: a poll that finds nothing arms the poll timer; its
      expiry queues the next poll at low priority, or, when the port was
      disconnected on purpose, only re-arms the timer. */
  lemma PollCycle(c: Channel, tr: Transport)
    requires c.ioAction == AsyncRead && c.replyTimeout > 0
    requires |tr.turns| > 0 && tr.turns[0].status == AsynTimeout && tr.turns[0].received == 0
    ensures var h := HandleRequest(c, tr);
      var t := TimerExpired(h.next, false, true, true);
      h.emitted == [] && h.next.ioAction == AsyncRead && h.next.timer == Armed(c.replyTimeout) &&
      t.emitted == [] && t.next.ioAction == AsyncRead &&
      t.next.queued == Queued(QueueRequest(QUEUE_PRIORITY_LOW, Ms(c.replyTimeout)))
    ensures var h := HandleRequest(c, tr);
      var t := TimerExpired(h.next, true, false, true);
      t.emitted == [] && t.next.timer == Armed(c.replyTimeout) && t.next.queued == NotQueued
  {
    PollWithoutInput(c.(queued := NotQueued), tr.accepts, tr.turns);
  }

  /** While a read turn runs the action is Read, so unsolicited input is
      ignored. */
  lemma ReadTurnIgnoresInput(c: Channel, accepts: (int, int) -> bool, received: nat, readMore: int)
    ensures var s := ReadSetup(c, accepts);
      OctetInterrupt(s, received, readMore) == Step(true, s, [])
  {
  }

  /** cancelAll stops the timer and withdraws the queued request, so no
      turn, turn timeout or timer expiry follows; it does not unregister the
      interrupt callbacks, so a pending poll still takes input and an armed
      event mask still reports. */
  lemma CancelAllLeavesInterruptsOpen(c: Channel, received: nat)
    requires received > 0
    ensures var x := CancelAll(c).next;
      x.timer == Idle && x.queued == NotQueued
    ensures c.ioAction == AsyncRead ==>
      OctetInterrupt(CancelAll(c).next, received, 0).emitted == [ReadCallback(IoSuccess, received)]
    ensures c.eventMask != 0 ==>
      EventInterrupt(CancelAll(c).next, c.eventMask).emitted == [EventCallback(IoSuccess)]
  {
  }

  // ---------------------------------------------------------------------
  // Which callback a turn produces

  /** Whether a callback is the one the client expects for an action. */
  predicate Answers(cb: Callback, a: IoAction)
  {
    match cb
    case LockCallback(_) => a == Lock
    case WriteCallback(_) => a == Write
    case ReadCallback(_, _) => a == Read || a == AsyncRead
    case EventCallback(_) => false
    case ConnectCallback(_) => a == Connect
  }

  /** A granted turn only ever answers the action it was queued for, with
      at most one callback except for a read, and with exactly one for a
      lock or a connect. */
  lemma HandleRequestAnswersAction(c: Channel, tr: Transport)
    ensures var h := HandleRequest(c, tr);
      forall k :: 0 <= k < |h.emitted| ==> Answers(h.emitted[k], c.ioAction)
    ensures c.ioAction != Read && c.ioAction != AsyncRead ==> |HandleRequest(c, tr).emitted| <= 1
    ensures c.ioAction == Lock || c.ioAction == Connect ==> |HandleRequest(c, tr).emitted| == 1
  {
    if c.ioAction == Read || c.ioAction == AsyncRead {
      var s := ReadSetup(c.(queued := NotQueued), tr.accepts);
      var async := c.ioAction == AsyncRead;
      ReadLoopCallbacks(s, async, tr.turns, FirstReadSize(c.peeksize, c.expectedLength),
                        if async then 0 else c.replyTimeout, true);
    }
  }

  /** A turn that is never granted answers a lock, a write, a read or a
      connect with exactly one callback of its kind, and nothing else. */
  lemma HandleTimeoutAnswersAction(c: Channel)
    ensures var h := HandleTimeout(c);
      |h.emitted| <= 1 && (forall k :: 0 <= k < |h.emitted| ==> Answers(h.emitted[k], c.ioAction))
    ensures c.ioAction in {Lock, Write, Read, Connect} <==> |HandleTimeout(c).emitted| == 1
  {
  }

  // ---------------------------------------------------------------------
  // Lock, connect and disconnect

  /** A lock that is granted blocks the port for other users until unlock;
      one that times out reports the timeout. */
  lemma LockThenUnlock(c: Channel, ms: nat, connectOk: bool, tr: Transport)
    requires ms > 0 || connectOk
    ensures var l := LockRequest(c, ms, connectOk, true);
      var h := HandleRequest(l.next, tr);
      l.ok && h.emitted == [LockCallback(IoSuccess)] && h.next.blocked && !Unlock(h.next).next.blocked
    ensures var l := LockRequest(c, ms, connectOk, true);
      HandleTimeout(l.next).emitted == [LockCallback(IoTimeout)]
  {
  }

  /** A lock without a timeout fails at once when the port cannot be
      connected, and then nothing is queued. */
  lemma BlockingLockNeedsConnection(c: Channel, queueOk: bool)
    ensures var l := LockRequest(c, 0, false, queueOk);
      !l.ok && l.next.queued == c.queued && l.next.lockTimeout == Forever
  {
  }

  /** A connect turn reports the connect result, a connect that is never
      granted a timeout; a disconnect reports nothing either way. */
  lemma ConnectAndDisconnectTurns(c: Channel, ms: nat, tr: Transport)
    ensures var q := ConnectRequest(c, ms, true);
      HandleRequest(q.next, tr).emitted == [ConnectCallback(if tr.connectOk then IoSuccess else IoFault)] &&
      HandleTimeout(q.next).emitted == [ConnectCallback(IoTimeout)]
    ensures var d := DisconnectRequest(c, true);
      HandleRequest(d.next, tr).emitted == [] && HandleTimeout(d.next).emitted == []
  {
  }

  /** The buffer and peek size tune themselves: once a one-byte peek has
      overflowed, the next turn, started by a readRequest that expects a
      known length, reads that length in one call instead of peeking. */
  lemma PeekOverflowStopsPeeking(c: Channel, accepts: (int, int) -> bool, turns: seq<ReadTurn>,
                                 replyTimeoutMs: nat, readTimeoutMs: nat, expected: int, queueOk: bool,
                                 accepts2: (int, int) -> bool, turns2: seq<ReadTurn>)
    requires c.ioAction == Read && c.peeksize == 1
    requires |turns| > 0 && turns[0].status == AsynOverflow
    requires expected > 0 && |turns2| > 0
    ensures var c' := ReadHandler(c, accepts, turns).next;
      var q := ReadRequest(c', replyTimeoutMs, readTimeoutMs, expected, false, queueOk);
      var run := ReadHandler(q.next, accepts2, turns2);
      c'.peeksize >= 100 &&
      run.calls[0] == ReadCall(expected, replyTimeoutMs)
  {
    var c' := ReadHandler(c, accepts, turns).next;
    FirstCall(ReadRequest(c', replyTimeoutMs, readTimeoutMs, expected, false, queueOk).next, accepts2, turns2);
  }

  // ---------------------------------------------------------------------
  // A synchronous read

  /** readRequest(500 ms reply, 200 ms read, no expected length) whose first
      call returns three bytes with end of message, the client wanting no
      more: one call of peeksize bytes with the reply timeout, exactly one
      End callback with the three bytes, and the loop ends. A read turn that
      is never granted is reported as a fault with no data. */
  lemma ThreeByteReply(c: Channel, accepts: (int, int) -> bool)
    ensures var q := ReadRequest(c, 500, 200, -1, false, true);
      var run := ReadHandler(q.next, accepts, [ReadTurn(AsynSuccess, 3, true, 0)]);
      q.ok && run.emitted == [ReadCallback(IoEnd, 3)] && run.finished &&
      run.calls == [ReadCall(c.peeksize, 500)] && run.next.ioAction == Read
    ensures var q := ReadRequest(c, 500, 200, -1, false, true);
      HandleTimeout(q.next).emitted == [ReadCallback(IoFault, 0)]
  {
  }
}
