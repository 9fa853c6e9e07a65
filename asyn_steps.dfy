/** Every entry point of an asyn channel as a transition on the Channel
    value: the client's requests, the handlers asynManager runs when it
    grants a turn or gives up waiting, the interrupt callbacks and the timer.
    Results of calls into asyn are parameters. */
module AsynSteps {
  import opened StreamBusInterface
  import opened AsynState
  import opened AsynRead

  // ---------------------------------------------------------------------
  // Requests made by the client

  /** lockRequest: a lock timeout of 0 means "wait without bound" and first
      connects the port (connectOk is the result of that attempt). */
  function LockRequest(c: Channel, lockTimeoutMs: nat, connectOk: bool, queueOk: bool): (r: Step)
    ensures r.emitted == []
    ensures r.next.lockTimeout == if lockTimeoutMs == 0 then Forever else Ms(lockTimeoutMs)
    ensures r.ok <==> (lockTimeoutMs != 0 || connectOk) && queueOk
    ensures r.ok ==>
      r.next.ioAction == Lock && r.next.queued == Queued(QueueRequest(c.priority, r.next.lockTimeout))
    ensures lockTimeoutMs != 0 || connectOk ==> r.next.ioAction == Lock
    ensures lockTimeoutMs == 0 && !connectOk ==> r.next == c.(lockTimeout := Forever)
    ensures !queueOk ==> r.next.queued == c.queued
    ensures r.next == c.(lockTimeout := r.next.lockTimeout, ioAction := r.next.ioAction, queued := r.next.queued)
  {
    var timeout := if lockTimeoutMs == 0 then Forever else Ms(lockTimeoutMs);
    var c1 := c.(lockTimeout := timeout);
    if lockTimeoutMs == 0 && !connectOk then Step(false, c1, [])
    else Step(queueOk, Queue(c1.(ioAction := Lock), c.priority, timeout, queueOk), [])
  }

  /** unlock: releases the block taken by the lock handler; cannot fail. */
  function Unlock(c: Channel): (r: Step)
    ensures r.ok && !r.next.blocked && r.emitted == []
    ensures r.next.(blocked := c.blocked) == c
  {
    Step(true, c.(blocked := false), [])
  }

  /** writeRequest: remembers the caller's buffer (it is not copied) and
      queues a write turn with the write timeout. */
  function WriteRequest(c: Channel, output: int, size: SizeT, writeTimeoutMs: nat, queueOk: bool): (r: Step)
    ensures r.ok == queueOk && r.emitted == []
    ensures r.next.ioAction == Write && r.next.outputBuffer == output && r.next.outputSize == size
    ensures queueOk ==> r.next.queued == Queued(QueueRequest(c.priority, Ms(writeTimeoutMs)))
    ensures !queueOk ==> r.next.queued == c.queued
    ensures r.next == c.(outputBuffer := output, outputSize := size, writeTimeout := writeTimeoutMs,
                         ioAction := Write, queued := r.next.queued)
  {
    var c1 := c.(outputBuffer := output, outputSize := size, writeTimeout := writeTimeoutMs, ioAction := Write);
    Step(queueOk, Queue(c1, c.priority, Ms(writeTimeoutMs), queueOk), [])
  }

  /** readRequest: a synchronous read queues with the reply timeout; an
      asynchronous one queues an immediate poll and reports success even if
      queueing fails. */
  function ReadRequest(c: Channel, replyTimeoutMs: nat, readTimeoutMs: nat, expectedLength: int,
                       async: bool, queueOk: bool): (r: Step)
    ensures r.ok == (queueOk || async) && r.emitted == []
    ensures r.next.ioAction == if async then AsyncRead else Read
    ensures r.next.replyTimeout == replyTimeoutMs && r.next.readTimeout == readTimeoutMs
    ensures r.next.expectedLength == expectedLength
    ensures queueOk ==> r.next.queued == Queued(QueueRequest(c.priority, Ms(if async then 0 else replyTimeoutMs)))
    ensures !queueOk ==> r.next.queued == c.queued
    ensures r.next == c.(readTimeout := readTimeoutMs, replyTimeout := replyTimeoutMs,
                         expectedLength := expectedLength, ioAction := r.next.ioAction, queued := r.next.queued)
  {
    var action := if async then AsyncRead else Read;
    var c1 := c.(readTimeout := readTimeoutMs, replyTimeout := replyTimeoutMs,
                 expectedLength := expectedLength, ioAction := action);
    Step(queueOk || async, Queue(c1, c.priority, Ms(if async then 0 else replyTimeoutMs), queueOk), [])
  }

  /** acceptEvent: an event latched earlier that matches the mask is consumed
      at once with one success callback, leaving the action and the timer
      alone; otherwise the mask is armed and the reply timer started. */
  function AcceptEvent(c: Channel, mask: bv64, replyTimeoutMs: nat): (r: Step)
    ensures r.ok
    ensures Meets(c.receivedEvent, mask) ==>
      r.emitted == [EventCallback(IoSuccess)] && r.next.receivedEvent == 0 &&
      r.next.(receivedEvent := c.receivedEvent) == c
    ensures !Meets(c.receivedEvent, mask) ==>
      r.emitted == [] && r.next.eventMask == mask && r.next.ioAction == ReceiveEvent &&
      r.next.timer == Armed(replyTimeoutMs) && r.next.receivedEvent == c.receivedEvent
    ensures r.next == c.(eventMask := r.next.eventMask, ioAction := r.next.ioAction, timer := r.next.timer,
                         receivedEvent := r.next.receivedEvent)
  {
    if Meets(c.receivedEvent, mask) then
      Step(true, c.(receivedEvent := 0), [EventCallback(IoSuccess)])
    else
      Step(true, c.(eventMask := mask, ioAction := ReceiveEvent, timer := Armed(replyTimeoutMs)), [])
  }

  /** connectRequest: queued at connect priority with the connect timeout. */
  function ConnectRequest(c: Channel, connectTimeoutMs: nat, queueOk: bool): (r: Step)
    ensures r.ok == queueOk && r.emitted == [] && r.next.ioAction == Connect
    ensures queueOk ==> r.next.queued == Queued(QueueRequest(QUEUE_PRIORITY_CONNECT, Ms(connectTimeoutMs)))
    ensures !queueOk ==> r.next.queued == c.queued
    ensures r.next == c.(ioAction := r.next.ioAction, queued := r.next.queued)
  {
    Step(queueOk, Queue(c.(ioAction := Connect), QUEUE_PRIORITY_CONNECT, Ms(connectTimeoutMs), queueOk), [])
  }

  /** disconnect: queued at connect priority with no wait. */
  function DisconnectRequest(c: Channel, queueOk: bool): (r: Step)
    ensures r.ok == queueOk && r.emitted == [] && r.next.ioAction == Disconnect
    ensures queueOk ==> r.next.queued == Queued(QueueRequest(QUEUE_PRIORITY_CONNECT, Ms(0)))
    ensures !queueOk ==> r.next.queued == c.queued
    ensures r.next == c.(ioAction := r.next.ioAction, queued := r.next.queued)
  {
    Step(queueOk, Queue(c.(ioAction := Disconnect), QUEUE_PRIORITY_CONNECT, Ms(0), queueOk), [])
  }

  /** supportsAsyncRead: registers for unsolicited input once; true from then on. */
  function SupportsAsyncRead(c: Channel, registerOk: bool): (r: Step)
    ensures r.ok <==> c.asyncInput || registerOk
    ensures r.next.asyncInput == r.ok && r.emitted == []
    ensures r.next.(asyncInput := c.asyncInput) == c
  {
    if c.asyncInput then Step(true, c, [])
    else if registerOk then Step(true, c.(asyncInput := true), [])
    else Step(false, c, [])
  }

  /** supportsEvent: events are possible when an Int32 or a UInt32Digital
      interrupt was registered at connect time. */
  function SupportsEvent(c: Channel): (r: bool)
    ensures r <==> c.events == Int32Events || c.events == UInt32Events
  {
    c.events != NoEvents
  }

  /** The outcome of looking up an asyn interface and registering for its
      interrupts. */
  datatype Registration = Absent | Refused | Registered

  /** connectToBus: the port must know the address and offer asynCommon and
      asynOctet; a GPIB port cannot peek; the first event interface whose
      interrupt registration succeeds is used, Int32 before UInt32Digital.
      It runs once, on a freshly constructed interface; when it fails the
      interface is deleted. */
  function ConnectToBus(c: Channel, deviceFound: bool, hasCommon: bool, hasOctet: bool, gpib: bool,
                        int32: Registration, uint32: Registration): (r: Step)
    ensures r.ok <==> deviceFound && hasCommon && hasOctet
    ensures r.emitted == []
    ensures r.ok && gpib ==> r.next.peeksize == GPIB_PEEKSIZE
    ensures r.ok ==> (SupportsEvent(r.next) <==> int32 == Registered || uint32 == Registered)
    ensures r.ok && int32 == Registered ==> r.next.events == Int32Events
    ensures r.ok && int32 != Registered && uint32 == Registered ==> r.next.events == UInt32Events
    ensures !r.ok ==> r.next == c
    ensures r.next == c.(peeksize := r.next.peeksize, events := r.next.events)
    ensures !gpib ==> r.next.peeksize == c.peeksize
  {
    if !deviceFound || !hasCommon || !hasOctet then Step(false, c, [])
    else
      var peeksize := if gpib then GPIB_PEEKSIZE else c.peeksize;
      var events := if int32 == Registered then Int32Events
                    else if uint32 == Registered then UInt32Events
                    else NoEvents;
      Step(true, c.(peeksize := peeksize, events := events), [])
  }

  /** cancelAll, without the wait for a running handler: the timer is stopped
      and the queued request withdrawn. */
  function CancelAll(c: Channel): (r: Step)
    ensures r.next.timer == Idle && r.next.queued == NotQueued && r.emitted == []
    ensures r.next.(timer := c.timer, queued := c.queued) == c
  {
    Step(true, c.(timer := Idle, queued := NotQueued), [])
  }

  // ---------------------------------------------------------------------
  // Handlers run when asynManager grants a turn

  /** lockHandler: blocks asynManager's processing for other users and reports success. */
  function LockHandler(c: Channel): (r: Step)
    ensures r.next.blocked && r.emitted == [LockCallback(IoSuccess)]
    ensures r.next == c.(blocked := r.next.blocked)
  {
    Step(true, c.(blocked := true), [LockCallback(IoSuccess)])
  }

  /** The result of asynOctet writeRaw: a status and the bytes written. */
  datatype WriteReply = WriteReply(status: AsynStatus, written: SizeT)

  /** The write turn ends with a write callback, or re-queues without one. */
  predicate WriteRequeues(c: Channel, flushOk: bool, reply: WriteReply, queueOk: bool)
  {
    flushOk && reply.status == AsynSuccess && reply.written != c.outputSize && queueOk
  }

  /** writeHandler: flushes stale input, drops any latched event, writes what
      is left and either re-queues (with the lock timeout) to write the rest
      or reports the outcome: success only once nothing is left, a timeout
      for a write timeout, a fault for everything else. */
  function WriteHandler(c: Channel, flushOk: bool, reply: WriteReply, queueOk: bool): (r: Step)
    ensures r.next.receivedEvent == 0 && r.next.ioAction == c.ioAction
    ensures WriteRequeues(c, flushOk, reply, queueOk) ==>
      r.emitted == [] && r.next.queued == Queued(QueueRequest(c.priority, c.lockTimeout))
    ensures !WriteRequeues(c, flushOk, reply, queueOk) ==>
      |r.emitted| == 1 && r.emitted[0].WriteCallback? && r.next.queued == c.queued
    ensures r.emitted == [WriteCallback(IoSuccess)] <==>
      flushOk && reply.status == AsynSuccess && reply.written == c.outputSize
    ensures r.emitted == [WriteCallback(IoTimeout)] <==> flushOk && reply.status == AsynTimeout
    ensures flushOk && reply.status == AsynSuccess && reply.written <= c.outputSize ==>
      r.next.outputBuffer == c.outputBuffer + reply.written &&
      r.next.outputSize == c.outputSize - reply.written
    ensures flushOk && reply.status == AsynSuccess ==>
      r.next.outputBuffer == c.outputBuffer + reply.written &&
      r.next.outputSize == SizeSub(c.outputSize, reply.written)
    ensures (!WriteRequeues(c, flushOk, reply, queueOk) &&
             !(flushOk && reply.status == AsynSuccess && reply.written == c.outputSize) &&
             !(flushOk && reply.status == AsynTimeout)) ==> r.emitted == [WriteCallback(IoFault)]
    ensures !(flushOk && reply.status == AsynSuccess) ==> r.next == c.(receivedEvent := 0)
    ensures r.next == c.(receivedEvent := 0, outputBuffer := r.next.outputBuffer,
                         outputSize := r.next.outputSize, queued := r.next.queued)
  {
    var c1 := c.(receivedEvent := 0);
    if !flushOk then Step(true, c1, [WriteCallback(IoFault)])
    else
      match reply.status
      case AsynSuccess =>
        var c2 := c1.(outputBuffer := c1.outputBuffer + reply.written,
                      outputSize := SizeSub(c1.outputSize, reply.written));
        if c2.outputSize > 0 then
          if queueOk then Step(true, Queue(c2, c.priority, c.lockTimeout, true), [])
          else Step(true, c2, [WriteCallback(IoFault)])
        else Step(true, c2, [WriteCallback(IoSuccess)])
      case AsynTimeout => Step(true, c1, [WriteCallback(IoTimeout)])
      case _ => Step(true, c1, [WriteCallback(IoFault)])
  }

  /** connectHandler: connects the port and reports the result. */
  function ConnectHandler(c: Channel, connectOk: bool): (r: Step)
    ensures r.next == c
    ensures r.emitted == [ConnectCallback(IoSuccess)] <==> connectOk
    ensures !connectOk ==> r.emitted == [ConnectCallback(IoFault)]
  {
    Step(true, c, [ConnectCallback(if connectOk then IoSuccess else IoFault)])
  }

  /** disconnectHandler: disconnects the port; nobody is told the result. */
  function DisconnectHandler(c: Channel): (r: Step)
    ensures r.next == c && r.emitted == []
  {
    Step(true, c, [])
  }

  /** What the asyn driver answers during one granted turn; only the part
      that belongs to the current action is used. */
  datatype Transport = Transport(
    flushOk: bool,                  // asynOctet flush
    write: WriteReply,              // asynOctet writeRaw
    requeueOk: bool,                // queueRequest for the rest of a write
    accepts: (int, int) -> bool,    // asynOctet setInputEos
    turns: seq<ReadTurn>,           // asynOctet read, with the client's answers
    connectOk: bool)                // asynCommon connect

  /** handleRequest: asynManager grants the queued turn (the request leaves
      the queue) and the handler for the current action runs. A cancelled
      poll, and any action with no handler, is ignored. */
  function HandleRequest(c: Channel, tr: Transport): (r: Step)
    ensures r.ok && (c.ioAction !in {Write, Read, AsyncRead} ==> r.next.queued == NotQueued)
    ensures c.ioAction == Lock ==> r.emitted == [LockCallback(IoSuccess)] && r.next.blocked
    ensures c.ioAction == Connect ==> |r.emitted| == 1 && r.emitted[0].ConnectCallback?
    ensures c.ioAction !in {Lock, Write, Read, AsyncRead, Connect} ==>
      r == Step(true, c.(queued := NotQueued), [])
  {
    var c0 := c.(queued := NotQueued);
    match c.ioAction
    case Lock => LockHandler(c0)
    case Write => WriteHandler(c0, tr.flushOk, tr.write, tr.requeueOk)
    case AsyncRead =>
      var run := ReadHandler(c0, tr.accepts, tr.turns);
      Step(true, run.next, run.emitted)
    case Read =>
      var run := ReadHandler(c0, tr.accepts, tr.turns);
      Step(true, run.next, run.emitted)
    case Connect => ConnectHandler(c0, tr.connectOk)
    case Disconnect => DisconnectHandler(c0)
    case _ => Step(true, c0, [])
  }

  /** handleTimeout: asynManager gave up waiting for the turn. Lock, write
      and connect report a timeout, a read a fault with no data; a failed
      poll retries after the reply timeout; a cancelled poll and a
      disconnect are ignored. */
  function HandleTimeout(c: Channel): (r: Step)
    ensures r.ok && r.next.queued == NotQueued
    ensures c.ioAction == Lock ==> r.emitted == [LockCallback(IoTimeout)]
    ensures c.ioAction == Write ==> r.emitted == [WriteCallback(IoTimeout)]
    ensures c.ioAction == Read ==> r.emitted == [ReadCallback(IoFault, 0)]
    ensures c.ioAction == Connect ==> r.emitted == [ConnectCallback(IoTimeout)]
    ensures c.ioAction == AsyncRead ==> r.emitted == [] && r.next.timer == Armed(c.replyTimeout)
    ensures r.next == c.(queued := r.next.queued, timer := r.next.timer)
    ensures c.ioAction != AsyncRead ==> r.next.timer == c.timer
  {
    var timer := if c.ioAction == AsyncRead then Armed(c.replyTimeout) else c.timer;
    var emitted :=
      match c.ioAction
      case Lock => [LockCallback(IoTimeout)]
      case Write => [WriteCallback(IoTimeout)]
      case Read => [ReadCallback(IoFault, 0)]
      case Connect => [ConnectCallback(IoTimeout)]
      case _ => [];
    Step(true, c.(queued := NotQueued, timer := timer), emitted)
  }

  // ---------------------------------------------------------------------
  // Interrupt callbacks

  /** The first half of intrCallbackOctet: the pending poll or read timeout
      is defused by the AsyncReadCancelled tag and the timer cancelled. */
  function CancelForInput(c: Channel): (c': Channel)
    ensures c'.ioAction == AsyncReadCancelled && c'.timer == Idle
    ensures c'.(ioAction := c.ioAction, timer := c.timer) == c
  {
    c.(ioAction := AsyncReadCancelled, timer := Idle)
  }

  /** asynReadHandler: hands the unsolicited input to the client (if there
      is any) and waits for more with the read timeout when the client wants
      more or nothing arrived, otherwise goes back to polling with the reply
      timeout. */
  function AsynReadHandler(c: Channel, received: nat, readMore: int): (r: Step)
    ensures r.emitted == if received > 0 then [ReadCallback(IoSuccess, received)] else []
    ensures r.next.ioAction == AsyncReadMore || r.next.ioAction == AsyncRead
    ensures r.next.ioAction == AsyncReadMore <==> received == 0 || readMore != 0
    ensures r.next.timer == Armed(if r.next.ioAction == AsyncReadMore then c.readTimeout else c.replyTimeout)
    ensures r.next.(ioAction := c.ioAction, timer := c.timer) == c
  {
    var more := if received > 0 then readMore else 1;
    var emitted := if received > 0 then [ReadCallback(IoSuccess, received)] else [];
    if more != 0 then Step(true, c.(ioAction := AsyncReadMore, timer := Armed(c.readTimeout)), emitted)
    else Step(true, c.(ioAction := AsyncRead, timer := Armed(c.replyTimeout)), emitted)
  }

  /** Whether the octet interrupt acts: only while a poll or an async read
      is pending. */
  predicate AwaitsAsyncInput(c: Channel)
  {
    c.ioAction == AsyncRead || c.ioAction == AsyncReadMore
  }

  /** intrCallbackOctet: unsolicited input is taken only while a poll or an
      async read is pending; at any other time (including while readHandler
      runs, when ioAction is Read) it changes nothing. */
  function OctetInterrupt(c: Channel, received: nat, readMore: int): (r: Step)
    ensures !AwaitsAsyncInput(c) ==> r == Step(true, c, [])
  {
    if AwaitsAsyncInput(c) then AsynReadHandler(CancelForInput(c), received, readMore)
    else Step(true, c, [])
  }

  /** intrCallbackInt32 and intrCallbackUInt32: with a mask armed, a value
      that meets it disarms the mask and reports success, any other value is
      dropped; with no mask armed the value is latched, replacing any earlier
      one. Neither the action nor the timer is touched. */
  function EventInterrupt(c: Channel, data: bv64): (r: Step)
    ensures r.next.ioAction == c.ioAction && r.next.timer == c.timer
    ensures c.eventMask != 0 && Meets(data, c.eventMask) ==>
      r.emitted == [EventCallback(IoSuccess)] && r.next == c.(eventMask := 0)
    ensures c.eventMask != 0 && !Meets(data, c.eventMask) ==> r.emitted == [] && r.next == c
    ensures c.eventMask == 0 ==> r.emitted == [] && r.next == c.(receivedEvent := data)
  {
    if c.eventMask != 0 then
      if Meets(data, c.eventMask) then Step(true, c.(eventMask := 0), [EventCallback(IoSuccess)])
      else Step(true, c, [])
    else Step(true, c.(receivedEvent := data), [])
  }

  // ---------------------------------------------------------------------
  // The timer

  /** timerExpired: the one-shot timer has fired. A wait for an event times
      out; an async read that got some input times out and polling resumes;
      a pending poll is queued at low priority (or, when the port was
      disconnected on purpose, postponed); anything else, in particular a
      cancelled poll, is left alone. */
  function TimerExpired(c: Channel, autoConnect: bool, connected: bool, queueOk: bool): (r: Step)
    ensures c.ioAction == ReceiveEvent ==>
      r.emitted == [EventCallback(IoTimeout)] && r.next == c.(ioAction := None, timer := Idle)
    ensures c.ioAction == AsyncReadMore ==>
      r.emitted == [ReadCallback(IoTimeout, 0)] &&
      r.next == c.(ioAction := AsyncRead, timer := Armed(c.replyTimeout))
    ensures c.ioAction == AsyncRead ==> r.emitted == []
    ensures c.ioAction == AsyncRead && autoConnect && !connected ==>
      r.next == c.(timer := Armed(c.replyTimeout))
    ensures c.ioAction == AsyncRead && !(autoConnect && !connected) ==>
      r.next == c.(timer := Idle, queued := r.next.queued) &&
      (queueOk ==> r.next.queued == Queued(QueueRequest(QUEUE_PRIORITY_LOW, Ms(c.replyTimeout)))) &&
      (!queueOk ==> r.next.queued == c.queued)
    ensures r.ok
    ensures c.ioAction !in {ReceiveEvent, AsyncReadMore, AsyncRead} ==>
      r == Step(true, c.(timer := Idle), [])
  {
    var c0 := c.(timer := Idle);
    match c.ioAction
    case ReceiveEvent => Step(true, c0.(ioAction := None), [EventCallback(IoTimeout)])
    case AsyncReadMore =>
      Step(true, c0.(ioAction := AsyncRead, timer := Armed(c.replyTimeout)), [ReadCallback(IoTimeout, 0)])
    case AsyncRead =>
      if autoConnect && !connected then Step(true, c0.(timer := Armed(c.replyTimeout)), [])
      else Step(true, Queue(c0, QUEUE_PRIORITY_LOW, Ms(c.replyTimeout), queueOk), [])
    case _ => Step(true, c0, [])
  }
}
