/** The state of one asyn channel (an AsynDriverInterface bound to one
    device) as a value, together with the vocabulary its transitions use:
    the pending action, timeouts, the timer, the asyn request queue, the
    results the asyn driver hands back and the callbacks the client sees. */
module AsynState {
  import opened StreamBusInterface

  /** The action the channel is currently carrying out. */
  datatype IoAction =
    | None | Lock | Write | Read
    | AsyncRead | AsyncReadMore | AsyncReadCancelled
    | ReceiveEvent | Connect | Disconnect

  /** Status codes returned by the asyn driver's octet calls. */
  datatype AsynStatus = AsynSuccess | AsynTimeout | AsynOverflow | AsynError

  /** A queue timeout handed to asynManager: a number of milliseconds, or
      "wait without bound" (the -1.0 the source passes for a lock timeout of 0). */
  datatype Timeout = Forever | Ms(ms: nat)

  /** The one-shot timer of the channel. */
  datatype Timer = Idle | Armed(ms: nat)

  /** The request this channel has standing in asynManager's queue. */
  datatype QueueRequest = QueueRequest(priority: int, timeout: Timeout)

  /** Whether a request stands in asynManager's queue for this channel. */
  datatype Pending = NotQueued | Queued(request: QueueRequest)

  /** Which asyn event interface was found and registered at connect time. */
  datatype EventSource = NoEvents | Int32Events | UInt32Events

  /** asynQueuePriorityLow and asynQueuePriorityConnect. */
  const QUEUE_PRIORITY_LOW: int := 0
  const QUEUE_PRIORITY_CONNECT: int := 3

  /** A GPIB bus cannot peek; reads start with this many bytes. */
  const GPIB_PEEKSIZE: int := 100

  /** After an overflow on a one-byte peek the buffer is grown to this size. */
  const PEEK_OVERFLOW_RESERVE: int := 100

  /** size_t arithmetic wraps modulo 2^64. */
  const SIZE_MODULUS: int := 0x1_0000_0000_0000_0000
  type SizeT = n: int | 0 <= n < SIZE_MODULUS

  /** `a -= b` on size_t. */
  function SizeSub(a: SizeT, b: SizeT): (r: SizeT)
    ensures r == (a - b) % SIZE_MODULUS
    ensures b <= a ==> r == a - b
  {
    if b <= a then a - b else a - b + SIZE_MODULUS
  }

  /** A 32-bit interrupt value (epicsInt32 or epicsUInt32, as its bit
      pattern) held in the low half of a 64-bit word. */
  type Word32 = w: bv64 | w & 0xFFFF_FFFF_0000_0000 == 0

  /** The conversion of an epicsInt32 to unsigned long: the sign bit
      (bit 31) is copied into the whole upper half, which a non-negative
      value leaves zero. */
  function Int32ToEvent(data: Word32): (v: bv64)
    ensures data & 0x8000_0000 != 0 ==> v ^ data == 0xFFFF_FFFF_0000_0000
    ensures data & 0x8000_0000 == 0 ==> v == data
  {
    if data & 0x8000_0000 != 0 then data | 0xFFFF_FFFF_0000_0000 else data
  }

  /** The conversion of an epicsUInt32 to unsigned long: the upper half is zero. */
  function UInt32ToEvent(data: Word32): (v: bv64)
    ensures v & 0xFFFF_FFFF_0000_0000 == 0
  {
    data
  }

  /** Whether an event value has a bit in common with a mask. */
  predicate Meets(value: bv64, mask: bv64)
  {
    value & mask != 0
  }

  /** StreamBuffer::reserve: the capacity is raised to at least n, never lowered. */
  function Reserve(capacity: nat, n: int): (r: nat)
    ensures r >= capacity && r >= n
    ensures r == capacity || r == n
  {
    if n > capacity then n else capacity
  }

  /** A client callback, with the number of bytes handed over for reads. */
  datatype Callback =
    | LockCallback(status: IoStatus)
    | WriteCallback(status: IoStatus)
    | ReadCallback(status: IoStatus, received: nat)
    | EventCallback(status: IoStatus)
    | ConnectCallback(status: IoStatus)

  /** Everything the state machine decides on. */
  datatype Channel = Channel(
    ioAction: IoAction,
    priority: int,              // the client's queue priority
    lockTimeout: Timeout,
    writeTimeout: nat,
    readTimeout: nat,
    replyTimeout: nat,
    expectedLength: int,
    eventMask: bv64,
    receivedEvent: bv64,
    capacity: nat,              // capacity of the input buffer
    outputBuffer: int,          // address of the next byte to write
    outputSize: SizeT,          // bytes still to write
    peeksize: int,
    eos: int,
    eoslen: int,
    timer: Timer,
    queued: Pending,
    blocked: bool,              // asynManager's process callback is blocked
    events: EventSource,
    asyncInput: bool)           // the octet interrupt user is registered

  /** A new channel: no events latched or awaited, one-byte peeks, no
      end-of-message sequence, no interrupt registered and the port not
      blocked. Fields the source leaves uninitialised start
      at None or zero. */
  function NewChannel(priority: int, capacity: nat): (c: Channel)
    ensures c.eventMask == 0 && c.receivedEvent == 0
    ensures c.peeksize == 1 && c.eos == NULL && c.eoslen == 0
    ensures c.timer == Idle && c.queued == NotQueued
    ensures c.events == NoEvents && !c.asyncInput && !c.blocked
  {
    Channel(None, priority, Ms(0), 0, 0, 0, 0, 0, 0, capacity, NULL, 0, 1,
            NULL, 0, Idle, NotQueued, false, NoEvents, false)
  }

  /** The result of one entry point: its return value (true for the ones
      that return nothing), the new state and the client callbacks it made,
      in order. */
  datatype Step = Step(ok: bool, next: Channel, emitted: seq<Callback>)

  /** queueRequest: on success the request stands in the queue; a failed call
      leaves the queue as it was. */
  function Queue(c: Channel, priority: int, timeout: Timeout, queueOk: bool): (c': Channel)
    ensures queueOk ==> c'.queued == Queued(QueueRequest(priority, timeout))
    ensures !queueOk ==> c' == c
    ensures c' == c.(queued := c'.queued)
  {
    if queueOk then c.(queued := Queued(QueueRequest(priority, timeout))) else c
  }
}
