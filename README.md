# StreamDevice asyn bus interface: a verified model

StreamDevice talks to devices through a bus interface. `StreamBusInterface` is
the base layer. It holds the end-of-message sequence and answers "not
supported" to every request. It also keeps a global registry of bus factories,
which are asked in registration order. `AsynDriverInterface` is the bus interface
for EPICS asyn ports, and each instance drives one device for one client. It is a
state machine around the field `ioAction`, and events move it along:

- the client's requests: lock, write, read, event, connect and disconnect;
- the handlers asynManager runs when it grants a queued turn or gives up waiting;
- the interrupt callbacks for unsolicited input and for Int32/UInt32 events;
- a one-shot timer that drives read timeouts, polling and event timeouts.

The model has two layers.

- **Pure layer.** The state of one channel is a `Channel` value (`AsynState`).
  Every entry point is a function from a `Channel` to a `Step`, which holds the
  return value, the new state and the client callbacks made, in order. The
  read turn is in `AsynRead` and the rest is in `AsynSteps`.
- **Object layer.** `AsynDriver.AsynDriverInterface` is a class with the
  source's fields. Its methods make the source's updates in the source's order.
  Each method's contract ties the new state (`Snapshot()`) and the callbacks it
  logged to the pure transition of the same name.

Every result that asyn, the device or the client hands back is a parameter of
the model. This covers queueing, flush, writeRaw, read, setInputEos, connect,
interrupt registration and the client's `readCallback` answer. A read turn
takes a finite script of read results (`seq<ReadTurn>`).

`AsynProperties`, the lemmas in `AsynRead` and those in `StreamBusInterface`
prove properties of the code that span several entry points:

- partial writes add up to the whole buffer;
- each turn answers only the action it was queued for;
- "no reply" is reported only on the first read call of a turn;
- the chunk sizes the client's answers select;
- the buffer growing after an overflow;
- the race between unsolicited input and the poll timer;
- early and late events;
- the registry's first-match lookup.

The source's header comment (`AsynDriverInterface.cc`, lines 44-105) says that
lockRequest calls `blockProcessCallback`. The code makes that call in
lockHandler, once the turn is granted, so a lock that is never granted blocks
nothing. The model follows the code: `LockRequest` only queues, and
`LockHandler` sets `blocked`.

The code also behaves in three ways that the header comment does not mention.
Each is proved as a lemma:

- `cancelAll` stops the timer and withdraws the queued request, but it does not
  unregister the interrupt callbacks. A pending poll still takes unsolicited
  input, and an armed event mask still reports
  (`AsynProperties.CancelAllLeavesInterruptsOpen`).
- An event wait that times out leaves `eventMask` armed and leaves any latched
  `receivedEvent` in place. An event arriving after the timeout is still
  reported as a success (`AsynProperties.EventWaitTimesOut`).
- A delivered event leaves the timer running and `ioAction` at
  `ReceiveEvent`. If the timer fires before the client moves on, the same wait
  is also reported as timed out (`AsynProperties.DeliveredEventLeavesTimerArmed`).

## Model

| member | source | states |
|---|---|---|
| StreamBusInterface.BusInterface.constructor | streamDevice/src/StreamBusInterface.cc:33-37 | a new interface has no end-of-message sequence (eos NULL, length 0) |
| StreamBusInterface.BusInterface.SetEos | streamDevice/src/StreamBusInterface.cc:39-45 | the given sequence is stored as it is and the call succeeds |
| StreamBusInterface.BusInterface.SupportsEvent | streamDevice/src/StreamBusInterface.cc:47-51 | the base interface cannot wait for events |
| StreamBusInterface.BusInterface.SupportsAsyncRead | streamDevice/src/StreamBusInterface.cc:53-57 | the base interface cannot deliver unsolicited input |
| StreamBusInterface.BusInterface.AcceptEvent | streamDevice/src/StreamBusInterface.cc:72-76 | the base interface declines an event wait |
| StreamBusInterface.BusInterface.ConnectRequest | streamDevice/src/StreamBusInterface.cc:84-88 | the base interface declines a connect |
| StreamBusInterface.BusInterface.Disconnect | streamDevice/src/StreamBusInterface.cc:90-94 | the base interface declines a disconnect |
| StreamBusInterface.BusInterface.WriteRequest | streamDevice/src/StreamBusInterface.cc:96-100 | the base interface declines a write |
| StreamBusInterface.BusInterface.ReadRequest | streamDevice/src/StreamBusInterface.cc:102-106 | the base interface declines a read |
| StreamBusInterface.DefaultReadCallback | streamDevice/src/StreamBusInterface.cc:118-122 | a client without its own readCallback wants no more input (answers 0) |
| StreamBusInterface.DefaultPriority | streamDevice/src/StreamBusInterface.cc:134-138 | a client without its own priority queues at priority 0 |
| StreamBusInterface.FirstMatchIsFirst | streamDevice/src/StreamBusInterface.cc:59-70 | a lookup answers with the first registrar, in registration order, whose find succeeds; it answers NULL exactly when none succeeds |
| StreamBusInterface.RegisterKeepsEarlierMatch | streamDevice/src/StreamBusInterface.cc:24-31 | appending a registrar at the tail never changes a lookup that an earlier registrar already answers |
| StreamBusInterface.RegisterAnswersUnmatched | streamDevice/src/StreamBusInterface.cc:24-31 | a lookup that no earlier registrar answers falls through to the new one |
| StreamBusInterface.Registry.constructor | streamDevice/src/StreamBusInterface.cc:22 | the registrar list starts empty |
| StreamBusInterface.Registry.Register | streamDevice/src/StreamBusInterface.cc:24-31 | a new registrar is appended at the tail and the others keep their order |
| StreamBusInterface.Registry.Find | streamDevice/src/StreamBusInterface.cc:59-70 | the loop over the registrars returns the first match (FirstMatch), or NotFound |
| AsynState.SizeSub | streamDevice/src/AsynDriverInterface.cc:581 | `outputSize -= written` on size_t is the difference modulo 2^64; it is the plain difference when no more than is left was written |
| AsynState.Int32ToEvent | streamDevice/src/AsynDriverInterface.cc:857-874 | an epicsInt32 used as unsigned long is sign-extended: a negative value sets the whole upper half and a non-negative one is unchanged |
| AsynState.UInt32ToEvent | streamDevice/src/AsynDriverInterface.cc:876-894 | an epicsUInt32 used as unsigned long has a zero upper half |
| AsynState.Reserve | streamDevice/src/AsynDriverInterface.cc:686-689 | reserving a buffer size raises the capacity to at least that size and never lowers it |
| AsynState.NewChannel | streamDevice/src/AsynDriverInterface.cc:242-269 | a new channel has no event latched or awaited, one-byte peeks, no end-of-message sequence, no timer and nothing queued; no Int32, UInt32 or octet interrupt is registered and the port is not blocked |
| AsynState.Queue | streamDevice/src/AsynDriverInterface.cc:463-470 | a queueRequest that succeeds leaves the request standing in the queue; one that fails changes nothing; nothing but the queue changes either way |
| AsynRead.EosDrops | streamDevice/src/AsynDriverInterface.cc:660-670 | the end-of-message fallback drops at most eoslen+1 leading bytes, and none when the length is already negative |
| AsynRead.EosFallbackStopsAtFirstAccepted | streamDevice/src/AsynDriverInterface.cc:660-670 | the fallback tries the suffixes that drop 0, 1, 2, ... leading bytes and stops at the first one the driver accepts. Every shorter drop was rejected. If none is accepted the length ends at -1. At most eoslen+1 setInputEos calls are made |
| AsynRead.ReadStatus | streamDevice/src/AsynDriverInterface.cc:718-771 | a read result is reported as End if and only if it succeeded with an end of message, Success if it succeeded without one, NoReply if and only if the first call timed out with nothing, Timeout for any other timeout, Fault for an overflow or an error |
| AsynRead.ReadSetup | streamDevice/src/AsynDriverInterface.cc:660-692 | before the loop the action is Read, the buffer holds at least the expected length and never shrinks, the end-of-message sequence is shortened only after the driver rejected it (to no less than -1), and nothing else changes |
| AsynRead.ReadLoop | streamDevice/src/AsynDriverInterface.cc:699-786 | the loop makes a read call if and only if there is a result to read; its calls, callbacks and state are specified by ReadLoopCalls, ReadLoopCallbacks and ReadLoopState |
| AsynRead.ReadHandler | streamDevice/src/AsynDriverInterface.cc:654-787 | a read turn makes its first call with the first read size and the reply timeout (0 for a poll); FirstCall, NoReplyOnlyOnFirstCall and ContinuationSizes state the rest |
| AsynRead.ReadPass | streamDevice/src/AsynDriverInterface.cc:718-786 | one pass of the read loop goes on exactly when the result succeeded or timed out, the client asked for more and it was not an empty poll. A pass that goes on leaves the state alone and sizes the next call from the client's answer |
| AsynRead.ContinuingPass | streamDevice/src/AsynDriverInterface.cc:699-786 | a pass that goes on splits the run into its call, its callback and the rest of the loop, with the read timeout and the next size |
| AsynRead.ReadLoopCalls | streamDevice/src/AsynDriverInterface.cc:699-786 | one read call per result up to the first result that does not continue. The first call has the given size and timeout, every later one the size the client asked for (or the capacity less one) with the read timeout. The loop ends by itself exactly when a result does not continue |
| AsynRead.ReadLoopCallbacks | streamDevice/src/AsynDriverInterface.cc:718-771 | every result except an empty poll is reported exactly once, in order, with its status and the bytes received |
| AsynRead.ReadLoopState | streamDevice/src/AsynDriverInterface.cc:699-786 | the loop changes only ioAction, timer, capacity and peeksize; ioAction stays Read unless a poll found no input, and only then is the timer touched |
| AsynRead.ReadLoopBuffer | streamDevice/src/AsynDriverInterface.cc:699-786 | over a whole turn the buffer capacity never shrinks, and a turn in which no read call overflowed leaves the capacity and the peek size unchanged |
| AsynRead.NoReplyOnlyOnFirstCall | streamDevice/src/AsynDriverInterface.cc:726-748 | NoReply is reported if and only if it is the first call of the turn and that call timed out with nothing received; any later timeout is a Timeout, even with zero bytes |
| AsynRead.ContinuationSizes | streamDevice/src/AsynDriverInterface.cc:772-786 | another call follows only a success or timeout the client answered with non-zero. A positive answer N asks for exactly N bytes and a negative one for the capacity less one, both with the read timeout |
| AsynRead.FirstCall | streamDevice/src/AsynDriverInterface.cc:660-711 | the first call asks for peeksize bytes, or for the expected length when the bus cannot peek. It uses the reply timeout, or 0 for a poll. The end-of-message shortening stays in the state |
| AsynRead.PollWithoutInput | streamDevice/src/AsynDriverInterface.cc:726-739 | a poll that finds nothing reports nothing, makes one call, returns to AsyncRead and arms the poll timer with the reply timeout (if non-zero) |
| AsynRead.OverflowGrowsBuffer | streamDevice/src/AsynDriverInterface.cc:749-765 | an overflow grows the buffer (to 100 after a one-byte peek, else to twice its capacity) and makes that the peek size. It reports a fault with what was received and ends the loop |
| AsynProperties.PeekOverflowStopsPeeking | streamDevice/src/AsynDriverInterface.cc:749-760 | after a one-byte peek overflows, the peek size is at least 100; the next turn, started by a readRequest with any expected length above 0, makes its first call for exactly that length with the reply timeout |
| AsynRead.DefaultClientReadsOnce | streamDevice/src/AsynDriverInterface.cc:772-786 | a client with the default readCallback gets exactly one call and one callback per synchronous read turn |
| AsynSteps.LockRequest | streamDevice/src/AsynDriverInterface.cc:452-473 | a lock timeout of 0 waits forever and first connects the port. The request fails exactly when that connect fails or queueing fails. Unless the connect fails, the action becomes Lock, even when queueing then fails. On success Lock is queued with the client's priority and the lock timeout. A failed connect changes only the lock timeout, and nothing but the lock timeout, the action and the queue ever changes |
| AsynSteps.Unlock | streamDevice/src/AsynDriverInterface.cc:518-524 | unlock always succeeds, lifts the block and changes nothing else |
| AsynSteps.WriteRequest | streamDevice/src/AsynDriverInterface.cc:528-552 | the buffer, size and write timeout are remembered and Write is set. The result is the queueing result; on success the turn is queued with the write timeout, on failure the queue is unchanged. Nothing else changes |
| AsynSteps.ReadRequest | streamDevice/src/AsynDriverInterface.cc:616-650 | the timeouts and expected length are stored and the action is Read or AsyncRead. A synchronous read queues with the reply timeout. An asynchronous read queues an immediate poll and reports success even if queueing fails. Nothing else changes |
| AsynSteps.AcceptEvent | streamDevice/src/AsynDriverInterface.cc:842-855 | a latched event that meets the mask is consumed at once with one success and nothing else changes. Otherwise the mask is armed, the action becomes ReceiveEvent and the timer starts with the reply timeout; only those fields change |
| AsynSteps.ConnectRequest | streamDevice/src/AsynDriverInterface.cc:964-979 | Connect is queued at connect priority with the connect timeout; the result is the queueing result; only the action and the queue change |
| AsynSteps.DisconnectRequest | streamDevice/src/AsynDriverInterface.cc:997-1011 | Disconnect is queued at connect priority with no wait; the result is the queueing result; only the action and the queue change |
| AsynSteps.SupportsAsyncRead | streamDevice/src/AsynDriverInterface.cc:340-353 | it succeeds if and only if the octet interrupt was already registered or registering now succeeds. The flag records that, and nothing else changes |
| AsynSteps.ConnectToBus | streamDevice/src/AsynDriverInterface.cc:356-447 | it succeeds if and only if the device is found and asynCommon and asynOctet are offered. A GPIB port peeks 100 bytes, any other keeps its peek size. Events are supported if and only if an Int32 or UInt32Digital interrupt was registered, with Int32 preferred. Only peeksize and the event source change, a failure changes nothing, and no callback is made |
| AsynSteps.CancelAll | streamDevice/src/AsynDriverInterface.cc:1027-1037 | the timer is stopped and the queued request withdrawn, with no callback and nothing else changed |
| AsynSteps.SupportsEvent | streamDevice/src/AsynDriverInterface.cc:334-337 | events are supported if and only if an Int32 or UInt32Digital interrupt was registered |
| AsynSteps.LockHandler | streamDevice/src/AsynDriverInterface.cc:508-514 | a granted lock blocks the port and reports one success; nothing else changes |
| AsynSteps.ConnectHandler | streamDevice/src/AsynDriverInterface.cc:982-994 | a connect turn reports Success if and only if the connect succeeded, Fault otherwise, and changes nothing |
| AsynSteps.DisconnectHandler | streamDevice/src/AsynDriverInterface.cc:1014-1024 | a disconnect turn reports nothing and changes nothing |
| AsynSteps.HandleRequest | streamDevice/src/AsynDriverInterface.cc:1041-1074 | a granted turn always succeeds. A lock blocks the port and reports success, and a connect reports one connect callback. Every turn except a write or a read leaves the queue empty, and any other action changes nothing more. HandleRequestAnswersAction states which callbacks a turn makes |
| AsynSteps.HandleTimeout | streamDevice/src/AsynDriverInterface.cc:1076-1109 | a turn that is never granted leaves the queue. Lock, write and connect report a timeout, and a read a fault with no data. A failed poll re-arms the timer with the reply timeout. Nothing else changes |
| AsynSteps.WriteHandler | streamDevice/src/AsynDriverInterface.cc:556-612 | any latched event is dropped. A partial write re-queues with the lock timeout and reports nothing. Otherwise there is exactly one write callback: Success if and only if the whole rest was written, Timeout if and only if writeRaw timed out, and Fault for a failed flush, an error or overflow, or a failed re-queue. After a successful writeRaw the cursor advances by the bytes written and the size left is the size_t difference (modulo 2^64 when the driver reports more than was left); nothing but the cursor, the size, the queue and the latched event changes |
| AsynSteps.CancelForInput | streamDevice/src/AsynDriverInterface.cc:797-802 | unsolicited input tags the action AsyncReadCancelled and stops the timer, nothing else |
| AsynSteps.AsynReadHandler | streamDevice/src/AsynDriverInterface.cc:811-838 | non-empty input is reported once. The channel then waits for more with the read timeout if and only if nothing arrived or the client wants more; otherwise it polls again after the reply timeout |
| AsynSteps.OctetInterrupt | streamDevice/src/AsynDriverInterface.cc:789-807 | unsolicited input outside a pending poll or async read changes nothing and reports nothing |
| AsynSteps.EventInterrupt | streamDevice/src/AsynDriverInterface.cc:857-894 | with a mask armed, a value meeting it disarms the mask and reports one success, and any other value is dropped. With no mask the value is latched, replacing any earlier one. Neither the action nor the timer changes |
| AsynSteps.TimerExpired | streamDevice/src/AsynDriverInterface.cc:897-944 | an event wait times out and goes idle, keeping its mask and latched value. An async read with input times out and resumes polling with the reply timeout. A pending poll is queued at low priority with the reply timeout, or re-armed while the port is disconnected on purpose. Anything else only stops the timer. Each branch states the whole new state |
| AsynProperties.PartialWritesDeliverWholeBuffer | streamDevice/src/AsynDriverInterface.cc:580-596 | however a write is split over turns, the cursor advances by exactly the bytes written and the size left drops by as much. Success is reported once, if and only if every byte was written; until then each turn re-queues silently |
| AsynProperties.AckWrittenInOneTurn | streamDevice/src/AsynDriverInterface.cc:528-612 | a four-byte write taken at once: queued with the write timeout, exactly one success, nothing left queued |
| AsynProperties.AckWrittenInTwoTurns | streamDevice/src/AsynDriverInterface.cc:580-596 | the same write taken two bytes at a time: the first turn re-queues with the lock timeout, the second reports the one success |
| AsynProperties.WriteQueueTimeout | streamDevice/src/AsynDriverInterface.cc:1076-1109 | a write turn that is never granted ends in a write timeout |
| AsynProperties.LatchedEventLastWins | streamDevice/src/AsynDriverInterface.cc:842-874 | of two early events only the second is kept, and a later acceptEvent succeeds at once if and only if it meets the mask |
| AsynProperties.NegativeInt32EventMeetsHighMask | streamDevice/src/AsynDriverInterface.cc:857-894 | a negative Int32 value meets a mask on the upper 32 bits; the same bit pattern through UInt32 does not |
| AsynProperties.EventWaitTimesOut | streamDevice/src/AsynDriverInterface.cc:903-907 | for any mask and wait time, an event wait with no event reports exactly one timeout. The mask stays armed and the latched value untouched, so a late event that meets the mask is still reported as a success |
| AsynProperties.DeliveredEventLeavesTimerArmed | streamDevice/src/AsynDriverInterface.cc:863-870 | a delivered event leaves the timer armed and the action ReceiveEvent, so an expiry reports a timeout after the success. Once a read request has followed, the stale expiry does nothing |
| AsynProperties.WriteTurnDropsLatchedEvent | streamDevice/src/AsynDriverInterface.cc:564-574 | a write turn discards an event latched before it, so a later acceptEvent waits |
| AsynProperties.CancelledTagSuppresses | streamDevice/src/AsynDriverInterface.cc:1041-1109 | while input is being taken (AsyncReadCancelled), a timer expiry, a granted poll and a poll timeout all do nothing |
| AsynProperties.InputRaceWindowHarmless | streamDevice/src/AsynDriverInterface.cc:789-838 | an expiry, a granted poll or a poll timeout between tagging and asynReadHandler reports nothing, and the input is then handled as if it had not happened |
| AsynProperties.AsyncInputOutcome | streamDevice/src/AsynDriverInterface.cc:789-838 | input during a poll is reported if non-empty. The channel then waits for more with the read timeout if and only if nothing arrived or the client wants more, else polls again with the reply timeout |
| AsynProperties.AsyncInputThenSilence | streamDevice/src/AsynDriverInterface.cc:908-913 | input followed by silence reports the input, then a timeout with no data, and polling resumes with the reply timeout |
| AsynProperties.PollCycle | streamDevice/src/AsynDriverInterface.cc:914-932 | an empty poll arms the poll timer. Its expiry queues the next poll at low priority, or only re-arms the timer while the port is disconnected on purpose |
| AsynProperties.ReadTurnIgnoresInput | streamDevice/src/AsynDriverInterface.cc:692-699 | while a read turn runs, the action is Read, so unsolicited input is ignored |
| AsynProperties.CancelAllLeavesInterruptsOpen | streamDevice/src/AsynDriverInterface.cc:1027-1037 | after cancelAll no timer runs and nothing is queued, but a pending poll still takes input and an armed mask still reports |
| AsynProperties.HandleRequestAnswersAction | streamDevice/src/AsynDriverInterface.cc:1041-1074 | a granted turn only makes callbacks of the action it was queued for. Apart from a read it makes at most one, and exactly one for lock and connect |
| AsynProperties.HandleTimeoutAnswersAction | streamDevice/src/AsynDriverInterface.cc:1076-1109 | a turn that is never granted makes at most one callback, of its own kind, and exactly one if and only if the action is lock, write, read or connect |
| AsynProperties.LockThenUnlock | streamDevice/src/AsynDriverInterface.cc:452-524 | a granted lock reports success and blocks the port until unlock; a lock that is never granted reports a timeout |
| AsynProperties.BlockingLockNeedsConnection | streamDevice/src/AsynDriverInterface.cc:457-461 | a lock without timeout fails at once when the port cannot be connected, and nothing is queued |
| AsynProperties.ConnectAndDisconnectTurns | streamDevice/src/AsynDriverInterface.cc:964-1024 | a connect turn reports the connect result and a connect timeout reports a timeout; a disconnect reports nothing either way |
| AsynProperties.ThreeByteReply | streamDevice/src/AsynDriverInterface.cc:616-787 | a read whose first call returns three bytes with end of message makes one peek with the reply timeout and exactly one End callback of three bytes; a read that is never granted reports a fault |
| AsynDriver.AsynDriverInterface.constructor | streamDevice/src/AsynDriverInterface.cc:242-269 | the object starts as NewChannel with no callbacks made |
| AsynDriver.AsynDriverInterface.Enqueue | streamDevice/src/AsynDriverInterface.cc:463-470 | the queueRequest call changes the object as Queue says |
| AsynDriver.AsynDriverInterface.ConnectToBus | streamDevice/src/AsynDriverInterface.cc:356-447 | result and new state are those of AsynSteps.ConnectToBus |
| AsynDriver.AsynDriverInterface.SupportsEvent | streamDevice/src/AsynDriverInterface.cc:334-337 | true if and only if an Int32 or UInt32Digital interrupt was registered |
| AsynDriver.AsynDriverInterface.SupportsAsyncRead | streamDevice/src/AsynDriverInterface.cc:340-353 | result and new state are those of AsynSteps.SupportsAsyncRead |
| AsynDriver.AsynDriverInterface.LockRequest | streamDevice/src/AsynDriverInterface.cc:452-473 | result and new state are those of AsynSteps.LockRequest |
| AsynDriver.AsynDriverInterface.LockHandler | streamDevice/src/AsynDriverInterface.cc:508-514 | the port is blocked and one lock success is reported |
| AsynDriver.AsynDriverInterface.Unlock | streamDevice/src/AsynDriverInterface.cc:518-524 | new state is that of AsynSteps.Unlock |
| AsynDriver.AsynDriverInterface.WriteRequest | streamDevice/src/AsynDriverInterface.cc:528-552 | result and new state are those of AsynSteps.WriteRequest |
| AsynDriver.AsynDriverInterface.WriteHandler | streamDevice/src/AsynDriverInterface.cc:556-612 | new state and callbacks are those of AsynSteps.WriteHandler |
| AsynDriver.AsynDriverInterface.WriteProgress | streamDevice/src/AsynDriverInterface.cc:580-596 | a successful writeRaw moves the cursor, then re-queues or reports, as AsynSteps.WriteHandler says |
| AsynDriver.AsynDriverInterface.ReadRequest | streamDevice/src/AsynDriverInterface.cc:616-650 | result and new state are those of AsynSteps.ReadRequest |
| AsynDriver.AsynDriverInterface.FallBackEos | streamDevice/src/AsynDriverInterface.cc:660-670 | the loop drops exactly EosDrops leading bytes of the end-of-message sequence and changes nothing else |
| AsynDriver.AsynDriverInterface.ReadHandler | streamDevice/src/AsynDriverInterface.cc:654-787 | new state, callbacks, read calls and whether the loop ended are those of AsynRead.ReadHandler |
| AsynDriver.AsynDriverInterface.SizeBuffer | streamDevice/src/AsynDriverInterface.cc:672-692 | the buffer is reserved for the expected length (or the capacity less one), and the first size and timeout are chosen, with ioAction set to Read |
| AsynDriver.AsynDriverInterface.ReadCalls | streamDevice/src/AsynDriverInterface.cc:699-786 | the loop's calls, callbacks, new state and end are those of AsynRead.ReadLoop |
| AsynDriver.AsynDriverInterface.ContinuingPasses | streamDevice/src/AsynDriverInterface.cc:699-786 | the passes that continue are consumed, up to the first result that does not continue, and the rest of the run is what ReadLoop gives from there |
| AsynDriver.AsynDriverInterface.ReadOnce | streamDevice/src/AsynDriverInterface.cc:718-786 | one pass changes the state and logs the callbacks as AsynRead.ReadPass says |
| AsynDriver.AsynDriverInterface.ReadResult | streamDevice/src/AsynDriverInterface.cc:718-771 | the callback carries ReadStatus and the bytes received; readMore is the client's answer only after a success or a timeout |
| AsynDriver.AsynDriverInterface.AwaitNextPoll | streamDevice/src/AsynDriverInterface.cc:736-737 | an empty poll returns to AsyncRead and arms the timer with the reply timeout if that is non-zero |
| AsynDriver.AsynDriverInterface.IntrCallbackOctet | streamDevice/src/AsynDriverInterface.cc:789-807 | new state and callbacks are those of AsynSteps.OctetInterrupt |
| AsynDriver.AsynDriverInterface.AsynReadHandler | streamDevice/src/AsynDriverInterface.cc:811-838 | new state and callbacks are those of AsynSteps.AsynReadHandler |
| AsynDriver.AsynDriverInterface.AcceptEvent | streamDevice/src/AsynDriverInterface.cc:842-855 | result, new state and callbacks are those of AsynSteps.AcceptEvent |
| AsynDriver.AsynDriverInterface.EventCallbackValue | streamDevice/src/AsynDriverInterface.cc:863-873 | new state and callbacks are those of AsynSteps.EventInterrupt |
| AsynDriver.AsynDriverInterface.IntrCallbackInt32 | streamDevice/src/AsynDriverInterface.cc:857-874 | the value, sign-extended, is handled as AsynSteps.EventInterrupt says |
| AsynDriver.AsynDriverInterface.IntrCallbackUInt32 | streamDevice/src/AsynDriverInterface.cc:876-894 | the value, zero-extended, is handled as AsynSteps.EventInterrupt says |
| AsynDriver.AsynDriverInterface.TimerExpired | streamDevice/src/AsynDriverInterface.cc:897-944 | new state and callbacks are those of AsynSteps.TimerExpired |
| AsynDriver.AsynDriverInterface.ConnectRequest | streamDevice/src/AsynDriverInterface.cc:964-979 | result and new state are those of AsynSteps.ConnectRequest |
| AsynDriver.AsynDriverInterface.ConnectHandler | streamDevice/src/AsynDriverInterface.cc:982-994 | the connect result is reported once and nothing else changes |
| AsynDriver.AsynDriverInterface.Disconnect | streamDevice/src/AsynDriverInterface.cc:997-1011 | result and new state are those of AsynSteps.DisconnectRequest |
| AsynDriver.AsynDriverInterface.CancelAll | streamDevice/src/AsynDriverInterface.cc:1027-1037 | new state is that of AsynSteps.CancelAll |
| AsynDriver.AsynDriverInterface.HandleRequest | streamDevice/src/AsynDriverInterface.cc:1041-1074 | new state and callbacks are those of AsynSteps.HandleRequest |
| AsynDriver.AsynDriverInterface.HandleTimeout | streamDevice/src/AsynDriverInterface.cc:1076-1109 | new state and callbacks are those of AsynSteps.HandleTimeout |

## Left out

- **Calls into asyn, the EPICS timer and the client.** These are
  pasynManager, pasynCommon, pasynOctet, the interrupt registration, the timer
  queue or callback, and the client's readCallback answer. They are parameters
  (oracles), and each call's result is passed in. Threads and the real
  interleaving of callbacks are not modelled; the interleavings that matter are
  written out as lemmas.
- **Timeouts** are whole milliseconds (`nat`) rather than doubles in seconds.
  A lock timeout of 0 becomes `Forever`, which stands for the -1.0 the source
  passes.
- **The destructor**, and the blocking wait in `cancelAll` for a running handler.
  They are left out because they need threads. Only the timer stop and the
  queue withdrawal of `cancelAll` are modelled.
- **getBusInterface, connectToAsynPort, expire and release** are not modelled
  as members. They allocate, forward, or query asyn:
  - getBusInterface allocation is the constructor plus `ConnectToBus`;
  - the connectToAsynPort result, including its `isConnected` query, is
    `LockRequest`'s `connectOk` parameter;
  - the `isConnected` query in `timerExpired` is `TimerExpired`'s
    `connected` parameter;
  - both `expire` wrappers just call `timerExpired`;
  - `release` only deletes the object.
- **The client's default callbacks.** The default writeCallback,
  eventCallback and connectCallback are empty and have no result. The base
  `cancelAll` is empty too.
- **Logging**, `ioActionStr`, the debug and error texts, and the text of
  connectToBus errors have no effect on the state machine and are left out.
- **The input buffer** is only its capacity. `StreamBuffer::reserve` is
  modelled as "raise to at least n". Its contents and the stale pointer after
  a re-reserve are not modelled.
- **Integers:**
  - `readMore` and `long` are unbounded `int`;
  - `size_t` is modelled with 2^64 wrap-around only for `outputSize`;
  - event masks and values are `bv64` (unsigned long on a 64-bit host).
- **The registrar list** is a `seq`, not the intrusive singly linked list.
  A registrar's find is a probe function passed to `Registry.Find`.
- **ReadHandler** runs on a finite script of read results. When the script runs
  out while the client still wants more, the loop is reported as not finished
  rather than running forever.
- **Uninitialised fields.** The source leaves some fields uninitialised
  (ioAction, the timeouts, expectedLength, the output buffer). They start at
  None or 0 here.
- **ConnectToBus** does not model the error messages.
  The GPIB check is the `gpib` parameter. Looking up and registering the
  interfaces are the `deviceFound`, `hasCommon`, `hasOctet`, `int32` and
  `uint32` parameters.
- AsynDriver.AsynDriverInterface.ReadCalls: the read loop is written as a loop
  over the passes that continue (ContinuingPasses), followed by the pass that
  ends it. Read calls and callbacks happen in the same order as in the source.
- AsynState.UInt32ToEvent: states only that the upper half is zero; that the
  lower half is the value itself is in its body.
- AsynRead.ReadHandler: an empty script of read results makes no read call and
  no callback. The source always makes at least one read call, so only scripts
  with at least one result correspond to a granted read turn.
