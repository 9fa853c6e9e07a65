/** The synchronous and polled read turn of an asyn channel (readHandler):
    the end-of-message fallback, the choice of the first chunk, and the read
    loop that the client's answers keep going. */
module AsynRead {
  import opened StreamBusInterface
  import opened AsynState

  /** The result of one asynOctet read call, and the value the client's
      readCallback returned for the callback that result caused (ignored
      where the source ignores it). */
  datatype ReadTurn = ReadTurn(status: AsynStatus, received: nat, eom: bool, readMore: int)

  /** One asynOctet read call: how many bytes were asked for, with which timeout. */
  datatype ReadCall = ReadCall(size: int, timeout: nat)

  /** What a read turn did: the new state, the client callbacks, the read calls
      made, and whether the loop ended by itself (false when the results
      supplied ran out while the client still wanted more). */
  datatype ReadRun = ReadRun(next: Channel, emitted: seq<Callback>, calls: seq<ReadCall>, finished: bool)

  // ---------------------------------------------------------------------
  // End-of-message fallback

  /** How many leading bytes readHandler drops from the end-of-message
      sequence before the driver's setInputEos (the oracle `accepts`, asked
      with an address and a length) accepts what is left. */
  function EosDrops(accepts: (int, int) -> bool, eos: int, eoslen: int): (k: nat)
    ensures eoslen >= 0 ==> k <= eoslen + 1
    ensures eoslen < 0 ==> k == 0
    decreases if eoslen < 0 then 0 else eoslen + 1
  {
    if eoslen < 0 || accepts(eos, eoslen) then 0
    else 1 + EosDrops(accepts, eos + 1, eoslen - 1)
  }

  /** The number of setInputEos calls the fallback makes. */
  function EosAttempts(accepts: (int, int) -> bool, eos: int, eoslen: int): (n: nat)
  {
    var k := EosDrops(accepts, eos, eoslen);
    if eoslen - k >= 0 then k + 1 else k
  }

  /** The driver rejects the suffix that drops j leading bytes. */
  predicate RejectsSuffix(accepts: (int, int) -> bool, eos: int, eoslen: int, j: int)
  {
    eoslen - j >= 0 && !accepts(eos + j, eoslen - j)
  }

  /** The fallback tries the suffixes that drop 0, 1, 2, ... leading bytes
      and stops at the first one the driver accepts; if it accepts none, the
      length ends at -1. At most eoslen + 1 calls are made, and none once the
      length has gone negative. */
  lemma {:induction false} EosFallbackStopsAtFirstAccepted(accepts: (int, int) -> bool, eos: int, eoslen: int)
    ensures var k := EosDrops(accepts, eos, eoslen);
      (forall j :: 0 <= j < k ==> RejectsSuffix(accepts, eos, eoslen, j)) &&
      (eoslen - k >= 0 ==> accepts(eos + k, eoslen - k)) &&
      (eoslen >= 0 && eoslen - k < 0 ==> eoslen - k == -1)
    ensures EosAttempts(accepts, eos, eoslen) <= if eoslen < 0 then 0 else eoslen + 1
    decreases if eoslen < 0 then 0 else eoslen + 1
  {
    if eoslen >= 0 && !accepts(eos, eoslen) {
      EosFallbackStopsAtFirstAccepted(accepts, eos + 1, eoslen - 1);
      var k := EosDrops(accepts, eos, eoslen);
      forall j | 0 <= j < k ensures RejectsSuffix(accepts, eos, eoslen, j) {
        if j > 0 {
          assert RejectsSuffix(accepts, eos + 1, eoslen - 1, j - 1);
        }
      }
    }
  }

  // ---------------------------------------------------------------------
  // Chunk sizes and classification

  /** The size of the first read call: a peek of peeksize bytes, unless the
      bus cannot peek (peeksize > 1) and the client expects a known length. */
  function FirstReadSize(peeksize: int, expectedLength: int): int
  {
    if expectedLength > 0 && peeksize > 1 then expectedLength else peeksize
  }

  /** The size of the next read call after the client answered readMore != 0. */
  function NextReadSize(readMore: int, capacity: nat): int
  {
    if readMore > 0 then readMore else capacity - 1
  }

  /** The status a read result is reported with. */
  function ReadStatus(t: ReadTurn, waitForReply: bool): (s: IoStatus)
    ensures s == IoEnd <==> t.status == AsynSuccess && t.eom
    ensures s == IoSuccess <==> t.status == AsynSuccess && !t.eom
    ensures s == IoNoReply <==> t.status == AsynTimeout && t.received == 0 && waitForReply
    ensures s == IoTimeout <==> t.status == AsynTimeout && !(t.received == 0 && waitForReply)
    ensures s == IoFault <==> t.status == AsynOverflow || t.status == AsynError
  {
    match t.status
    case AsynSuccess => if t.eom then IoEnd else IoSuccess
    case AsynTimeout => if t.received == 0 && waitForReply then IoNoReply else IoTimeout
    case _ => IoFault
  }

  /** A polled read that saw no input: no callback, the poll timer takes over. */
  predicate AsyncNoInput(t: ReadTurn, waitForReply: bool, async: bool)
  {
    async && waitForReply && t.status == AsynTimeout && t.received == 0
  }

  /** Whether the loop goes on after this result: only a successful or
      timed-out read the client wants more after. */
  predicate Continues(t: ReadTurn, waitForReply: bool, async: bool)
  {
    !AsyncNoInput(t, waitForReply, async) &&
    (t.status == AsynSuccess || t.status == AsynTimeout) && t.readMore != 0
  }

  // ---------------------------------------------------------------------
  // The read loop

  /** One pass of the read loop: whether the loop stops after it, the
      state after it, the callbacks it made and, when it goes on, the size
      of the next call. */
  datatype Pass = Pass(stop: bool, next: Channel, emitted: seq<Callback>, nextSize: int)

  /** The pass for one read result, the call having asked for `size` bytes. */
  function ReadPass(c: Channel, async: bool, t: ReadTurn, size: int, waitForReply: bool): (p: Pass)
    ensures !p.stop <==> Continues(t, waitForReply, async)
    ensures !p.stop ==> p.next == c && p.nextSize == NextReadSize(t.readMore, c.capacity)
  {
    if AsyncNoInput(t, waitForReply, async) then
      var timer := if c.replyTimeout != 0 then Armed(c.replyTimeout) else c.timer;
      Pass(true, c.(ioAction := AsyncRead, timer := timer), [], 0)
    else if t.status == AsynOverflow then
      var capacity := Reserve(c.capacity, if size == 1 then PEEK_OVERFLOW_RESERVE else 2 * c.capacity);
      Pass(true, c.(capacity := capacity, peeksize := capacity), [ReadCallback(IoFault, t.received)], 0)
    else if t.status == AsynError then
      Pass(true, c, [ReadCallback(IoFault, t.received)], 0)
    else
      var cb := ReadCallback(ReadStatus(t, waitForReply), t.received);
      if t.readMore == 0 then Pass(true, c, [cb], 0)
      else Pass(false, c, [cb], NextReadSize(t.readMore, c.capacity))
  }

  /** The read loop of readHandler, from the call of `size` bytes with
      `timeout` on. `waitForReply` holds for the first call of the turn only. */
  function ReadLoop(c: Channel, async: bool, turns: seq<ReadTurn>, size: int, timeout: nat, waitForReply: bool): (r: ReadRun)
    ensures r.calls == [] <==> |turns| == 0
    decreases |turns|
  {
    if |turns| == 0 then ReadRun(c, [], [], false)
    else
      var p := ReadPass(c, async, turns[0], size, waitForReply);
      var call := ReadCall(size, timeout);
      if p.stop then ReadRun(p.next, p.emitted, [call], true)
      else
        var rest := ReadLoop(c, async, turns[1..], p.nextSize, c.readTimeout, false);
        ReadRun(rest.next, p.emitted + rest.emitted, [call] + rest.calls, rest.finished)
  }

  /** `whole` is the run made of the callbacks `emitted` and calls `calls`
      made so far, followed by the run `rest`. */
  ghost predicate RunSplit(whole: ReadRun, emitted: seq<Callback>, calls: seq<ReadCall>, rest: ReadRun)
  {
    whole.next == rest.next && whole.finished == rest.finished &&
    whole.emitted == emitted + rest.emitted && whole.calls == calls + rest.calls
  }

  /** A pass after which the loop goes on reports its result, records its
      call and leaves the rest of the run to the next call, of the size
      readMore asks for (or the whole buffer) with the read timeout. */
  lemma ContinuingPass(c: Channel, async: bool, turns: seq<ReadTurn>, i: nat, size: int, timeout: nat,
                       waitForReply: bool, whole: ReadRun, emitted: seq<Callback>, calls: seq<ReadCall>)
    requires i < |turns| && Continues(turns[i], waitForReply, async)
    requires RunSplit(whole, emitted, calls, ReadLoop(c, async, turns[i..], size, timeout, waitForReply))
    ensures var t := turns[i];
      RunSplit(whole, emitted + [ReadCallback(ReadStatus(t, waitForReply), t.received)],
               calls + [ReadCall(size, timeout)],
               ReadLoop(c, async, turns[i + 1..], NextReadSize(t.readMore, c.capacity), c.readTimeout, false))
  {
    var t := turns[i];
    assert turns[i..][0] == t && turns[i..][1..] == turns[i + 1..];
    var more := ReadLoop(c, async, turns[i + 1..], NextReadSize(t.readMore, c.capacity), c.readTimeout, false);
    var cb := ReadCallback(ReadStatus(t, waitForReply), t.received);
    var call := ReadCall(size, timeout);
    assert emitted + ([cb] + more.emitted) == (emitted + [cb]) + more.emitted;
    assert calls + ([call] + more.calls) == (calls + [call]) + more.calls;
  }

  /** The channel just before the read loop: the end-of-message sequence
      shortened by the fallback, the buffer reserved, ioAction Read. */
  function ReadSetup(c: Channel, accepts: (int, int) -> bool): (s: Channel)
    ensures s.ioAction == Read
    ensures s.capacity >= c.capacity && (c.expectedLength > 0 ==> s.capacity >= c.expectedLength)
    ensures c.eoslen >= 0 ==> -1 <= s.eoslen <= c.eoslen
    ensures s.eoslen < c.eoslen ==> !accepts(c.eos, c.eoslen)
    ensures s.eos - c.eos == c.eoslen - s.eoslen
    ensures s == c.(eos := s.eos, eoslen := s.eoslen, capacity := s.capacity, ioAction := Read)
  {
    var k := EosDrops(accepts, c.eos, c.eoslen);
    var bufferSize := if c.expectedLength > 0 then c.expectedLength else c.capacity - 1;
    c.(eos := c.eos + k, eoslen := c.eoslen - k,
       capacity := Reserve(c.capacity, bufferSize), ioAction := Read)
  }

  /** readHandler: a read turn granted by asynManager, for a Read or a polled
      AsyncRead. */
  function ReadHandler(c: Channel, accepts: (int, int) -> bool, turns: seq<ReadTurn>): (r: ReadRun)
    ensures |turns| > 0 ==> (|r.calls| > 0 &&
      r.calls[0] == ReadCall(FirstReadSize(c.peeksize, c.expectedLength),
                             if c.ioAction == AsyncRead then 0 else c.replyTimeout))
  {
    var async := c.ioAction == AsyncRead;
    ReadLoopCalls(ReadSetup(c, accepts), async, turns, FirstReadSize(c.peeksize, c.expectedLength),
                  if async then 0 else c.replyTimeout, true);
    ReadLoop(ReadSetup(c, accepts), async, turns, FirstReadSize(c.peeksize, c.expectedLength),
             if async then 0 else c.replyTimeout, true)
  }

  // ---------------------------------------------------------------------
  // Properties of the read loop

  /** The read calls of the loop: one per result until the first result
      that does not continue; the first call has the given size and timeout,
      every later one the size the client asked for (or the buffer capacity
      less one) and the read timeout; the loop ends by itself exactly when a
      result does not continue, and otherwise has used up every result. */
  lemma {:induction false} ReadLoopCalls(c: Channel, async: bool, turns: seq<ReadTurn>, size: int, timeout: nat, waitForReply: bool)
    ensures var r := ReadLoop(c, async, turns, size, timeout, waitForReply);
      var n := |r.calls|;
      n <= |turns| && (n == 0 <==> |turns| == 0) &&
      (forall k :: 0 <= k < n - 1 ==> Continues(turns[k], waitForReply && k == 0, async)) &&
      (r.finished <==> n > 0 && !Continues(turns[n - 1], waitForReply && n == 1, async)) &&
      (!r.finished ==> n == |turns|) &&
      (forall k :: 0 <= k < n ==>
         r.calls[k] == (if k == 0 then ReadCall(size, timeout)
                        else ReadCall(NextReadSize(turns[k - 1].readMore, c.capacity), c.readTimeout)))
    decreases |turns|
  {
    if |turns| > 0 && Continues(turns[0], waitForReply, async) {
      var t := turns[0];
      var next := NextReadSize(t.readMore, c.capacity);
      ReadLoopCalls(c, async, turns[1..], next, c.readTimeout, false);
      var rest := ReadLoop(c, async, turns[1..], next, c.readTimeout, false);
      var r := ReadLoop(c, async, turns, size, timeout, waitForReply);
      assert r.calls == [ReadCall(size, timeout)] + rest.calls;
      var n := |r.calls|;
      forall k | 0 <= k < n - 1 ensures Continues(turns[k], waitForReply && k == 0, async) {
        if k > 0 { assert turns[k] == turns[1..][k - 1]; }
      }
      if n > 1 {
        assert turns[n - 1] == turns[1..][n - 2];
      }
      forall k | 0 <= k < n
        ensures r.calls[k] == (if k == 0 then ReadCall(size, timeout)
                               else ReadCall(NextReadSize(turns[k - 1].readMore, c.capacity), c.readTimeout))
      {
        if k > 1 { assert turns[k - 1] == turns[1..][k - 2]; }
      }
    }
  }

  /** The callbacks of the loop: every result except a polled empty one is
      reported exactly once, in order, with the status ReadStatus gives it
      and the bytes received. */
  lemma {:induction false} ReadLoopCallbacks(c: Channel, async: bool, turns: seq<ReadTurn>, size: int, timeout: nat, waitForReply: bool)
    ensures var r := ReadLoop(c, async, turns, size, timeout, waitForReply);
      |r.emitted| == (if |r.calls| > 0 && AsyncNoInput(turns[0], waitForReply, async) then 0 else |r.calls|) &&
      |r.emitted| <= |turns| &&
      (forall k :: 0 <= k < |r.emitted| ==>
         r.emitted[k] == ReadCallback(ReadStatus(turns[k], waitForReply && k == 0), turns[k].received))
    decreases |turns|
  {
    if |turns| > 0 && Continues(turns[0], waitForReply, async) {
      var t := turns[0];
      var next := NextReadSize(t.readMore, c.capacity);
      ReadLoopCallbacks(c, async, turns[1..], next, c.readTimeout, false);
      var rest := ReadLoop(c, async, turns[1..], next, c.readTimeout, false);
      var r := ReadLoop(c, async, turns, size, timeout, waitForReply);
      assert r.emitted == [ReadCallback(ReadStatus(t, waitForReply), t.received)] + rest.emitted;
      forall k | 0 <= k < |r.emitted|
        ensures r.emitted[k] == ReadCallback(ReadStatus(turns[k], waitForReply && k == 0), turns[k].received)
      {
        if k > 0 { assert turns[k] == turns[1..][k - 1]; }
      }
    }
  }

  /** c' differs from c at most in the fields the read loop writes. */
  predicate ReadFrame(c: Channel, c': Channel)
  {
    c'.(ioAction := c.ioAction, timer := c.timer, capacity := c.capacity, peeksize := c.peeksize) == c
  }

  /** The loop changes the state only in ioAction, timer, capacity and
      peeksize; ioAction stays Read unless a poll found no input. */
  lemma {:induction false} ReadLoopState(c: Channel, async: bool, turns: seq<ReadTurn>, size: int, timeout: nat, waitForReply: bool)
    requires c.ioAction == Read
    ensures var r := ReadLoop(c, async, turns, size, timeout, waitForReply);
      ReadFrame(c, r.next) &&
      (r.next.ioAction == Read <==> !(|turns| > 0 && AsyncNoInput(turns[0], waitForReply, async))) &&
      (r.next.timer != c.timer ==> |turns| > 0 && AsyncNoInput(turns[0], waitForReply, async))
    decreases |turns|
  {
    if |turns| > 0 && Continues(turns[0], waitForReply, async) {
      var next := NextReadSize(turns[0].readMore, c.capacity);
      ReadLoopState(c, async, turns[1..], next, c.readTimeout, false);
      assert ReadLoop(c, async, turns, size, timeout, waitForReply).next ==
             ReadLoop(c, async, turns[1..], next, c.readTimeout, false).next;
    }
  }

  /** Over a whole turn the buffer never shrinks, and a turn in which no
      read call overflowed leaves the capacity and the peek size as they
      were. */
  lemma {:induction false} ReadLoopBuffer(c: Channel, async: bool, turns: seq<ReadTurn>, size: int, timeout: nat, waitForReply: bool)
    ensures var r := ReadLoop(c, async, turns, size, timeout, waitForReply);
      r.next.capacity >= c.capacity &&
      ((forall k :: 0 <= k < |r.calls| && k < |turns| ==> turns[k].status != AsynOverflow) ==>
         r.next.capacity == c.capacity && r.next.peeksize == c.peeksize)
    decreases |turns|
  {
    if |turns| > 0 && Continues(turns[0], waitForReply, async) {
      var next := NextReadSize(turns[0].readMore, c.capacity);
      ReadLoopBuffer(c, async, turns[1..], next, c.readTimeout, false);
      var rest := ReadLoop(c, async, turns[1..], next, c.readTimeout, false);
      var r := ReadLoop(c, async, turns, size, timeout, waitForReply);
      assert r.next == rest.next && r.calls == [ReadCall(size, timeout)] + rest.calls;
      if forall k :: 0 <= k < |r.calls| && k < |turns| ==> turns[k].status != AsynOverflow {
        forall k | 0 <= k < |rest.calls| && k < |turns[1..]|
          ensures turns[1..][k].status != AsynOverflow
        {
          assert turns[1..][k] == turns[k + 1];
        }
      }
    }
  }

  /** "No reply" is reported only for the first call of a turn, and only when
      it timed out with nothing received; any later timeout is a Timeout,
      even with zero bytes. */
  lemma NoReplyOnlyOnFirstCall(c: Channel, accepts: (int, int) -> bool, turns: seq<ReadTurn>)
    requires c.ioAction == Read
    ensures var r := ReadHandler(c, accepts, turns);
      (forall k :: 0 <= k < |r.emitted| ==>
        (r.emitted[k].status == IoNoReply <==>
           k == 0 && turns[0].status == AsynTimeout && turns[0].received == 0)) &&
      (forall k :: 0 < k < |r.emitted| && k < |turns| && turns[k].status == AsynTimeout ==>
        r.emitted[k].status == IoTimeout)
  {
    var s := ReadSetup(c, accepts);
    ReadLoopCallbacks(s, false, turns, FirstReadSize(c.peeksize, c.expectedLength), c.replyTimeout, true);
  }

  /** An answer of 0 from the client ends the loop; a positive answer N makes
      the next call ask for exactly N bytes, with the read timeout; a
      negative answer asks for the buffer capacity less one. Overflow and
      error results end the loop whatever the client would answer. */
  lemma ContinuationSizes(c: Channel, accepts: (int, int) -> bool, turns: seq<ReadTurn>, k: nat)
    requires c.ioAction == Read || c.ioAction == AsyncRead
    requires k + 1 < |ReadHandler(c, accepts, turns).calls|
    ensures k < |turns| && turns[k].readMore != 0
    ensures k < |turns| && turns[k].status != AsynOverflow && turns[k].status != AsynError
    ensures var call := ReadHandler(c, accepts, turns).calls[k + 1];
      call.timeout == c.readTimeout &&
      call.size == if turns[k].readMore > 0 then turns[k].readMore
                   else ReadSetup(c, accepts).capacity - 1
  {
    var s := ReadSetup(c, accepts);
    var async := c.ioAction == AsyncRead;
    ReadLoopCalls(s, async, turns, FirstReadSize(c.peeksize, c.expectedLength), if async then 0 else c.replyTimeout, true);
  }

  /** The first call asks for peeksize bytes, or for the expected length when
      the bus cannot peek and a length is expected; it uses the reply timeout,
      or no timeout at all for a poll. The end-of-message shortening persists
      in the state. */
  lemma FirstCall(c: Channel, accepts: (int, int) -> bool, turns: seq<ReadTurn>)
    requires c.ioAction == Read || c.ioAction == AsyncRead
    requires |turns| > 0
    ensures var r := ReadHandler(c, accepts, turns);
      var k := EosDrops(accepts, c.eos, c.eoslen);
      |r.calls| > 0 &&
      r.calls[0].size == (if c.expectedLength > 0 && c.peeksize > 1 then c.expectedLength else c.peeksize) &&
      r.calls[0].timeout == (if c.ioAction == AsyncRead then 0 else c.replyTimeout) &&
      r.next.eos == c.eos + k && r.next.eoslen == c.eoslen - k
  {
    var s := ReadSetup(c, accepts);
    var async := c.ioAction == AsyncRead;
    ReadLoopCalls(s, async, turns, FirstReadSize(c.peeksize, c.expectedLength), if async then 0 else c.replyTimeout, true);
    ReadLoopState(s, async, turns, FirstReadSize(c.peeksize, c.expectedLength), if async then 0 else c.replyTimeout, true);
  }

  /** A poll that finds no input reports nothing, goes back to AsyncRead and
      arms the poll timer with the reply timeout, unless that is zero, in
      which case no timer runs. */
  lemma PollWithoutInput(c: Channel, accepts: (int, int) -> bool, turns: seq<ReadTurn>)
    requires c.ioAction == AsyncRead
    requires |turns| > 0 && turns[0].status == AsynTimeout && turns[0].received == 0
    ensures var r := ReadHandler(c, accepts, turns);
      r.emitted == [] && r.finished && |r.calls| == 1 &&
      r.next.ioAction == AsyncRead &&
      r.next.timer == if c.replyTimeout != 0 then Armed(c.replyTimeout) else c.timer
  {
  }

  /** An overflow grows the buffer (to 100 bytes after a one-byte peek,
      otherwise to twice its capacity), makes the new capacity the peek size
      for later turns, reports a fault with what was received, and ends the
      loop. */
  lemma OverflowGrowsBuffer(c: Channel, async: bool, turns: seq<ReadTurn>, size: int, timeout: nat, waitForReply: bool)
    requires |turns| > 0 && turns[0].status == AsynOverflow
    ensures var r := ReadLoop(c, async, turns, size, timeout, waitForReply);
      r.next.capacity >= c.capacity &&
      r.next.capacity >= (if size == 1 then 100 else 2 * c.capacity) &&
      r.next.peeksize == r.next.capacity &&
      r.emitted == [ReadCallback(IoFault, turns[0].received)] && |r.calls| == 1 && r.finished
  {
  }

  /** A client that keeps the default readCallback (always 0) gets exactly
      one read call per turn and exactly one callback, unless a poll finds
      no input. */
  lemma DefaultClientReadsOnce(c: Channel, accepts: (int, int) -> bool, turns: seq<ReadTurn>)
    requires c.ioAction == Read
    requires |turns| > 0
    requires turns[0].readMore == DefaultReadCallback(ReadStatus(turns[0], true), turns[0].received)
    ensures var r := ReadHandler(c, accepts, turns);
      |r.calls| == 1 && |r.emitted| == 1 && r.finished &&
      r.emitted[0] == ReadCallback(ReadStatus(turns[0], true), turns[0].received)
  {
  }
}
