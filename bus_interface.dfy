/** The bus-interface base layer of StreamDevice: the completion status a bus
    reports to its client, the base interface with its end-of-message setting
    and its "not supported" defaults, the client's default callbacks, and the
    global registry of bus-interface factories. */
module StreamBusInterface {

  /** Completion status handed to the client's callbacks. */
  datatype IoStatus = IoSuccess | IoTimeout | IoNoReply | IoEnd | IoFault

  /** A null pointer: addresses are modelled as integers. */
  const NULL: int := 0

  /** The base interface. Only the end-of-message setting lives here; the
      request methods all decline. */
  class BusInterface {
    var eos: int      // address of the end-of-message bytes
    var eoslen: int   // number of end-of-message bytes (signed: a failed
                      // fallback drives it to -1)

    /** A fresh interface has no end-of-message sequence. */
    constructor ()
      ensures eos == NULL && eoslen == 0
    {
      eos := NULL;
      eoslen := 0;
    }

    /** Stores the given sequence as it is and always succeeds. */
    method SetEos(newEos: int, newEoslen: nat) returns (ok: bool)
      modifies this
      ensures eos == newEos && eoslen == newEoslen
      ensures ok
    {
      eos := newEos;
      eoslen := newEoslen;
      ok := true;
    }

    /** The base interface cannot wait for events. */
    method SupportsEvent() returns (r: bool)
      ensures !r
    {
      r := false;
    }

    /** The base interface cannot deliver unsolicited input. */
    method SupportsAsyncRead() returns (r: bool)
      ensures !r
    {
      r := false;
    }

    /** The base interface declines every request. */
    method AcceptEvent(mask: bv64, timeoutMs: nat) returns (accepted: bool)
      ensures !accepted
    {
      accepted := false;
    }

    method ConnectRequest(timeoutMs: nat) returns (accepted: bool)
      ensures !accepted
    {
      accepted := false;
    }

    method Disconnect() returns (accepted: bool)
      ensures !accepted
    {
      accepted := false;
    }

    method WriteRequest(output: int, size: nat, timeoutMs: nat) returns (accepted: bool)
      ensures !accepted
    {
      accepted := false;
    }

    method ReadRequest(replyTimeoutMs: nat, readTimeoutMs: nat, expectedLength: int, async: bool)
      returns (accepted: bool)
      ensures !accepted
    {
      accepted := false;
    }
  }

  /** A client that does not override readCallback wants no further input. */
  function DefaultReadCallback(status: IoStatus, received: nat): (readMore: int)
    ensures readMore == 0
  {
    0
  }

  /** A client that does not override priority() queues at the lowest priority. */
  function DefaultPriority(): (p: int)
    ensures p == 0
  {
    0
  }

  /** The answer of a lookup: NULL, or the interface that was created. */
  datatype Lookup<B> = NotFound | Found(bus: B)

  /** One registered factory of bus interfaces (a registrar). Its find
      operation is supplied to Find as a probe function. */
  datatype Registrar = Registrar(name: string)

  /** The first non-empty answer of the registrars, in registration order. */
  function FirstMatch<B>(entries: seq<Registrar>, probe: Registrar -> Lookup<B>): (r: Lookup<B>)
    decreases |entries|
  {
    if |entries| == 0 then NotFound
    else if probe(entries[0]).Found? then probe(entries[0])
    else FirstMatch(entries[1..], probe)
  }

  /** FirstMatch answers with registrar i exactly when i is the first one whose
      probe succeeds, and answers NotFound exactly when no probe succeeds. */
  lemma {:induction false} FirstMatchIsFirst<B>(entries: seq<Registrar>, probe: Registrar -> Lookup<B>)
    ensures FirstMatch(entries, probe).Found? ==>
      exists i :: 0 <= i < |entries| && probe(entries[i]) == FirstMatch(entries, probe) &&
        forall j :: 0 <= j < i ==> probe(entries[j]).NotFound?
    ensures FirstMatch(entries, probe).NotFound? <==>
      forall i :: 0 <= i < |entries| ==> probe(entries[i]).NotFound?
    decreases |entries|
  {
    if |entries| > 0 && probe(entries[0]).NotFound? {
      FirstMatchIsFirst(entries[1..], probe);
      var r := FirstMatch(entries, probe);
      if r.Found? {
        var i :| 0 <= i < |entries[1..]| && probe(entries[1..][i]) == r &&
          forall j :: 0 <= j < i ==> probe(entries[1..][j]).NotFound?;
        assert probe(entries[i + 1]) == r;
        assert forall j :: 0 <= j < i + 1 ==> probe(entries[j]).NotFound? by {
          forall j | 0 <= j < i + 1 ensures probe(entries[j]).NotFound? {
            if j > 0 { assert entries[j] == entries[1..][j - 1]; }
          }
        }
      }
      assert (forall i :: 0 <= i < |entries| ==> probe(entries[i]).NotFound?) <==>
        (forall i :: 0 <= i < |entries[1..]| ==> probe(entries[1..][i]).NotFound?) by {
        if forall i :: 0 <= i < |entries[1..]| ==> probe(entries[1..][i]).NotFound? {
          forall i | 0 <= i < |entries| ensures probe(entries[i]).NotFound? {
            if i > 0 { assert entries[i] == entries[1..][i - 1]; }
          }
        }
      }
    }
  }

  /** Registering a new factory never changes which factory answers a lookup
      that an earlier factory already answers. */
  lemma {:induction false} RegisterKeepsEarlierMatch<B>(entries: seq<Registrar>, r: Registrar, probe: Registrar -> Lookup<B>)
    requires FirstMatch(entries, probe).Found?
    ensures FirstMatch(entries + [r], probe) == FirstMatch(entries, probe)
    decreases |entries|
  {
    if probe(entries[0]).NotFound? {
      assert (entries + [r])[1..] == entries[1..] + [r];
      RegisterKeepsEarlierMatch(entries[1..], r, probe);
    }
  }

  /** A lookup no earlier factory answers falls through to the new one. */
  lemma {:induction false} RegisterAnswersUnmatched<B>(entries: seq<Registrar>, r: Registrar, probe: Registrar -> Lookup<B>)
    requires FirstMatch(entries, probe).NotFound?
    ensures FirstMatch(entries + [r], probe) == probe(r)
    decreases |entries|
  {
    if |entries| == 0 {
      assert entries + [r] == [r];
    } else {
      assert (entries + [r])[1..] == entries[1..] + [r];
      RegisterAnswersUnmatched(entries[1..], r, probe);
    }
  }

  /** The global, append-only list of registrars. */
  class Registry {
    var entries: seq<Registrar>

    constructor ()
      ensures entries == []
    {
      entries := [];
    }

    /** A new registrar goes to the tail; the existing ones keep their order. */
    method Register(r: Registrar)
      modifies this
      ensures entries == old(entries) + [r]
    {
      entries := entries + [r];
    }

    /** Asks every registrar in registration order and returns the first
        interface one of them creates, or NotFound if none does. */
    method Find<B>(probe: Registrar -> Lookup<B>) returns (bus: Lookup<B>)
      ensures bus == FirstMatch(entries, probe)
    {
      var i := 0;
      while i < |entries|
        invariant 0 <= i <= |entries|
        invariant FirstMatch(entries, probe) == FirstMatch(entries[i..], probe)
      {
        var b := probe(entries[i]);
        if b.Found? {
          return b;
        }
        assert entries[i..][1..] == entries[i + 1..];
        i := i + 1;
      }
      return NotFound;
    }
  }
}
