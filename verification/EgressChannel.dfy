/** The COM4 UART between the backend and the guest: a bounded receive FIFO that
    may take only part of what it is offered. */
module EgressChannel {
  import opened Prelude
  import opened EgressCodec
  import opened EgressHost
  import opened EgressBackend

  const FIFO_SIZE: nat := 64

  class EgressChannel {
    const backend: EgressBackend
    var fifo: seq<byte>        // bytes waiting in the receive FIFO
    var captured: seq<byte>    // bytes the guest wrote since the last pump
    ghost var read: seq<byte>  // bytes the guest has read out of the FIFO
    ghost var refusals: nat    // offers of which the UART did not take all

    ghost predicate Valid()
      reads this, backend, backend.connector
    {
      && backend.Valid()
      && |fifo| <= FIFO_SIZE
      && backend.handed == read + fifo
    }

    constructor (b: EgressBackend)
      requires b.Valid() && b.handed == []
      ensures Valid() && backend == b && fifo == [] && captured == []
    {
      backend, fifo, captured, read, refusals := b, [], [], [], 0;
    }

    /** The UART takes some prefix of `bytes`, or refuses. */
    method EnqueueRawBytes(bytes: seq<byte>) returns (accepted: Option<nat>)
      requires |fifo| + |bytes| <= FIFO_SIZE
      modifies this`fifo, this`refusals
      ensures accepted.None? ==> fifo == old(fifo)
      ensures accepted.Some? ==>
                accepted.value <= |bytes| && fifo == old(fifo) + bytes[..accepted.value]
      ensures refusals == if accepted == Some(|bytes|) then old(refusals) else old(refusals) + 1
    {
      var n: int := *;
      if n != |bytes| {
        refusals := refusals + 1;
      }
      if n < 0 || n > |bytes| {
        return None;
      }
      fifo := fifo + bytes[..n];
      return Some(n);
    }

    /** Offer the FIFO one chunk; what it does not take goes back to the front. */
    method OfferChunk(cap: nat) returns (all: bool)
      requires Valid() && |fifo| + cap == FIFO_SIZE && cap > 0 && backend.txPending != []
      modifies this`fifo, this`refusals, backend`txPending, backend`handed
      ensures Valid()
      ensures fifo + backend.txPending == old(fifo) + old(backend.txPending)
      ensures old(fifo) <= fifo
      ensures all ==> |backend.txPending| < |old(backend.txPending)|
      ensures refusals == if all then old(refusals) else old(refusals) + 1
    {
      hide RunHost, WireFrames, WireAll, Decode;
      ghost var before, pending := fifo, backend.txPending;
      var chunk := backend.DrainToGuest(cap);
      var accepted := EnqueueRawBytes(chunk);
      var n := if accepted.Some? then accepted.value else 0;
      all := n == |chunk|;
      if !all {
        backend.UnshiftToGuest(chunk[n..]);
      }
      ghost var taken := chunk[..n];
      assert chunk == taken + chunk[n..];
      assert taken + backend.txPending == pending;
      assert fifo == before + taken;
      ShiftBytes(backend.handed, taken, backend.txPending);
      ShiftBytes(read, before, taken);
      ShiftBytes(before, taken, backend.txPending);
      backend.handed := backend.handed + taken;
    }

    /** Feed pending bytes until the FIFO is full, takes only part, or nothing is
        left.  Whatever it accepts, no byte is lost, repeated or overtaken. */
    method FeedFifo()
      requires Valid()
      modifies this`fifo, this`refusals, backend`txPending, backend`handed
      ensures Valid()
      ensures fifo + backend.txPending == old(fifo) + old(backend.txPending)
      ensures old(fifo) <= fifo
      ensures |fifo| == FIFO_SIZE || backend.txPending == [] || refusals > old(refusals)
    {
      hide RunHost, WireFrames, WireAll, Decode;
      while true
        invariant Valid() && refusals == old(refusals)
        invariant fifo + backend.txPending == old(fifo) + old(backend.txPending)
        invariant old(fifo) <= fifo
        decreases |backend.txPending|
      {
        var cap := FIFO_SIZE - |fifo|;
        if cap == 0 || backend.txPending == [] {
          return;
        }
        var all := OfferChunk(cap);
        if !all {
          return;
        }
      }
    }

    /** The boundary pump: what the guest wrote goes to the backend, what the backend
        queued goes to the FIFO. */
    method Pump() returns (error: Option<CodecError>)
      requires Valid()
      modifies this, backend, backend.connector
      ensures Valid() && captured == [] && read == old(read)
      ensures error == Parse(old(backend.rxParse) + old(captured)).error
      ensures error.None? ==>
                && backend.rxParse == Parse(old(backend.rxParse) + old(captured)).rest
                && (|fifo| == FIFO_SIZE || backend.txPending == [] || refusals > old(refusals))
                && var frames := Parse(old(backend.rxParse) + old(captured)).frames;
                   && old(backend.trace) + FrameSteps(frames) <= backend.trace
                   && forall i :: |old(backend.trace)| + |frames| <= i < |backend.trace| ==> !backend.trace[i].Frame?
    {
      hide RunHost, WireFrames, WireAll, Decode, Parse, ServesAll, ActedOn;
      var fromGuest := captured;
      captured := [];
      ghost var harvested;
      error, harvested := backend.Pump(fromGuest);
      if error.Some? {
        return;
      }
      NoFrameServes(backend.trace, |old(backend.trace)| + |Parse(old(backend.rxParse) + fromGuest).frames|, harvested,
                    backend.connector.told[|old(backend.connector.told)|]);
      FeedFifo();
    }

    /** The guest writes a byte to the port. */
    method PioWrite(b: byte)
      requires Valid()
      modifies this`captured
      ensures Valid() && captured == old(captured) + [b]
    {
      hide RunHost, WireFrames, WireAll, Decode;
      captured := captured + [b];
    }

    /** The guest reads a byte from the port; an empty FIFO yields nothing. */
    method PioRead() returns (b: Option<byte>)
      requires Valid()
      modifies this`fifo, this`read
      ensures Valid()
      ensures b.None? ==> old(fifo) == [] && fifo == [] && read == old(read)
      ensures b.Some? ==> old(fifo) == [b.value] + fifo && read == old(read) + [b.value]
    {
      hide RunHost, WireFrames, WireAll, Decode;
      if fifo == [] {
        return None;
      }
      b := Some(fifo[0]);
      assert fifo == [fifo[0]] + fifo[1..];
      ShiftBytes(read, [fifo[0]], fifo[1..]);
      read, fifo := read + [fifo[0]], fifo[1..];
    }
  }

  /** Only parsing takes frames. */
  lemma NoFrameServes(trace: seq<HostStep>, parsed: nat, harvested: nat, told: Answered)
    requires parsed <= harvested <= |trace| && ActedOn(told, trace[parsed..harvested])
    requires ServesAll(RunHost(NEW_HOST, trace[..harvested]), trace[harvested..])
    ensures forall i :: parsed <= i < |trace| ==> !trace[i].Frame?
  {
    hide RunHost;
    var acted, served := trace[parsed..harvested], trace[harvested..];
    var order :| ServesIn(RunHost(NEW_HOST, trace[..harvested]), served, order);
    forall i | parsed <= i < |trace| ensures !trace[i].Frame? {
      if i < harvested {
        assert Acts(acted[i - parsed], told.answers[i - parsed]);
      } else {
        assert ServesStream(served[i - harvested], order[i - harvested]);
      }
    }
  }

  lemma ShiftBytes(a: seq<byte>, b: seq<byte>, c: seq<byte>)
    ensures a + (b + c) == (a + b) + c
  {
  }

  lemma ParseRestNeedsMore(input: seq<byte>)
    ensures Parse(input).error.None? ==> Decode(Parse(input).rest).NeedMore?
  {
    hide Decode;
  }
}
