/** The whole egress path, byte for byte: clients and their handlers in the guest, the
    tty and the demultiplexer, the UART with its FIFO and the pump, the host's backend
    and its sockets.  Every method is some step of the program; whatever the order in
    which they come, the run is a run of the mux, so what holds in all of those
    holds of the bytes. */
module EgressSystem {
  import opened Prelude
  import opened EgressCodec
  import opened EgressSession
  import opened MuxLink
  import opened MuxInv
  import opened MuxProof
  import opened Forwarder
  import opened MuxSystem
  import opened MuxLift
  import opened MuxRisk
  import opened MuxFeed
  import opened EgressSim
  import opened EgressGuest
  import EH = EgressHost
  import EB = EgressBackend
  import EC = EgressChannel

  /** The frames sent up and not yet handled, as the bytes on their way. */
  ghost predicate UpBytes(m: Mux, bytes: seq<byte>) {
    WireFrames(Untag(m.up)) && WireAll(Untag(m.up)) == bytes
  }

  /** The frames queued are those routed and those in the pipe; the bytes read are
      those of the frames routed, and a part of the next. */
  ghost predicate DownBytes(m: Mux, queued: seq<Frame>, routed: seq<Frame>, read: seq<byte>, kept: seq<byte>) {
    queued == routed + Untag(m.down) && WireFrames(queued) && WireFrames(routed) && read == WireAll(routed) + kept
  }

  predicate OnlyRoutes(before: seq<MuxStep>, after: seq<MuxStep>) {
    before <= after && forall i :: |before| <= i < |after| ==> after[i] == RouteHead
  }

  class EgressSystem {
    const channel: EC.EgressChannel
    const registry: Registry
    const side: ClientSide
    var relays: map<u16, Relay>             // connection handlers
    var outgoing: seq<byte>                 // written to the tty, not yet out of the port
    var ttyIn: seq<byte>                    // in from the port, not yet read by the demultiplexer
    var demuxBuf: seq<byte>                 // the demultiplexer's buffer
    ghost var steps: seq<MuxStep>           // the run so far, as the mux sees it
    ghost var routed: seq<Frame>

    ghost function State(): Mux
      reads this
    {
      RunMux(NEW_MUX, steps)
    }

    ghost predicate GuestValid()
      reads this, registry, side
    {
      GuestValidWith(side.clients)
    }

    ghost predicate GuestValidWith(clients: map<u16, seq<Client>>)
      reads this, registry
    {
      && RelaysOk(relays, State()) && registry.streams == relays.Keys && registry.counter == State().counter
      && ClientsOk(clients, State())
    }

    ghost predicate HostValid()
      reads this, channel, channel.backend, channel.backend.connector
    {
      && channel.Valid()
      && Coupled(channel.backend.Table(), State())
      && UpBytes(State(), channel.backend.rxParse + channel.captured + outgoing)
    }

    ghost predicate Valid()
      reads this, registry, side, channel, channel.backend, channel.backend.connector
    {
      && GuestValid() && HostValid() && PipeValid()
    }

    ghost predicate PipeValid()
      reads this, channel, channel.backend
    {
      && DownBytes(State(), channel.backend.queued, routed, channel.read, demuxBuf + ttyIn)
      && Decode(demuxBuf).NeedMore?
    }

    constructor (c: EC.EgressChannel, r: Registry, s: ClientSide)
      requires c.Valid() && c.backend.trace == [] && c.backend.rxParse == [] && c.captured == [] && c.read == []
      requires r.streams == {} && r.counter == 1 && s.clients == map[]
      ensures Valid() && channel == c && registry == r && side == s && steps == []
    {
      channel, registry, side := c, r, s;
      relays, outgoing, ttyIn, demuxBuf := map[], [], [], [];
      steps, routed := [], [];
      new;
      PrefixOfNothing();
      NothingOnTheWire();
      assert Untag([]) == [];
      assert channel.backend.Table() == EH.NEW_HOST;
    }

    /** Add a step to the run. */
    ghost method Record(step: MuxStep)
      modifies this`steps
      ensures steps == old(steps) + [step] && State() == NextMux(old(State()), step)
    {
      RunOneStep(steps, step);
      steps := steps + [step];
    }

    // The guest.

    /** A client has named its destination: it gets the first free id, a handler and
        an OPEN; with every id in use there is no end to the search.  (A name comes
        with a length of one byte.) */
    method Enter(port: u16, host: seq<byte>)
      requires Valid() && |host| <= MAX_HOST_LEN
      modifies this, registry, side
      ensures Valid()
      ensures steps == old(steps)
           || exists skipped :: steps == old(steps) + [Accept(port, host, skipped)]
    {
      hide RunMux, NextMux, Coupled, Decode, WireAll, WireFrames, Wire, Candidate, CounterAfter, FirstFree;
      ghost var m := State();
      var id, skipped := registry.Register();
      if id.None? {
        return;
      }
      assert FirstFree(relays.Keys, m.counter, skipped);
      EnterSim(relays, side.clients, m, port, host, skipped);
      var open := Open(id.value, port, host);
      OpenWire(id.value, port, host);
      Send(m, Accept(port, host, skipped), [open]);
      relays := relays[id.value := Relay(Opening, [], 0, false)];
      side.Arrive(id.value);
    }

    /** A guest step of the mux that puts `frames` on the tty. */
    method Send(ghost m: Mux, ghost step: MuxStep, frames: seq<Frame>)
      requires HostValid() && m == State() && WireFrames(frames)
      requires SameHost(m, NextMux(m, step)) && Untag(NextMux(m, step).up) == Untag(m.up) + frames
      requires DownBytes(m, channel.backend.queued, routed, channel.read, demuxBuf + ttyIn)
      modifies this`outgoing, this`steps
      ensures HostValid() && State() == NextMux(m, step) && steps == old(steps) + [step]
      ensures DownBytes(State(), channel.backend.queued, routed, channel.read, demuxBuf + ttyIn)
    {
      hide RunMux, NextMux, Coupled, Decode, WireAll, Wire, SameHost, EC.EgressChannel.Valid;
      ghost var n := NextMux(m, step);
      SameHostKeeps(channel.backend.Table(), m, n);
      SameDown(m, n);
      WireAllAppend(Untag(m.up), frames);
      outgoing := outgoing + WireAll(frames);
      Record(step);
    }

    /** A handler has moved, and its client with it: the bytes are `got` and `sent`. */
    method Commit(id: u16, after: Option<Relay>, frames: seq<Frame>, ghost clients: map<u16, seq<Client>>,
                  ghost got: seq<byte>, ghost sent: seq<byte>, ghost step: Step)
      requires GuestValidWith(clients) && HostValid() && PipeValid()
      requires ClientsOf(clients, id) != [] && side.clients == clients[id := MoreOf(ClientsOf(clients, id), got, sent)]
      requires id in relays && WireFrames(frames) && GuestStep(step)
      requires Moves(View(State(), id), Next(View(State(), id), step), after, frames, got, sent)
      modifies this, registry
      ensures Valid() && steps == old(steps) + [Local(id, step)]
    {
      hide RunMux, NextMux, Decode, WireAll, WireFrames, Next, View, Moves, MoreOf, ClientsOf, RelaysOk, ClientsOk;
      hide DownBytes, UpBytes, Coupled, SameHost, GuestStep, EndsOf, EndsAre, Untag, EC.EgressChannel.Valid;
      ghost var m := State();
      ghost var n, v := NextMux(m, Local(id, step)), Next(View(m, id), step);
      MoveSim(m, id, step, after, frames, got, sent);
      MoveKeeps(relays, clients, m, n, id, v, after, frames, got, sent);
      Send(m, Local(id, step), frames);
      if after.Some? {
        relays := relays[id := after.value];
      } else {
        relays := relays - {id};
        registry.Remove(id);
      }
    }

    /** The handler of `id` takes the next message from its channel. */
    method TakeMessage(id: u16)
      requires Valid() && id in relays && !relays[id].phase.Closing? && relays[id].inbox != []
      modifies this, registry, side
      ensures Valid()
      ensures exists step: Step :: step.Receive? && steps == old(steps) + [Local(id, step)]
    {
      hide RunMux, Coupled, Decode, WireAll, WireFrames, Wire, Next, Moves;
      LatestHandler(steps, relays, id);
      HasClient(side.clients, State(), id);
      ghost var clients := side.clients;
      var after, frames, written, step := React(side, id, relays[id], View(State(), id));
      Commit(id, after, frames, clients, written, [], step);
    }

    /** The up thread of `id` reads its client once. */
    method ReadUp(id: u16)
      requires Valid() && id in relays && !relays[id].phase.Opening? && !relays[id].upDone
      modifies this, registry, side
      ensures Valid()
      ensures exists step: Step :: GuestStep(step) && steps == old(steps) + [Local(id, step)]
    {
      hide RunMux, Coupled, Decode, WireAll, WireFrames, Wire, Next, Moves;
      LatestHandler(steps, relays, id);
      HasClient(side.clients, State(), id);
      ghost var clients := side.clients;
      var after, frame, taken, step := ReadClient(side, id, relays[id], View(State(), id));
      Commit(id, Some(after), [frame], clients, [], taken, step);
    }

    /** The handler is done with both directions and frees its id. */
    method Leave(id: u16)
      requires Valid() && id in relays && relays[id].phase.Closing? && relays[id].upDone
      modifies this, registry
      ensures Valid() && steps == old(steps) + [Local(id, Deregister)]
    {
      hide RunMux, Coupled, Decode, WireAll, Wire, Next, Moves;
      LatestHandler(steps, relays, id);
      LeaveMoves(View(State(), id), relays[id]);
      ControlWire(id);
      HasClient(side.clients, State(), id);
      NoMore(side.clients, id);
      Commit(id, None, [], side.clients, [], [], Deregister);
    }

    // The port.

    /** One byte leaves the tty through the port. */
    method WriteByte()
      requires Valid() && outgoing != []
      modifies this, channel
      ensures Valid() && steps == old(steps)
    {
      hide RunMux, Coupled, Decode, UpBytes, DownBytes, RelaysOk, ClientsOk;
      ghost var parse, captured := channel.backend.rxParse, channel.captured;
      channel.PioWrite(outgoing[0]);
      assert parse + (captured + [outgoing[0]]) + outgoing[1..] == parse + captured + outgoing;
      outgoing := outgoing[1..];
    }

    /** One byte comes in through the port. */
    method ReadByte()
      requires Valid()
      modifies this, channel
      ensures Valid() && steps == old(steps)
    {
      hide RunMux, Coupled, Decode, UpBytes, RelaysOk, ClientsOk, WireAll, WireFrames, EB.EgressBackend.Valid;
      var b := channel.PioRead();
      if b.Some? {
        ttyIn := ttyIn + [b.value];
        assert demuxBuf + ttyIn == demuxBuf + old(ttyIn) + [b.value];
        assert WireAll(routed) + (demuxBuf + old(ttyIn)) + [b.value] == WireAll(routed) + (demuxBuf + ttyIn);
      }
    }

    /** The demultiplexer reads up to `n` bytes and routes every whole frame.  Its
        framing is never lost. */
    method DemuxRead(n: nat)
      requires Valid()
      modifies this
      ensures Valid() && OnlyRoutes(old(steps), steps)
    {
      hide RunMux, Coupled, Decode, WireAll, WireFrames, RelaysOk, ClientsOk, Parse, UpBytes, Untag;
      hide EC.EgressChannel.Valid;
      var take := Min(n, |ttyIn|);
      var input := demuxBuf + ttyIn[..take];
      assert input + ttyIn[take..] == demuxBuf + ttyIn;
      ghost var k := InputParses(input, ttyIn[take..]);
      var frames, offset, error := EB.WholeFrames(input);
      assert error.None?;
      demuxBuf, ttyIn := input[offset..], ttyIn[take..];
      EC.ParseRestNeedsMore(input);
      ghost var tail := Untag(State().down)[k..];
      assert Untag(State().down) == frames + tail;
      RouteAll(frames, tail);
      RoutedBytes(old(routed), frames, tail, input, demuxBuf, ttyIn);
    }

    method RouteAll(frames: seq<Frame>, ghost tail: seq<Frame>)
      requires GuestValid() && HostValid() && channel.backend.queued == routed + Untag(State().down)
      requires Untag(State().down) == frames + tail
      modifies this`relays, this`routed, this`steps
      ensures GuestValid() && HostValid() && channel.backend.queued == routed + Untag(State().down)
      ensures Untag(State().down) == tail && routed == old(routed) + frames && OnlyRoutes(old(steps), steps)
    {
      hide RunMux, Coupled, RelaysOk, ClientsOk, UpBytes, EC.EgressChannel.Valid;
      assert frames[0..] == frames && frames[..0] == [];
      for i := 0 to |frames|
        invariant GuestValid() && HostValid() && Untag(State().down) == frames[i..] + tail
        invariant channel.backend.queued == routed + Untag(State().down) && routed == old(routed) + frames[..i]
        invariant OnlyRoutes(old(steps), steps)
      {
        assert frames[i..] == [frames[i]] + frames[i + 1..];
        assert Untag(State().down)[0] == State().down[0].frame;
        RouteOne(frames[i]);
        assert frames[..i + 1] == frames[..i] + [frames[i]];
      }
      assert frames[..|frames|] == frames && frames[|frames|..] + tail == tail;
    }

    /** What the demultiplexer has is the start of the frames in the pipe. */
    lemma InputParses(input: seq<byte>, rest: seq<byte>) returns (k: nat)
      requires HostValid() && input + rest == demuxBuf + ttyIn
      requires DownBytes(State(), channel.backend.queued, routed, channel.read, demuxBuf + ttyIn)
      ensures var frames := Untag(State().down);
              && k <= |frames| && Parse(input).error.None? && Parse(input).frames == frames[..k]
              && WireFrames(frames) && WireFrames(routed) && WireFrames(channel.backend.queued)
    {
      hide RunMux, Coupled, Decode, WireAll, Parse, UpBytes, WireFrame;
      var frames := Untag(State().down);
      assert forall i :: 0 <= i < |frames| ==> frames[i] == channel.backend.queued[|routed| + i];
      WireAllAppend(routed, frames);
      var after := rest + channel.fifo + channel.backend.txPending;
      SplitOff(WireAll(routed), WireAll(frames), input, rest, channel.fifo, channel.backend.txPending);
      assert WireAll(frames) == input + after;
      assert WireAll(frames)[..|input|] == input;
      k := ParseOfWire(frames, |input|);
    }

    /** The demultiplexer's `route`: to the stream's channel if there is one. */
    method RouteOne(f: Frame)
      requires GuestValid() && HostValid() && channel.backend.queued == routed + Untag(State().down)
      requires State().down != [] && State().down[0].frame == f
      modifies this`relays, this`routed, this`steps
      ensures GuestValid() && HostValid() && channel.backend.queued == routed + Untag(State().down)
      ensures routed == old(routed) + [f] && steps == old(steps) + [RouteHead]
      ensures Untag(State().down) == Untag(old(State()).down)[1..]
    {
      hide RunMux, NextMux, Coupled, Decode, WireAll, WireFrames, RelaysOk, ClientsOk, EC.EgressChannel.Valid;
      ghost var m := State();
      HostForGuest(channel.backend.trace);
      HeadForGuest(m);
      RouteSim(relays, side.clients, m);
      RouteKeepsHost(channel.backend.Table(), m);
      ghost var rest := m.down[1..];
      assert Untag(m.down) == [f] + Untag(rest) && Untag(m.down)[1..] == Untag(rest);
      assert routed + ([f] + Untag(rest)) == routed + [f] + Untag(rest);
      if !f.Open? && !f.Window? && f.stream in relays {
        var r := relays[f.stream];
        relays := relays[f.stream := r.(inbox := r.inbox + [f])];
      }
      routed := routed + [f];
      Record(RouteHead);
    }

    lemma HeadForGuest(m: Mux)
      requires HostValid() && m == State() && channel.backend.queued == routed + Untag(m.down) && m.down != []
      ensures ForGuest(m.down[0].frame)
    {
      hide RunMux, Coupled, Decode, WireAll, WireFrames, EH.RunHost;
      HostForGuest(channel.backend.trace);
      assert channel.backend.queued[|routed|] == m.down[0].frame;
    }

    // The host.

    /** The boundary pump.  The guest's framing is never lost. */
    method Pump()
      requires Valid()
      modifies this, channel, channel.backend, channel.backend.connector
      ensures Valid() && old(steps) <= steps && old(channel.backend.trace) <= channel.backend.trace
    {
      hide RunMux, NextMux, Coupled, Decode, WireAll, WireFrames, RelaysOk, ClientsOk, Parse, EH.RunHost;
      ghost var m, input, trace := State(), channel.backend.rxParse + channel.captured, channel.backend.trace;
      ghost var k := PumpParses(m, input, outgoing);
      var error := channel.Pump();
      assert error.None?;
      ghost var more := channel.backend.trace[|trace|..];
      PumpFrames(trace, channel.backend.trace, Parse(input).frames);
      AllInvOf(steps);
      ghost var run := SimRun(trace, more, m);
      ghost var n := RunMux(m, run);
      assert trace + more == channel.backend.trace;
      PumpKeeps(trace, more, m, n, channel.backend.Table());
      SameGuestKeeps(relays, side.clients, m, n);
      RunMuxAppend(NEW_MUX, steps, run);
      steps := steps + run;
      assert State() == n;
      PumpQueued(trace, more, m, n, routed);
      assert channel.backend.rxParse + [] + outgoing == channel.backend.rxParse + outgoing;
    }

    // Any order.

    /** Any run of the system. */
    method Run(turns: nat)
      requires Valid()
      modifies this, registry, side, channel, channel.backend, channel.backend.connector
      ensures Valid()
    {
      for i := 0 to turns
        invariant Valid()
      {
        var what: int, id: u16 := *, *;
        var port: u16, host: seq<byte>, n: nat := *, *, *;
        if what == 0 && |host| <= MAX_HOST_LEN {
          Enter(port, host);
        } else if what == 1 && id in relays && !relays[id].phase.Closing? && relays[id].inbox != [] {
          TakeMessage(id);
        } else if what == 2 && id in relays && !relays[id].phase.Opening? && !relays[id].upDone {
          ReadUp(id);
        } else if what == 3 && id in relays && relays[id].phase.Closing? && relays[id].upDone {
          Leave(id);
        } else if what == 4 && outgoing != [] {
          WriteByte();
        } else if what == 5 {
          ReadByte();
        } else if what == 6 {
          DemuxRead(n);
        } else {
          Pump();
        }
      }
    }

    /** The promise of the channel, of the bytes: what the `k`th client of `id` got is,
        after any bytes of other uses of the id, the first bytes that its own socket
        yielded, all of them once its CLOSE came; what was written to that socket is
        the first bytes the client sent; and, use after use, these are the bytes that the
        connector's sockets of the id yielded and took. */
    lemma ClientBytes(id: u16, k: nat)
      requires Valid() && k < |ClientsOf(side.clients, id)|
      ensures var logs := EndsOf(State(), id).logs;
              && |logs| == |ClientsOf(side.clients, id)|
              && Carried(logs, false) == EH.History(channel.backend.connector.yielded, id)
              && Carried(logs, true) == EH.History(channel.backend.connector.taken, id)
              && var c, g := ClientsOf(side.clients, id)[k], logs[k];
                 && g.stray <= |c.got| && c.got[g.stray..] <= g.yielded
                 && (g.sawClose ==> c.got[g.stray..] == g.yielded)
                 && g.written <= c.sent
    {
      hide RunMux, Decode, WireAll, WireFrames, RelaysOk, EH.RunHost, EndsOf, Carried, EH.History;
      hide UpBytes, DownBytes;
      assert CoupledAt(channel.backend.Table(), EndsOf(State(), id), id);
      assert Records(ClientsOf(side.clients, id), EndsOf(State(), id).logs);
      MuxByteOrder(steps, id, k);
    }

    /** Flow control of a stream that is up, in the program's own counters. */
    lemma StreamFlow(id: u16)
      requires Valid() && Live(View(State(), id)) && Countable(LogOf(View(State(), id), EndsOf(State(), id).cur).stray)
      ensures id in relays && id in channel.backend.sessions
      ensures var l := View(State(), id);
              channel.backend.sessions[id].credit + DataInFlight(l) + relays[id].ungranted + CreditInFlight(l)
              == WINDOW_BYTES + LogOf(l, l.cur).stray
    {
      hide RunMux, Decode, WireAll, WireFrames, ClientsOk, EH.RunHost, UpBytes, DownBytes;
      hide DataInFlight, CreditInFlight, LogOf;
      assert MirrorsAny(RelayOf(relays, id), EndsOf(State(), id).handler);
      assert CoupledAt(channel.backend.Table(), EndsOf(State(), id), id);
      MuxFlowControl(steps, id);
    }

    /** A client that was accepted where its id was not exposed has bytes of its own
        socket only, in order. */
    lemma OwnBytesOnly(before: seq<MuxStep>, port: u16, host: seq<byte>, skipped: nat, after: seq<MuxStep>)
      requires Valid() && steps == before + ([Accept(port, host, skipped)] + after)
      requires var m := RunMux(NEW_MUX, before);
               FirstFree(InUse(m), m.counter, skipped) && !Exposed(View(m, Candidate(m.counter, skipped)), false)
      ensures var m := RunMux(NEW_MUX, before);
              var id := Candidate(m.counter, skipped);
              var k, logs := |EndsOf(m, id).logs|, EndsOf(State(), id).logs;
              && |logs| == |ClientsOf(side.clients, id)|
              && (k < |logs| ==> ClientsOf(side.clients, id)[k].got <= logs[k].yielded)
    {
      hide Coupled, Decode, WireAll, WireFrames, RelaysOk, EH.RunHost, UpBytes, DownBytes, NextMux, Exposed;
      hide FirstFree, InUse, Room;
      var m, accept := RunMux(NEW_MUX, before), Accept(port, host, skipped);
      var id := Candidate(m.counter, skipped);
      MuxBytesExact(before, port, host, skipped);
      RunMuxAppend(NEW_MUX, before, [accept] + after);
      assert ([accept] + after)[0] == accept && ([accept] + after)[1..] == after;
      assert State() == RunMux(NextMux(m, accept), after);
      hide RunMux;
      assert MuxReaches(NextMux(m, accept), State());
      assert OwnBytes(View(State(), id), |EndsOf(m, id).logs|);
      assert Records(ClientsOf(side.clients, id), EndsOf(State(), id).logs);
    }
  }

  lemma RunOneStep(steps: seq<MuxStep>, step: MuxStep)
    ensures RunMux(NEW_MUX, steps + [step]) == NextMux(RunMux(NEW_MUX, steps), step)
  {
    RunMuxAppend(NEW_MUX, steps, [step]);
    var m := RunMux(NEW_MUX, steps);
    assert [step][1..] == [];
    assert RunMux(m, [step]) == RunMux(NextMux(m, step), []);
    hide NextMux;
  }

  lemma SameDown(m: Mux, n: Mux)
    requires SameHost(m, n)
    ensures n.down == m.down
  {
  }

  lemma OpenWire(id: u16, port: u16, host: seq<byte>)
    requires |host| <= MAX_HOST_LEN
    ensures WireFrames([Open(id, port, host)])
  {
  }

  /** The handler of an id belongs to its latest use. */
  lemma LatestHandler(steps: seq<MuxStep>, relays: map<u16, Relay>, id: u16)
    requires id in relays && RelaysOk(relays, RunMux(NEW_MUX, steps))
    ensures var l := View(RunMux(NEW_MUX, steps), id);
            l.id == id && l.handler.Some? && Mirrors(relays[id], l.handler.value) && l.handler.value.inc == l.Last()
  {
    MuxRunKeeps(steps, id);
    hide RunMux;
    assert MirrorsAny(RelayOf(relays, id), EndsOf(RunMux(NEW_MUX, steps), id).handler);
  }

  lemma HasClient(clients: map<u16, seq<Client>>, m: Mux, id: u16)
    requires ClientsOk(clients, m) && 0 <= View(m, id).Last()
    ensures ClientsOf(clients, id) != []
  {
    assert Records(ClientsOf(clients, id), EndsOf(m, id).logs);
  }

  lemma AllInvOf(steps: seq<MuxStep>)
    ensures AllInv(RunMux(NEW_MUX, steps))
  {
    hide RunMux, Inv, View;
    forall id: u16 ensures Inv(View(RunMux(NEW_MUX, steps), id)) {
      MuxRunKeeps(steps, id);
    }
  }

  lemma SplitOff(a: seq<byte>, b: seq<byte>, input: seq<byte>, rest: seq<byte>, fifo: seq<byte>, pending: seq<byte>)
    requires a + b == a + (input + rest) + fifo + pending
    ensures b == input + (rest + fifo + pending)
  {
    assert (a + b)[|a|..] == b;
    assert a + (input + rest) + fifo + pending == a + (input + (rest + fifo + pending));
    assert (a + (input + (rest + fifo + pending)))[|a|..] == input + (rest + fifo + pending);
  }

  /** The bytes read, after the frames in them have been routed. */
  lemma RoutedBytes(routed: seq<Frame>, frames: seq<Frame>, tail: seq<Frame>,
                    input: seq<byte>, buf: seq<byte>, rest: seq<byte>)
    requires WireFrames(routed) && WireFrames(frames + tail)
    requires Parse(input).error.None? && Parse(input).frames == frames && Parse(input).rest == buf
    ensures WireFrames(routed + frames)
    ensures WireAll(routed) + (input + rest) == WireAll(routed + frames) + (buf + rest)
  {
    hide Parse, WireAll, WireFrame;
    assert forall i :: 0 <= i < |frames| ==> frames[i] == (frames + tail)[i];
    ParseConserves(input);
    WireAllAppend(routed, frames);
  }

  /** Routing leaves the host's end alone. */
  lemma RouteKeepsHost(h: EH.Host, m: Mux)
    requires Coupled(h, m)
    requires var n := NextMux(m, RouteHead);
             forall id: u16 ::
               && EndsOf(n, id).session == EndsOf(m, id).session
               && EndsOf(n, id).resolving == EndsOf(m, id).resolving && EndsOf(n, id).logs == EndsOf(m, id).logs
    ensures Coupled(h, NextMux(m, RouteHead))
  {
    hide NextMux, EndsOf, Carried, EH.History, EH.SessionOf;
    forall id: u16 ensures CoupledAt(h, EndsOf(NextMux(m, RouteHead), id), id) {
      assert CoupledAt(h, EndsOf(m, id), id);
    }
  }

  /** What the host is about to parse is the start of the frames in the pipe. */
  lemma PumpParses(m: Mux, input: seq<byte>, outgoing: seq<byte>) returns (k: nat)
    requires UpBytes(m, input + outgoing)
    ensures k <= |m.up| && Parse(input).error.None? && Parse(input).frames == Untag(m.up)[..k]
    ensures WireFrames(Untag(m.up[k..])) && Parse(input).rest + outgoing == WireAll(Untag(m.up[k..]))
  {
    hide Parse, WireAll, WireFrame;
    var frames := Untag(m.up);
    assert WireAll(frames)[..|input|] == input && WireAll(frames)[|input|..] == outgoing;
    k := ParseOfWire(frames, |input|);
    assert Untag(m.up[k..]) == frames[k..];
  }

  /** The frames handled in a pump are the ones parsed. */
  lemma PumpFrames(trace: seq<EH.HostStep>, after: seq<EH.HostStep>, frames: seq<Frame>)
    requires trace + EB.FrameSteps(frames) <= after
    requires forall i :: |trace| + |frames| <= i < |after| ==> !after[i].Frame?
    ensures FramesOf(after[|trace|..]) == frames && trace + after[|trace|..] == after
  {
    var more := after[|trace|..];
    assert forall i :: 0 <= i < |frames| ==> more[i] == EB.FrameSteps(frames)[i] == after[|trace| + i];
    FramesThenNone(more, frames);
  }

  lemma {:induction false} FramesThenNone(more: seq<EH.HostStep>, frames: seq<Frame>)
    requires |frames| <= |more|
    requires forall i :: 0 <= i < |frames| ==> more[i] == EH.HostStep.Frame(frames[i])
    requires forall i :: |frames| <= i < |more| ==> !more[i].Frame?
    ensures FramesOf(more) == frames
    decreases |more|
  {
    if more != [] {
      FramesThenNone(more[1..], if frames == [] then [] else frames[1..]);
    }
  }

  lemma PumpKeeps(trace: seq<EH.HostStep>, more: seq<EH.HostStep>, m: Mux, n: Mux, h: EH.Host)
    requires Follows(trace, more, m, n) && h == EH.RunHost(EH.NEW_HOST, trace + more)
    ensures Coupled(h, n) && SameGuest(m, n)
    ensures |FramesOf(more)| <= |m.up| && n.up == m.up[|FramesOf(more)|..]
  {
    hide EH.RunHost, Coupled, SameGuest, Untag;
  }

  lemma SameGuestKeeps(relays: map<u16, Relay>, clients: map<u16, seq<Client>>, m: Mux, n: Mux)
    requires RelaysOk(relays, m) && ClientsOk(clients, m) && SameGuest(m, n)
    ensures RelaysOk(relays, n) && ClientsOk(clients, n) && n.counter == m.counter
  {
    hide EndsOf;
    forall id: u16 ensures Records(ClientsOf(clients, id), EndsOf(n, id).logs) {
      assert Records(ClientsOf(clients, id), EndsOf(m, id).logs);
      assert SameClients(EndsOf(m, id).logs, EndsOf(n, id).logs);
    }
  }

  lemma PumpQueued(trace: seq<EH.HostStep>, more: seq<EH.HostStep>, m: Mux, n: Mux, routed: seq<Frame>)
    requires Follows(trace, more, m, n)
    requires EH.RunHost(EH.NEW_HOST, trace).out == routed + Untag(m.down)
    ensures EH.RunHost(EH.NEW_HOST, trace + more).out == routed + Untag(n.down)
  {
    hide EH.RunHost, Coupled, SameGuest, Untag;
    var a, b := EH.RunHost(EH.NEW_HOST, trace).out, EH.RunHost(EH.NEW_HOST, trace + more).out;
    assert b == a + b[|a|..];
    assert routed + Untag(m.down) + b[|a|..] == routed + (Untag(m.down) + b[|a|..]);
  }
}
