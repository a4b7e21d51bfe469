/** The guest's connection handlers as the program keeps them: no incarnations, only
    frames and counters.  Each of their moves is the mux's move on the same stream. */
module EgressGuest {
  import opened Prelude
  import opened EgressCodec
  import opened MuxLink
  import opened MuxInv
  import opened Forwarder
  import opened MuxSystem
  import opened MuxLift
  import opened EgressSim
  import EH = EgressHost

  /** One handler with its channel of undelivered frames. */
  datatype Relay = Relay(phase: Phase, inbox: seq<Frame>, ungranted: nat, upDone: bool)

  predicate Mirrors(r: Relay, h: Handler) {
    r.phase == h.phase && r.inbox == Untag(h.inbox) && r.ungranted == h.ungranted && r.upDone == h.upDone
  }

  predicate MirrorsAny(r: Option<Relay>, h: Option<Handler>) {
    r.Some? == h.Some? && (r.Some? ==> Mirrors(r.value, h.value))
  }

  function RelayOf(relays: map<u16, Relay>, id: u16): Option<Relay> {
    if id in relays then Some(relays[id]) else None
  }

  ghost predicate RelaysOk(relays: map<u16, Relay>, m: Mux) {
    forall id: u16 :: MirrorsAny(RelayOf(relays, id), EndsOf(m, id).handler)
  }

  /** What one client got and what it sent. */
  datatype Client = Client(got: seq<byte>, sent: seq<byte>)

  function ClientsOf(clients: map<u16, seq<Client>>, id: u16): seq<Client> {
    if id in clients then clients[id] else []
  }

  predicate Records(cs: seq<Client>, logs: seq<Log>) {
    |cs| == |logs| && forall k :: 0 <= k < |cs| ==> cs[k] == Client(logs[k].delivered, logs[k].pushed)
  }

  ghost predicate ClientsOk(clients: map<u16, seq<Client>>, m: Mux) {
    forall id: u16 :: Records(ClientsOf(clients, id), EndsOf(m, id).logs)
  }

  datatype ClientRead = ClientData(bytes: seq<byte>) | ClientEnd | ClientError

  /** What a client's connection answered to its handler. */
  datatype ClientTold = Replied(id: u16, ok: bool) | WroteTo(id: u16, ok: bool) | ReadFrom(id: u16, r: ClientRead)

  /** The connections of the clients, keyed by stream id; each id has had one client
      after the other.  Any answer is possible. */
  class ClientSide {
    ghost var clients: map<u16, seq<Client>>
    ghost var told: seq<ClientTold>

    constructor ()
      ensures clients == map[] && told == []
    {
      clients, told := map[], [];
    }

    method Arrive(id: u16)
      modifies this`clients
      ensures clients == old(clients)[id := ClientsOf(old(clients), id) + [Client([], [])]]
    {
      clients := clients[id := ClientsOf(clients, id) + [Client([], [])]];
    }

    /** The SOCKS reply, and the second handle on the connection that relaying needs. */
    method Reply(id: u16) returns (ok: bool)
      modifies this`told
      ensures told == old(told) + [Replied(id, ok)]
    {
      ok := *;
      told := told + [Replied(id, ok)];
    }

    /** Write all of `bytes`, or fail after `n` of them. */
    method Write(id: u16, bytes: seq<byte>) returns (ok: bool, ghost n: nat)
      requires ClientsOf(clients, id) != []
      modifies this
      ensures n <= |bytes| && (ok ==> n == |bytes|)
      ensures clients == old(clients)[id := MoreOf(ClientsOf(old(clients), id), bytes[..n], [])]
      ensures told == old(told) + [WroteTo(id, ok)]
    {
      var put: int := *;
      ok := put < 0 || put > |bytes|;
      n := if ok then |bytes| else put;
      clients := clients[id := MoreOf(ClientsOf(clients, id), bytes[..n], [])];
      told := told + [WroteTo(id, ok)];
    }

    method Read(id: u16, want: nat) returns (r: ClientRead)
      requires ClientsOf(clients, id) != [] && want > 0
      modifies this
      ensures r.ClientData? ==> 0 < |r.bytes| <= want
      ensures clients == old(clients)[id := MoreOf(ClientsOf(old(clients), id), [], DataOf(r))]
      ensures told == old(told) + [ReadFrom(id, r)]
    {
      r := *;
      if r.ClientData? && !(0 < |r.bytes| <= want) {
        r := ClientEnd;
      }
      clients := clients[id := MoreOf(ClientsOf(clients, id), [], DataOf(r))];
      told := told + [ReadFrom(id, r)];
    }
  }

  function DataOf(r: ClientRead): seq<byte> {
    if r.ClientData? then r.bytes else []
  }

  lemma NoMore(clients: map<u16, seq<Client>>, id: u16)
    requires ClientsOf(clients, id) != []
    ensures clients[id := MoreOf(ClientsOf(clients, id), [], [])] == clients
  {
    var cs := ClientsOf(clients, id);
    var last := cs[|cs| - 1];
    assert last.got + [] == last.got && last.sent + [] == last.sent;
    assert cs[|cs| - 1 := last] == cs;
  }

  // A move of one handler.

  /** The last client of the id got and sent some more. */
  function MoreOf(cs: seq<Client>, got: seq<byte>, sent: seq<byte>): seq<Client>
    requires cs != []
  {
    var last := cs[|cs| - 1];
    cs[|cs| - 1 := Client(last.got + got, last.sent + sent)]
  }

  /** The mux's step from `l` to `v`, as the handler sees it. */
  predicate Moves(l: Link, v: Link, after: Option<Relay>, frames: seq<Frame>, got: seq<byte>, sent: seq<byte>) {
    && MirrorsAny(after, v.handler)
    && |v.up| == |l.up| + |frames| && v.up[..|l.up|] == l.up && Untag(v.up[|l.up|..]) == frames
    && 0 < |l.logs| == |v.logs|
    && (forall k :: 0 <= k < |l.logs| - 1 ==> v.logs[k] == l.logs[k])
    && var g, g' := l.logs[|l.logs| - 1], v.logs[|l.logs| - 1];
       && g'.delivered == g.delivered + got && g'.pushed == g.pushed + sent
       && g'.yielded == g.yielded && g'.written == g.written
  }

  predicate GuestStep(step: Step) {
    step.Receive? || step.UpData? || step.UpClose? || step.UpRst? || step.Deregister?
  }

  lemma GuestKeepsHost(l: Link, step: Step)
    requires GuestStep(step)
    ensures var v := Next(l, step);
            v.id == l.id && v.session == l.session && v.resolving == l.resolving && v.down == l.down
  {
    hide SetLog, LogOf, ReceiveFrame;
    if step.Receive? && l.handler.Some? && l.handler.value.inbox != [] {
      ReceiveKeepsHost(l, step.ok, step.partial);
    }
  }

  lemma ReceiveKeepsHost(l: Link, ok: bool, partial: nat)
    requires l.handler.Some? && l.handler.value.inbox != []
    ensures var v := ReceiveFrame(l, ok, partial);
            v.id == l.id && v.session == l.session && v.resolving == l.resolving && v.down == l.down
  {
    hide SetLog, LogOf;
    if !l.handler.value.phase.Opening? && l.handler.value.inbox[0].frame.Data? {
      DataKeepsHost(l, ok, partial);
    }
  }

  lemma DataKeepsHost(l: Link, ok: bool, partial: nat)
    requires l.handler.Some? && l.handler.value.inbox != []
    requires !l.handler.value.phase.Opening? && l.handler.value.inbox[0].frame.Data?
    ensures var v := ReceiveFrame(l, ok, partial);
            v.id == l.id && v.session == l.session && v.resolving == l.resolving && v.down == l.down
  {
    hide SetLog, LogOf;
  }

  /** Nothing of the host's end has changed. */
  ghost predicate SameHost(m: Mux, n: Mux) {
    && n.down == m.down
    && forall id: u16 ::
         && EndsOf(n, id).session == EndsOf(m, id).session && EndsOf(n, id).resolving == EndsOf(m, id).resolving
         && Carried(EndsOf(n, id).logs, false) == Carried(EndsOf(m, id).logs, false)
         && Carried(EndsOf(n, id).logs, true) == Carried(EndsOf(m, id).logs, true)
  }

  lemma SameHostKeeps(h: EH.Host, m: Mux, n: Mux)
    requires Coupled(h, m) && SameHost(m, n)
    ensures Coupled(h, n)
  {
    hide EndsOf, Carried, EH.History, EH.SessionOf;
    forall id: u16 ensures CoupledAt(h, EndsOf(n, id), id) {
      assert CoupledAt(h, EndsOf(m, id), id);
    }
  }

  /** A move of the handler of `id`, in the whole mux. */
  lemma MoveSim(m: Mux, id: u16, step: Step, after: Option<Relay>, frames: seq<Frame>, got: seq<byte>, sent: seq<byte>)
    requires GuestStep(step) && Moves(View(m, id), Next(View(m, id), step), after, frames, got, sent)
    ensures var n := NextMux(m, Local(id, step));
            && SameHost(m, n) && n.counter == m.counter && Untag(n.up) == Untag(m.up) + frames
            && EndsAre(n, id, Next(View(m, id), step)) && (forall j: u16 :: j != id ==> EndsOf(n, j) == EndsOf(m, j))
  {
    hide Next, Only, Carried, NextMux, Untag, MirrorsAny, EndsOf;
    var l, v := View(m, id), Next(View(m, id), step);
    GuestKeepsHost(l, step);
    CarriedSame(l.logs, v.logs, false);
    CarriedSame(l.logs, v.logs, true);
    MovePipes(m, id, step, frames);
  }

  lemma MovePipes(m: Mux, id: u16, step: Step, frames: seq<Frame>)
    requires var l, v := View(m, id), Next(View(m, id), step);
             v.down == l.down && |v.up| == |l.up| + |frames| && Untag(v.up[|l.up|..]) == frames
    requires LocalStep(step)
    ensures var n := NextMux(m, Local(id, step));
            && n.counter == m.counter && n.down == m.down && Untag(n.up) == Untag(m.up) + frames
            && EndsAre(n, id, Next(View(m, id), step)) && (forall j: u16 :: j != id ==> EndsOf(n, j) == EndsOf(m, j))
  {
    var l, v := View(m, id), Next(View(m, id), step);
    hide Next, Only;
    assert v.down[|l.down|..] == [] && m.down + [] == m.down;
    assert Untag(m.up + v.up[|l.up|..]) == Untag(m.up) + frames;
  }

  lemma MoveKeeps(relays: map<u16, Relay>, clients: map<u16, seq<Client>>, m: Mux, n: Mux, id: u16, v: Link,
                  after: Option<Relay>, frames: seq<Frame>, got: seq<byte>, sent: seq<byte>)
    requires RelaysOk(relays, m) && ClientsOk(clients, m)
    requires Moves(View(m, id), v, after, frames, got, sent)
    requires EndsAre(n, id, v) && forall j: u16 :: j != id ==> EndsOf(n, j) == EndsOf(m, j)
    ensures RelaysOk(if after.Some? then relays[id := after.value] else relays - {id}, n)
    ensures ClientsOf(clients, id) != [] && ClientsOk(clients[id := MoreOf(ClientsOf(clients, id), got, sent)], n)
  {
    hide Untag;
    assert Records(ClientsOf(clients, id), EndsOf(m, id).logs);
    var relays' := if after.Some? then relays[id := after.value] else relays - {id};
    forall j: u16 ensures MirrorsAny(RelayOf(relays', j), EndsOf(n, j).handler) {
      if j != id {
        assert MirrorsAny(RelayOf(relays, j), EndsOf(m, j).handler);
      }
    }
    var clients' := clients[id := MoreOf(ClientsOf(clients, id), got, sent)];
    forall j: u16 ensures Records(ClientsOf(clients', j), EndsOf(n, j).logs) {
      if j != id {
        assert Records(ClientsOf(clients, j), EndsOf(m, j).logs);
      }
    }
  }

  // What the handler does with a message.

  /** The handler takes one message: first the connect verdict, then `relay_down`.
      The SOCKS reply and the writes to the client may fail, a write after some of
      its bytes. */
  method React(side: ClientSide, id: u16, r: Relay, ghost l: Link)
    returns (after: Option<Relay>, frames: seq<Frame>, ghost written: seq<byte>, ghost step: Step)
    requires r.inbox != [] && !r.phase.Closing? && ClientsOf(side.clients, id) != []
    requires l.id == id && l.handler.Some? && Mirrors(r, l.handler.value) && l.handler.value.inc == l.Last()
    modifies side
    ensures step.Receive? && WireFrames(frames)
    ensures Moves(l, Next(l, step), after, frames, written, [])
    ensures side.clients == old(side.clients)[id := MoreOf(ClientsOf(old(side.clients), id), written, [])]
    ensures if r.phase.Opening? then
              && |side.told| == |old(side.told)| + 1 && old(side.told) <= side.told
              && side.told[|old(side.told)|].Replied? && side.told[|old(side.told)|].id == id
              && (r.inbox[0].OpenOk? ==> side.told[|old(side.told)|].ok == step.ok)
            else side.told == old(side.told) + if r.inbox[0].Data? then [WroteTo(id, step.ok)] else []
  {
    var f, rest := r.inbox[0], r.(inbox := r.inbox[1..]);
    ControlWire(id);
    frames, written := [], [];
    if r.phase.Opening? {
      NoMore(side.clients, id);
      var ok := side.Reply(id);
      step := Receive(ok, 0);
      if f.OpenOk? && ok {
        after := Some(rest.(phase := Relaying));
      } else if f.OpenOk? {
        after, frames := None, [Rst(id)];
      } else {
        after := None;
      }
      VerdictMoves(l, r, ok, 0, after, frames);
    } else if f.Data? {
      after, frames, written, step := Deliver(side, id, r, l);
    } else {
      NoMore(side.clients, id);
      if f.Close? || f.Rst? {
        rest := rest.(phase := Closing);
      }
      after, step := Some(rest), Receive(true, 0);
      OtherMoves(l, r, true, 0, rest);
    }
  }

  /** DATA goes to the client, and enough of it makes a grant. */
  method Deliver(side: ClientSide, id: u16, r: Relay, ghost l: Link)
    returns (after: Option<Relay>, frames: seq<Frame>, ghost written: seq<byte>, ghost step: Step)
    requires Takes(l, r) && r.phase.Relaying? && r.inbox[0].Data? && l.id == id && ClientsOf(side.clients, id) != []
    modifies side
    ensures step.Receive? && WireFrames(frames)
    ensures Moves(l, Next(l, step), after, frames, written, [])
    ensures side.clients == old(side.clients)[id := MoreOf(ClientsOf(old(side.clients), id), written, [])]
    ensures side.told == old(side.told) + [WroteTo(id, step.ok)]
  {
    hide Moves, Next, Mirrors;
    var f, rest := r.inbox[0], r.(inbox := r.inbox[1..]);
    ControlWire(id);
    WindowWire(id, (r.ungranted + |f.payload|) % 0x1_0000_0000);
    var ok, n := side.Write(id, f.payload);
    written, step, frames := f.payload[..n], Receive(ok, n), [];
    if ok {
      rest := rest.(ungranted := r.ungranted + |f.payload|);
      if rest.ungranted >= WINDOW_GRANT_THRESHOLD {
        frames := [Window(id, rest.ungranted % 0x1_0000_0000)];
        rest := rest.(ungranted := 0);
      }
    } else {
      frames := [Rst(id)];
      rest := rest.(phase := Closing);
    }
    after := Some(rest);
    DataMoves(l, r, ok, n, after, frames, written);
  }

  predicate Takes(l: Link, r: Relay) {
    && r.inbox != [] && !r.phase.Closing?
    && l.handler.Some? && Mirrors(r, l.handler.value) && l.handler.value.inc == l.Last()
  }

  lemma TakesHead(l: Link, r: Relay)
    requires Takes(l, r)
    ensures l.handler.value.inbox != [] && l.handler.value.inbox[0].frame == r.inbox[0]
    ensures Untag(l.handler.value.inbox[1..]) == r.inbox[1..]
  {
    var q := l.handler.value.inbox;
    assert |q| == |Untag(q)| && Untag(q)[0] == q[0].frame;
    assert Untag(q)[1..] == Untag(q[1..]);
  }

  lemma VerdictMoves(l: Link, r: Relay, ok: bool, partial: nat, after: Option<Relay>, frames: seq<Frame>)
    requires Takes(l, r) && r.phase.Opening?
    requires var f := r.inbox[0];
             && after == (if f.OpenOk? && ok then Some(r.(inbox := r.inbox[1..], phase := Relaying)) else None)
             && frames == if f.OpenOk? && !ok then [Rst(l.id)] else []
    ensures Moves(l, Next(l, Receive(ok, partial)), after, frames, [], [])
  {
    TakesHead(l, r);
    var g := l.logs[l.Last()];
    assert g.delivered + [] == g.delivered && g.pushed + [] == g.pushed;
    hide Untag;
    UntagOne(l.Last(), Rst(l.id));
    assert l.up[|l.up|..] == [] && Untag([]) == [];
  }

  lemma UntagOne(inc: int, f: Frame)
    ensures Untag([]) == []
    ensures 0 <= inc ==> Untag([Tagged(inc, f)]) == [f]
  {
  }

  lemma DataMoves(l: Link, r: Relay, ok: bool, partial: nat,
                  after: Option<Relay>, frames: seq<Frame>, written: seq<byte>)
    requires Takes(l, r) && r.phase.Relaying? && r.inbox[0].Data?
    requires var bytes, rest := r.inbox[0].payload, r.(inbox := r.inbox[1..]);
             if ok then
               var total := r.ungranted + |bytes|;
               && written == bytes
               && frames == (if total >= WINDOW_GRANT_THRESHOLD then [Window(l.id, total % 0x1_0000_0000)] else [])
               && after == Some(rest.(ungranted := if total >= WINDOW_GRANT_THRESHOLD then 0 else total))
             else
               && written == bytes[..Min(partial, |bytes|)]
               && frames == [Rst(l.id)] && after == Some(rest.(phase := Closing))
    ensures Moves(l, Next(l, Receive(ok, partial)), after, frames, written, [])
  {
    TakesHead(l, r);
    var g := l.logs[l.Last()];
    assert g.pushed + [] == g.pushed;
    hide Untag;
    UntagOne(l.Last(), Rst(l.id));
    UntagOne(l.Last(), Window(l.id, (r.ungranted + |r.inbox[0].payload|) % 0x1_0000_0000));
    assert l.up[|l.up|..] == [];
  }

  lemma OtherMoves(l: Link, r: Relay, ok: bool, partial: nat, rest: Relay)
    requires Takes(l, r) && r.phase.Relaying? && !r.inbox[0].Data?
    requires rest == r.(inbox := r.inbox[1..],
                        phase := if r.inbox[0].Close? || r.inbox[0].Rst? then Closing else Relaying)
    ensures Moves(l, Next(l, Receive(ok, partial)), Some(rest), [], [], [])
  {
    TakesHead(l, r);
    var g := l.logs[l.Last()];
    assert g.delivered + [] == g.delivered && g.pushed + [] == g.pushed;
    hide Untag;
    UntagOne(l.Last(), Rst(l.id));
    assert l.up[|l.up|..] == [];
  }

  lemma ControlWire(id: u16)
    ensures WireFrames([]) && WireFrames([Rst(id)]) && WireFrames([Close(id)])
  {
  }

  lemma WindowWire(id: u16, credit: u32)
    ensures WireFrames([Window(id, credit)])
  {
  }

  lemma ClientDataWire(id: u16, bytes: seq<byte>)
    requires |bytes| <= CLIENT_READ_CHUNK
    ensures WireFrames([Data(id, bytes)])
  {
  }

  /** One read of the client: bytes, its end, or an error. */
  method ReadClient(side: ClientSide, id: u16, r: Relay, ghost l: Link)
    returns (after: Relay, frame: Frame, ghost taken: seq<byte>, ghost step: Step)
    requires !r.phase.Opening? && !r.upDone && ClientsOf(side.clients, id) != []
    requires l.id == id && l.handler.Some? && Mirrors(r, l.handler.value) && l.handler.value.inc == l.Last()
    modifies side
    ensures GuestStep(step) && WireFrames([frame])
    ensures Moves(l, Next(l, step), Some(after), [frame], [], taken)
    ensures side.clients == old(side.clients)[id := MoreOf(ClientsOf(old(side.clients), id), [], taken)]
    ensures side.told == old(side.told) + [ReadFrom(id, if step.UpData? then ClientData(taken)
                                                        else if step.UpClose? then ClientEnd else ClientError)]
  {
    ControlWire(id);
    var got := side.Read(id, CLIENT_READ_CHUNK);
    match got {
      case ClientData(bytes) =>
        ClientDataWire(id, bytes);
        after, frame, taken, step := r, Data(id, bytes), bytes, UpData(bytes);
      case ClientEnd =>
        after, frame, taken, step := r.(upDone := true), Close(id), [], UpClose;
      case ClientError =>
        after, frame, taken, step := r.(upDone := true), Rst(id), [], UpRst;
    }
    UpMoves(l, r, step, frame, taken);
  }

  lemma UpMoves(l: Link, r: Relay, step: Step, frame: Frame, taken: seq<byte>)
    requires l.handler.Some? && Mirrors(r, l.handler.value) && l.handler.value.inc == l.Last()
    requires !r.phase.Opening? && !r.upDone
    requires || (step == UpData(taken) && 0 < |taken| <= CLIENT_READ_CHUNK && frame == Data(l.id, taken))
             || (step == UpClose && taken == [] && frame == Close(l.id))
             || (step == UpRst && taken == [] && frame == Rst(l.id))
    ensures Moves(l, Next(l, step), Some(if step.UpData? then r else r.(upDone := true)), [frame], [], taken)
  {
    var g := l.logs[l.Last()];
    assert g.delivered + [] == g.delivered && g.pushed + [] == g.pushed;
    hide Untag;
    UntagOne(l.Last(), frame);
  }

  lemma LeaveMoves(l: Link, r: Relay)
    requires l.handler.Some? && Mirrors(r, l.handler.value) && l.handler.value.inc == l.Last()
    requires r.phase.Closing? && r.upDone
    ensures Moves(l, Next(l, Deregister), None, [], [], [])
  {
    var g := l.logs[l.Last()];
    assert g.delivered + [] == g.delivered && g.pushed + [] == g.pushed;
    assert l.up[|l.up|..] == [] && l.up[..|l.up|] == l.up;
  }

  // A new client.

  lemma EnterSim(relays: map<u16, Relay>, clients: map<u16, seq<Client>>, m: Mux, port: u16, host: seq<byte>, k: nat)
    requires RelaysOk(relays, m) && ClientsOk(clients, m) && FirstFree(relays.Keys, m.counter, k)
    ensures var id := Candidate(m.counter, k);
            var n := NextMux(m, Accept(port, host, k));
            && FirstFree(InUse(m), m.counter, k)
            && SameHost(m, n) && n.counter == CounterAfter(m.counter, k)
            && Untag(n.up) == Untag(m.up) + [Open(id, port, host)]
            && RelaysOk(relays[id := Relay(Opening, [], 0, false)], n)
            && ClientsOk(clients[id := ClientsOf(clients, id) + [Client([], [])]], n)
  {
    var id := Candidate(m.counter, k);
    UsersAre(relays, m);
    var n := NextMux(m, Accept(port, host, k));
    EnterPipes(m, port, host, k);
    hide NextMux, Carried, Untag;
    hide FirstFree, InUse, SameHost;
    EnterRelays(relays, m, n, id);
    EnterClients(clients, m, n, id);
  }

  lemma EnterRelays(relays: map<u16, Relay>, m: Mux, n: Mux, id: u16)
    requires RelaysOk(relays, m) && forall j: u16 :: j != id ==> EndsOf(n, j) == EndsOf(m, j)
    requires exists inc :: EndsOf(n, id).handler == Some(Handler(inc, Opening, [], 0, false))
    ensures RelaysOk(relays[id := Relay(Opening, [], 0, false)], n)
  {
    hide EndsOf;
    var relays' := relays[id := Relay(Opening, [], 0, false)];
    forall j: u16 ensures MirrorsAny(RelayOf(relays', j), EndsOf(n, j).handler) {
      if j != id {
        assert MirrorsAny(RelayOf(relays, j), EndsOf(m, j).handler);
      }
    }
  }

  lemma EnterClients(clients: map<u16, seq<Client>>, m: Mux, n: Mux, id: u16)
    requires ClientsOk(clients, m) && forall j: u16 :: j != id ==> EndsOf(n, j) == EndsOf(m, j)
    requires EndsOf(n, id).logs == EndsOf(m, id).logs + [NewLog(|EndsOf(m, id).logs|)]
    ensures ClientsOk(clients[id := ClientsOf(clients, id) + [Client([], [])]], n)
  {
    hide EndsOf;
    var clients' := clients[id := ClientsOf(clients, id) + [Client([], [])]];
    forall j: u16 ensures Records(ClientsOf(clients', j), EndsOf(n, j).logs) {
      assert Records(ClientsOf(clients, j), EndsOf(m, j).logs);
    }
  }

  lemma UsersAre(relays: map<u16, Relay>, m: Mux)
    requires RelaysOk(relays, m)
    ensures InUse(m) == relays.Keys
  {
    forall id: u16 ensures id in InUse(m) <==> id in relays {
      assert MirrorsAny(RelayOf(relays, id), EndsOf(m, id).handler);
    }
  }

  lemma EnterPipes(m: Mux, port: u16, host: seq<byte>, k: nat)
    requires FirstFree(InUse(m), m.counter, k)
    ensures var id := Candidate(m.counter, k);
            var n, e := NextMux(m, Accept(port, host, k)), EndsOf(m, id);
            && SameHost(m, n) && n.counter == CounterAfter(m.counter, k)
            && Untag(n.up) == Untag(m.up) + [Open(id, port, host)]
            && EndsOf(n, id) == e.(handler := Some(Handler(|e.logs|, Opening, [], 0, false)),
                                   logs := e.logs + [NewLog(|e.logs|)])
            && forall j: u16 :: j != id ==> EndsOf(n, j) == EndsOf(m, j)
  {
    var id := Candidate(m.counter, k);
    var l, e := View(m, id), EndsOf(m, id);
    AcceptHere(m, port, host, k);
    var v := RegisterClient(l, port, host);
    var t := Tagged(|e.logs|, Open(id, port, host));
    hide Only;
    assert v.up[|l.up|..] == [t] && v.down[|l.down|..] == [] && m.down + [] == m.down;
    assert Untag(m.up + [t]) == Untag(m.up) + [t.frame];
    assert (e.logs + [NewLog(|e.logs|)])[..|e.logs|] == e.logs;
    assert Carried(e.logs, false) + [] == Carried(e.logs, false) && Carried(e.logs, true) + [] == Carried(e.logs, true);
  }

  lemma AcceptHere(m: Mux, port: u16, host: seq<byte>, k: nat)
    requires FirstFree(InUse(m), m.counter, k)
    ensures var id := Candidate(m.counter, k);
            Next(View(m, id), Register(port, host)) == RegisterClient(View(m, id), port, host)
  {
  }

  // The next frame is routed.

  /** The demultiplexer's `route`. */
  function Routed(relays: map<u16, Relay>, f: Frame): map<u16, Relay> {
    if f.Open? || f.Window? || f.stream !in relays then relays
    else
      var r := relays[f.stream];
      relays[f.stream := r.(inbox := r.inbox + [f])]
  }

  lemma RouteSim(relays: map<u16, Relay>, clients: map<u16, seq<Client>>, m: Mux)
    requires RelaysOk(relays, m) && ClientsOk(clients, m)
    requires m.down != [] && !m.down[0].frame.Open? && !m.down[0].frame.Window?
    ensures var n := NextMux(m, RouteHead);
            && n.up == m.up && n.down == m.down[1..] && n.counter == m.counter
            && RelaysOk(Routed(relays, m.down[0].frame), n) && ClientsOk(clients, n)
            && forall id: u16 ::
                 && EndsOf(n, id).session == EndsOf(m, id).session
                 && EndsOf(n, id).resolving == EndsOf(m, id).resolving && EndsOf(n, id).logs == EndsOf(m, id).logs
  {
    var t, n := m.down[0], NextMux(m, RouteHead);
    var at := t.frame.stream;
    RouteShrinks(m);
    RouteEnds(m);
    hide NextMux;
    forall j: u16 ensures MirrorsAny(RelayOf(Routed(relays, t.frame), j), EndsOf(n, j).handler) {
      assert MirrorsAny(RelayOf(relays, j), EndsOf(m, j).handler);
      if j == at && j in relays {
        var q := EndsOf(m, j).handler.value.inbox;
        assert Untag(q + [t]) == Untag(q) + [t.frame];
      }
    }
    forall j: u16 ensures Records(ClientsOf(clients, j), EndsOf(n, j).logs) {
      assert Records(ClientsOf(clients, j), EndsOf(m, j).logs);
    }
  }

  lemma RouteEnds(m: Mux)
    requires m.down != []
    ensures var t, n := m.down[0], NextMux(m, RouteHead);
            var e := EndsOf(m, t.frame.stream);
            && n.counter == m.counter
            && EndsOf(n, t.frame.stream)
               == e.(handler := if e.handler.None? then None
                                else Some(e.handler.value.(inbox := e.handler.value.inbox + [t])))
            && forall j: u16 :: j != t.frame.stream ==> EndsOf(n, j) == EndsOf(m, j)
  {
    var id := m.down[0].frame.stream;
    assert Only(m.down, id) == [m.down[0]] + Only(m.down[1..], id);
    hide Only;
  }
}
