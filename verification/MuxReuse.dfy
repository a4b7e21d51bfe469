/** A run of the whole mux that ends with one client holding another's bytes.  The
    stream ids come around twice: first a session that is still flushing resets under
    the second client of its id, which gives up and leaves its own connection behind;
    then that connection comes up under the third client. */
module MuxReuse {
  import opened Prelude
  import opened EgressCodec
  import opened EgressSession
  import opened MuxLink
  import opened MuxInv
  import opened MuxRisk
  import opened Forwarder
  import opened MuxSystem
  import opened MuxLift
  import opened MuxFeed

  const ID: u16 := 1

  /** Nobody on the stream. */
  predicate Vacant(l: Link) {
    l.handler.None? && l.session.None? && !l.resolving
  }

  /** Only stream 1 has anybody on it, or anything in the pipes. */
  predicate Alone(m: Mux) {
    && OfStream(m.down, ID) && OfStream(m.up, ID)
    && forall j: u16 :: j != ID ==> Vacant(View(m, j))
  }

  lemma AlonePipes(m: Mux)
    requires Alone(m)
    ensures View(m, ID).down == m.down && View(m, ID).up == m.up
  {
    OnlyOfStream(m.down, ID, ID);
    OnlyOfStream(m.up, ID, ID);
  }

  lemma AloneIsRoom(m: Mux)
    requires Alone(m)
    ensures Room(m, ID) && |SessionIds(m)| < MAX_SESSIONS
  {
    hide View;
    forall j | j in SessionIds(m) ensures j in {ID} {
      HasSession(m, j);
    }
    SubsetCard(SessionIds(m), {ID});
    SubsetCard(Others(m, ID), {ID});
  }

  // Steps of stream 1 while it is alone.

  lemma Acts(start: Mux, m: Mux, step: Step) returns (n: Mux)
    requires MuxReaches(start, m) && Alone(m) && LocalStep(step)
    ensures MuxReaches(start, n) && Alone(n) && View(n, ID) == Next(View(m, ID), step) && n.counter == m.counter
  {
    n := NextMux(m, Local(ID, step));
    MuxReachesStep(m, Local(ID, step));
    MuxReachesOn(start, m, n);
    LocalExtends(View(m, ID), step);
    AlonePipes(m);
    hide MuxReaches, Next;
    assert OfStream(n.down, ID) && OfStream(n.up, ID);
    hide NextMux, View;
    LocalView(m, ID, step, ID);
    forall j: u16 | j != ID ensures Vacant(View(n, j)) {
      LocalView(m, ID, step, j);
    }
  }

  lemma Routes(start: Mux, m: Mux) returns (n: Mux)
    requires MuxReaches(start, m) && Alone(m) && View(m, ID).down != []
    ensures MuxReaches(start, n) && Alone(n) && View(n, ID) == Next(View(m, ID), Route) && n.counter == m.counter
  {
    AlonePipes(m);
    n := NextMux(m, RouteHead);
    MuxReachesStep(m, RouteHead);
    MuxReachesOn(start, m, n);
    assert n.counter == m.counter;
    hide MuxReaches, Next, NextMux, View;
    RouteShrinks(m);
    RouteView(m, ID);
    forall j: u16 | j != ID ensures Vacant(View(n, j)) {
      RouteView(m, j);
    }
  }

  lemma Handles(start: Mux, m: Mux) returns (n: Mux)
    requires MuxReaches(start, m) && Alone(m) && View(m, ID).up != []
    ensures MuxReaches(start, n) && Alone(n) && n.counter == m.counter
    ensures View(n, ID) == Next(View(m, ID), HostFrame(false))
  {
    AlonePipes(m);
    AloneIsRoom(m);
    n := NextMux(m, HandleHead);
    MuxReachesStep(m, HandleHead);
    MuxReachesOn(start, m, n);
    HandleUpExtends(View(m, ID), false);
    assert Next(View(m, ID), HostFrame(false)) == HandleUp(View(m, ID), false);
    hide MuxReaches, Next, HandleUp;
    assert n.counter == m.counter && OfStream(n.down, ID);
    hide NextMux, View;
    HandleShrinks(m);
    HandleView(m, ID);
    forall j: u16 | j != ID ensures Vacant(View(n, j)) {
      HandleView(m, j);
    }
  }

  /** The counter is at stream 1, and nobody is on it. */
  predicate Next1(m: Mux) {
    FirstFree(InUse(m), m.counter, 0) && Candidate(m.counter, 0) == ID
  }

  lemma Enters(start: Mux, m: Mux, port: u16, host: seq<byte>) returns (n: Mux)
    requires MuxReaches(start, m) && Alone(m) && Next1(m)
    ensures MuxReaches(start, n) && Alone(n) && View(n, ID) == RegisterClient(View(m, ID), port, host)
    ensures n.counter == CounterAfter(m.counter, 0)
  {
    n := NextMux(m, Accept(port, host, 0));
    MuxReachesStep(m, Accept(port, host, 0));
    MuxReachesOn(start, m, n);
    LocalExtends(View(m, ID), Register(port, host));
    AlonePipes(m);
    hide MuxReaches, Next;
    assert OfStream(n.down, ID) && OfStream(n.up, ID) && n.counter == CounterAfter(m.counter, 0);
    hide NextMux, View, RegisterClient;
    AcceptView(m, port, host, 0, ID);
    forall j: u16 | j != ID ensures Vacant(View(n, j)) {
      AcceptView(m, port, host, 0, j);
    }
  }

  // Other clients come and go.

  /** Alone, with both pipes empty and no client. */
  predicate Quiet(m: Mux) {
    m.down == [] && m.up == [] && View(m, ID).handler.None? && forall j: u16 :: j != ID ==> Vacant(View(m, j))
  }

  lemma NobodyIn(m: Mux)
    requires Quiet(m)
    ensures InUse(m) == {}
  {
    forall j: u16 ensures j !in InUse(m) {
      assert View(m, j).handler.None?;
    }
  }

  /** On a vacant stream: a client names a host that does not resolve, and leaves. */
  lemma RefusedLink(l: Link)
    requires Vacant(l) && l.down == [] && l.up == []
    ensures var a := RegisterClient(l, 80, [104]);
            var b := Next(a, HostFrame(false));
            var c := Next(b, HostAnswer(NoAddress));
            var d := Next(c, Route);
            var e := Next(d, Receive(true, 0));
            && a.down == [] && |a.up| == 1 && a.up[0].frame.stream == l.id && a.session.None?
            && b.up == [] && b.down == [] && c.up == [] && |c.down| == 1 && c.down[0].frame.stream == l.id
            && d.up == [] && d.down == [] && e.up == [] && e.down == [] && Vacant(e)
  {
    var a := RegisterClient(l, 80, [104]);
    var t := Tagged(|l.logs|, Open(l.id, 80, [104]));
    assert a.up == [t] && [t][1..] == [];
    Applied(a.(up := [], cur := |l.logs|), HandleFrame(t.frame, None, false, false));
    var b := Next(a, HostFrame(false));
    assert Tag(|l.logs|, []) == [] && b.down == [] && b.up == [];
    var e := Tagged(|l.logs|, OpenErr(l.id, ResolveFailed));
    Applied(b, HarvestAnswer(l.id, b.session, NoAddress));
    hide Apply;
    assert Tag(|l.logs|, [e.frame]) == [e] && [e][1..] == [];
    var c := Next(b, HostAnswer(NoAddress));
    assert c.down == [e];
    var d := Next(c, Route);
    assert d.handler.value.inbox == [e] && d.handler.value.phase.Opening?;
  }

  lemma Visitor(start: Mux, m: Mux) returns (n: Mux)
    requires MuxReaches(start, m) && Quiet(m) && Candidate(m.counter, 0) != ID
    ensures MuxReaches(start, n) && Quiet(n) && View(n, ID) == View(m, ID) && n.counter == CounterAfter(m.counter, 0)
  {
    var j := Candidate(m.counter, 0);
    NobodyIn(m);
    RefusedLink(View(m, j));
    var a := VisitorAsks(m, j);
    hide MuxReaches, RegisterClient, Next;
    var c := VisitorAnswered(m, a, j);
    hide View;
    n := VisitorLeaves(m, c, j);
    MuxReachesOn(start, m, a);
    MuxReachesOn(start, a, c);
    MuxReachesOn(start, c, n);
  }

  /** Between a visitor's steps the other streams are as they were. */
  predicate OnlyAt(m: Mux, n: Mux, j: u16) {
    forall k: u16 :: k != j ==> View(n, k) == View(m, k)
  }

  lemma VisitorAsks(m: Mux, j: u16) returns (a: Mux)
    requires m.down == [] && m.up == [] && InUse(m) == {} && j == Candidate(m.counter, 0)
    ensures MuxReaches(m, a) && OnlyAt(m, a, j) && View(a, j) == RegisterClient(View(m, j), 80, [104])
    ensures a.counter == CounterAfter(m.counter, 0) && a.down == [] && |a.up| == 1 && a.up[0].frame.stream == j
  {
    a := NextMux(m, Accept(80, [104], 0));
    MuxReachesStep(m, Accept(80, [104], 0));
    assert a.down == [] && a.up == [Tagged(|EndsOf(m, j).logs|, Open(j, 80, [104]))];
    hide NextMux, View, RegisterClient, MuxReaches;
    forall k: u16 | k != j ensures View(a, k) == View(m, k) {
      AcceptView(m, 80, [104], 0, k);
    }
    AcceptView(m, 80, [104], 0, j);
  }

  lemma VisitorAnswered(m: Mux, a: Mux, j: u16) returns (d: Mux)
    requires Quiet(m) && j != ID && OnlyAt(m, a, j) && a.down == [] && |a.up| == 1 && a.up[0].frame.stream == j
    requires View(a, j).session.None?
    requires var b := Next(View(a, j), HostFrame(false)); b.down == [] && b.up == []
    requires var c := Next(Next(View(a, j), HostFrame(false)), HostAnswer(NoAddress));
             |c.down| == 1 && c.up == [] && c.down[0].frame.stream == j
    ensures MuxReaches(a, d) && OnlyAt(m, d, j)
    ensures View(d, j) == Next(Next(Next(View(a, j), HostFrame(false)), HostAnswer(NoAddress)), Route)
    ensures d.counter == a.counter && d.down == [] && d.up == []
  {
    hide Next, MuxReaches, View;
    VisitorRoom(m, a, j);
    var b := VisitorHandled(a, j);
    var c := VisitorFails(b, j);
    d := NextMux(c, RouteHead);
    MuxReachesStep(c, RouteHead);
    MuxReachesOn(a, b, c);
    MuxReachesOn(a, c, d);
    assert d.counter == c.counter;
    hide NextMux;
    RouteShrinks(c);
    RouteView(c, j);
    forall k: u16 | k != j ensures View(d, k) == View(m, k) {
      RouteView(c, k);
    }
  }

  lemma VisitorHandled(a: Mux, j: u16) returns (b: Mux)
    requires a.down == [] && |a.up| == 1 && a.up[0].frame.stream == j && |SessionIds(a)| < MAX_SESSIONS
    requires Next(View(a, j), HostFrame(false)).down == []
    ensures MuxReaches(a, b) && OnlyAt(a, b, j) && View(b, j) == Next(View(a, j), HostFrame(false))
    ensures b.counter == a.counter && b.down == [] && b.up == []
  {
    b := NextMux(a, HandleHead);
    MuxReachesStep(a, HandleHead);
    hide Next, MuxReaches;
    assert b.down == [] && b.counter == a.counter;
    HandleShrinks(a);
    hide NextMux, View;
    HandleView(a, j);
    forall k: u16 | k != j ensures View(b, k) == View(a, k) {
      HandleView(a, k);
    }
  }

  lemma VisitorFails(b: Mux, j: u16) returns (c: Mux)
    requires b.down == [] && b.up == []
    requires var l := Next(View(b, j), HostAnswer(NoAddress));
             |l.down| == 1 && l.up == [] && l.down[0].frame.stream == j
    ensures MuxReaches(b, c) && OnlyAt(b, c, j) && View(c, j) == Next(View(b, j), HostAnswer(NoAddress))
    ensures c.counter == b.counter && c.up == [] && |c.down| == 1 && c.down[0].frame.stream == j
  {
    var step := HostAnswer(NoAddress);
    c := NextMux(b, Local(j, step));
    MuxReachesStep(b, Local(j, step));
    hide Next, MuxReaches;
    assert Only(b.down, j) == [];
    assert c.counter == b.counter && c.down == [] + Next(View(b, j), step).down[0..];
    LocalKeepsUp(b, j, NoAddress);
    hide NextMux, View;
    LocalView(b, j, step, j);
    forall k: u16 | k != j ensures View(c, k) == View(b, k) {
      LocalView(b, j, step, k);
    }
  }

  lemma VisitorRoom(m: Mux, a: Mux, j: u16)
    requires Quiet(m) && OnlyAt(m, a, j) && View(a, j).session.None?
    ensures |SessionIds(a)| < MAX_SESSIONS
  {
    hide View;
    forall k | k in SessionIds(a) ensures k in {ID} {
      HasSession(a, k);
    }
    SubsetCard(SessionIds(a), {ID});
  }

  lemma VisitorLeaves(m: Mux, c: Mux, j: u16) returns (n: Mux)
    requires Quiet(m) && j != ID && OnlyAt(m, c, j) && c.down == [] && c.up == []
    requires var d := Next(View(c, j), Receive(true, 0)); Vacant(d) && d.down == [] && d.up == []
    ensures MuxReaches(c, n) && Quiet(n) && View(n, ID) == View(m, ID) && n.counter == c.counter
  {
    var step := Receive(true, 0);
    n := NextMux(c, Local(j, step));
    MuxReachesStep(c, Local(j, step));
    hide Next, MuxReaches;
    assert Only(c.down, j) == [] && Only(c.up, j) == [];
    assert n.down == [] && n.up == [] && n.counter == c.counter;
    hide NextMux, View;
    LocalView(c, j, step, ID);
    LocalView(c, j, step, j);
    forall k: u16 | k != ID ensures Vacant(View(n, k)) {
      LocalView(c, j, step, k);
    }
  }

  /** Visitors on all the ids up to the next stream 1. */
  lemma {:induction false} Visitors(start: Mux, m: Mux, round: nat) returns (n: Mux)
    requires MuxReaches(start, m) && Quiet(m) && round < 3 && IDS * round + 1 < m.counter <= IDS * (round + 1) + 1
    ensures MuxReaches(start, n) && Quiet(n) && View(n, ID) == View(m, ID) && n.counter == IDS * (round + 1) + 1
    decreases IDS * (round + 1) + 1 - m.counter
  {
    hide MuxReaches, View, Quiet;
    if m.counter == IDS * (round + 1) + 1 {
      n := m;
    } else {
      RoundAway(m.counter, round);
      var p := Visitor(start, m);
      n := Visitors(start, p, round);
    }
  }

  lemma RoundAway(counter: u32, round: nat)
    requires round < 3 && IDS * round + 1 < counter <= IDS * (round + 1)
    ensures Candidate(counter, 0) != ID && CounterAfter(counter, 0) == counter + 1
  {
  }

  // Stream 1, by itself.

  const FULL_HALF := Session(HalfClosed, [7], [], WINDOW_BYTES, true, true, true)

  predicate Shows(l: Link, handler: Option<Handler>, session: Option<Session>, resolving: bool, cur: int, uses: nat) {
    && l.id == ID && l.handler == handler && l.session == session && l.resolving == resolving
    && l.cur == cur && |l.logs| == uses
  }

  lemma Applied(l: Link, o: Outcome)
    requires 0 <= l.cur
    ensures var n := Apply(l, o);
            && n == l.(session := o.session, resolving := o.resolving, down := n.down, logs := n.logs)
            && n.down == l.down + Tag(l.cur, o.out) && |n.logs| == |l.logs|
  {
  }

  lemma OpenTaken(l: Link, h: Option<Handler>, t: Tagged, cur: int)
    requires Shows(l, h, None, false, cur, t.inc + 1) && l.up == [t] && t.frame == Open(ID, 80, [104])
    ensures var n := Next(l, HostFrame(false));
            Shows(n, h, Some(NEW_SESSION), true, t.inc, t.inc + 1) && n.up == [] && n.down == l.down
  {
    assert [t][1..] == [];
    Applied(l.(up := [], cur := t.inc), HandleFrame(t.frame, None, false, false));
    hide Apply;
    assert Tag(t.inc, []) == [] && l.down + [] == l.down;
  }

  lemma Connected1(l: Link, h: Handler, cur: nat)
    requires Shows(l, Some(h), Some(NEW_SESSION), true, cur, cur + 1) && l.up == [] && l.down == []
    ensures var a := Next(l, HostAnswer(ConnectStarted));
            var n := Next(a, HostPoll(Connected));
            && Shows(n, Some(h), Some(NEW_SESSION.(state := Established)), false, cur, cur + 1)
            && n.up == [] && n.down == [Tagged(cur, OpenOk(ID))]
  {
    var s := NEW_SESSION.(state := Connecting);
    Applied(l, HarvestAnswer(ID, l.session, ConnectStarted));
    var a := Next(l, HostAnswer(ConnectStarted));
    assert Tag(cur, []) == [] && a.down == [];
    Applied(a, RunConnecting(ID, s, false, Connected));
    hide Apply;
    assert Tag(cur, [OpenOk(ID)]) == [Tagged(cur, OpenOk(ID))];
    assert [] + [Tagged(cur, OpenOk(ID))] == [Tagged(cur, OpenOk(ID))];
  }

  /** The handler takes the one frame in the pipe. */
  lemma TakesOne(l: Link, h: Handler, t: Tagged, s: Option<Session>, resolving: bool, cur: int, uses: nat)
    requires Shows(l, Some(h), s, resolving, cur, uses) && l.down == [t] && h.inbox == [] && h.inc < uses
    requires if h.phase.Opening? then t.frame.OpenOk? || t.frame.Rst? else h.phase.Relaying? && t.frame.Close?
    ensures var n := Next(Next(l, Route), Receive(true, 0));
            var h' := if t.frame.OpenOk? then Some(h.(phase := Relaying))
                      else if t.frame.Rst? then None else Some(h.(phase := Closing));
            Shows(n, h', s, resolving, cur, uses) && n.down == [] && n.up == l.up
  {
    assert [] + [t] == [t] && [t][1..] == [];
    assert Next(l, Route) == l.(down := [], handler := Some(h.(inbox := [t])));
  }

  lemma SendsAndCloses(l: Link, h: Handler, cur: nat)
    requires Shows(l, Some(h), Some(NEW_SESSION.(state := Established)), false, cur, cur + 1)
    requires l.up == [] && l.down == [] && h == Handler(cur, Relaying, [], 0, false)
    ensures var a := Next(l, UpData([7]));
            var b := Next(a, HostFrame(false));
            var c := Next(b, UpClose);
            var n := Next(c, HostFrame(false));
            var s := Session(HalfClosed, [7], [], WINDOW_BYTES, true, false, false);
            && a.up != [] && c.up != []
            && Shows(n, Some(h.(upDone := true)), Some(s), false, cur, cur + 1) && n.up == [] && n.down == []
  {
    hide Next;
    Sends(l, h, NEW_SESSION.(state := Established), cur);
    assert [] + [7] == [7];
    Closes(Next(Next(l, UpData([7])), HostFrame(false)), h, NEW_SESSION.(state := Established, toSocket := [7]), cur);
  }

  lemma Sends(l: Link, h: Handler, s: Session, cur: nat)
    requires Shows(l, Some(h), Some(s), false, cur, cur + 1) && l.up == [] && l.down == []
    requires h == Handler(cur, Relaying, [], 0, false) && !s.guestWriteClosed && s.toSocket == []
    ensures var a := Next(l, UpData([7]));
            var n := Next(a, HostFrame(false));
            && a.up != [] && n.up == [] && n.down == []
            && Shows(n, Some(h), Some(s.(toSocket := [] + [7])), false, cur, cur + 1)
  {
    var data := Tagged(cur, Data(ID, [7]));
    var a := Next(l, UpData([7]));
    assert a.up == [data] && [data][1..] == [] && Tag(cur, []) == [];
    Applied(a.(up := []), HandleFrame(data.frame, Some(s), false, false));
    hide Apply;
  }

  lemma Closes(l: Link, h: Handler, s: Session, cur: nat)
    requires Shows(l, Some(h), Some(s), false, cur, cur + 1) && l.up == [] && l.down == []
    requires h == Handler(cur, Relaying, [], 0, false) && s.state.Established?
    ensures var c := Next(l, UpClose);
            var n := Next(c, HostFrame(false));
            && c.up != [] && n.up == [] && n.down == []
            && Shows(n, Some(h.(upDone := true)), Some(s.(state := HalfClosed, guestWriteClosed := true)),
                     false, cur, cur + 1)
  {
    var close := Tagged(cur, Close(ID));
    var c := Next(l, UpClose);
    assert c.up == [close] && [close][1..] == [] && Tag(cur, []) == [];
    Applied(c.(up := []), HandleFrame(close.frame, c.session, false, false));
    hide Apply;
  }

  /** The server ends its side while the flush to it is stuck. */
  lemma ServerEnds(l: Link, h: Handler, s: Session, cur: nat)
    requires Shows(l, Some(h), Some(s), false, cur, cur + 1) && l.up == [] && l.down == []
    requires s.state.HalfClosed? && s.toGuest == [] && s.toSocket != [] && !s.hostReadClosed && !s.hostCloseSent
    ensures var n := Next(l, HostIo(Io(0, false, [], true, false)));
            && Shows(n, Some(h), Some(s.(hostReadClosed := true, hostCloseSent := true)), false, cur, cur + 1)
            && n.up == [] && n.down == [Tagged(cur, Close(ID))]
  {
    var io := Io(0, false, [], true, false);
    assert PossibleIo(s, io);
    ServerTurn(s, io);
    Serviced(l, s, io);
    assert Tag(cur, [Close(ID)]) == [Tagged(cur, Close(ID))];
    assert [] + [Tagged(cur, Close(ID))] == [Tagged(cur, Close(ID))];
    hide RunOpenIo, ServiceIo, Tag, PossibleIo;
    assert Next(l, HostIo(io)) == ServiceIo(l, io);
  }

  lemma ServerTurn(s: Session, io: Io)
    requires s.state.HalfClosed? && s.toGuest == [] && s.toSocket != [] && !s.hostReadClosed && !s.hostCloseSent
    requires io == Io(0, false, [], true, false) && PossibleIo(s, io)
    ensures RunOpenIo(ID, s, false, io)
         == Outcome(Some(s.(hostReadClosed := true, hostCloseSent := true)), false, [Close(ID)], NoEffect)
  {
    var t := Transfer(s, io);
    assert s.toSocket[0..] == s.toSocket && s.toGuest + [] == [];
    assert t == s.(hostReadClosed := true);
    assert t.toGuest[..0] == [] && t.toGuest[0..] == [];
    assert Release(t) == t;
    hide Transfer, Release;
    assert Chunked(ID, []) == [];
    assert [] + [Close(ID)] == [Close(ID)];
  }

  lemma Serviced(l: Link, s: Session, io: Io)
    requires 0 <= l.cur && l.session == Some(s) && PossibleIo(s, io)
    ensures var n, o := ServiceIo(l, io), RunOpenIo(l.id, s, l.resolving, io);
            && n == l.(session := o.session, resolving := o.resolving, down := n.down, logs := n.logs)
            && n.down == l.down + Tag(l.cur, o.out) && |n.logs| == |l.logs|
  {
    hide RunOpenIo, Tag;
  }

  lemma FlushFails(l: Link, h: Handler, open: Tagged, cur: nat)
    requires Shows(l, Some(h), Some(FULL_HALF), false, cur, cur + 2) && l.up == [open] && l.down == []
    ensures var n := Next(l, HostIo(Io(0, true, [], false, false)));
            Shows(n, Some(h), None, false, cur, cur + 2) && n.up == [open] && n.down == [Tagged(cur, Rst(ID))]
  {
    var io := Io(0, true, [], false, false);
    assert RunOpenIo(ID, FULL_HALF, false, io) == Outcome(None, false, [Rst(ID)], SocketClosed);
    Serviced(l, FULL_HALF, io);
    assert Tag(cur, [Rst(ID)]) == [Tagged(cur, Rst(ID))];
    assert [] + [Tagged(cur, Rst(ID))] == [Tagged(cur, Rst(ID))];
    hide RunOpenIo, ServiceIo, Tag;
  }

  // The run.

  /** A client takes stream 1. */
  lemma Asks(m: Mux, session: Option<Session>, cur: int, uses: nat) returns (n: Mux)
    requires MuxReaches(NEW_MUX, m) && Alone(m) && Next1(m) && m.counter < 0xffff_ffff
    requires Shows(View(m, ID), None, session, false, cur, uses) && View(m, ID).up == [] && View(m, ID).down == []
    ensures MuxReaches(NEW_MUX, n) && Alone(n) && n.counter == m.counter + 1
    ensures Shows(View(n, ID), Some(Handler(uses, Opening, [], 0, false)), session, false, cur, uses + 1)
    ensures View(n, ID).up == [Tagged(uses, Open(ID, 80, [104]))] && View(n, ID).down == []
  {
    var open := Tagged(uses, Open(ID, 80, [104]));
    assert [] + [open] == [open];
    hide MuxReaches, View, Alone;
    n := Enters(NEW_MUX, m, 80, [104]);
  }

  /** The host takes the OPEN and starts resolving. */
  lemma Resolves(m: Mux, h: Handler, cur: int) returns (n: Mux)
    requires MuxReaches(NEW_MUX, m) && Alone(m) && Shows(View(m, ID), Some(h), None, false, cur, h.inc + 1)
    requires View(m, ID).up == [Tagged(h.inc, Open(ID, 80, [104]))]
    ensures MuxReaches(NEW_MUX, n) && Alone(n) && n.counter == m.counter
    ensures Shows(View(n, ID), Some(h), Some(NEW_SESSION), true, h.inc, h.inc + 1)
    ensures View(n, ID).up == [] && View(n, ID).down == View(m, ID).down
  {
    hide MuxReaches, View, Next, Alone, Shows;
    OpenTaken(View(m, ID), Some(h), Tagged(h.inc, Open(ID, 80, [104])), cur);
    n := Handles(NEW_MUX, m);
  }

  /** The handler takes the one frame in the pipe. */
  lemma Hears(m: Mux, h: Handler, t: Tagged, s: Option<Session>, resolving: bool, cur: int, uses: nat) returns (n: Mux)
    requires MuxReaches(NEW_MUX, m) && Alone(m) && Shows(View(m, ID), Some(h), s, resolving, cur, uses)
    requires View(m, ID).down == [t] && h.inbox == [] && h.inc < uses
    requires if h.phase.Opening? then t.frame.OpenOk? || t.frame.Rst? else h.phase.Relaying? && t.frame.Close?
    ensures MuxReaches(NEW_MUX, n) && Alone(n) && n.counter == m.counter
    ensures var h' := if t.frame.OpenOk? then Some(h.(phase := Relaying))
                      else if t.frame.Rst? then None else Some(h.(phase := Closing));
            Shows(View(n, ID), h', s, resolving, cur, uses)
    ensures View(n, ID).down == [] && View(n, ID).up == View(m, ID).up
  {
    hide MuxReaches, View, Next, Alone;
    TakesOne(View(m, ID), h, t, s, resolving, cur, uses);
    var r := Routes(NEW_MUX, m);
    n := Acts(NEW_MUX, r, Receive(true, 0));
  }

  lemma NewIsAlone()
    ensures MuxReaches(NEW_MUX, NEW_MUX) && Alone(NEW_MUX) && Next1(NEW_MUX)
    ensures Shows(View(NEW_MUX, ID), None, None, false, -1, 0)
    ensures View(NEW_MUX, ID).up == [] && View(NEW_MUX, ID).down == []
  {
    MuxReachesSelf(NEW_MUX);
  }

  lemma FirstUp() returns (m: Mux)
    ensures MuxReaches(NEW_MUX, m) && Alone(m) && m.counter == 2
    ensures Shows(View(m, ID), Some(Handler(0, Relaying, [], 0, false)), Some(NEW_SESSION.(state := Established)),
                  false, 0, 1)
    ensures View(m, ID).up == [] && View(m, ID).down == []
  {
    NewIsAlone();
    var h := Handler(0, Opening, [], 0, false);
    hide MuxReaches, View, Next, Alone, Shows, Next1;
    var a := Asks(NEW_MUX, None, -1, 0);
    var b := Resolves(a, h, -1);
    Connected1(View(b, ID), h, 0);
    var c := Acts(NEW_MUX, b, HostAnswer(ConnectStarted));
    var d := Acts(NEW_MUX, c, HostPoll(Connected));
    m := Hears(d, h, Tagged(0, OpenOk(ID)), Some(NEW_SESSION.(state := Established)), false, 0, 1);
  }

  /** The first client is done and gone; the host still has a byte to flush. */
  lemma FirstGone() returns (m: Mux)
    ensures MuxReaches(NEW_MUX, m) && Alone(m) && m.counter == 2
    ensures Shows(View(m, ID), None, Some(FULL_HALF), false, 0, 1) && View(m, ID).up == [] && View(m, ID).down == []
  {
    var h := Handler(0, Relaying, [], 0, false);
    var m0 := FirstUp();
    hide MuxReaches, View, Alone;
    SendsAndCloses(View(m0, ID), h, 0);
    Closed(Handler(0, Closing, [], 0, true));
    hide Next;
    var a := Acts(NEW_MUX, m0, UpData([7]));
    var b := Handles(NEW_MUX, a);
    var c := Acts(NEW_MUX, b, UpClose);
    var d := Handles(NEW_MUX, c);
    var h' := h.(upDone := true);
    ServerEnds(View(d, ID), h', Session(HalfClosed, [7], [], WINDOW_BYTES, true, false, false), 0);
    var e := Acts(NEW_MUX, d, HostIo(Io(0, false, [], true, false)));
    var f := Hears(e, h', Tagged(0, Close(ID)), Some(FULL_HALF), false, 0, 1);
    m := Acts(NEW_MUX, f, Deregister);
  }

  lemma Closed(h: Handler)
    requires h.phase.Closing? && h.upDone
    ensures forall l: Link {:trigger Next(l, Deregister)} ::
              l.handler == Some(h) ==> Next(l, Deregister) == l.(handler := None)
  {
  }

  lemma AloneIsQuiet(m: Mux)
    requires Alone(m) && View(m, ID).handler.None? && View(m, ID).up == [] && View(m, ID).down == []
    ensures Quiet(m)
  {
    AlonePipes(m);
  }

  lemma QuietIsAlone(m: Mux)
    requires Quiet(m) && m.counter % IDS == 1
    ensures Alone(m) && Next1(m) && View(m, ID).up == [] && View(m, ID).down == []
  {
    NobodyIn(m);
  }

  /** The second client gave up on the first one's reset; the host resolves for it. */
  lemma SecondGone(m0: Mux) returns (m: Mux)
    requires MuxReaches(NEW_MUX, m0) && Alone(m0) && Next1(m0) && m0.counter == IDS + 1
    requires Shows(View(m0, ID), None, Some(FULL_HALF), false, 0, 1) && View(m0, ID).up == [] && View(m0, ID).down == []
    ensures MuxReaches(NEW_MUX, m) && Alone(m) && m.counter == IDS + 2
    ensures Shows(View(m, ID), None, Some(NEW_SESSION), true, 1, 2) && View(m, ID).up == [] && View(m, ID).down == []
  {
    var h, open := Handler(1, Opening, [], 0, false), Tagged(1, Open(ID, 80, [104]));
    hide MuxReaches, View, Alone, Next, Shows, Next1;
    var a := Asks(m0, Some(FULL_HALF), 0, 1);
    FlushFails(View(a, ID), h, open, 0);
    var b := Acts(NEW_MUX, a, HostIo(Io(0, true, [], false, false)));
    var c := Resolves(b, h, 0);
    m := Hears(c, h, Tagged(0, Rst(ID)), Some(NEW_SESSION), true, 1, 2);
  }

  lemma ResolvingExposes(l: Link)
    requires l.session == Some(NEW_SESSION) && l.down == []
    ensures Exposed(l, false) && Exposed(l, true)
  {
    assert Untag(l.down) == [];
  }

  /** The mux can come to where the next client gets stream 1 and there are two earlier
      uses of it; and from there to where that client has bytes that did not come
      from its own socket. */
  lemma ThirdClient(port: u16, host: seq<byte>) returns (before: seq<MuxStep>, after: seq<MuxStep>)
    ensures var m := RunMux(NEW_MUX, before);
            && FirstFree(InUse(m), m.counter, 0) && Candidate(m.counter, 0) == ID && |EndsOf(m, ID).logs| == 2
            && Exposed(View(m, ID), false) && Exposed(View(m, ID), true) && Room(m, ID)
            && !OwnBytes(View(RunMux(NextMux(m, Accept(port, host, 0)), after), ID), 2)
  {
    var a := FirstGone();
    AloneIsQuiet(a);
    var b := Visitors(NEW_MUX, a, 0);
    QuietIsAlone(b);
    var c := SecondGone(b);
    AloneIsQuiet(c);
    var m := Visitors(NEW_MUX, c, 1);
    QuietIsAlone(m);
    AloneIsRoom(m);
    AcceptKeepsRoom(m, port, host, 0);
    RoomKeeps(m, NextMux(m, Accept(port, host, 0)), ID);
    ResolvingExposes(View(m, ID));
    assert |EndsOf(m, ID).logs| == |View(m, ID).logs|;
    hide View, Alone, Quiet, NextMux, RunMux, Exposed, Room, OwnBytes, EndsOf;
    before :| RunMux(NEW_MUX, before) == m;
    MuxBytesExact(before, port, host, 0);
    var start := NextMux(m, Accept(port, host, 0));
    RoomIsAhead(start, ID);
    var n :| MuxReaches(start, n) && !OwnBytes(View(n, ID), 2);
    after :| RunMux(start, after) == n;
  }
}
