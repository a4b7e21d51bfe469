/** Exactly when a client that takes a stream id can be given another use's bytes, and
    exactly when that can upset its flow control, in the whole mux. */
module MuxFeed {
  import opened Prelude
  import opened EgressCodec
  import opened EgressSession
  import opened MuxLink
  import opened MuxInv
  import opened MuxGuest
  import opened MuxHost
  import opened MuxProof
  import opened MuxFresh
  import opened MuxRisk
  import opened Forwarder
  import opened MuxSystem
  import opened MuxLift
  import opened MuxExact

  /** The client of incarnation `inc` was given bytes of another; its own connection
      has not been opened yet, or (`live`) is up. */
  predicate Bad(l: Link, inc: nat, live: bool) {
    && inc < |l.logs| && 0 < l.logs[inc].stray <= MAX_PAYLOAD
    && if live then Live(l) && l.handler.value.inc == inc else l.cur < inc
  }

  ghost predicate Feeds(m: Mux, id: u16, inc: nat, live: bool) {
    exists n :: MuxReaches(m, n) && Bad(View(n, id), inc, live)
  }

  lemma FeedsLater(m: Mux, n: Mux, id: u16, inc: nat, live: bool)
    requires MuxReaches(m, n) && Feeds(n, id, inc, live)
    ensures Feeds(m, id, inc, live)
  {
    hide MuxReaches, Bad, View;
    var p :| MuxReaches(n, p) && Bad(View(p, id), inc, live);
    MuxReachesOn(m, n, p);
  }

  // The state of the chase.

  /** The client of `inc` is the latest, has acted on all that reached it, and the host
      has not come to its OPEN. */
  predicate Chased(l: Link, inc: nat) {
    && Inv(l) && AtRest(l) && l.handler.Some? && l.cur < inc && inc == l.Last()
    && l.handler.value.inc == inc && l.handler.value.inbox == [] && l.logs[inc].stray <= MAX_PAYLOAD
  }

  function Now(l: Link, inc: nat): Watch
    requires l.handler.Some? && inc < |l.logs|
  {
    WatchOf(l.handler.value, l.logs[inc])
  }

  /** The OPEN of `inc` names a host and a port. */
  predicate Opens(up: seq<Tagged>, inc: nat) {
    forall i :: 0 <= i < |up| && up[i].inc == inc && up[i].frame.Open? ==>
                  up[i].frame.host != [] && up[i].frame.port != 0
  }

  /** Frames the host takes before it comes to `inc`. */
  function Ahead(up: seq<Tagged>, inc: int): nat {
    if up == [] || up[0].inc >= inc then 0 else 1 + Ahead(up[1..], inc)
  }

  lemma {:induction false} AheadSnoc(up: seq<Tagged>, t: Tagged, inc: int)
    requires inc <= t.inc
    ensures Ahead(up + [t], inc) == Ahead(up, inc)
  {
    if up == [] {
      assert up + [t] == [t];
    } else {
      assert (up + [t])[0] == up[0] && (up + [t])[1..] == up[1..] + [t];
      AheadSnoc(up[1..], t, inc);
    }
  }

  /** The up pipe grew by nothing or by a WINDOW of the client's. */
  predicate Granted1(up: seq<Tagged>, up': seq<Tagged>, inc: nat) {
    OneMore(up, up', inc) && (up' != up ==> !up'[|up|].frame.Open?)
  }

  lemma GrantedSame(l: Link, n: Link, w: Watch, inc: nat, live: bool)
    requires Granted1(l.up, n.up, inc) && n.session == l.session
    ensures Risk(w, n.session, n.up, inc, live) == Risk(w, l.session, l.up, inc, live)
    ensures CanClear(n.session, n.up, inc) == CanClear(l.session, l.up, inc)
    ensures Ahead(n.up, inc) == Ahead(l.up, inc)
    ensures Opens(l.up, inc) ==> Opens(n.up, inc)
  {
    hide Risk, CanClear, Ahead;
    if n.up != l.up {
      var t := n.up[|l.up|];
      assert n.up == l.up + [t];
      RiskSnoc(w, l.session, l.up, t, inc, live);
      ClearSnoc(l.session, l.up, t, inc);
      AheadSnoc(l.up, t, inc);
    }
  }

  // The client acts on the next stray frame.

  lemma Caught(l: Link, inc: nat)
    requires Chased(l, inc) && l.down != [] && Watching(Now(l, inc))
    requires Look(Now(l, inc), l.down[0].frame) != Lost
    ensures var n := Next(Next(l, Route), Receive(true, 0));
            && Chased(n, inc) && n.down == l.down[1..] && n.session == l.session
            && Granted1(l.up, n.up, inc) && Now(n, inc) == Look(Now(l, inc), l.down[0].frame)
  {
    var r := Next(l, Route);
    Routed(l, inc);
    NextKeeps(r, Receive(true, 0));
    RestStep(r, Receive(true, 0));
    ReceiveShape(r, true, 0);
    ReceiveStray(r, true, 0);
    CaughtFew(l, r);
    CaughtStays(r);
    ReceiveSends(r, true, 0);
    hide Inv, AtRest, ReceiveFrame;
  }

  lemma Routed(l: Link, inc: nat)
    requires Chased(l, inc) && l.down != []
    ensures var r := Next(l, Route);
            && Inv(r) && AtRest(r) && !(l.down[0].inc == inc)
            && r == l.(down := l.down[1..], handler := Some(l.handler.value.(inbox := [l.down[0]])))
  {
    NextKeeps(l, Route);
    RestStep(l, Route);
    CurBound(l);
    assert Toward(l)[0] == l.down[0];
    assert [] + [l.down[0]] == [l.down[0]];
    hide Inv, AtRest;
  }

  /** Nothing stray before, one frame of it after. */
  lemma CaughtFew(l: Link, r: Link)
    requires Inv(l) && l.handler.Some? && l.down != [] && r == Next(l, Route) && CanReceive(r)
    requires l.handler.value.inbox == [] && l.handler.value.inc == l.Last()
    requires Watching(WatchOf(l.handler.value, l.logs[l.Last()]))
    ensures |ReceiveFrame(r, true, 0).logs| == |l.logs|
    ensures ReceiveFrame(r, true, 0).logs[l.Last()].stray <= MAX_PAYLOAD
  {
    assert [] + [l.down[0]] == [l.down[0]];
    assert Head(r) == l.down[0] && r.logs == l.logs;
    DownIsSmall(l);
    hide Inv, Next;
    ReceiveStrays(r);
  }

  /** How much stray a message can add. */
  lemma ReceiveStrays(r: Link)
    requires CanReceive(r) && r.handler.value.inc == r.Last()
    ensures var n, f := ReceiveFrame(r, true, 0), Head(r).frame;
            && |n.logs| == |r.logs|
            && n.logs[r.Last()].stray
               <= r.logs[r.Last()].stray + if r.handler.value.phase.Relaying? && f.Data? then |f.payload| else 0
  {
  }

  lemma DownIsSmall(l: Link)
    requires Inv(l) && l.down != [] && l.handler.Some? && l.handler.value.inbox == [] && l.handler.value.inc == l.Last()
    ensures SmallData(l.down[0].frame) && (l.handler.value.phase.Opening? ==> l.logs[l.Last()].stray == 0)
  {
    assert Toward(l)[0] == l.down[0];
  }

  lemma CaughtStays(r: Link)
    requires CanReceive(r) && r.handler.value.inc == r.Last()
    requires Watching(WatchOf(r.handler.value, r.logs[r.Last()]))
    requires Look(WatchOf(r.handler.value, r.logs[r.Last()]), Head(r).frame) != Lost
    ensures var n := ReceiveFrame(r, true, 0);
            n.handler.Some? && !n.handler.value.phase.Closing? && n.session == r.session && n.down == r.down
  {
  }

  /** A message taken leaves the host alone and answers with at most one frame, no OPEN. */
  lemma ReceiveSends(r: Link, ok: bool, partial: nat)
    requires CanReceive(r)
    ensures var n := ReceiveFrame(r, ok, partial);
            && n.session == r.session && n.cur == r.cur && |n.logs| == |r.logs|
            && (n.up != r.up ==> |n.up| == |r.up| + 1 && n.up[..|r.up|] == r.up && !n.up[|r.up|].frame.Open?)
  {
    hide LogOf;
    if r.handler.value.phase.Relaying? && Head(r).frame.Data? {
      DataSends(r, ok, partial);
    }
  }

  lemma DataSends(r: Link, ok: bool, partial: nat)
    requires CanReceive(r) && r.handler.value.phase.Relaying? && Head(r).frame.Data?
    ensures var n := ReceiveFrame(r, ok, partial);
            && n.session == r.session && n.cur == r.cur && |n.logs| == |r.logs|
            && (n.up != r.up ==> |n.up| == |r.up| + 1 && n.up[..|r.up|] == r.up && !n.up[|r.up|].frame.Open?)
  {
    hide LogOf;
  }

  lemma CatchOne(m: Mux, id: u16, inc: nat) returns (n: Mux)
    requires var l := View(m, id);
             Chased(l, inc) && l.down != [] && Watching(Now(l, inc)) && Look(Now(l, inc), l.down[0].frame) != Lost
    ensures var l, l' := View(m, id), View(n, id);
            && MuxReaches(m, n) && Others(n, id) <= Others(m, id)
            && Chased(l', inc) && l'.down == l.down[1..] && l'.session == l.session
            && Granted1(l.up, l'.up, inc) && Now(l', inc) == Look(Now(l, inc), l.down[0].frame)
  {
    Caught(View(m, id), inc);
    hide MuxReaches, Next, View, Others, Inv, AtRest;
    var r := LiftRoute(m, id);
    n := LiftLocal(r, id, Receive(true, 0));
    MuxReachesOn(m, r, n);
  }

  // A local step of the host.

  lemma HostLocal(m: Mux, id: u16, step: Step, inc: nat) returns (n: Mux)
    requires Chased(View(m, id), inc) && (step.HostAnswer? || step.HostPoll? || step.HostIo?)
    ensures var l, l' := View(m, id), View(n, id);
            && MuxReaches(m, n) && Others(n, id) <= Others(m, id)
            && l' == Next(l, step) && Chased(l', inc) && l'.up == l.up && l'.handler == l.handler
            && Now(l', inc) == Now(l, inc) && l'.logs[inc].stray == l.logs[inc].stray
  {
    var l := View(m, id);
    HostLocalLink(l, step, inc);
    hide MuxReaches, Next, View, Others, Inv, AtRest;
    n := LiftLocal(m, id, step);
  }

  lemma HostLocalLink(l: Link, step: Step, inc: nat)
    requires Chased(l, inc) && (step.HostAnswer? || step.HostPoll? || step.HostIo?)
    ensures var n := Next(l, step);
            && Chased(n, inc) && n.up == l.up && n.handler == l.handler
            && Now(n, inc) == Now(l, inc) && n.logs[inc].stray == l.logs[inc].stray
  {
    hide Inv, AtRest, Next;
    NextKeeps(l, step);
    RestStep(l, step);
    HostLeaves(l, step, inc);
  }

  /** The host's own steps leave the guest's end alone. */
  lemma HostLeaves(l: Link, step: Step, inc: nat)
    requires inc < |l.logs| && (step.HostAnswer? || step.HostPoll? || step.HostIo?)
    ensures var n := Next(l, step);
            && n.up == l.up && n.handler == l.handler && n.cur == l.cur && |n.logs| == |l.logs|
            && n.logs[inc].stray == l.logs[inc].stray
  {
    hide RunOpenIo, HarvestAnswer, RunConnecting, Tag;
  }

  /** A turn by itself: what it queued and what it left. */
  lemma TurnIs(l: Link, s: Session, io: Io)
    requires Inv(l) && l.session == Some(s) && s.IsOpen() && PossibleIo(s, io)
    ensures var n, o := Next(l, HostIo(io)), RunOpenIo(l.id, s, l.resolving, io);
            n.session == o.session && n.down == l.down + Tag(l.cur, o.out) && n.resolving == l.resolving
    ensures 0 <= l.cur && s.Valid()
  {
    hide RunOpenIo;
    CurBound(l);
    ServiceIs(l, s, io);
    TurnKeepsFlag(l.id, s, l.resolving, io);
  }

  lemma TurnKeepsFlag(id: u16, s: Session, resolving: bool, io: Io)
    requires PossibleIo(s, io)
    ensures RunOpenIo(id, s, resolving, io).resolving == resolving
  {
    hide Chunked;
  }

  /** Flushing the backlog without a word. */
  lemma DrainTurn(id: u16, s: Session, resolving: bool)
    requires s.Valid() && s.IsOpen() && !Loaded(s) && Rests(Some(s), resolving)
    ensures var io := Io(|s.toSocket|, false, [], false, false);
            && PossibleIo(s, io)
            && var o := RunOpenIo(id, s, resolving, io);
               && o.out == []
               && o.session == if s.hostCloseSent && s.guestWriteClosed then None else Some(s.(toSocket := []))
  {
    var io := Io(|s.toSocket|, false, [], false, false);
    var t := Transfer(s, io);
    assert t.toSocket == [] && t.toGuest == s.toGuest;
    assert t == s.(toSocket := []);
    assert t.toGuest[..0] == [] && t.toGuest[0..] == t.toGuest;
  }

  lemma Drain(m: Mux, id: u16, s: Session, inc: nat) returns (n: Mux)
    requires Chased(View(m, id), inc) && View(m, id).session == Some(s) && s.IsOpen() && !Loaded(s)
    ensures var l, l' := View(m, id), View(n, id);
            && MuxReaches(m, n) && Others(n, id) <= Others(m, id)
            && Chased(l', inc) && l'.up == l.up && l'.down == l.down && Now(l', inc) == Now(l, inc)
            && l'.session == if s.hostCloseSent && s.guestWriteClosed then None else Some(s.(toSocket := []))
  {
    var l, io := View(m, id), Io(|s.toSocket|, false, [], false, false);
    assert s.Valid();
    DrainTurn(l.id, s, l.resolving);
    TurnIs(l, s, io);
    assert Tag(l.cur, []) == [] && l.down + [] == l.down;
    hide MuxReaches, Next, View, Others, Inv, AtRest, RunOpenIo;
    n := HostLocal(m, id, HostIo(io), inc);
  }

  /** A late answer clears the flag and nothing else. */
  lemma ClearFlag(m: Mux, id: u16, inc: nat) returns (n: Mux)
    requires Chased(View(m, id), inc) && View(m, id).session.None?
    ensures var l, l' := View(m, id), View(n, id);
            && MuxReaches(m, n) && Others(n, id) <= Others(m, id)
            && Chased(l', inc) && l'.up == l.up && l'.down == l.down && Now(l', inc) == Now(l, inc)
            && l'.logs[inc].stray == l.logs[inc].stray && l'.handler == l.handler
            && l'.session.None? && !l'.resolving
  {
    var l := View(m, id);
    hide MuxReaches, Next, View, Others, Inv, AtRest;
    if l.resolving {
      LateAnswer(l, inc);
      n := HostLocal(m, id, HostAnswer(NoAddress), inc);
    } else {
      n := m;
      MuxReachesSelf(m);
    }
  }

  lemma LateAnswer(l: Link, inc: nat)
    requires Chased(l, inc) && l.session.None? && l.resolving
    ensures var n := Next(l, HostAnswer(NoAddress));
            n.session.None? && !n.resolving && n.down == l.down
  {
    CurBound(l);
    hide Inv, AtRest;
    if l.cur >= 0 {
      ApplyNothing(l, HarvestAnswer(l.id, l.session, NoAddress));
    }
  }

  // The host takes the next frame before the client's.

  lemma FrameTaken(l: Link, full: bool, inc: nat)
    requires Chased(l, inc) && l.up != [] && l.up[0].inc < inc
    requires l.up[0].frame.Open? && l.session.None? ==> !l.resolving && !full
    ensures var n, p := Next(l, HostFrame(full)), HandleFrame(l.up[0].frame, l.session, false, false);
            && Chased(n, inc) && n.up == l.up[1..] && n.handler == l.handler && Now(n, inc) == Now(l, inc)
            && n.logs[inc].stray == l.logs[inc].stray
            && n.session == p.session && 0 <= n.cur && n.down == l.down + Tag(n.cur, p.out)
  {
    CurBound(l);
    NextKeeps(l, HostFrame(full));
    RestStep(l, HostFrame(full));
    var f := l.up[0].frame;
    if !f.Open? {
      FlagsDontMatter(f, l.session, l.resolving, full);
    } else if l.session.Some? {
      OpenOverSession(f, l.session.value, l.resolving, full);
      OpenOverSession(f, l.session.value, false, false);
    }
    hide Inv, AtRest, HandleFrame;
  }

  lemma HostTakes(m: Mux, id: u16, inc: nat) returns (n: Mux)
    requires var l := View(m, id);
             && Chased(l, inc) && l.up != [] && l.up[0].inc < inc && Room(m, id)
             && (l.session.None? ==> !l.resolving)
    ensures var l, l' := View(m, id), View(n, id);
            var p := HandleFrame(l.up[0].frame, l.session, false, false);
            && MuxReaches(m, n) && Others(n, id) <= Others(m, id)
            && Chased(l', inc) && l'.up == l.up[1..] && l'.handler == l.handler && Now(l', inc) == Now(l, inc)
            && l'.logs[inc].stray == l.logs[inc].stray
            && l'.session == p.session && 0 <= l'.cur && l'.down == l.down + Tag(l'.cur, p.out)
  {
    hide MuxReaches, Next, View, Others, Inv, AtRest, HandleFrame, Room, Tag;
    var full;
    n, full := LiftHandle(m, id);
    FrameTaken(View(m, id), full, inc);
  }

  // Feeding.

  function FeedIo(s: Session): Io {
    Io(0, false, if s.toGuest == [] then [0] else [], false, false)
  }

  lemma FeedTurn(id: u16, s: Session, resolving: bool, up: seq<Tagged>, inc: int)
    requires s.Valid() && s.IsOpen() && Ready(s)
    ensures PossibleIo(s, FeedIo(s))
    ensures var o := RunOpenIo(id, s, resolving, FeedIo(s));
            && o.out != [] && o.out[0].Data? && o.out[0].payload != []
            && (CanClear(Some(s), up, inc) ==> CanClear(o.session, up, inc))
  {
    var io := FeedIo(s);
    var t := Transfer(s, io);
    assert t.toSocket == s.toSocket;
    ChunkedFirst(id, t.toGuest[..Releasable(t)]);
    var o := RunOpenIo(id, s, resolving, io);
    if o.session.Some? {
      RunOpenIoKeepsValid(id, s, resolving, io);
      FedSession(id, s, resolving);
      hide RunOpenIo, NoNearer, CanEnd;
      if CanEnd(o.session.value) {
        EndsClears(o.session.value, up, inc);
      } else if CanClear(Some(s), up, inc) {
        ClearNearer(s, o.session.value, up, inc);
      }
    }
  }

  lemma FedSession(id: u16, s: Session, resolving: bool)
    requires s.Valid() && s.IsOpen() && Ready(s)
    ensures PossibleIo(s, FeedIo(s))
    ensures var o := RunOpenIo(id, s, resolving, FeedIo(s));
            o.session.Some? ==> CanEnd(o.session.value) || NoNearer(s, o.session.value)
  {
    var io := FeedIo(s);
    RunOpenIoKeepsValid(id, s, resolving, io);
    hide Chunked;
    var t := Transfer(s, io);
    assert t.toSocket == s.toSocket;
  }

  lemma FeedNow(m: Mux, id: u16, s: Session, inc: nat, live: bool)
    requires var l := View(m, id);
             && Chased(l, inc) && l.down == [] && Now(l, inc) == Fooled && Room(m, id)
             && l.session == Some(s) && s.IsOpen() && Ready(s)
             && (live ==> CanClear(l.session, l.up, inc) && Opens(l.up, inc))
    ensures Feeds(m, id, inc, live)
  {
    hide MuxReaches, Next, View, Others, Inv, AtRest, RunOpenIo, CanClear, Tag, Room, Feeds, FeedIo, PossibleIo, Opens;
    var l := View(m, id);
    FeedStep(l, s, inc);
    var n := HostLocal(m, id, HostIo(FeedIo(s)), inc);
    RoomKeeps(m, n, id);
    var p := CatchOne(n, id, inc);
    RoomKeeps(n, p, id);
    GrantedSame(View(n, id), View(p, id), Fed, inc, live);
    FedFinish(p, id, inc, live);
    MuxReachesOn(m, n, p);
    FeedsLater(m, p, id, inc, live);
  }

  /** One turn puts a byte in front of the client. */
  lemma FeedStep(l: Link, s: Session, inc: nat)
    requires Chased(l, inc) && l.down == [] && l.session == Some(s) && s.IsOpen() && Ready(s)
    ensures var n := Next(l, HostIo(FeedIo(s)));
            && n.down != [] && n.down[0].frame.Data? && n.down[0].frame.payload != []
            && (CanClear(l.session, l.up, inc) ==> CanClear(n.session, l.up, inc))
  {
    assert s.Valid();
    var io := FeedIo(s);
    FeedTurn(l.id, s, l.resolving, l.up, inc);
    TurnIs(l, s, io);
    var o := RunOpenIo(l.id, s, l.resolving, io);
    assert (l.down + Tag(l.cur, o.out))[0] == Tagged(l.cur, o.out[0]);
    hide Next, Inv, AtRest, RunOpenIo, CanClear;
  }

  // Clearing the way for the client's own session.

  /** How to bring a session to its end. */
  function EndStep(s: Session): (step: Step)
    ensures step.HostAnswer? || step.HostPoll? || step.HostIo?
  {
    if s.state.Resolving? then HostAnswer(NoAddress)
    else if s.state.Connecting? then HostPoll(Failed(Unreachable))
    else if s.toSocket != [] then HostIo(Io(0, true, [], false, false))
    else if !s.hostReadClosed && |s.toGuest| < WINDOW_BYTES then HostIo(Io(0, false, [], false, true))
    else HostIo(Io(0, false, [], false, false))
  }

  lemma EndTurn(id: u16, s: Session, resolving: bool)
    requires s.Valid() && s.IsOpen() && CanEnd(s)
    ensures EndStep(s).HostIo? && PossibleIo(s, EndStep(s).io)
    ensures var o := RunOpenIo(id, s, resolving, EndStep(s).io);
            || o.session.None?
            || (o.session.value.IsOpen() && !o.session.value.hostReadClosed && |s.toGuest| == WINDOW_BYTES
                && |o.session.value.toGuest| < WINDOW_BYTES && o.session.value.toSocket == [])
  {
    hide Chunked;
    var io := EndStep(s).io;
    if !io.writeFailed && !io.readFailed {
      var t := Transfer(s, io);
      assert t.toSocket == s.toSocket && t.toGuest == s.toGuest;
      assert t == s;
    }
  }

  lemma PendingEnds(l: Link, s: Session)
    requires AtRest(l) && l.session == Some(s) && !s.IsOpen()
    ensures Next(l, EndStep(s)).session.None?
  {
    hide SetLog, LogOf, Tag, Inv;
  }

  /** One step on the way to a session's end: it is gone, or has room to read. */
  lemma EndsNearer(l: Link, s: Session)
    requires Inv(l) && AtRest(l) && l.session == Some(s) && CanEnd(s)
    ensures var n := Next(l, EndStep(s));
            || n.session.None?
            || (CanEnd(n.session.value) && |n.session.value.toGuest| < |s.toGuest|)
  {
    if !s.IsOpen() {
      PendingEnds(l, s);
    } else {
      assert s.Valid();
      EndTurn(l.id, s, l.resolving);
      TurnIs(l, s, EndStep(s).io);
      hide Next, Inv, RunOpenIo, EndStep;
    }
  }

  lemma EndSession(m: Mux, id: u16, s: Session, inc: nat) returns (n: Mux)
    requires Chased(View(m, id), inc) && View(m, id).session == Some(s) && CanEnd(s)
    ensures var l, l' := View(m, id), View(n, id);
            && MuxReaches(m, n) && Others(n, id) <= Others(m, id)
            && Chased(l', inc) && l'.up == l.up && l'.handler == l.handler
            && l'.logs[inc].stray == l.logs[inc].stray && l'.session.None?
    decreases |s.toGuest|
  {
    hide MuxReaches, Next, View, Others, Inv, AtRest, EndStep, CanEnd;
    EndsNearer(View(m, id), s);
    n := HostLocal(m, id, EndStep(s), inc);
    if View(n, id).session.Some? {
      var p := n;
      n := EndSession(p, id, View(p, id).session.value, inc);
      MuxReachesOn(m, p, n);
    }
  }

  lemma FedFinish(m: Mux, id: u16, inc: nat, live: bool)
    requires var l := View(m, id);
             && Chased(l, inc) && l.handler.value.phase.Relaying? && l.logs[inc].stray > 0 && Room(m, id)
             && (live ==> CanClear(l.session, l.up, inc) && Opens(l.up, inc))
    ensures Feeds(m, id, inc, live)
  {
    if live {
      ClearRun(m, id, inc);
    } else {
      MuxReachesSelf(m);
    }
  }

  /** The client's own OPEN comes up and is accepted. */
  lemma OwnOpens(l: Link, full: bool, inc: nat)
    requires Chased(l, inc) && l.up != [] && l.up[0].inc >= inc && l.session.None? && !l.resolving && !full
    requires l.handler.value.phase.Relaying? && l.logs[inc].stray > 0 && Opens(l.up, inc)
    ensures Bad(Next(l, HostFrame(full)), inc, true)
  {
    CurBound(l);
    var t := l.up[0];
    assert t.inc == inc && t.frame.Open?;
    hide Inv, SetLog, LogOf, Tag;
    OwnOpened(l, full, inc);
  }

  lemma OwnOpened(l: Link, full: bool, inc: nat)
    requires l.up != [] && l.up[0].inc == inc && l.up[0].frame.Open? && l.session.None? && !l.resolving && !full
    requires l.up[0].frame.host != [] && l.up[0].frame.port != 0 && inc < |l.logs|
    ensures var n := Next(l, HostFrame(full));
            n.session.Some? && n.cur == inc && n.handler == l.handler && |n.logs| == |l.logs|
            && n.logs[inc].stray == l.logs[inc].stray
  {
  }

  lemma StillAhead(l: Link, inc: nat)
    requires Chased(l, inc)
    ensures l.up != []
  {
  }

  lemma {:induction false} ClearRun(m: Mux, id: u16, inc: nat)
    requires var l := View(m, id);
             && Chased(l, inc) && l.handler.value.phase.Relaying? && l.logs[inc].stray > 0 && Room(m, id)
             && CanClear(l.session, l.up, inc) && Opens(l.up, inc)
    ensures Feeds(m, id, inc, true)
    decreases Ahead(View(m, id).up, inc), if View(m, id).session.Some? then 1 else 0
  {
    hide MuxReaches, Next, View, Others, Inv, AtRest, Room, Feeds, HandleFrame, Bad;
    var l := View(m, id);
    if l.session.Some? && CanEnd(l.session.value) {
      hide CanEnd;
      var n := EndSession(m, id, l.session.value, inc);
      RoomKeeps(m, n, id);
      ClearRun(n, id, inc);
      FeedsLater(m, n, id, inc, true);
    } else if l.session.Some? {
      hide CanEnd;
      var n := HostTakes(m, id, inc);
      RoomKeeps(m, n, id);
      ClearRun(n, id, inc);
      FeedsLater(m, n, id, inc, true);
    } else {
      hide CanEnd;
      var c := ClearFlag(m, id, inc);
      RoomKeeps(m, c, id);
      StillAhead(l, inc);
      if l.up[0].inc < inc {
        var n := HostTakes(c, id, inc);
        RoomKeeps(c, n, id);
        ClearAfterNone(l.up[0].frame, l.up[1..], inc);
        ClearRun(n, id, inc);
        FeedsLater(c, n, id, inc, true);
      } else {
        var n, full := LiftHandle(c, id);
        OwnOpens(View(c, id), full, inc);
        FeedsNow(c, n, id, inc);
      }
      FeedsLater(m, c, id, inc, true);
    }
  }

  lemma FeedsNow(m: Mux, n: Mux, id: u16, inc: nat)
    requires MuxReaches(m, n) && Bad(View(n, id), inc, true)
    ensures Feeds(m, id, inc, true)
  {
  }

  lemma ClearAfterNone(f: Frame, rest: seq<Tagged>, inc: int)
    ensures CanClear(HandleFrame(f, None, false, false).session, rest, inc)
  {
  }

  // The chase.

  lemma Connects(l: Link, s: Session, inc: nat)
    requires Chased(l, inc) && l.session == Some(s) && l.down == []
    ensures s.state.Resolving? ==>
              var n := Next(l, HostAnswer(ConnectStarted));
              n.session == Some(s.(state := Connecting)) && n.down == []
    ensures s.state.Connecting? ==>
              var n := Next(l, HostPoll(Connected));
              && n.session.Some? && n.session.value.IsOpen() && n.session.value == s.(state := n.session.value.state)
              && n.down == [Tagged(n.cur, OpenOk(l.id))] && n.cur == l.cur
    ensures s.Valid() && Rests(Some(s), l.resolving)
  {
    CurBound(l);
    assert 0 <= l.cur < |l.logs| && s.Valid() && Rests(Some(s), l.resolving);
    hide Inv, Next, Chased, AtRest;
    if s.state.Resolving? {
      StartsConnecting(l, s);
    } else if s.state.Connecting? {
      ComesUp(l, s);
    }
  }

  lemma StartsConnecting(l: Link, s: Session)
    requires l.session == Some(s) && l.down == [] && 0 <= l.cur < |l.logs| && s.state.Resolving? && l.resolving
    ensures var n := Next(l, HostAnswer(ConnectStarted));
            n.session == Some(s.(state := Connecting)) && n.down == []
  {
    ApplyNothing(l, HarvestAnswer(l.id, l.session, ConnectStarted));
    hide Apply;
  }

  lemma ComesUp(l: Link, s: Session)
    requires l.session == Some(s) && l.down == [] && 0 <= l.cur < |l.logs| && s.state.Connecting?
    ensures var n := Next(l, HostPoll(Connected));
            && n.session.Some? && n.session.value.IsOpen() && n.session.value == s.(state := n.session.value.state)
            && n.down == [Tagged(n.cur, OpenOk(l.id))] && n.cur == l.cur
  {
    var o := RunConnecting(l.id, s, l.resolving, Connected);
    assert o.out == [OpenOk(l.id)];
    assert Tag(l.cur, o.out) == [Tagged(l.cur, OpenOk(l.id))] && [] + Tag(l.cur, o.out) == Tag(l.cur, o.out);
    hide RunConnecting, LogOf;
  }

  lemma ConnectFeed(m: Mux, id: u16, s: Session, inc: nat, live: bool)
    requires var l := View(m, id);
             && Chased(l, inc) && l.down == [] && Watching(Now(l, inc)) && Room(m, id)
             && l.session == Some(s) && !s.IsOpen() && (live ==> Opens(l.up, inc))
    ensures Feeds(m, id, inc, live)
    decreases if s.state.Resolving? then 1 else 0
  {
    hide MuxReaches, Next, View, Others, Inv, AtRest, Room, Feeds, CanClear, Opens;
    Connects(View(m, id), s, inc);
    if s.state.Resolving? {
      var n := HostLocal(m, id, HostAnswer(ConnectStarted), inc);
      RoomKeeps(m, n, id);
      ConnectFeed(n, id, s.(state := Connecting), inc, live);
      FeedsLater(m, n, id, inc, live);
    } else {
      var n := HostLocal(m, id, HostPoll(Connected), inc);
      RoomKeeps(m, n, id);
      var p := CatchOne(n, id, inc);
      RoomKeeps(n, p, id);
      GrantedSame(View(n, id), View(p, id), Fooled, inc, live);
      var s' := View(p, id).session.value;
      EndsClears(s', View(p, id).up, inc);
      FeedNow(p, id, s', inc, live);
      MuxReachesOn(m, n, p);
      FeedsLater(m, p, id, inc, live);
    }
  }

  /** The session as the next frame is to find it. */
  lemma Present(m: Mux, id: u16, inc: nat) returns (n: Mux)
    requires var l := View(m, id);
             && Chased(l, inc) && l.down == [] && l.up != [] && (l.session.Some? ==> l.session.value.IsOpen())
    ensures var l, l' := View(m, id), View(n, id);
            && MuxReaches(m, n) && Others(n, id) <= Others(m, id)
            && Chased(l', inc) && l'.up == l.up && l'.down == [] && Now(l', inc) == Now(l, inc)
            && l'.session == Presented(Now(l, inc), l.session, l.up[0].frame)
            && (l'.session.None? ==> !l'.resolving)
  {
    hide MuxReaches, Next, View, Others, Inv, AtRest;
    var l := View(m, id);
    if l.session.None? {
      n := ClearFlag(m, id, inc);
    } else if Eased(Now(l, inc), l.session.value, l.up[0].frame) != l.session.value {
      n := Drain(m, id, l.session.value, inc);
    } else {
      n := m;
      MuxReachesSelf(m);
    }
  }

  lemma {:induction false} Pursue(m: Mux, id: u16, inc: nat, live: bool)
    requires var l := View(m, id);
             && Chased(l, inc) && Room(m, id) && (live ==> Opens(l.up, inc))
             && Risk(LookAll(Now(l, inc), Untag(l.down)), l.session, l.up, inc, live)
    ensures Feeds(m, id, inc, live)
    decreases Ahead(View(m, id).up, inc), if View(m, id).session.Some? then 1 else 0, |View(m, id).down|
  {
    hide MuxReaches, Next, View, Others, Inv, AtRest, Room, Feeds, Opens, CanClear;
    var l := View(m, id);
    var w := Now(l, inc);
    if w.Fed? || w.Lost? {
      LookStays(w, Untag(l.down));
      FedFinish(m, id, inc, live);
    } else if l.down != [] {
      PursueFrame(m, id, inc, live);
    } else {
      assert Untag(l.down) == [];
      LookNothing(w);
      PursueHost(m, id, inc, live);
    }
  }

  lemma PursueFrame(m: Mux, id: u16, inc: nat, live: bool)
    requires var l := View(m, id);
             && Chased(l, inc) && Room(m, id) && (live ==> Opens(l.up, inc)) && Watching(Now(l, inc)) && l.down != []
             && Risk(LookAll(Now(l, inc), Untag(l.down)), l.session, l.up, inc, live)
    ensures Feeds(m, id, inc, live)
    decreases Ahead(View(m, id).up, inc), if View(m, id).session.Some? then 1 else 0, |View(m, id).down|, 0
  {
    hide MuxReaches, Next, View, Others, Inv, AtRest, Room, Feeds, Opens, CanClear;
    var l := View(m, id);
    var w, f := Now(l, inc), l.down[0].frame;
    assert Untag(l.down)[0] == f && Untag(l.down)[1..] == Untag(l.down[1..]);
    if Look(w, f).Lost? {
      LookStays(Lost, Untag(l.down[1..]));
    } else {
      hide Risk;
      var n := CatchOne(m, id, inc);
      RoomKeeps(m, n, id);
      GrantedSame(l, View(n, id), LookAll(w, Untag(l.down)), inc, live);
      Pursue(n, id, inc, live);
      FeedsLater(m, n, id, inc, live);
    }
  }

  lemma PursueHost(m: Mux, id: u16, inc: nat, live: bool)
    requires var l := View(m, id);
             && Chased(l, inc) && Room(m, id) && (live ==> Opens(l.up, inc)) && Watching(Now(l, inc)) && l.down == []
             && Risk(Now(l, inc), l.session, l.up, inc, live)
    ensures Feeds(m, id, inc, live)
    decreases Ahead(View(m, id).up, inc), if View(m, id).session.Some? then 1 else 0, |View(m, id).down|, 1
  {
    hide MuxReaches, Next, View, Others, Inv, AtRest, Room, Feeds, Opens, CanClear, HandleFrame, Presented, LookAll;
    var l := View(m, id);
    var w := Now(l, inc);
    if l.session.Some? && !l.session.value.IsOpen() {
      ConnectFeed(m, id, l.session.value, inc, live);
    } else if w.Fooled? && l.session.Some? && Ready(l.session.value) && (!live || CanClear(l.session, l.up, inc)) {
      FeedNow(m, id, l.session.value, inc, live);
    } else if l.session.Some? && l.session.value.hostCloseSent && l.session.value.guestWriteClosed
              && Risk(w, None, l.up, inc, live) {
      hide Risk;
      ClosedIsQuiet(l, inc);
      var n := Drain(m, id, l.session.value, inc);
      RoomKeeps(m, n, id);
      LookNothing(w);
      assert Untag([]) == [];
      Pursue(n, id, inc, live);
      FeedsLater(m, n, id, inc, live);
    } else {
      PursueUp(m, id, inc, live);
    }
  }

  lemma ClosedIsQuiet(l: Link, inc: nat)
    requires Chased(l, inc) && l.session.Some? && l.session.value.hostCloseSent
    ensures !Loaded(l.session.value)
  {
  }

  lemma PursueUp(m: Mux, id: u16, inc: nat, live: bool)
    requires var l := View(m, id);
             && Chased(l, inc) && Room(m, id) && (live ==> Opens(l.up, inc)) && Watching(Now(l, inc)) && l.down == []
             && (l.session.Some? ==> l.session.value.IsOpen()) && l.up != [] && l.up[0].inc < inc
             && var o := HandleFrame(l.up[0].frame, Presented(Now(l, inc), l.session, l.up[0].frame), false, false);
                Risk(LookAll(Now(l, inc), o.out), o.session, l.up[1..], inc, live)
    ensures Feeds(m, id, inc, live)
    decreases Ahead(View(m, id).up, inc), if View(m, id).session.Some? then 1 else 0, |View(m, id).down|, 0
  {
    hide MuxReaches, Next, View, Others, Inv, AtRest, Room, Feeds, CanClear, HandleFrame, Presented, LookAll, Risk;
    var n := Present(m, id, inc);
    RoomKeeps(m, n, id);
    var p := HostTakes(n, id, inc);
    RoomKeeps(n, p, id);
    var o := HandleFrame(View(n, id).up[0].frame, View(n, id).session, false, false);
    assert [] + Tag(View(p, id).cur, o.out) == Tag(View(p, id).cur, o.out);
    assert Untag(View(p, id).down) == o.out;
    Pursue(p, id, inc, live);
    MuxReachesOn(m, n, p);
    FeedsLater(m, p, id, inc, live);
  }

  // The exact conditions.

  lemma AcceptedIsChased(l: Link, port: u16, host: seq<byte>, live: bool)
    requires Inv(l) && AtRest(l) && l.handler.None?
    ensures var m, inc := RegisterClient(l, port, host), |l.logs|;
            && Chased(m, inc) && Now(m, inc) == Untouched && m.down == l.down && m.session == l.session
            && (host != [] && port != 0 ==> Opens(m.up, inc))
            && (Exposed(l, live) ==> Risk(LookAll(Untouched, Untag(m.down)), m.session, m.up, inc, live))
  {
    RegisterKeeps(l, port, host);
    CurBound(l);
    var t := Tagged(|l.logs|, Open(l.id, port, host));
    hide Risk, LookAll, Inv;
    RiskSnoc(LookAll(Untouched, Untag(l.down)), l.session, l.up, t, |l.logs|, live);
  }

  lemma ExposedFeeds(l: Link, n: Mux, id: u16, port: u16, host: seq<byte>, live: bool)
    requires Inv(l) && AtRest(l) && l.handler.None? && Exposed(l, live) && View(n, id) == RegisterClient(l, port, host)
    requires Room(n, id) && (live ==> host != [] && port != 0)
    ensures Feeds(n, id, |l.logs|, live)
  {
    AcceptedIsChased(l, port, host, live);
    hide Inv, AtRest, RegisterClient, Risk, View, Exposed, Room, Feeds, Opens, Now;
    Pursue(n, id, |l.logs|, live);
  }

  /** Every byte the client has came from its own socket, in order. */
  predicate OwnBytes(l: Link, inc: nat) {
    inc < |l.logs| ==> l.logs[inc].delivered <= l.logs[inc].yielded
  }

  lemma NoStrayIsOwn(l: Link, inc: nat)
    requires Inv(l) && inc < |l.logs| && l.logs[inc].stray == 0
    ensures OwnBytes(l, inc)
  {
    ByteOrder(l, inc);
    assert l.logs[inc].delivered[0..] == l.logs[inc].delivered;
  }

  lemma BadIsNotOwn(l: Link, inc: nat)
    requires Inv(l) && Bad(l, inc, false)
    ensures !OwnBytes(l, inc)
  {
    assert LogOk(l.logs[inc]);
    assert Unopened(l.logs[inc], Own(l.up, inc));
  }

  lemma AcceptKeepsRoom(m: Mux, port: u16, host: seq<byte>, k: nat)
    requires FirstFree(InUse(m), m.counter, k)
    ensures var id := Candidate(m.counter, k);
            Others(NextMux(m, Accept(port, host, k)), id) <= Others(m, id)
  {
    var id := Candidate(m.counter, k);
    var n := NextMux(m, Accept(port, host, k));
    hide NextMux, View;
    forall j: u16 | j != id && View(n, j).session.Some? ensures View(m, j).session.Some? {
      AcceptView(m, port, host, k, j);
    }
    OthersKeep(m, n, id);
  }

  /** The other streams leave room in the session table, or can come to, while this
      stream stays as it is. */
  ghost predicate RoomAhead(m: Mux, id: u16) {
    exists n :: MuxReaches(m, n) && View(n, id) == View(m, id) && Room(n, id)
  }

  /** Other streams whose sessions no socket error can end. */
  function Stuck(m: Mux, id: u16): set<u16> {
    set j | j in m.ends && j != id && m.ends[j].session.Some? && !CanEnd(m.ends[j].session.value)
  }

  ghost predicate Sound(m: Mux) {
    forall j: u16 :: Inv(View(m, j)) && AtRest(View(m, j))
  }

  lemma SoundLocal(m: Mux, j: u16, step: Step)
    requires Sound(m) && LocalStep(step)
    ensures Sound(NextMux(m, Local(j, step)))
  {
    hide NextMux, View, Inv, AtRest, Next;
    forall k: u16 ensures var v := View(NextMux(m, Local(j, step)), k); Inv(v) && AtRest(v) {
      LocalView(m, j, step, k);
      NextKeeps(View(m, k), step);
      RestStep(View(m, k), step);
    }
  }

  /** A socket error ends another stream's session. */
  lemma {:induction false} EndOther(m: Mux, j: u16, s: Session) returns (n: Mux)
    requires Sound(m) && View(m, j).session == Some(s) && CanEnd(s)
    ensures MuxReaches(m, n) && Sound(n) && View(n, j).session.None?
    ensures forall k: u16 :: k != j ==> View(n, k) == View(m, k)
    decreases |s.toGuest|
  {
    EndsNearer(View(m, j), s);
    hide NextMux, View, Inv, AtRest, Next, MuxReaches, EndStep, CanEnd;
    var step := EndStep(s);
    n := NextMux(m, Local(j, step));
    MuxReachesStep(m, Local(j, step));
    SoundLocal(m, j, step);
    forall k: u16 ensures View(n, k) == if k == j then Next(View(m, j), step) else View(m, k) {
      LocalView(m, j, step, k);
    }
    if View(n, j).session.Some? {
      var p := n;
      n := EndOther(p, j, View(p, j).session.value);
      MuxReachesOn(m, p, n);
    }
  }

  lemma {:induction false} MakeRoom(m: Mux, id: u16) returns (n: Mux)
    requires Sound(m) && |Stuck(m, id)| < MAX_SESSIONS
    ensures MuxReaches(m, n) && View(n, id) == View(m, id) && Room(n, id)
    decreases Others(m, id)
  {
    if Others(m, id) <= Stuck(m, id) {
      SubsetCard(Others(m, id), Stuck(m, id));
      MuxReachesSelf(m);
      n := m;
    } else {
      var j :| j in Others(m, id) && j !in Stuck(m, id);
      hide MuxReaches, Sound, CanEnd, Room;
      var p := EndOther(m, j, View(m, j).session.value);
      OneFewer(m, p, id, j);
      n := MakeRoom(p, id);
      MuxReachesOn(m, p, n);
    }
  }

  lemma OneFewer(m: Mux, p: Mux, id: u16, j: u16)
    requires j in Others(m, id) && View(p, j).session.None?
    requires forall k: u16 :: k != j ==> View(p, k) == View(m, k)
    ensures Others(p, id) < Others(m, id) && Stuck(p, id) <= Stuck(m, id) && |Stuck(p, id)| <= |Stuck(m, id)|
  {
    hide CanEnd;
    forall k | k in Others(p, id) ensures k in Others(m, id) && k != j {
      HasSession(p, k);
      HasSession(m, k);
    }
    forall k | k in Stuck(p, id) ensures k in Stuck(m, id) {
      assert View(p, k).session == p.ends[k].session;
      assert View(m, k).session == p.ends[k].session;
    }
    SubsetCard(Stuck(p, id), Stuck(m, id));
  }

  /** There is room ahead unless 256 sessions of other streams are beyond the reach of
      any socket error. */
  lemma EndableIsRoom(steps: seq<MuxStep>, id: u16)
    requires |Stuck(RunMux(NEW_MUX, steps), id)| < MAX_SESSIONS
    ensures RoomAhead(RunMux(NEW_MUX, steps), id)
  {
    hide RunMux, Inv, AtRest, View, Stuck, MuxReaches, Room;
    var m := RunMux(NEW_MUX, steps);
    forall j: u16 ensures Inv(View(m, j)) && AtRest(View(m, j)) {
      MuxRunKeeps(steps, j);
      MuxRunRests(steps, j);
    }
    var n := MakeRoom(m, id);
  }

  lemma RoomIsAhead(m: Mux, id: u16)
    requires Room(m, id)
    ensures RoomAhead(m, id)
  {
    MuxReachesSelf(m);
  }

  /** From where there is room, an exposed client can be given bytes of another use. */
  lemma ExposedFeedsAhead(l: Link, m: Mux, id: u16, port: u16, host: seq<byte>, live: bool)
    requires Inv(l) && AtRest(l) && l.handler.None? && Exposed(l, live) && View(m, id) == RegisterClient(l, port, host)
    requires RoomAhead(m, id) && (live ==> host != [] && port != 0)
    ensures Feeds(m, id, |l.logs|, live)
  {
    hide Inv, AtRest, RegisterClient, View, Exposed, Room, Feeds, MuxReaches;
    var n :| MuxReaches(m, n) && View(n, id) == View(m, id) && Room(n, id);
    ExposedFeeds(l, n, id, port, host, live);
    FeedsLater(m, n, id, |l.logs|, live);
  }

  /** In any state of the mux: the client accepted next only ever has bytes of its own
      socket, in order, in every run from there, if it is not exposed on its id; and
      only if, when the other streams leave room in the session table or can come to. */
  lemma MuxBytesExact(before: seq<MuxStep>, port: u16, host: seq<byte>, k: nat)
    requires var m := RunMux(NEW_MUX, before); FirstFree(InUse(m), m.counter, k)
    ensures var m := RunMux(NEW_MUX, before);
            var id := Candidate(m.counter, k);
            var start, inc := NextMux(m, Accept(port, host, k)), |EndsOf(m, id).logs|;
            var whole := forall n :: MuxReaches(start, n) ==> OwnBytes(View(n, id), inc);
            && (!Exposed(View(m, id), false) ==> whole)
            && (RoomAhead(start, id) && whole ==> !Exposed(View(m, id), false))
  {
    var m := RunMux(NEW_MUX, before);
    var id := Candidate(m.counter, k);
    var l, start, inc := View(m, id), NextMux(m, Accept(port, host, k)), |EndsOf(m, id).logs|;
    Accepted(before, port, host, k);
    hide NextMux, RunMux, View, Inv, AtRest, Exposed, RegisterClient, Reaches, EndsOf, RoomAhead, OwnBytes, Bad;
    if !Exposed(l, false) {
      forall n | MuxReaches(start, n) ensures OwnBytes(View(n, id), inc) {
        var steps :| RunMux(start, steps) == n;
        RunProjects(start, steps, id);
        UnexposedIsWhole(l, port, host, View(n, id));
        ReachedInv(before, port, host, k, steps);
        NoStrayIsOwn(View(n, id), inc);
      }
    } else if RoomAhead(start, id) {
      ExposedFeedsAhead(l, start, id, port, host, false);
      var n :| MuxReaches(start, n) && Bad(View(n, id), inc, false);
      var steps :| RunMux(start, steps) == n;
      ReachedInv(before, port, host, k, steps);
      BadIsNotOwn(View(n, id), inc);
    }
  }

  /** What is known of the state the client is accepted in. */
  lemma Accepted(before: seq<MuxStep>, port: u16, host: seq<byte>, k: nat)
    requires var m := RunMux(NEW_MUX, before); FirstFree(InUse(m), m.counter, k)
    ensures var m := RunMux(NEW_MUX, before);
            var id := Candidate(m.counter, k);
            var l, start := View(m, id), NextMux(m, Accept(port, host, k));
            && Inv(l) && AtRest(l) && l.handler.None? && |l.logs| == |EndsOf(m, id).logs|
            && View(start, id) == RegisterClient(l, port, host) && Others(start, id) <= Others(m, id)
  {
    var m := RunMux(NEW_MUX, before);
    var id := Candidate(m.counter, k);
    FreeHasNoHandler(m, k);
    AcceptView(m, port, host, k, id);
    MuxRunKeeps(before, id);
    MuxRunRests(before, id);
    AcceptKeepsRoom(m, port, host, k);
    hide NextMux, RunMux, Inv, AtRest, RegisterClient, Others;
  }

  lemma ReachedInv(before: seq<MuxStep>, port: u16, host: seq<byte>, k: nat, steps: seq<MuxStep>)
    ensures var m := RunMux(NEW_MUX, before);
            forall id: u16 :: Inv(View(RunMux(NextMux(m, Accept(port, host, k)), steps), id))
  {
    hide NextMux, Inv, View;
    var m, accept := RunMux(NEW_MUX, before), Accept(port, host, k);
    RunMuxAppend(NEW_MUX, before, [accept] + steps);
    assert ([accept] + steps)[0] == accept && ([accept] + steps)[1..] == steps;
    forall id: u16 ensures Inv(View(RunMux(NextMux(m, accept), steps), id)) {
      MuxRunKeeps(before + ([accept] + steps), id);
    }
  }

  /** The four amounts make up the window. */
  predicate Balanced(l: Link, inc: nat) {
    Live(l) && l.handler.value.inc == inc ==>
      l.session.value.credit + DataInFlight(l) + l.handler.value.ungranted + CreditInFlight(l) == WINDOW_BYTES
  }

  lemma BalancedIff(l: Link, inc: nat)
    requires Inv(l) && Live(l) && l.handler.value.inc == inc && Countable(l.logs[inc].stray)
    ensures Balanced(l, inc) <==> l.logs[inc].stray == 0
  {
    FlowControl(l);
    hide DataInFlight, CreditInFlight, Inv;
  }

  /** In any state of the mux: whenever the stream of the client accepted next is up its
      four amounts make up the window, in every run from there, if it is not exposed to
      such bytes before its own connection or asks for none; and only if, when the other
      streams leave room in the session table or can come to. */
  lemma MuxFlowExact(before: seq<MuxStep>, port: u16, host: seq<byte>, k: nat)
    requires var m := RunMux(NEW_MUX, before); FirstFree(InUse(m), m.counter, k)
    ensures var m := RunMux(NEW_MUX, before);
            var id := Candidate(m.counter, k);
            var start, inc := NextMux(m, Accept(port, host, k)), |EndsOf(m, id).logs|;
            var balanced := forall n :: MuxReaches(start, n) ==> Balanced(View(n, id), inc);
            var exposed := Exposed(View(m, id), true) && host != [] && port != 0;
            && (!exposed ==> balanced)
            && (RoomAhead(start, id) && balanced ==> !exposed)
  {
    var m := RunMux(NEW_MUX, before);
    var id := Candidate(m.counter, k);
    var l, start, inc := View(m, id), NextMux(m, Accept(port, host, k)), |EndsOf(m, id).logs|;
    Accepted(before, port, host, k);
    hide NextMux, RunMux, View, Inv, AtRest, Exposed, RegisterClient, Reaches, EndsOf, RoomAhead, Balanced, Bad;
    if !(Exposed(l, true) && host != [] && port != 0) {
      forall n | MuxReaches(start, n) ensures Balanced(View(n, id), inc) {
        var steps :| RunMux(start, steps) == n;
        RunProjects(start, steps, id);
        ReachedInv(before, port, host, k, steps);
        UnexposedFlow(l, port, host, View(n, id));
      }
    } else if RoomAhead(start, id) {
      ExposedFeedsAhead(l, start, id, port, host, true);
      var n :| MuxReaches(start, n) && Bad(View(n, id), inc, true);
      var steps :| RunMux(start, steps) == n;
      ReachedInv(before, port, host, k, steps);
      BadIsNotBalanced(View(n, id), inc);
    }
  }

  lemma BadIsNotBalanced(l: Link, inc: nat)
    requires Inv(l) && Bad(l, inc, true)
    ensures !Balanced(l, inc)
  {
    BalancedIff(l, inc);
  }

  lemma UnexposedFlow(l: Link, port: u16, host: seq<byte>, n: Link)
    requires Inv(l) && AtRest(l) && l.handler.None? && Inv(n)
    requires !Exposed(l, true) || host == [] || port == 0
    requires Reaches(RegisterClient(l, port, host), n)
    ensures Balanced(n, |l.logs|)
  {
    if Exposed(l, true) {
      hide Exposed;
      RefusedNeverUp(l, port, host, n);
    } else {
      UnexposedIsBalanced(l, port, host, n);
      hide Exposed;
      if Live(n) && n.handler.value.inc == |l.logs| {
        BalancedIff(n, |l.logs|);
      }
    }
  }

  // A client whose OPEN names no host or no port has no session, ever.

  predicate NeverUp(l: Link, inc: nat) {
    && inc < |l.logs| && (l.cur == inc ==> l.session.None?)
    && forall i :: 0 <= i < |l.up| && l.up[i].inc == inc && l.up[i].frame.Open? ==>
                     l.up[i].frame.host == [] || l.up[i].frame.port == 0
  }

  lemma NeverUpStep(l: Link, step: Step, inc: nat)
    requires NeverUp(l, inc)
    ensures NeverUp(Next(l, step), inc)
  {
    if step.HostFrame? {
      NeverUpHost(l, step, inc);
    } else if step.HostAnswer? || step.HostPoll? || step.HostIo? {
      hide RunOpenIo, Tag, RunConnecting;
    } else {
      GuestSends(l, step, inc);
      hide Next;
    }
  }

  /** A guest step puts at most one frame in the pipe, and an OPEN only of a new use. */
  lemma GuestSends(l: Link, step: Step, inc: nat)
    requires inc < |l.logs| && !step.HostFrame? && !step.HostAnswer? && !step.HostPoll? && !step.HostIo?
    ensures var n := Next(l, step);
            && n.session == l.session && n.cur == l.cur && |l.logs| <= |n.logs|
            && (n.up == l.up
                || exists t :: n.up == l.up + [t] && (t.frame.Open? ==> t.inc == |l.logs|))
  {
    var n := Next(l, step);
    hide LogOf;
    if step.Receive? {
      if CanReceive(l) {
        ReceiveSends(l, step.ok, step.partial);
      }
      hide ReceiveFrame;
      if n.up != l.up {
        assert n.up == l.up + [n.up[|l.up|]];
      }
    } else {
      hide ReceiveFrame;
      if n.up != l.up {
        assert n.up == l.up + [n.up[|l.up|]];
      }
    }
  }

  lemma NeverUpHost(l: Link, step: Step, inc: nat)
    requires NeverUp(l, inc) && step.HostFrame?
    ensures NeverUp(Next(l, step), inc)
  {
    if l.up != [] {
      HostFrameHere(l, step.full, inc);
    }
  }

  lemma HostFrameHere(l: Link, full: bool, inc: nat)
    requires NeverUp(l, inc) && l.up != []
    ensures var n := Next(l, HostFrame(full));
            n.up == l.up[1..] && |n.logs| == |l.logs| && (n.cur == inc ==> n.session.None?)
  {
    var t := l.up[0];
    hide Tag, LogOf;
  }

  lemma {:induction false} NeverUpRun(l: Link, steps: seq<Step>, inc: nat)
    requires NeverUp(l, inc)
    ensures NeverUp(Run(l, steps), inc)
    decreases |steps|
  {
    hide Next, NeverUp;
    if steps != [] {
      NeverUpStep(l, steps[0], inc);
      NeverUpRun(Next(l, steps[0]), steps[1..], inc);
    }
  }

  lemma RefusedNeverUp(l: Link, port: u16, host: seq<byte>, n: Link)
    requires Inv(l) && (host == [] || port == 0) && Reaches(RegisterClient(l, port, host), n)
    ensures NeverUp(n, |l.logs|)
  {
    CurBound(l);
    assert NeverUp(RegisterClient(l, port, host), |l.logs|);
    var steps :| Run(RegisterClient(l, port, host), steps) == n;
    NeverUpRun(RegisterClient(l, port, host), steps, |l.logs|);
  }
}
