/** The host's steps keep the invariant of a mux stream. */
module MuxHost {
  import opened Prelude
  import opened EgressCodec
  import opened EgressSession
  import opened MuxLink
  import opened MuxInv

  // What any host step does to the guest's side.

  /** The host took at most one frame, of the incarnation it is in. */
  predicate Popped(l: Link, up: seq<Tagged>) {
    up == l.up || (l.up != [] && !l.up[0].frame.Open? && up == l.up[1..])
  }

  /** Everything but the session is in order, and the host is in an incarnation. */
  predicate Rest(l: Link) {
    PipesOk(l) && LogsOk(l) && GuestPart(l) && 0 <= l.cur < |l.logs|
  }

  lemma OwnPopped(l: Link, up: seq<Tagged>, inc: int)
    requires PipesOk(l) && Popped(l, up)
    ensures l.cur < inc ==> Own(up, inc) == Own(l.up, inc)
    ensures up != l.up ==> Own(l.up, l.cur) == [l.up[0].frame] + Own(up, l.cur)
    ensures WindowSum(Own(up, inc)) <= WindowSum(Own(l.up, inc))
    ensures UpFrom(l.cur, up) && EndTag(l.cur, up) == l.Last()
  {
    if up != l.up {
      OwnAtHead(l.up, inc);
      HeadFlow(l.up[0].frame, Own(up, inc));
    }
  }

  lemma TowardGrows(l: Link, n: Link, out: seq<Frame>, inc: int)
    requires 0 <= l.cur && n.handler == l.handler && n.down == l.down + Tag(l.cur, out)
    ensures Toward(n) == Toward(l) + Tag(l.cur, out)
    ensures Own(Toward(n), inc) == Own(Toward(l), inc) + if inc == l.cur then out else []
  {
    hide Own, Tag;
    assert Toward(n) == Toward(l) + Tag(l.cur, out);
    OwnAppend(Toward(l), Tag(l.cur, out), inc);
    OwnTag(l.cur, out, inc);
  }

  /** What the host sends joins its log and the down pipe, so a handler that has
      not given up still sees exactly the rest of what was sent. */
  lemma GuestSeesSent(l: Link, n: Link, out: seq<Frame>, g': Log)
    requires Rest(l) && Popped(l, n.up) && AllSmall(out)
    requires n == l.(session := n.session, resolving := n.resolving, up := n.up,
                     down := l.down + Tag(l.cur, out), logs := l.logs[l.cur := g'])
    requires var g := l.logs[l.cur];
             g' == g.(sent := g.sent + out, yielded := g'.yielded, written := g'.written)
    ensures GuestPart(n)
  {
    hide LogOk, ShapeFrom, DataBytes, Own, WindowSum, UpFrom, EndTag, DownOk, Tag;
    TowardGrows(l, n, out, l.Last());
    OwnPopped(l, n.up, l.Last());
    if l.handler.Some? && !l.handler.value.phase.Closing? {
      hide Toward;
      var g := l.logs[l.Last()];
      DownSnoc(g.taken + Toward(l), l.cur, out);
      assert (g.taken + Toward(l)) + Tag(l.cur, out) == g.taken + Toward(n);
      if l.cur == l.Last() {
        var took := Own(g.taken, l.cur);
        assert took + Own(Toward(l), l.cur) + out == took + (Own(Toward(l), l.cur) + out);
      }
    }
  }

  predicate AllSmall(out: seq<Frame>) {
    forall i :: 0 <= i < |out| ==> SmallData(out[i])
  }

  lemma HostLogs(l: Link, n: Link, g': Log)
    requires Rest(l) && Popped(l, n.up) && n.cur == l.cur
    requires n.logs == l.logs[l.cur := g'] && g'.inc == l.logs[l.cur].inc && LogOk(g')
    ensures LogsOk(n)
  {
    hide LogOk, Own, UpFrom, EndTag, GuestOk;
    forall i | 0 <= i < |n.logs|
      ensures n.logs[i].inc == i && LogOk(n.logs[i]) && (n.cur < i ==> Unopened(n.logs[i], Own(n.up, i)))
    {
      OwnPopped(l, n.up, i);
    }
  }

  /** The host acted: session, up pipe and its part of the log changed, and `out`
      was queued. */
  lemma HostActed(l: Link, n: Link, out: seq<Frame>, g': Log)
    requires Rest(l) && Popped(l, n.up) && AllSmall(out)
    requires n == l.(session := n.session, resolving := n.resolving, up := n.up,
                     down := l.down + Tag(l.cur, out), logs := l.logs[l.cur := g'])
    requires var g := l.logs[l.cur];
             g' == g.(sent := g.sent + out, yielded := g'.yielded, written := g'.written)
    requires LogOk(g')
    requires n.session.Some? ==> HostOk(n.session.value, g', Own(n.up, l.cur))
    requires Live(n) && Countable(g'.stray) ==>
               FlowOk(n.session.value, l.handler.value, Own(Toward(l), l.cur) + out, Own(n.up, l.cur), g'.stray)
    ensures Inv(n)
  {
    hide LogOk, GuestOk, HostOk, FlowOk, Own, UpFrom, EndTag, DownOk, Toward, LogsOk, PipesOk, GuestPart, Popped, Tag;
    GuestSeesSent(l, n, out, g');
    HostLogs(l, n, g');
    HostPipes(l, n, out);
    assert HostPart(n);
    assert FlowPart(n);
  }

  lemma HostPipes(l: Link, n: Link, out: seq<Frame>)
    requires Rest(l) && Popped(l, n.up) && AllSmall(out)
    requires n.handler == l.handler && n.down == l.down + Tag(l.cur, out)
    requires n.cur == l.cur && |n.logs| == |l.logs|
    ensures PipesOk(n) && Own(Toward(n), l.cur) == Own(Toward(l), l.cur) + out
  {
    hide LogOk, GuestOk, HostOk, Own, DownOk;
    TowardGrows(l, n, out, l.cur);
    OwnPopped(l, n.up, l.cur);
    DownSnoc(Toward(l), l.cur, out);
  }

  /** Nothing was queued and no history changed. */
  lemma HostIdle(l: Link, n: Link)
    requires Rest(l) && Popped(l, n.up)
    requires n == l.(session := n.session, resolving := n.resolving, up := n.up)
    requires n.session.Some? ==> HostOk(n.session.value, l.logs[l.cur], Own(n.up, l.cur))
    requires Live(n) && Countable(l.logs[l.cur].stray) ==>
               FlowOk(n.session.value, l.handler.value, Own(Toward(l), l.cur), Own(n.up, l.cur), l.logs[l.cur].stray)
    ensures Inv(n)
  {
    hide LogOk, GuestOk, HostOk, FlowOk, Own, UpFrom, EndTag, DownOk;
    var g := l.logs[l.cur];
    assert g.sent + [] == g.sent;
    assert Tag(l.cur, []) == [] && l.down + [] == l.down;
    assert Own(Toward(l), l.cur) + [] == Own(Toward(l), l.cur);
    HostActed(l, n, [], g);
  }

  lemma ApplyNothing(l: Link, o: Outcome)
    requires 0 <= l.cur < |l.logs| && o.out == []
    ensures Apply(l, o) == l.(session := o.session, resolving := o.resolving)
  {
    var g := l.logs[l.cur];
    assert g.sent + [] == g.sent;
    assert Tag(l.cur, []) == [] && l.down + [] == l.down;
  }

  /** A refusal or a reset can end any incarnation. */
  lemma EndingOk(g: Log, f: Frame)
    requires LogOk(g)
    requires f.Rst? || (f.OpenErr? && g.sent == [])
    ensures LogOk(g.(sent := g.sent + [f]))
  {
    ShapeAppend(Start, g.sent, [f]);
    var p := ShapeFrom(Start, g.sent);
    assert ShapeFrom(p, [f]) == ShapeFrom(Advance(p, f), []);
    DataBytesAppend(g.sent, [f]);
    HasCloseAppend(g.sent, [f]);
    HeadFlow(f, []);
    assert [f] + [] == [f];
  }

  /** The session goes away with a last frame. */
  lemma EndKeeps(l: Link, n: Link, f: Frame)
    requires Rest(l)
    requires n == Apply(l, Outcome(None, n.resolving, [f], NoEffect))
    requires f.Rst? || (f.OpenErr? && l.logs[l.cur].sent == [])
    ensures Inv(n)
  {
    var g := l.logs[l.cur];
    EndingOk(g, f);
    hide LogOk, GuestOk, Own, UpFrom, EndTag, DownOk;
    HostActed(l, n, [f], g.(sent := g.sent + [f]));
  }

  // An OPEN starts the next incarnation.

  /** Whatever the host still had of the last one is forgotten. */
  lemma OpenedRest(l: Link)
    requires Inv(l) && l.up != [] && l.up[0].frame.Open?
    ensures Rest(l.(up := l.up[1..], cur := l.up[0].inc, session := None))
    ensures var inc := l.up[0].inc;
            inc < |l.logs| && Unopened(l.logs[inc], Own(l.up[1..], inc))
  {
    var t := l.up[0];
    var m := l.(up := l.up[1..], cur := t.inc, session := None);
    CurBound(l);
    OwnAtHead(l.up, t.inc);
    OwnAtHead(l.up, l.Last());
    HeadFlow(t.frame, Own(m.up, t.inc));
    hide LogOk, HostOk, ShapeFrom, DataBytes, WindowSum;
    assert Toward(m) == Toward(l);
    assert PipesOk(m);
    forall i | 0 <= i < |m.logs|
      ensures m.logs[i].inc == i && LogOk(m.logs[i]) && (m.cur < i ==> Unopened(m.logs[i], Own(m.up, i)))
    {
      OwnAtHead(l.up, i);
    }
    assert GuestPart(m);
  }

  /** A fresh incarnation's handler, if it is still reading, has granted back or not
      yet granted exactly what it was given of others. */
  lemma FreshFlow(l: Link)
    requires Inv(l) && l.up != [] && l.up[0].frame.Open?
    requires l.handler.Some? && !l.handler.value.phase.Closing? && l.handler.value.inc == l.up[0].inc
    ensures FlowOk(NEW_SESSION, l.handler.value, Own(Toward(l), l.up[0].inc), Own(l.up[1..], l.up[0].inc),
                   l.logs[l.Last()].stray)
  {
    OpenedRest(l);
    OwnAtHead(l.up, l.up[0].inc);
    HeadFlow(l.up[0].frame, Own(l.up[1..], l.up[0].inc));
    assert DataBytes([]) == [];
    hide LogOk, EndTag, DownOk, Own, DataBytes, WindowSum;
    assert Own(Toward(l), l.Last()) == [];
  }

  lemma OpenKeeps(l: Link, full: bool)
    requires Inv(l) && l.up != [] && l.up[0].frame.Open?
    ensures Inv(HandleUp(l, full))
  {
    var t := l.up[0];
    var m := l.(up := l.up[1..], cur := t.inc, session := None);
    var o := HandleFrame(t.frame, l.session, l.resolving, full);
    OpenedRest(l);
    OpenOutcome(t.frame, l.session, l.resolving, full);
    hide LogOk, GuestOk, UpFrom, EndTag, DownOk, Own, Inv, WindowSum, HandleFrame, Rest;
    var n := HandleUp(l, full);
    if o.session.None? {
      assert n == Apply(m, Outcome(None, n.resolving, [o.out[0]], NoEffect));
      EndKeeps(m, n, o.out[0]);
    } else {
      OpenStarts(l, m, n, o);
    }
  }

  lemma OpenOutcome(f: Frame, session: Option<Session>, resolving: bool, full: bool)
    requires f.Open?
    ensures var o := HandleFrame(f, session, resolving, full);
            if o.session.Some? then o.session.value == NEW_SESSION && o.out == []
            else |o.out| == 1 && (o.out[0].Rst? || o.out[0].OpenErr?)
  {
  }

  lemma OpenStarts(l: Link, m: Link, n: Link, o: Outcome)
    requires Inv(l) && l.up != [] && l.up[0].frame.Open?
    requires m == l.(up := l.up[1..], cur := l.up[0].inc, session := None) && Rest(m)
    requires Unopened(m.logs[m.cur], Own(m.up, m.cur))
    requires o.session == Some(NEW_SESSION) && o.out == [] && n == Apply(m, o)
    ensures Inv(n)
  {
    assert HostOk(NEW_SESSION, m.logs[m.cur], Own(m.up, m.cur));
    ApplyNothing(m, o);
    assert Toward(m) == Toward(l);
    if Live(n) {
      FreshFlow(l);
    }
    hide LogOk, GuestOk, UpFrom, EndTag, DownOk, Own, WindowSum, HostOk, FlowOk, Toward, PipesOk, LogsOk;
    HostIdle(m, n);
  }

  // Any other frame.

  lemma HostAfterFrame(f: Frame, s: Session, g: Log, up: seq<Frame>, resolving: bool, full: bool)
    requires HostOk(s, g, [f] + up)
    requires HandleFrame(f, Some(s), resolving, full).session.Some?
    ensures HostOk(HandleFrame(f, Some(s), resolving, full).session.value, g, up)
  {
    hide ShapeFrom, DataBytes;
    HeadFlow(f, up);
    HandleFrameKeepsValid(f, Some(s), resolving, full);
  }

  lemma FlowAfterFrame(f: Frame, s: Session, h: Handler, down: seq<Frame>, up: seq<Frame>,
                       stray: nat, resolving: bool, full: bool)
    requires FlowOk(s, h, down, [f] + up, stray) && Countable(stray)
    requires HandleFrame(f, Some(s), resolving, full).session.Some?
    ensures FlowOk(HandleFrame(f, Some(s), resolving, full).session.value, h, down, up, stray)
  {
    hide DataBytes, WindowSum;
    HeadFlow(f, up);
  }

  /** The session stays: bytes join its buffer, credit comes back, or the guest's
      write side ends. */
  lemma UpFrameStays(l: Link, s: Session, full: bool)
    requires Inv(l) && l.up != [] && !l.up[0].frame.Open? && l.session == Some(s)
    requires HandleFrame(l.up[0].frame, l.session, l.resolving, full).session.Some?
    ensures Inv(HandleUp(l, full))
  {
    hide LogOk, GuestOk, HostOk, FlowOk, HandleFrame, UpFrom, EndTag, DownOk, Own;
    var f, g := l.up[0].frame, l.logs[l.cur];
    var o, n := HandleFrame(f, l.session, l.resolving, full), HandleUp(l, full);
    HandleFrameStays(f, s, l.resolving, full);
    ApplyNothing(l.(up := l.up[1..]), o);
    OwnPopped(l, n.up, l.cur);
    HostAfterFrame(f, s, g, Own(n.up, l.cur), l.resolving, full);
    if Live(l) && Countable(g.stray) {
      FlowAfterFrame(f, s, l.handler.value, Own(Toward(l), l.cur), Own(n.up, l.cur), g.stray, l.resolving, full);
    }
    HostIdle(l, n);
  }

  lemma HandleFrameStays(f: Frame, s: Session, resolving: bool, full: bool)
    requires HandleFrame(f, Some(s), resolving, full).session.Some?
    ensures HandleFrame(f, Some(s), resolving, full).out == []
  {
  }

  lemma UpFrameKeeps(l: Link, full: bool)
    requires Inv(l) && l.up != [] && !l.up[0].frame.Open?
    ensures Inv(HandleUp(l, full))
  {
    CurBound(l);
    hide LogOk, ShapeFrom, GuestOk, HostOk, FlowOk, DownOk, Own, EndTag;
    var f := l.up[0].frame;
    var o := HandleFrame(f, l.session, l.resolving, full);
    if o.session.Some? {
      UpFrameStays(l, l.session.value, full);
    } else {
      var m, n := l.(up := l.up[1..], session := None), HandleUp(l, full);
      HostIdle(l, m);
      if o.out == [] {
        ApplyNothing(m, o);
        HostIdle(m, n);
      } else {
        EndKeeps(m, n, Rst(f.stream));
      }
    }
  }

  // The resolver's answer and the connect.

  lemma AnswerKeeps(l: Link, answer: Answer)
    requires Inv(l) && l.resolving
    ensures Inv(Apply(l, HarvestAnswer(l.id, l.session, answer)))
  {
    hide LogOk, ShapeFrom, GuestOk, UpFrom, EndTag, DownOk, Own;
    CurBound(l);
    var o := HarvestAnswer(l.id, l.session, answer);
    var n := Apply(l, o);
    if l.cur < 0 {
      assert n == l.(resolving := false);
    } else if o.out == [] {
      ApplyNothing(l, o);
      HostIdle(l, n);
    } else {
      EndKeeps(l, n, o.out[0]);
    }
  }

  lemma PollKeeps(l: Link, poll: ConnectPoll)
    requires Inv(l) && l.session.Some? && l.session.value.state.Connecting?
    ensures Inv(Apply(l, RunConnecting(l.id, l.session.value, l.resolving, poll)))
  {
    hide LogOk, GuestOk, UpFrom, EndTag, DownOk, Own, ShapeFrom;
    var s := l.session.value;
    var o := RunConnecting(l.id, s, l.resolving, poll);
    var n := Apply(l, o);
    match poll
    case Pending =>
      ApplyNothing(l, o);
      HostIdle(l, n);
    case Failed(reason) => EndKeeps(l, n, OpenErr(l.id, reason));
    case Connected => ConnectedKeeps(l, n, o.session.value);
  }

  /** Connecting sends the verdict, which carries no bytes. */
  lemma ConnectedKeeps(l: Link, n: Link, s': Session)
    requires Inv(l) && l.session.Some? && l.session.value.state.Connecting?
    requires var s := l.session.value;
             s' == s.(state := if s.guestWriteClosed then HalfClosed else Established)
    requires n == Apply(l, Outcome(Some(s'), n.resolving, [OpenOk(l.id)], NoEffect))
    ensures Inv(n)
  {
    var f, g := OpenOk(l.id), l.logs[l.cur];
    var g' := g.(sent := [f]);
    assert g.sent + [f] == [f];
    assert ShapeFrom(Start, [f]) == ShapeFrom(Advance(Start, f), []);
    HeadFlow(f, []);
    assert [f] + [] == [f];
    assert LogOk(g');
    assert HostOk(s', g', Own(l.up, l.cur));
    hide LogOk, GuestOk, HostOk, ShapeFrom, Own, UpFrom, EndTag, DownOk;
    DataBytesAppend(Own(Toward(l), l.cur), [f]);
    HostActed(l, n, [f], g');
  }

  // A service turn.

  /** The frames of a good turn: the released bytes in order, then at most one
      CLOSE, and that only when nothing is left to release. */
  lemma TurnFrames(id: u16, s: Session, resolving: bool, io: Io)
    requires s.Valid() && s.IsOpen() && PossibleIo(s, io) && !io.writeFailed && !io.readFailed
    ensures var o, t := RunOpenIo(id, s, resolving, io), Transfer(s, io);
            var u := Release(t);
            && DataBytes(o.out) == t.toGuest[..Releasable(t)]
            && ShapeFrom(if s.hostCloseSent then Ended else Flowing, o.out)
               == (if u.hostCloseSent || AnnouncesClose(u) then Ended else Flowing)
            && (s.hostCloseSent ==> o.out == [])
            && (HasClose(o.out) ==> AnnouncesClose(u))
  {
    var t := Transfer(s, io);
    var u := Release(t);
    var bytes := t.toGuest[..Releasable(t)];
    var data := Chunked(id, bytes);
    ChunkedConserves(id, bytes);
    DataKeepsFlowing(id, data);
    assert !HasClose(data);
    if AnnouncesClose(u) {
      ShapeAppend(Flowing, data, [Close(id)]);
      assert ShapeFrom(Flowing, [Close(id)]) == ShapeFrom(Advance(Flowing, Close(id)), []);
      DataBytesAppend(data, [Close(id)]);
      HeadFlow(Close(id), []);
      assert [Close(id)] + [] == [Close(id)];
    } else {
      assert data + [] == data;
    }
  }

  /** Where the bytes are after a good turn, and that a CLOSE, old or new, means
      they have all been framed. */
  lemma TurnKeepsBytes(id: u16, s: Session, g: Log, up: seq<Frame>, resolving: bool, io: Io, g': Log)
    requires LogOk(g) && HostOk(s, g, up)
    requires s.IsOpen() && PossibleIo(s, io) && !io.writeFailed && !io.readFailed
    requires g' == AfterTurn(id, s, g, resolving, io)
    ensures var u := Release(Transfer(s, io));
            && g'.yielded == DataBytes(g'.sent) + u.toGuest
            && g'.pushed == g'.written + u.toSocket + DataBytes(up)
            && ShapeFrom(Start, g'.sent)
               == (if u.hostCloseSent || AnnouncesClose(u) then Ended else Flowing)
            && (HasClose(g'.sent) ==> u.toGuest == [])
            && (HasClose(g.sent) ==> io.received == [])
            && DataBytes(g.sent) <= DataBytes(g'.sent)
  {
    hide RunOpenIo, ShapeFrom, DataBytes, Chunked, HasClose;
    var o, t := RunOpenIo(id, s, resolving, io), Transfer(s, io);
    var u := Release(t);
    TurnFrames(id, s, resolving, io);
    ShapeAppend(Start, g.sent, o.out);
    DataBytesAppend(g.sent, o.out);
    HasCloseAppend(g.sent, o.out);
    assert t.toGuest == t.toGuest[..Releasable(t)] + u.toGuest;
    assert s.toSocket == s.toSocket[..io.accepted] + u.toSocket;
    if !s.hostCloseSent {
      FlowingNotClosed(g.sent);
    }
  }

  function AfterTurn(id: u16, s: Session, g: Log, resolving: bool, io: Io): Log
    requires PossibleIo(s, io)
  {
    g.(sent := g.sent + RunOpenIo(id, s, resolving, io).out,
       yielded := g.yielded + io.received,
       written := g.written + s.toSocket[..io.accepted])
  }

  lemma TurnKeepsLog(id: u16, s: Session, g: Log, up: seq<Frame>, resolving: bool, io: Io, g': Log)
    requires LogOk(g) && HostOk(s, g, up)
    requires s.IsOpen() && PossibleIo(s, io) && !io.writeFailed && !io.readFailed
    requires g' == AfterTurn(id, s, g, resolving, io)
    ensures LogOk(g')
  {
    hide RunOpenIo, ShapeFrom, DataBytes, Chunked, HasClose, Transfer, Release;
    TurnKeepsBytes(id, s, g, up, resolving, io, g');
    HasCloseAppend(g.sent, RunOpenIo(id, s, resolving, io).out);
    assert g.delivered[g.stray..] <= DataBytes(g'.sent);
  }

  lemma TurnKeepsFlow(id: u16, s: Session, h: Handler, down: seq<Frame>, up: seq<Frame>,
                      stray: nat, resolving: bool, io: Io)
    requires s.Valid() && s.IsOpen() && PossibleIo(s, io) && !io.writeFailed && !io.readFailed
    requires FlowOk(s, h, down, up, stray)
    ensures FlowOk(Release(Transfer(s, io)), h, down + RunOpenIo(id, s, resolving, io).out, up, stray)
  {
    hide RunOpenIo, ShapeFrom, DataBytes, Chunked;
    TurnFrames(id, s, resolving, io);
    DataBytesAppend(down, RunOpenIo(id, s, resolving, io).out);
  }

  lemma TurnSession(id: u16, s: Session, resolving: bool, io: Io)
    requires s.IsOpen() && PossibleIo(s, io) && !io.writeFailed && !io.readFailed
    ensures var o, u := RunOpenIo(id, s, resolving, io), Release(Transfer(s, io));
            o.session.Some? ==>
              o.session.value == u.(hostCloseSent := u.hostCloseSent || AnnouncesClose(u))
  {
    hide Chunked;
  }

  /** What a good turn leaves of the session still accounts for every byte. */
  lemma TurnHostOk(id: u16, s: Session, g: Log, up: seq<Frame>, resolving: bool, io: Io, g': Log)
    requires LogOk(g) && HostOk(s, g, up)
    requires s.IsOpen() && PossibleIo(s, io) && !io.writeFailed && !io.readFailed
    requires g' == AfterTurn(id, s, g, resolving, io)
    ensures LogOk(g')
    ensures var o := RunOpenIo(id, s, resolving, io);
            o.session.Some? ==> HostOk(o.session.value, g', up)
  {
    TurnKeepsLog(id, s, g, up, resolving, io, g');
    TurnKeepsBytes(id, s, g, up, resolving, io, g');
    RunOpenIoKeepsValid(id, s, resolving, io);
    TurnSession(id, s, resolving, io);
    hide LogOk, RunOpenIo, ShapeFrom, DataBytes, Transfer, Release;
  }

  lemma TurnSmall(id: u16, s: Session, resolving: bool, io: Io)
    requires PossibleIo(s, io)
    ensures AllSmall(RunOpenIo(id, s, resolving, io).out)
  {
    var t := Transfer(s, io);
    ChunkedConserves(id, t.toGuest[..Releasable(t)]);
    hide Chunked;
  }

  lemma TurnFlowOk(id: u16, s: Session, h: Handler, down: seq<Frame>, up: seq<Frame>,
                   stray: nat, resolving: bool, io: Io)
    requires s.Valid() && s.IsOpen() && PossibleIo(s, io) && !io.writeFailed && !io.readFailed
    requires FlowOk(s, h, down, up, stray)
    ensures var o := RunOpenIo(id, s, resolving, io);
            o.session.Some? ==> FlowOk(o.session.value, h, down + o.out, up, stray)
  {
    TurnKeepsFlow(id, s, h, down, up, stray, resolving, io);
    TurnSession(id, s, resolving, io);
    hide RunOpenIo, DataBytes, Transfer, Release;
  }

  lemma ServiceIs(l: Link, s: Session, io: Io)
    requires l.session == Some(s) && 0 <= l.cur < |l.logs| && PossibleIo(s, io)
    ensures var o := RunOpenIo(l.id, s, l.resolving, io);
            ServiceIo(l, io) == l.(session := o.session, resolving := o.resolving,
                                   down := l.down + Tag(l.cur, o.out),
                                   logs := l.logs[l.cur := AfterTurn(l.id, s, l.logs[l.cur], l.resolving, io)])
  {
    hide RunOpenIo, Tag;
  }

  lemma GoodTurnKeeps(l: Link, s: Session, io: Io)
    requires Inv(l) && l.session == Some(s) && s.IsOpen() && PossibleIo(s, io)
    requires !io.writeFailed && !io.readFailed
    ensures Inv(ServiceIo(l, io))
  {
    var g, up := l.logs[l.cur], Own(l.up, l.cur);
    var o, g' := RunOpenIo(l.id, s, l.resolving, io), AfterTurn(l.id, s, g, l.resolving, io);
    assert HostOk(s, g, up) && s.Valid();
    TurnHostOk(l.id, s, g, up, l.resolving, io, g');
    ServiceIs(l, s, io);
    TurnSmall(l.id, s, l.resolving, io);
    hide LogOk, RunOpenIo, HostOk, FlowOk, GuestOk, Own, UpFrom, EndTag, DownOk, ServiceIo, Tag;
    if Live(l) && Countable(g.stray) {
      TurnFlowOk(l.id, s, l.handler.value, Own(Toward(l), l.cur), up, g.stray, l.resolving, io);
    }
    HostActed(l, ServiceIo(l, io), o.out, g');
  }

  /** A failed turn: what was read in it is lost with the session. */
  lemma FailedTurnLog(id: u16, s: Session, g: Log, up: seq<Frame>, resolving: bool, io: Io)
    requires LogOk(g) && HostOk(s, g, up)
    requires s.IsOpen() && PossibleIo(s, io) && (io.writeFailed || io.readFailed)
    ensures LogOk(AfterTurn(id, s, g, resolving, io))
    ensures RunOpenIo(id, s, resolving, io).session.None?
  {
    if !s.hostCloseSent {
      FlowingNotClosed(g.sent);
    }
    var g1 := g.(yielded := g.yielded + io.received, written := g.written + s.toSocket[..io.accepted]);
    assert s.toSocket == s.toSocket[..io.accepted] + s.toSocket[io.accepted..];
    assert LogOk(g1);
    EndingOk(g1, Rst(id));
  }

  lemma FailedTurnKeeps(l: Link, s: Session, io: Io)
    requires Inv(l) && l.session == Some(s) && s.IsOpen() && PossibleIo(s, io)
    requires io.writeFailed || io.readFailed
    ensures Inv(ServiceIo(l, io))
  {
    var g := l.logs[l.cur];
    FailedTurnLog(l.id, s, g, Own(l.up, l.cur), l.resolving, io);
    ServiceIs(l, s, io);
    TurnSmall(l.id, s, l.resolving, io);
    hide LogOk, RunOpenIo, HostOk, FlowOk, GuestOk, Own, UpFrom, EndTag, DownOk, ServiceIo, Tag;
    HostActed(l, ServiceIo(l, io), RunOpenIo(l.id, s, l.resolving, io).out,
              AfterTurn(l.id, s, g, l.resolving, io));
  }

  lemma HandleUpKeeps(l: Link, full: bool)
    requires Inv(l) && l.up != []
    ensures Inv(HandleUp(l, full))
  {
    hide Inv, HandleUp;
    if l.up[0].frame.Open? {
      OpenKeeps(l, full);
    } else {
      UpFrameKeeps(l, full);
    }
  }

  lemma ServiceKeeps(l: Link, io: Io)
    requires Inv(l) && l.session.Some? && l.session.value.IsOpen() && PossibleIo(l.session.value, io)
    ensures Inv(ServiceIo(l, io))
  {
    hide Inv, ServiceIo;
    if io.writeFailed || io.readFailed {
      FailedTurnKeeps(l, l.session.value, io);
    } else {
      GoodTurnKeeps(l, l.session.value, io);
    }
  }
}
