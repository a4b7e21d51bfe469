/** When what the earlier uses of a stream id left behind can still give bytes to a
    client that takes it, and upset the accounts of a stream that is up. */
module MuxRisk {
  import opened Prelude
  import opened EgressCodec
  import opened EgressSession
  import opened MuxLink
  import opened MuxInv
  import opened MuxGuest
  import opened MuxHost
  import opened MuxProof
  import opened MuxFresh

  // What a waiting client makes of the frames of other incarnations.

  /** Nothing yet; it took a verdict for its own and relays; it was given bytes; it
      gave up or stopped reading. */
  datatype Watch = Untouched | Fooled | Fed | Lost

  function Look(w: Watch, f: Frame): Watch {
    match w
    case Untouched => if f.OpenOk? then Fooled else Lost
    case Fooled =>
      if f.Data? then (if f.payload == [] then Fooled else Fed)
      else if f.Close? || f.Rst? then Lost
      else Fooled
    case Fed => Fed
    case Lost => Lost
  }

  function LookAll(w: Watch, frames: seq<Frame>): Watch
    decreases |frames|
  {
    if frames == [] then w else LookAll(Look(w, frames[0]), frames[1..])
  }

  lemma {:induction false} LookAppend(w: Watch, a: seq<Frame>, b: seq<Frame>)
    ensures LookAll(w, a + b) == LookAll(LookAll(w, a), b)
    decreases |a|
  {
    if a == [] {
      assert a + b == b;
    } else {
      assert (a + b)[0] == a[0] && (a + b)[1..] == a[1..] + b;
      LookAppend(Look(w, a[0]), a[1..], b);
    }
  }

  lemma {:induction false} LookStays(w: Watch, frames: seq<Frame>)
    requires w.Fed? || w.Lost?
    ensures LookAll(w, frames) == w
    decreases |frames|
  {
    if frames != [] {
      LookStays(w, frames[1..]);
    }
  }

  // What is left of the host's side.

  /** A turn sends DATA whether it wants to or not. */
  predicate Loaded(s: Session) {
    s.toGuest != [] && s.credit > 0
  }

  /** Some turn sends DATA. */
  predicate Ready(s: Session) {
    s.credit > 0 && (s.toGuest != [] || !s.hostReadClosed)
  }

  /** The session can be brought to its end without another frame from the guest. */
  predicate CanEnd(s: Session) {
    || !s.IsOpen()
    || s.toSocket != []
    || (!s.hostReadClosed && (|s.toGuest| < WINDOW_BYTES || s.credit > 0))
    || (s.guestWriteClosed && |s.toGuest| <= s.credit)
  }

  /** The id can be without a session when the host comes to the OPEN of `inc`. */
  predicate CanClear(session: Option<Session>, up: seq<Tagged>, inc: int)
    decreases |up|
  {
    || session.None?
    || CanEnd(session.value)
    || (up != [] && up[0].inc < inc &&
        CanClear(HandleFrame(up[0].frame, session, false, false).session, up[1..], inc))
  }

  /** The backlog as the frame `f` finds it, flushed where that is of use and can be
      done without a word to the guest. */
  function Eased(w: Watch, s: Session, f: Frame): Session {
    if Loaded(s) || s.guestWriteClosed then s
    else if w.Untouched? || (f.Data? && |s.toSocket| + |f.payload| > TO_SOCKET_CAP) then s.(toSocket := [])
    else s
  }

  function Presented(w: Watch, session: Option<Session>, f: Frame): Option<Session> {
    if session.Some? && session.value.IsOpen() then Some(Eased(w, session.value, f)) else session
  }

  /** The client can still be given bytes of another incarnation (and, if `live`, be
      up with its own session after that): a connection about to come up, or one that
      can send, behind a client that has been fooled; else what the frames in the
      pipe lead to. */
  predicate Risk(w: Watch, session: Option<Session>, up: seq<Tagged>, inc: int, live: bool)
    decreases |up|, if session.Some? then 1 else 0
  {
    if w.Lost? then false
    else if w.Fed? then !live || CanClear(session, up, inc)
    else
      || (session.Some? && !session.value.IsOpen())
      || (w.Fooled? && session.Some? && Ready(session.value) && (!live || CanClear(session, up, inc)))
      || (session.Some? && session.value.hostCloseSent && session.value.guestWriteClosed
          && Risk(w, None, up, inc, live))
      || (up != [] && up[0].inc < inc &&
          var o := HandleFrame(up[0].frame, Presented(w, session, up[0].frame), false, false);
          Risk(LookAll(w, o.out), o.session, up[1..], inc, live))
  }

  lemma {:induction false} ClearSnoc(session: Option<Session>, up: seq<Tagged>, t: Tagged, inc: int)
    requires inc <= t.inc
    ensures CanClear(session, up + [t], inc) == CanClear(session, up, inc)
    decreases |up|
  {
    if up == [] {
      assert up + [t] == [t];
    } else {
      assert (up + [t])[1..] == up[1..] + [t] && (up + [t])[0] == up[0];
      ClearSnoc(HandleFrame(up[0].frame, session, false, false).session, up[1..], t, inc);
    }
  }

  lemma {:induction false} RiskSnoc(w: Watch, session: Option<Session>, up: seq<Tagged>, t: Tagged,
                                    inc: int, live: bool)
    requires inc <= t.inc
    ensures Risk(w, session, up + [t], inc, live) == Risk(w, session, up, inc, live)
    decreases |up|, if session.Some? then 1 else 0
  {
    hide HandleFrame, Presented, LookAll, CanClear;
    ClearSnoc(session, up, t, inc);
    if session.Some? {
      RiskSnoc(w, None, up, t, inc, live);
    }
    if up == [] {
      assert up + [t] == [t];
    } else {
      assert (up + [t])[1..] == up[1..] + [t] && (up + [t])[0] == up[0];
      var o := HandleFrame(up[0].frame, Presented(w, session, up[0].frame), false, false);
      RiskSnoc(LookAll(w, o.out), o.session, up[1..], t, inc, live);
    }
  }

  // Sessions compared.

  /** `a` is no nearer its end than `b`. */
  predicate NoNearer(a: Session, b: Session) {
    && a.IsOpen() && b.IsOpen() && a.Valid() && b.Valid()
    && a.guestWriteClosed == b.guestWriteClosed
    && (a.toSocket != [] ==> b.toSocket != [])
    && (!a.hostReadClosed ==> !b.hostReadClosed)
    && (!a.hostReadClosed && (|a.toGuest| < WINDOW_BYTES || a.credit > 0) ==>
          |b.toGuest| < WINDOW_BYTES || b.credit > 0)
    && (b.credit >= WINDOW_BYTES || |b.toGuest| - b.credit <= |a.toGuest| - a.credit)
  }

  lemma NoNearerEnds(a: Session, b: Session)
    requires NoNearer(a, b) && CanEnd(a)
    ensures CanEnd(b)
  {
  }

  lemma NoNearerFrame(f: Frame, a: Session, b: Session)
    requires NoNearer(a, b) && !CanEnd(b)
    ensures var x, y := HandleFrame(f, Some(a), false, false).session, HandleFrame(f, Some(b), false, false).session;
            || y.None? || CanEnd(y.value)
            || (x.Some? && y.Some? && NoNearer(x.value, y.value))
  {
  }

  lemma {:induction false} ClearNearer(a: Session, b: Session, up: seq<Tagged>, inc: int)
    requires NoNearer(a, b) && CanClear(Some(a), up, inc)
    ensures CanClear(Some(b), up, inc)
    decreases |up|
  {
    hide NoNearer, HandleFrame, CanEnd;
    if CanEnd(a) {
      NoNearerEnds(a, b);
    } else if !CanEnd(b) {
      NoNearerFrame(up[0].frame, a, b);
      var x := HandleFrame(up[0].frame, Some(a), false, false).session;
      var y := HandleFrame(up[0].frame, Some(b), false, false).session;
      if y.Some? && !CanEnd(y.value) {
        ClearNearer(x.value, y.value, up[1..], inc);
      }
    }
  }

  predicate Watching(w: Watch) {
    w.Untouched? || w.Fooled?
  }

  /** `a` puts the client at no more risk than `b`. */
  predicate NoRiskier(w: Watch, a: Session, b: Session) {
    && a.IsOpen() && b.IsOpen() && a.Valid() && b.Valid()
    && a.credit == b.credit && a.guestWriteClosed == b.guestWriteClosed && a.hostCloseSent == b.hostCloseSent
    && (a.toGuest != [] || !a.hostReadClosed ==> b.toGuest != [] || !b.hostReadClosed)
    && (b.toGuest != [] ==> a.toGuest != [])
    && (w.Untouched? && Loaded(b) && !b.guestWriteClosed ==> |b.toSocket| <= |a.toSocket|)
    && (w.Fooled? ==> NoNearer(a, b))
  }

  lemma RiskierFrame(w: Watch, f: Frame, a: Session, b: Session)
    requires NoRiskier(w, a, b) && Watching(w)
    ensures var x := HandleFrame(f, Some(Eased(w, a, f)), false, false);
            var y := HandleFrame(f, Some(Eased(w, b, f)), false, false);
            || LookAll(w, x.out) == Lost
            || (x.out == [] && y.out == [] && x.session.None? && y.session.None?)
            || (x.out == [] && y.out == [] && x.session.Some? && y.session.Some?
                && NoRiskier(w, x.session.value, y.session.value))
            || (w.Fooled? && Ready(b) && CanEnd(b))
  {
    if f.Data? {
      DataRiskier(w, f, a, b);
    } else {
      var x := HandleFrame(f, Some(Eased(w, a, f)), false, false);
      if x.out != [] {
        assert x.out == [Rst(f.stream)];
        assert x.out[1..] == [];
      }
    }
  }

  lemma DataRiskier(w: Watch, f: Frame, a: Session, b: Session)
    requires NoRiskier(w, a, b) && Watching(w) && f.Data?
    ensures var x := HandleFrame(f, Some(Eased(w, a, f)), false, false);
            var y := HandleFrame(f, Some(Eased(w, b, f)), false, false);
            || LookAll(w, x.out) == Lost
            || (x.out == [] && y.out == [] && x.session.Some? && y.session.Some?
                && NoRiskier(w, x.session.value, y.session.value))
            || (w.Fooled? && Ready(b) && CanEnd(b))
  {
    var x := HandleFrame(f, Some(Eased(w, a, f)), false, false);
    if x.out != [] {
      assert x.out == [Rst(f.stream)];
      assert x.out[1..] == [];
    }
  }

  lemma {:induction false} RiskNearer(w: Watch, a: Session, b: Session, up: seq<Tagged>, inc: int, live: bool)
    requires NoRiskier(w, a, b) && Watching(w) && Risk(w, Some(a), up, inc, live)
    ensures Risk(w, Some(b), up, inc, live)
    decreases |up|
  {
    hide HandleFrame, Eased, LookAll, CanClear, NoNearer, CanEnd;
    if w.Fooled? && Ready(a) && (!live || CanClear(Some(a), up, inc)) {
      if live {
        ClearNearer(a, b, up, inc);
      }
    } else if a.hostCloseSent && a.guestWriteClosed && Risk(w, None, up, inc, live) {
    } else {
      var f := up[0].frame;
      var x := HandleFrame(f, Some(Eased(w, a, f)), false, false);
      var y := HandleFrame(f, Some(Eased(w, b, f)), false, false);
      RiskierFrame(w, f, a, b);
      if w.Fooled? && Ready(b) && CanEnd(b) {
        EndsClears(b, up, inc);
      } else {
        LookNothing(w);
        if x.session.Some? && x.out == [] {
          RiskNearer(w, x.session.value, y.session.value, up[1..], inc, live);
        }
      }
    }
  }

  lemma EndsClears(s: Session, up: seq<Tagged>, inc: int)
    requires CanEnd(s)
    ensures CanClear(Some(s), up, inc)
  {
  }

  lemma LookNothing(w: Watch)
    ensures LookAll(w, []) == w
  {
  }

  // A frame the host takes makes nothing riskier.

  lemma FlagsDontMatter(f: Frame, session: Option<Session>, resolving: bool, full: bool)
    requires !f.Open?
    ensures var o, p := HandleFrame(f, session, resolving, full), HandleFrame(f, session, false, false);
            o.out == p.out && o.session == p.session
  {
  }

  lemma OpenOverSession(f: Frame, s: Session, resolving: bool, full: bool)
    requires f.Open?
    ensures var o := HandleFrame(f, Some(s), resolving, full); o.out == [Rst(f.stream)] && o.session.None?
  {
  }

  lemma LookOne(w: Watch, f: Frame)
    ensures LookAll(w, [f]) == Look(w, f)
  {
    assert [f][1..] == [];
  }

  lemma FrameOnNone(w: Watch, f: Frame, rest: seq<Tagged>, inc: int, live: bool, resolving: bool, full: bool)
    requires Watching(w)
    requires var p := HandleFrame(f, None, false, false); !Risk(LookAll(w, p.out), p.session, rest, inc, live)
    ensures var o := HandleFrame(f, None, resolving, full); !Risk(LookAll(w, o.out), o.session, rest, inc, live)
  {
    if f.Open? {
      var o, p := HandleFrame(f, None, resolving, full), HandleFrame(f, None, false, false);
      LookNothing(w);
      if o.out != [] {
        LookOne(w, o.out[0]);
      }
      if p.out != [] {
        LookOne(w, p.out[0]);
      }
    } else {
      FlagsDontMatter(f, None, resolving, full);
    }
  }

  lemma FrameOnOpen(w: Watch, f: Frame, s: Session, rest: seq<Tagged>, inc: int, live: bool,
                    resolving: bool, full: bool)
    requires Watching(w) && s.IsOpen() && s.Valid()
    requires var p := HandleFrame(f, Some(Eased(w, s, f)), false, false);
             !Risk(LookAll(w, p.out), p.session, rest, inc, live)
    ensures var o := HandleFrame(f, Some(s), resolving, full);
            !Risk(LookAll(w, o.out), o.session, rest, inc, live)
  {
    var o := HandleFrame(f, Some(s), resolving, full);
    var p := HandleFrame(f, Some(Eased(w, s, f)), false, false);
    LookOne(w, Rst(f.stream));
    LookNothing(w);
    if f.Open? {
      OpenOverSession(f, s, resolving, full);
    } else {
      FlagsDontMatter(f, Some(s), resolving, full);
      if o.out == [] && o.session.Some? && Eased(w, s, f) != s {
        EasedIsWorse(w, f, s);
        hide Risk, NoRiskier, HandleFrame;
        if Risk(w, o.session, rest, inc, live) {
          RiskNearer(w, o.session.value, p.session.value, rest, inc, live);
        }
      }
    }
  }

  lemma EasedIsWorse(w: Watch, f: Frame, s: Session)
    requires Watching(w) && s.IsOpen() && s.Valid() && Eased(w, s, f) != s
    requires var o := HandleFrame(f, Some(s), false, false); o.out == [] && o.session.Some?
    ensures var o, p := HandleFrame(f, Some(s), false, false), HandleFrame(f, Some(Eased(w, s, f)), false, false);
            && o.session.Some? && p.session.Some? && p.out == []
            && NoRiskier(w, o.session.value, p.session.value)
  {
  }

  lemma FrameRisk(w: Watch, session: Option<Session>, up: seq<Tagged>, inc: int, live: bool,
                  resolving: bool, full: bool)
    requires up != [] && up[0].inc < inc && !Risk(w, session, up, inc, live)
    requires session.Some? ==> session.value.Valid()
    ensures var o := HandleFrame(up[0].frame, session, resolving, full);
            !Risk(LookAll(w, o.out), o.session, up[1..], inc, live)
  {
    hide HandleFrame, LookAll, Eased, Session.Valid;
    var f := up[0].frame;
    var o := HandleFrame(f, session, resolving, full);
    if w.Lost? || w.Fed? {
      LookStays(w, o.out);
      if w.Fed? {
        if f.Open? {
          OpenOverSession(f, session.value, false, false);
          assert CanClear(HandleFrame(f, session, false, false).session, up[1..], inc);
        } else {
          FlagsDontMatter(f, session, resolving, full);
        }
      }
    } else if session.None? {
      FrameOnNone(w, f, up[1..], inc, live, resolving, full);
    } else {
      FrameOnOpen(w, f, session.value, up[1..], inc, live, resolving, full);
    }
  }

  // Nor does a service turn.

  lemma TurnEnds(id: u16, s: Session, resolving: bool, io: Io)
    requires s.Valid() && s.IsOpen() && PossibleIo(s, io)
    requires RunOpenIo(id, s, resolving, io).session.None?
    ensures CanEnd(s)
  {
    hide Chunked;
  }

  lemma TurnNoNearer(id: u16, s: Session, resolving: bool, io: Io)
    requires s.Valid() && s.IsOpen() && PossibleIo(s, io)
    requires RunOpenIo(id, s, resolving, io).session.Some?
    ensures NoNearer(RunOpenIo(id, s, resolving, io).session.value, s)
  {
    RunOpenIoKeepsValid(id, s, resolving, io);
    hide Chunked;
  }

  /** A turn that says something says DATA first, if it can, or ends the stream. */
  lemma TurnFirst(id: u16, s: Session, resolving: bool, io: Io)
    requires s.Valid() && s.IsOpen() && PossibleIo(s, io)
    requires RunOpenIo(id, s, resolving, io).out != []
    ensures var f := RunOpenIo(id, s, resolving, io).out[0];
            (f.Data? && f.payload != [] && Ready(s)) || f.Close? || f.Rst?
  {
    var t := Transfer(s, io);
    if !io.writeFailed && !io.readFailed && t.toGuest[..Releasable(t)] != [] {
      ChunkedFirst(id, t.toGuest[..Releasable(t)]);
    }
  }

  lemma ChunkedFirst(id: u16, bytes: seq<byte>)
    requires bytes != []
    ensures Chunked(id, bytes) != [] && Chunked(id, bytes)[0].Data? && Chunked(id, bytes)[0].payload != []
  {
  }

  lemma SilentTurn(id: u16, w: Watch, s: Session, resolving: bool, io: Io)
    requires s.Valid() && s.IsOpen() && PossibleIo(s, io) && Watching(w) && Rests(Some(s), resolving)
    requires RunOpenIo(id, s, resolving, io).out == []
    ensures var o := RunOpenIo(id, s, resolving, io);
            && (o.session.None? ==> s.hostCloseSent && s.guestWriteClosed)
            && (o.session.Some? ==> NoRiskier(w, o.session.value, s))
  {
    SilentMeans(id, s, resolving, io);
    SilentShape(id, s, resolving, io);
    if RunOpenIo(id, s, resolving, io).session.Some? {
      TurnNoNearer(id, s, resolving, io);
      RunOpenIoKeepsValid(id, s, resolving, io);
      hide RunOpenIo, NoNearer;
    }
  }

  lemma SilentMeans(id: u16, s: Session, resolving: bool, io: Io)
    requires PossibleIo(s, io)
    ensures RunOpenIo(id, s, resolving, io).out == [] ==>
              var t := Transfer(s, io);
              !io.writeFailed && !io.readFailed && t.toGuest[..Releasable(t)] == []
  {
    var t := Transfer(s, io);
    var bytes := t.toGuest[..Releasable(t)];
    if bytes != [] {
      ChunkedFirst(id, bytes);
    }
  }

  lemma SilentShape(id: u16, s: Session, resolving: bool, io: Io)
    requires s.Valid() && s.IsOpen() && PossibleIo(s, io) && Rests(Some(s), resolving)
    requires !io.writeFailed && !io.readFailed && RunOpenIo(id, s, resolving, io).out == []
    requires var t := Transfer(s, io); t.toGuest[..Releasable(t)] == []
    ensures var o := RunOpenIo(id, s, resolving, io);
            && (o.session.None? ==> s.hostCloseSent && s.guestWriteClosed)
            && (o.session.Some? ==>
                  var a := o.session.value;
                  && a.credit == s.credit && a.guestWriteClosed == s.guestWriteClosed
                  && a.hostCloseSent == s.hostCloseSent && a.toGuest == s.toGuest + io.received
                  && (Loaded(s) ==> false)
                  && a.hostReadClosed == (s.hostReadClosed || io.eof))
  {
    hide Chunked;
    var t := Transfer(s, io);
    assert Releasable(t) == 0;
    assert t.toGuest[0..] == t.toGuest;
  }

  lemma {:induction false} LookFirst(w: Watch, out: seq<Frame>)
    requires Watching(w) && out != [] && (out[0].Data? ==> out[0].payload != []) && !out[0].OpenOk?
    requires out[0].Data? || out[0].Close? || out[0].Rst?
    ensures LookAll(w, out) == if w.Fooled? && out[0].Data? then Fed else Lost
  {
    LookStays(Look(w, out[0]), out[1..]);
  }

  lemma TurnRisk(id: u16, w: Watch, s: Session, up: seq<Tagged>, inc: int, live: bool, resolving: bool, io: Io)
    requires s.Valid() && s.IsOpen() && PossibleIo(s, io) && Rests(Some(s), resolving)
    requires !Risk(w, Some(s), up, inc, live)
    ensures var o := RunOpenIo(id, s, resolving, io); !Risk(LookAll(w, o.out), o.session, up, inc, live)
  {
    hide RunOpenIo, LookAll, HandleFrame, Eased, NoRiskier, NoNearer, CanEnd, Ready, Session.Valid;
    var o := RunOpenIo(id, s, resolving, io);
    if w.Lost? || w.Fed? {
      LookStays(w, o.out);
    } else if o.out == [] {
      LookNothing(w);
      SilentTurn(id, w, s, resolving, io);
      if o.session.Some? && Risk(w, o.session, up, inc, live) {
        RiskNearer(w, o.session.value, s, up, inc, live);
      }
    } else {
      TurnFirst(id, s, resolving, io);
      LookFirst(w, o.out);
    }
    if LookAll(w, o.out).Fed? && Risk(Fed, o.session, up, inc, live) {
      TurnClears(id, s, up, inc, resolving, io);
    }
  }

  /** What can be cleared after a turn could be before it. */
  lemma TurnClears(id: u16, s: Session, up: seq<Tagged>, inc: int, resolving: bool, io: Io)
    requires s.Valid() && s.IsOpen() && PossibleIo(s, io)
    ensures CanClear(RunOpenIo(id, s, resolving, io).session, up, inc) ==> CanClear(Some(s), up, inc)
  {
    hide RunOpenIo, NoNearer;
    var o := RunOpenIo(id, s, resolving, io);
    if o.session.None? {
      TurnEnds(id, s, resolving, io);
    } else if CanClear(o.session, up, inc) {
      TurnNoNearer(id, s, resolving, io);
      ClearNearer(o.session.value, s, up, inc);
    }
  }

  // The invariant of a client that is not exposed.

  /** The frames of other incarnations than `inc`, in order. */
  function StrayOf(q: seq<Tagged>, inc: int): seq<Frame> {
    if q == [] then []
    else (if q[0].inc != inc then [q[0].frame] else []) + StrayOf(q[1..], inc)
  }

  lemma {:induction false} StrayAppend(a: seq<Tagged>, b: seq<Tagged>, inc: int)
    ensures StrayOf(a + b, inc) == StrayOf(a, inc) + StrayOf(b, inc)
  {
    if a == [] {
      assert a + b == b;
    } else {
      assert (a + b)[1..] == a[1..] + b;
      StrayAppend(a[1..], b, inc);
      var first := if a[0].inc != inc then [a[0].frame] else [];
      assert StrayOf(a + b, inc) == first + (StrayOf(a[1..], inc) + StrayOf(b, inc));
    }
  }

  lemma {:induction false} StrayOfAll(q: seq<Tagged>, tag: int, inc: int)
    requires TaggedAll(q, tag)
    ensures StrayOf(q, inc) == if tag != inc then Untag(q) else []
  {
    if q != [] {
      StrayOfAll(q[1..], tag, inc);
    }
  }

  lemma {:induction false} StrayOfNone(q: seq<Tagged>, inc: int)
    requires forall i :: 0 <= i < |q| ==> q[i].inc != inc
    ensures StrayOf(q, inc) == Untag(q)
  {
    if q != [] {
      StrayOfNone(q[1..], inc);
    }
  }

  function WatchOf(h: Handler, g: Log): Watch {
    match h.phase
    case Opening => Untouched
    case Relaying => if g.stray > 0 then Fed else Fooled
    case Closing => Lost
  }

  /** What the handler will be when it has acted on everything stray on its way. */
  function Outlook(l: Link): Watch
    requires l.handler.Some? && l.handler.value.inc < |l.logs|
  {
    var h := l.handler.value;
    LookAll(WatchOf(h, l.logs[h.inc]), StrayOf(Toward(l), h.inc))
  }

  predicate Safe(l: Link, inc: nat, live: bool) {
    && inc < |l.logs|
    && (!live ==> l.logs[inc].stray == 0)
    && (l.handler.Some? && l.handler.value.inc == inc ==>
          if l.cur < inc then !Risk(Outlook(l), l.session, l.up, inc, live)
          else Outlook(l).Fed? ==> live && l.session.None?)
  }

  /** A client that takes the id now can be given bytes of an earlier use. */
  predicate Exposed(l: Link, live: bool) {
    Risk(LookAll(Untouched, Untag(l.down)), l.session, l.up, |l.logs|, live)
  }

  lemma RegisterSafe(l: Link, port: u16, host: seq<byte>, live: bool)
    requires Inv(l) && l.handler.None? && !Exposed(l, live)
    ensures Safe(RegisterClient(l, port, host), |l.logs|, live)
  {
    CurBound(l);
    var m, inc := RegisterClient(l, port, host), |l.logs|;
    assert Toward(l) == l.down && Toward(m) == l.down;
    StrayOfNone(l.down, inc);
    hide Inv, Risk, LookAll;
    RiskSnoc(LookAll(Untouched, Untag(l.down)), l.session, l.up, Tagged(inc, Open(l.id, port, host)), inc, live);
  }

  // Guest steps.

  lemma GuestSafe(l: Link, n: Link, inc: nat, live: bool)
    requires Safe(l, inc, live)
    requires n.session == l.session && n.cur == l.cur
    requires inc < |n.logs| && n.logs[inc].stray == l.logs[inc].stray
    requires n.handler.Some? && n.handler.value.inc == inc ==>
               && l.handler.Some? && l.handler.value.inc == inc && OneMore(l.up, n.up, inc)
               && (Outlook(n) == Outlook(l) || Outlook(n).Lost?)
    ensures Safe(n, inc, live)
  {
    hide Outlook;
    if n.handler.Some? && n.handler.value.inc == inc && n.cur < inc {
      if n.up != l.up {
        assert n.up == l.up + [n.up[|l.up|]];
        RiskSnoc(Outlook(n), n.session, l.up, n.up[|l.up|], inc, live);
      }
      hide Risk;
      LostIsSafe(n, l, inc, live);
    }
  }

  lemma LostIsSafe(n: Link, l: Link, inc: int, live: bool)
    ensures !Risk(Lost, n.session, l.up, inc, live)
  {
  }

  /** Taking a stray frame is what the watch foresaw, or the end of it. */
  lemma ReceiveStray(l: Link, ok: bool, partial: nat)
    requires CanReceive(l) && l.handler.value.inc == l.Last() && !HeadIsOwn(l)
    requires l.handler.value.phase.Opening? ==> l.logs[l.Last()].stray == 0
    ensures var n, h, inc := ReceiveFrame(l, ok, partial), l.handler.value, l.Last();
            && n.logs[inc].stray >= l.logs[inc].stray
            && (n.handler.Some? ==>
                  || n.handler.value.phase.Closing?
                  || WatchOf(n.handler.value, n.logs[inc]) == Look(WatchOf(h, l.logs[inc]), Head(l).frame))
            && (n.logs[inc].stray > l.logs[inc].stray ==>
                  h.phase.Relaying? && Head(l).frame.Data? && Head(l).frame.payload != [])
  {
    if l.handler.value.phase.Relaying? && Head(l).frame.Data? {
      StrayData(l, ok, partial);
    } else {
      StrayControl(l, ok, partial);
    }
  }

  lemma StrayData(l: Link, ok: bool, partial: nat)
    requires CanReceive(l) && l.handler.value.inc == l.Last() && !HeadIsOwn(l)
    requires l.handler.value.phase.Relaying? && Head(l).frame.Data?
    ensures var n, inc := ReceiveFrame(l, ok, partial), l.Last();
            && n.logs[inc].stray >= l.logs[inc].stray
            && n.handler.Some?
            && (n.handler.value.phase.Closing? ||
                WatchOf(n.handler.value, n.logs[inc]) == Look(WatchOf(l.handler.value, l.logs[inc]), Head(l).frame))
            && (n.logs[inc].stray > l.logs[inc].stray ==> Head(l).frame.payload != [])
  {
  }

  lemma StrayControl(l: Link, ok: bool, partial: nat)
    requires CanReceive(l) && l.handler.value.inc == l.Last() && !HeadIsOwn(l)
    requires l.handler.value.phase.Opening? ==> l.logs[l.Last()].stray == 0
    requires l.handler.value.phase.Opening? || !Head(l).frame.Data?
    ensures var n, inc := ReceiveFrame(l, ok, partial), l.Last();
            && n.logs[inc].stray == l.logs[inc].stray
            && (n.handler.Some? ==>
                  || n.handler.value.phase.Closing?
                  || WatchOf(n.handler.value, n.logs[inc])
                     == Look(WatchOf(l.handler.value, l.logs[inc]), Head(l).frame))
  {
  }

  lemma ReceiveOwn(l: Link, ok: bool, partial: nat)
    requires CanReceive(l) && l.handler.value.inc == l.Last() && HeadIsOwn(l)
    requires l.handler.value.phase.Opening? ==> l.logs[l.Last()].stray == 0
    ensures var n, inc := ReceiveFrame(l, ok, partial), l.Last();
            && n.logs[inc].stray == l.logs[inc].stray
            && (n.handler.Some? && WatchOf(n.handler.value, n.logs[inc]).Fed? ==>
                  WatchOf(l.handler.value, l.logs[inc]).Fed?)
  {
  }

  /** Behind a frame of its own nothing stray is on its way. */
  lemma OwnHeadIsLast(l: Link)
    requires Core(l) && CanReceive(l) && HeadIsOwn(l)
    ensures l.cur == l.Last() && StrayOf(Toward(l), l.Last()) == [] && StrayOf(Toward(l)[1..], l.Last()) == []
  {
    HeadOf(l);
    hide LogOk, HostOk, Own, UpFrom, EndTag;
    StrayOfAll(Toward(l), l.Last(), l.Last());
    StrayOfAll(Toward(l)[1..], l.Last(), l.Last());
  }

  lemma ReceiveSafe(l: Link, ok: bool, partial: nat, inc: nat, live: bool)
    requires Inv(l) && Safe(l, inc, live) && CanReceive(l)
    ensures Safe(ReceiveFrame(l, ok, partial), inc, live)
  {
    var n, h := ReceiveFrame(l, ok, partial), l.handler.value;
    ReceiveShape(l, ok, partial);
    if h.inc == inc {
      HeadOf(l);
      if HeadIsOwn(l) {
        OwnHeadIsLast(l);
        ReceiveOwn(l, ok, partial);
        hide ReceiveFrame, Inv, Risk, WatchOf;
        OwnReceived(l, n, inc, live);
      } else {
        ReceiveStray(l, ok, partial);
        hide ReceiveFrame, Inv, Risk, WatchOf;
        StrayReceived(l, n, inc, live);
      }
    } else {
      hide ReceiveFrame, Inv, Risk;
      GuestSafe(l, n, inc, live);
    }
  }

  lemma OwnReceived(l: Link, n: Link, inc: nat, live: bool)
    requires Safe(l, inc, live) && l.handler.Some? && l.handler.value.inc == inc && inc == l.cur
    requires StrayOf(Toward(l), inc) == []
    requires n.session == l.session && n.cur == l.cur && inc < |n.logs|
    requires n.handler.Some? ==> n.handler.value.inc == inc && StrayOf(Toward(n), inc) == []
    requires n.logs[inc].stray == l.logs[inc].stray
    requires n.handler.Some? && WatchOf(n.handler.value, n.logs[inc]).Fed? ==>
               WatchOf(l.handler.value, l.logs[inc]).Fed?
    ensures Safe(n, inc, live)
  {
    hide Risk, WatchOf;
    LookNothing(WatchOf(l.handler.value, l.logs[inc]));
    if n.handler.Some? {
      LookNothing(WatchOf(n.handler.value, n.logs[inc]));
    }
  }

  lemma StrayReceived(l: Link, n: Link, inc: nat, live: bool)
    requires Safe(l, inc, live) && CanReceive(l) && l.handler.value.inc == inc && !HeadIsOwn(l)
    requires Toward(l) == [Head(l)] + Toward(l)[1..]
    requires n.session == l.session && n.cur == l.cur && |n.logs| == |l.logs| && OneMore(l.up, n.up, inc)
    requires n.handler.Some? ==> n.handler.value.inc == inc && Toward(n) == Toward(l)[1..]
    requires n.logs[inc].stray >= l.logs[inc].stray
    requires n.handler.Some? ==>
               || n.handler.value.phase.Closing?
               || WatchOf(n.handler.value, n.logs[inc]) == Look(WatchOf(l.handler.value, l.logs[inc]), Head(l).frame)
    requires n.logs[inc].stray > l.logs[inc].stray ==>
               l.handler.value.phase.Relaying? && Head(l).frame.Data? && Head(l).frame.payload != []
    ensures Safe(n, inc, live)
  {
    var rest := StrayOf(Toward(l)[1..], inc);
    var w, f := WatchOf(l.handler.value, l.logs[inc]), Head(l).frame;
    assert StrayOf(Toward(l), inc) == [f] + rest;
    assert ([f] + rest)[1..] == rest;
    assert Outlook(l) == LookAll(Look(w, f), rest);
    if n.handler.Some? && n.handler.value.phase.Closing? {
      LookStays(Lost, rest);
    }
    if n.logs[inc].stray > l.logs[inc].stray {
      assert Look(w, f).Fed?;
      LookStays(Fed, rest);
    }
    if n.handler.Some? && n.cur < inc && n.up != l.up {
      assert n.up == l.up + [n.up[|l.up|]];
      RiskSnoc(Outlook(n), n.session, l.up, n.up[|l.up|], inc, live);
    }
  }

  lemma RouteSafe(l: Link, inc: nat, live: bool)
    requires Safe(l, inc, live) && l.down != []
    ensures Safe(RouteFrame(l), inc, live)
  {
    hide Risk, LookAll, StrayOf;
    if l.handler.Some? {
      assert Toward(RouteFrame(l)) == Toward(l);
    }
    GuestSafe(l, RouteFrame(l), inc, live);
  }

  lemma PushSafe(l: Link, f: Frame, inc: nat, live: bool)
    requires Inv(l) && Safe(l, inc, live) && UpRunning(l)
    ensures Safe(PushUp(l, f), inc, live)
  {
    hide Risk, LookAll, StrayOf, PushUp, Inv;
    var n := PushUp(l, f);
    PushLeaves(l, f);
    assert Toward(n) == Toward(l);
    assert l.handler.value.inc == l.Last() by { RunsForLast(l); }
    GuestSafe(l, n, inc, live);
  }

  lemma PushLeaves(l: Link, f: Frame)
    requires UpRunning(l)
    ensures var n := PushUp(l, f);
            && n == l.(up := l.up + [Tagged(l.handler.value.inc, f)], logs := n.logs) && |n.logs| == |l.logs|
            && forall k :: 0 <= k < |l.logs| ==> n.logs[k].stray == l.logs[k].stray
  {
  }

  lemma FinishSafe(l: Link, inc: nat, live: bool)
    requires Safe(l, inc, live) && l.handler.Some?
    ensures Safe(FinishUp(l), inc, live)
  {
    hide Risk, LookAll, StrayOf;
    assert Toward(FinishUp(l)) == Toward(l);
    GuestSafe(l, FinishUp(l), inc, live);
  }

  lemma ArriveLeaveSafe(l: Link, port: u16, host: seq<byte>, inc: nat, live: bool)
    requires Safe(l, inc, live)
    ensures l.handler.None? ==> Safe(RegisterClient(l, port, host), inc, live)
    ensures Safe(l.(handler := None), inc, live)
  {
    hide Risk, LookAll, StrayOf;
  }

  // Host steps.

  predicate Watched(l: Link, inc: nat) {
    l.handler.Some? && l.handler.value.inc == inc
  }

  lemma HostSafe(l: Link, n: Link, out: seq<Frame>, inc: nat, live: bool)
    requires Safe(l, inc, live) && n.handler == l.handler && 0 <= n.cur
    requires n.down == l.down + Tag(n.cur, out)
    requires inc < |n.logs| && n.logs[inc].stray == l.logs[inc].stray
    requires Watched(l, inc) ==>
               if n.cur < inc then !Risk(LookAll(Outlook(l), out), n.session, n.up, inc, live)
               else n.cur == inc && (Outlook(l).Fed? ==> live && n.session.None?)
    ensures Safe(n, inc, live)
  {
    hide Risk, WatchOf;
    if Watched(l, inc) {
      var w, tag := WatchOf(l.handler.value, l.logs[inc]), Tag(n.cur, out);
      assert WatchOf(n.handler.value, n.logs[inc]) == w by { SameWatch(l.handler.value, l.logs[inc], n.logs[inc]); }
      assert Toward(n) == Toward(l) + tag;
      StrayAppend(Toward(l), tag, inc);
      StrayOfAll(tag, n.cur, inc);
      assert Untag(tag) == out;
      LookAppend(w, StrayOf(Toward(l), inc), out);
      assert StrayOf(Toward(l), inc) + [] == StrayOf(Toward(l), inc);
    }
  }

  lemma SameWatch(h: Handler, g: Log, g': Log)
    requires g'.stray == g.stray
    ensures WatchOf(h, g') == WatchOf(h, g)
  {
  }

  lemma FrameSafe(l: Link, full: bool, inc: nat, live: bool)
    requires Inv(l) && Safe(l, inc, live) && l.up != []
    ensures Safe(HandleUp(l, full), inc, live)
  {
    CurBound(l);
    var t, n := l.up[0], HandleUp(l, full);
    var o := HandleFrame(t.frame, l.session, l.resolving, full);
    assert 0 <= n.cur && n.down == l.down + Tag(n.cur, o.out) && n.logs[inc].stray == l.logs[inc].stray;
    assert n.session == o.session && n.up == l.up[1..];
    if Watched(l, inc) {
      if l.cur < inc && t.inc < inc {
        assert l.session.Some? ==> l.session.value.Valid();
        hide HandleFrame, HandleUp, Inv, Risk;
        FrameRisk(Outlook(l), l.session, l.up, inc, live, l.resolving, full);
      } else if Outlook(l).Fed? {
        NoneOrReset(t.frame, l.session, l.resolving, full);
      }
    }
    hide HandleFrame, HandleUp, Inv, Risk;
    HostSafe(l, n, o.out, inc, live);
  }

  lemma NoneOrReset(f: Frame, session: Option<Session>, resolving: bool, full: bool)
    ensures f.Open? && session.Some? ==> HandleFrame(f, session, resolving, full).session.None?
    ensures !f.Open? && session.None? ==> HandleFrame(f, session, resolving, full).session.None?
  {
  }

  lemma TurnSafe(l: Link, s: Session, io: Io, inc: nat, live: bool)
    requires Inv(l) && AtRest(l) && Safe(l, inc, live)
    requires l.session == Some(s) && s.IsOpen() && PossibleIo(s, io)
    ensures Safe(ServiceIo(l, io), inc, live)
  {
    CurBound(l);
    var n, o := ServiceIo(l, io), RunOpenIo(l.id, s, l.resolving, io);
    ServiceIs(l, s, io);
    assert s.Valid() && 0 <= l.cur;
    hide ServiceIo, RunOpenIo, Risk, Outlook, Core, FlowPart;
    if Watched(l, inc) && l.cur < inc {
      TurnRisk(l.id, Outlook(l), s, l.up, inc, live, l.resolving, io);
    }
    HostSafe(l, n, o.out, inc, live);
  }

  /** A step that only a connection not yet up can take. */
  lemma PendingSafe(l: Link, o: Outcome, inc: nat, live: bool)
    requires Inv(l) && Safe(l, inc, live)
    requires (l.session.Some? && !l.session.value.IsOpen()) || (o.out == [] && o.session == l.session)
    requires o.session.Some? ==> l.session.Some?
    ensures Safe(Apply(l, o), inc, live)
  {
    CurBound(l);
    var n := Apply(l, o);
    if l.cur < 0 {
      assert l.session.None?;
      hide Inv, Risk;
      GuestSafe(l, n, inc, live);
    } else {
      assert n.down == l.down + Tag(l.cur, o.out) && n.logs[inc].stray == l.logs[inc].stray;
      hide Inv, LookAll;
      if Watched(l, inc) {
        LookNothing(Outlook(l));
        if l.cur < inc && Outlook(l).Lost? {
          LookStays(Lost, o.out);
        }
      }
      HostSafe(l, n, o.out, inc, live);
    }
  }

  lemma AnswerSafe(l: Link, answer: Answer, inc: nat, live: bool)
    requires Inv(l) && Safe(l, inc, live)
    ensures Safe(Apply(l, HarvestAnswer(l.id, l.session, answer)), inc, live)
  {
    hide Inv, Apply, Safe;
    PendingSafe(l, HarvestAnswer(l.id, l.session, answer), inc, live);
  }

  lemma PollSafe(l: Link, poll: ConnectPoll, inc: nat, live: bool)
    requires Inv(l) && Safe(l, inc, live) && l.session.Some? && l.session.value.state.Connecting?
    ensures Safe(Apply(l, RunConnecting(l.id, l.session.value, l.resolving, poll)), inc, live)
  {
    hide Inv, Apply, Safe;
    PendingSafe(l, RunConnecting(l.id, l.session.value, l.resolving, poll), inc, live);
  }

  lemma UpEndSafe(l: Link, f: Frame, inc: nat, live: bool)
    requires Inv(l) && Safe(l, inc, live) && UpRunning(l)
    ensures Safe(FinishUp(PushUp(l, f)), inc, live)
  {
    hide Safe;
    PushSafe(l, f, inc, live);
    FinishSafe(PushUp(l, f), inc, live);
  }

  lemma SafeStep(l: Link, step: Step, inc: nat, live: bool)
    requires Inv(l) && AtRest(l) && Safe(l, inc, live)
    ensures Safe(Next(l, step), inc, live)
  {
    hide Inv, AtRest, Safe, ReceiveFrame, HandleUp, ServiceIo, RouteFrame, RegisterClient, Apply, PushUp, FinishUp;
    match step
    case Register(port, host) => ArriveLeaveSafe(l, port, host, inc, live);
    case Route => if l.down != [] { RouteSafe(l, inc, live); }
    case Receive(ok, partial) => if CanReceive(l) { ReceiveSafe(l, ok, partial, inc, live); }
    case UpData(bytes) => if UpRunning(l) { PushSafe(l, Data(l.id, bytes), inc, live); }
    case UpClose => if UpRunning(l) { UpEndSafe(l, Close(l.id), inc, live); }
    case UpRst => if UpRunning(l) { UpEndSafe(l, Rst(l.id), inc, live); }
    case Deregister => ArriveLeaveSafe(l, 0, [], inc, live);
    case HostFrame(full) => if l.up != [] { FrameSafe(l, full, inc, live); }
    case HostAnswer(answer) => if l.resolving { AnswerSafe(l, answer, inc, live); }
    case HostPoll(poll) =>
      if l.session.Some? && l.session.value.state.Connecting? { PollSafe(l, poll, inc, live); }
    case HostIo(io) =>
      if l.session.Some? && l.session.value.IsOpen() && PossibleIo(l.session.value, io) {
        TurnSafe(l, l.session.value, io, inc, live);
      }
  }

  lemma {:induction false} SafeRun(l: Link, steps: seq<Step>, inc: nat, live: bool)
    requires Inv(l) && AtRest(l) && Safe(l, inc, live)
    ensures Safe(Run(l, steps), inc, live)
    decreases |steps|
  {
    hide Inv, AtRest, Safe, Next;
    if steps != [] {
      SafeStep(l, steps[0], inc, live);
      NextKeeps(l, steps[0]);
      RestStep(l, steps[0]);
      SafeRun(Next(l, steps[0]), steps[1..], inc, live);
    }
  }

  // What it means.

  /** A client that takes an id it is not exposed on is given no byte of another use,
      whatever happens. */
  lemma UnexposedIsWhole(l: Link, port: u16, host: seq<byte>, m: Link)
    requires Inv(l) && AtRest(l) && l.handler.None? && !Exposed(l, false)
    requires Reaches(RegisterClient(l, port, host), m)
    ensures |l.logs| < |m.logs| && m.logs[|l.logs|].stray == 0
  {
    RegisterSafe(l, port, host, false);
    RegisterKeeps(l, port, host);
    hide Run, Exposed, Inv;
    var steps :| Run(RegisterClient(l, port, host), steps) == m;
    SafeRun(RegisterClient(l, port, host), steps, |l.logs|, false);
  }

  /** And on an id where the second kind of exposure is ruled out, whenever its stream
      is up no such byte was given. */
  lemma UnexposedIsBalanced(l: Link, port: u16, host: seq<byte>, m: Link)
    requires Inv(l) && AtRest(l) && l.handler.None? && !Exposed(l, true)
    requires Reaches(RegisterClient(l, port, host), m)
    ensures Live(m) && m.handler.value.inc == |l.logs| ==> |l.logs| < |m.logs| && m.logs[|l.logs|].stray == 0
  {
    var start, inc := RegisterClient(l, port, host), |l.logs|;
    RegisterSafe(l, port, host, true);
    RegisterKeeps(l, port, host);
    hide Run, Exposed, Inv, Risk;
    var steps :| Run(start, steps) == m;
    SafeRun(start, steps, inc, true);
    if Live(m) && m.handler.value.inc == inc && m.logs[inc].stray > 0 {
      RunKeeps(start, steps);
      StrayIsFed(m);
    }
  }

  lemma StrayIsFed(m: Link)
    requires Inv(m) && Live(m) && m.logs[m.handler.value.inc].stray > 0
    ensures Outlook(m).Fed?
  {
    LookStays(Fed, StrayOf(Toward(m), m.handler.value.inc));
  }
}
