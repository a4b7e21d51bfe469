/** When nothing the earlier uses of a stream id left behind can still reach a client
    that takes it. */
module MuxFresh {
  import opened Prelude
  import opened EgressCodec
  import opened EgressSession
  import opened MuxLink
  import opened MuxInv
  import opened MuxGuest
  import opened MuxHost
  import opened MuxProof

  /** A session that some service turn, or its resolver or connect, makes send a
      frame: it is not up yet, has a backlog that can fail, can still read, has
      bytes it may release, or owes a CLOSE. */
  predicate Speaks(s: Session) {
    || !s.IsOpen()
    || s.toSocket != []
    || (!s.hostReadClosed && |s.toGuest| < WINDOW_BYTES)
    || (s.toGuest != [] && s.credit > 0)
    || (s.hostReadClosed && s.toGuest == [] && !s.hostCloseSent)
  }

  /** The host can still send a frame before it reaches the frames of incarnation
      `inc`: its session speaks, or a frame in the pipe gets an answer, or makes
      the session speak.  With `full` set every OPEN is answered at once. */
  predicate CanSpeak(session: Option<Session>, up: seq<Tagged>, inc: int)
    decreases |up|
  {
    || (session.Some? && Speaks(session.value))
    || (up != [] && up[0].inc < inc &&
        var o := HandleFrame(up[0].frame, session, false, true);
        o.out != [] || CanSpeak(o.session, up[1..], inc))
  }

  /** Nothing of the earlier uses of the id can reach a client that takes it now. */
  predicate Idle(l: Link) {
    l.down == [] && !CanSpeak(l.session, l.up, |l.logs|)
  }

  /** The handler of incarnation `inc` has acted on its own connection's frames only. */
  predicate OwnOnly(l: Link, inc: nat) {
    inc < |l.logs| ==> TaggedAll(l.logs[inc].taken, inc)
  }

  // Sessions between steps.

  /** A resolving session has a request out, one that is not up yet has its whole
      window, and a CLOSE is sent in the turn that finds it due. */
  predicate Rests(session: Option<Session>, resolving: bool) {
    session.Some? ==>
      var s := session.value;
      && (s.state.Resolving? ==> resolving)
      && (!s.IsOpen() ==> s.credit >= WINDOW_BYTES)
      && (s.hostReadClosed && s.toGuest == [] ==> s.hostCloseSent)
  }

  predicate AtRest(l: Link) {
    Rests(l.session, l.resolving)
  }

  lemma ApplyRests(l: Link, o: Outcome)
    requires Rests(o.session, o.resolving)
    ensures AtRest(Apply(l, o))
  {
  }

  lemma AnswerRests(id: u16, session: Option<Session>, resolving: bool, answer: Answer)
    requires Rests(session, resolving)
    ensures var o := HarvestAnswer(id, session, answer); Rests(o.session, o.resolving)
  {
  }

  lemma TurnRests(id: u16, s: Session, resolving: bool, io: Io)
    requires s.IsOpen() && PossibleIo(s, io)
    ensures var o := RunOpenIo(id, s, resolving, io); Rests(o.session, o.resolving)
  {
    hide Chunked;
  }

  lemma ReceiveSession(l: Link, ok: bool, partial: nat)
    requires CanReceive(l)
    ensures var n := ReceiveFrame(l, ok, partial); n.session == l.session && n.resolving == l.resolving
  {
    hide LogOf, SetLog;
  }

  lemma RestStep(l: Link, step: Step)
    requires AtRest(l)
    ensures AtRest(Next(l, step))
  {
    hide ReceiveFrame, Apply, LogOf, SetLog, RunOpenIo, HarvestAnswer;
    match step
    case Receive(ok, partial) => if CanReceive(l) { ReceiveSession(l, ok, partial); }
    case HostFrame(full) =>
      if l.up != [] {
        var t := l.up[0];
        ApplyRests(l.(up := l.up[1..], cur := if t.frame.Open? then t.inc else l.cur),
                   HandleFrame(t.frame, l.session, l.resolving, full));
      }
    case HostAnswer(answer) =>
      if l.resolving {
        AnswerRests(l.id, l.session, l.resolving, answer);
        ApplyRests(l, HarvestAnswer(l.id, l.session, answer));
      }
    case HostPoll(poll) =>
      if l.session.Some? && l.session.value.state.Connecting? {
        ApplyRests(l, RunConnecting(l.id, l.session.value, l.resolving, poll));
      }
    case HostIo(io) =>
      if l.session.Some? && l.session.value.IsOpen() && PossibleIo(l.session.value, io) {
        TurnRests(l.id, l.session.value, l.resolving, io);
        ApplyRests(l, RunOpenIo(l.id, l.session.value, l.resolving, io));
      }
    case _ =>
  }

  lemma {:induction false} RestRun(l: Link, steps: seq<Step>)
    requires AtRest(l)
    ensures AtRest(Run(l, steps))
    decreases |steps|
  {
    hide Next, AtRest;
    if steps != [] {
      RestStep(l, steps[0]);
      RestRun(Next(l, steps[0]), steps[1..]);
    }
  }

  // From an idle id, only frames of its own reach the client.

  lemma {:induction false} SpeakSnoc(session: Option<Session>, up: seq<Tagged>, t: Tagged, inc: int)
    requires inc <= t.inc
    ensures CanSpeak(session, up + [t], inc) == CanSpeak(session, up, inc)
    decreases |up|
  {
    if up == [] {
      assert up + [t] == [t];
    } else {
      assert (up + [t])[1..] == up[1..] + [t] && (up + [t])[0] == up[0];
      SpeakSnoc(HandleFrame(up[0].frame, session, false, true).session, up[1..], t, inc);
    }
  }

  /** A session that is done says no more than none at all. */
  lemma {:induction false} DrainedIsGone(s: Session, up: seq<Tagged>, inc: int)
    requires s.Valid() && s.IsOpen() && s.IsDrained() && !CanSpeak(Some(s), up, inc)
    ensures !CanSpeak(None, up, inc)
    decreases |up|
  {
    if up != [] && up[0].inc < inc {
      var f := up[0].frame;
      var o := HandleFrame(f, Some(s), false, true);
      if o.session.Some? {
        HandleFrameKeepsValid(f, Some(s), false, true);
        DrainedIsGone(o.session.value, up[1..], inc);
      }
    }
  }

  predicate Clean(l: Link, inc: nat) {
    && inc < |l.logs| && TaggedAll(l.logs[inc].taken, inc) && l.logs[inc].stray == 0
    && (l.handler.Some? && l.handler.value.inc == inc ==>
          TaggedAll(Toward(l), inc) && (l.cur < inc ==> !CanSpeak(l.session, l.up, inc)))
  }

  lemma RegisterClean(l: Link, port: u16, host: seq<byte>)
    requires Inv(l) && l.handler.None? && Idle(l)
    ensures Clean(RegisterClient(l, port, host), |l.logs|)
  {
    hide Inv, CanSpeak;
    SpeakSnoc(l.session, l.up, Tagged(|l.logs|, Open(l.id, port, host)), |l.logs|);
  }

  // Guest steps: the handler takes from the front and sends at the back.

  predicate OneMore(up: seq<Tagged>, up': seq<Tagged>, inc: nat) {
    up' == up || (|up'| == |up| + 1 && up'[..|up|] == up && up'[|up|].inc == inc)
  }

  lemma GuestClean(l: Link, n: Link, inc: nat)
    requires Clean(l, inc)
    requires n.session == l.session && n.cur == l.cur
    requires inc < |n.logs| && TaggedAll(n.logs[inc].taken, inc) && n.logs[inc].stray == 0
    requires n.handler.Some? && n.handler.value.inc == inc ==>
               && l.handler.Some? && l.handler.value.inc == inc
               && TaggedAll(Toward(n), inc) && OneMore(l.up, n.up, inc)
    ensures Clean(n, inc)
  {
    hide CanSpeak;
    if n.handler.Some? && n.handler.value.inc == inc && n.up != l.up {
      assert n.up == l.up + [n.up[|l.up|]];
      SpeakSnoc(l.session, l.up, n.up[|l.up|], inc);
    }
  }

  /** What taking a frame can do, whatever the frame is. */
  predicate ReceiveEffect(l: Link, n: Link, h: Handler)
    requires h.inc < |l.logs| && h.inbox != []
  {
    && n == l.(handler := n.handler, up := n.up, logs := n.logs)
    && OneMore(l.up, n.up, h.inc)
    && (n.handler.Some? ==> n.handler.value.inc == h.inc && n.handler.value.inbox == h.inbox[1..])
    && |n.logs| == |l.logs|
    && n.logs[h.inc].taken == l.logs[h.inc].taken + [h.inbox[0]]
    && (h.inbox[0].inc == h.inc ==> n.logs[h.inc].stray == l.logs[h.inc].stray)
    && forall i :: 0 <= i < |l.logs| && i != h.inc ==> n.logs[i] == l.logs[i]
  }

  lemma ReceiveShape(l: Link, ok: bool, partial: nat)
    requires CanReceive(l) && l.handler.value.inc == l.Last()
    ensures ReceiveEffect(l, ReceiveFrame(l, ok, partial), l.handler.value)
  {
    var h := l.handler.value;
    var f := h.inbox[0].frame;
    if h.phase.Opening? || !f.Data? {
      ReceiveControl(l, ok, partial);
    } else {
      ReceiveData(l, ok, partial);
    }
  }

  lemma ReceiveControl(l: Link, ok: bool, partial: nat)
    requires CanReceive(l) && l.handler.value.inc == l.Last()
    requires l.handler.value.phase.Opening? || !l.handler.value.inbox[0].frame.Data?
    ensures ReceiveEffect(l, ReceiveFrame(l, ok, partial), l.handler.value)
  {
  }

  lemma ReceiveData(l: Link, ok: bool, partial: nat)
    requires CanReceive(l) && l.handler.value.inc == l.Last()
    requires !l.handler.value.phase.Opening? && l.handler.value.inbox[0].frame.Data?
    ensures ReceiveEffect(l, ReceiveFrame(l, ok, partial), l.handler.value)
  {
  }

  lemma ReceiveClean(l: Link, ok: bool, partial: nat, inc: nat)
    requires Inv(l) && Clean(l, inc) && CanReceive(l)
    ensures Clean(ReceiveFrame(l, ok, partial), inc)
  {
    var n, h := ReceiveFrame(l, ok, partial), l.handler.value;
    ReceiveShape(l, ok, partial);
    hide ReceiveFrame, CanSpeak, HostPart, LogOk, PipesOk, FlowPart;
    if h.inc == inc {
      assert Toward(l)[0] == h.inbox[0];
      if n.handler.Some? {
        assert Toward(n) == Toward(l)[1..];
      }
    }
    GuestClean(l, n, inc);
  }

  lemma RouteClean(l: Link, inc: nat)
    requires Clean(l, inc) && l.down != []
    ensures Clean(RouteFrame(l), inc)
  {
    hide CanSpeak;
    if l.handler.Some? {
      assert Toward(RouteFrame(l)) == Toward(l);
    }
  }

  lemma PushClean(l: Link, f: Frame, inc: nat)
    requires Inv(l) && Clean(l, inc) && UpRunning(l)
    ensures Clean(PushUp(l, f), inc)
  {
    var n := PushUp(l, f);
    assert Toward(n) == Toward(l);
    hide CanSpeak;
    GuestClean(l, n, inc);
  }

  lemma FinishClean(l: Link, inc: nat)
    requires Clean(l, inc) && l.handler.Some?
    ensures Clean(FinishUp(l), inc)
  {
    hide CanSpeak;
    assert Toward(FinishUp(l)) == Toward(l);
  }

  // Host steps.

  lemma HostClean(l: Link, n: Link, out: seq<Frame>, inc: nat)
    requires Clean(l, inc) && n.handler == l.handler && 0 <= n.cur
    requires n.down == l.down + Tag(n.cur, out)
    requires inc < |n.logs| && n.logs[inc].taken == l.logs[inc].taken && n.logs[inc].stray == l.logs[inc].stray
    requires n.handler.Some? && n.handler.value.inc == inc ==>
               (out == [] || n.cur == inc) && (n.cur < inc ==> !CanSpeak(n.session, n.up, inc))
    ensures Clean(n, inc)
  {
    hide CanSpeak;
    assert Toward(n) == Toward(l) + Tag(n.cur, out);
  }

  /** A frame that gets no answer is handled the same whatever else is going on. */
  lemma Unanswered(f: Frame, session: Option<Session>, resolving: bool, full: bool)
    requires HandleFrame(f, session, false, true).out == []
    ensures !f.Open?
    ensures var o := HandleFrame(f, session, resolving, full);
            o.out == [] && o.session == HandleFrame(f, session, false, true).session
  {
  }

  lemma FrameClean(l: Link, full: bool, inc: nat)
    requires Inv(l) && Clean(l, inc) && l.up != []
    ensures Clean(HandleUp(l, full), inc)
  {
    CurBound(l);
    var t, n := l.up[0], HandleUp(l, full);
    var o := HandleFrame(t.frame, l.session, l.resolving, full);
    assert 0 <= n.cur;
    if l.handler.Some? && l.handler.value.inc == inc && l.cur < inc && t.inc < inc {
      Unanswered(t.frame, l.session, l.resolving, full);
    }
    hide HandleFrame, UpFrom, EndTag, DownOk, GuestOk, LogOk, HostOk;
    HostClean(l, n, o.out, inc);
  }

  /** A session that does not speak stays silent through any turn. */
  lemma MuteTurn(id: u16, s: Session, resolving: bool, io: Io)
    requires s.IsOpen() && !Speaks(s) && PossibleIo(s, io)
    ensures var o := RunOpenIo(id, s, resolving, io);
            o.out == [] && (o.session == Some(s) || (o.session == None && s.IsDrained()))
  {
    var t := Transfer(s, io);
    assert t.toSocket == s.toSocket && t.toGuest == s.toGuest;
    assert t == s;
    assert s.toGuest[..Releasable(s)] == [] && s.toGuest[0..] == s.toGuest;
  }

  lemma TurnClean(l: Link, s: Session, io: Io, inc: nat)
    requires Inv(l) && Clean(l, inc) && l.session == Some(s) && s.IsOpen() && PossibleIo(s, io)
    ensures Clean(ServiceIo(l, io), inc)
  {
    var n, o := ServiceIo(l, io), RunOpenIo(l.id, s, l.resolving, io);
    ServiceIs(l, s, io);
    CurBound(l);
    if l.handler.Some? && l.handler.value.inc == inc && l.cur < inc {
      MuteTurn(l.id, s, l.resolving, io);
      if s.IsDrained() {
        DrainedIsGone(s, l.up, inc);
      }
    }
    hide CanSpeak, ServiceIo, RunOpenIo, UpFrom, EndTag, DownOk, GuestOk, LogOk, HostOk;
    HostClean(l, n, o.out, inc);
  }

  lemma ApplyClean(l: Link, o: Outcome, inc: nat)
    requires Inv(l) && Clean(l, inc)
    requires l.handler.Some? && l.handler.value.inc == inc && l.cur < inc ==>
               o.out == [] && o.session == l.session
    ensures Clean(Apply(l, o), inc)
  {
    CurBound(l);
    hide CanSpeak, UpFrom, EndTag, DownOk, GuestOk, LogOk, HostOk;
    if l.cur >= 0 {
      HostClean(l, Apply(l, o), o.out, inc);
    }
  }

  lemma AnswerClean(l: Link, answer: Answer, inc: nat)
    requires Inv(l) && Clean(l, inc)
    ensures Clean(Apply(l, HarvestAnswer(l.id, l.session, answer)), inc)
  {
    hide Inv, Apply;
    ApplyClean(l, HarvestAnswer(l.id, l.session, answer), inc);
  }

  lemma PollClean(l: Link, poll: ConnectPoll, inc: nat)
    requires Inv(l) && Clean(l, inc) && l.session.Some? && l.session.value.state.Connecting?
    ensures Clean(Apply(l, RunConnecting(l.id, l.session.value, l.resolving, poll)), inc)
  {
    hide Inv, Apply;
    assert Speaks(l.session.value);
    ApplyClean(l, RunConnecting(l.id, l.session.value, l.resolving, poll), inc);
  }

  lemma ArriveLeaveClean(l: Link, port: u16, host: seq<byte>, inc: nat)
    requires Clean(l, inc)
    ensures l.handler.None? ==> Clean(RegisterClient(l, port, host), inc)
    ensures Clean(l.(handler := None), inc)
  {
    hide CanSpeak;
  }

  lemma UpEndClean(l: Link, f: Frame, inc: nat)
    requires Inv(l) && Clean(l, inc) && UpRunning(l)
    ensures Clean(FinishUp(PushUp(l, f)), inc)
  {
    hide Clean;
    PushClean(l, f, inc);
    FinishClean(PushUp(l, f), inc);
  }

  lemma CleanStep(l: Link, step: Step, inc: nat)
    requires Inv(l) && Clean(l, inc)
    ensures Clean(Next(l, step), inc)
  {
    hide Inv, Clean, ReceiveFrame, HandleUp, ServiceIo, RouteFrame, RegisterClient, Apply, PushUp, FinishUp;
    match step
    case Register(port, host) => ArriveLeaveClean(l, port, host, inc);
    case Route => if l.down != [] { RouteClean(l, inc); }
    case Receive(ok, partial) => if CanReceive(l) { ReceiveClean(l, ok, partial, inc); }
    case UpData(bytes) => if UpRunning(l) { PushClean(l, Data(l.id, bytes), inc); }
    case UpClose => if UpRunning(l) { UpEndClean(l, Close(l.id), inc); }
    case UpRst => if UpRunning(l) { UpEndClean(l, Rst(l.id), inc); }
    case Deregister => ArriveLeaveClean(l, 0, [], inc);
    case HostFrame(full) => if l.up != [] { FrameClean(l, full, inc); }
    case HostAnswer(answer) => if l.resolving { AnswerClean(l, answer, inc); }
    case HostPoll(poll) =>
      if l.session.Some? && l.session.value.state.Connecting? { PollClean(l, poll, inc); }
    case HostIo(io) =>
      if l.session.Some? && l.session.value.IsOpen() && PossibleIo(l.session.value, io) {
        TurnClean(l, l.session.value, io, inc);
      }
  }

  lemma {:induction false} CleanRun(l: Link, steps: seq<Step>, inc: nat)
    requires Inv(l) && Clean(l, inc)
    ensures Clean(Run(l, steps), inc)
    decreases |steps|
  {
    hide Inv, Clean, Next;
    if steps != [] {
      CleanStep(l, steps[0], inc);
      NextKeeps(l, steps[0]);
      CleanRun(Next(l, steps[0]), steps[1..], inc);
    }
  }

  lemma IdleIsClean(l: Link, port: u16, host: seq<byte>, m: Link)
    requires Inv(l) && l.handler.None? && Idle(l) && Reaches(RegisterClient(l, port, host), m)
    ensures OwnOnly(m, |l.logs|) && |l.logs| < |m.logs| && m.logs[|l.logs|].stray == 0
  {
    var start, inc := RegisterClient(l, port, host), |l.logs|;
    RegisterClean(l, port, host);
    RegisterKeeps(l, port, host);
    hide Run, CanSpeak, PipesOk, HostPart, GuestPart, FlowPart;
    var steps :| Run(start, steps) == m;
    CleanRun(start, steps, inc);
    RunKeeps(start, steps);
  }
}
