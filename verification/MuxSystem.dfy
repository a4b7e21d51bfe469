/** All streams of the mux together: one ordered pipe each way, shared by every
    stream id, the session limit they compete for, and the counter that gives out
    ids.  Seen from one id, every run is a run of its link, so what holds for the
    link holds here. */
module MuxSystem {
  import opened Prelude
  import opened EgressCodec
  import opened EgressSession
  import opened MuxLink
  import opened MuxInv
  import opened MuxGuest
  import opened MuxProof
  import opened MuxFresh
  import opened Forwarder

  /** Both ends of one stream id, without the pipes. */
  datatype Ends = Ends(
    handler: Option<Handler>, session: Option<Session>, resolving: bool, cur: int, logs: seq<Log>)

  const NEW_ENDS := Ends(None, None, false, -1, [])

  datatype Mux = Mux(ends: map<u16, Ends>, down: seq<Tagged>, up: seq<Tagged>, counter: u32)

  const NEW_MUX := Mux(map[], [], [], 1)

  function EndsOf(m: Mux, id: u16): Ends {
    if id in m.ends then m.ends[id] else NEW_ENDS
  }

  /** The frames of stream `id`, in order. */
  function Only(q: seq<Tagged>, id: u16): seq<Tagged> {
    if q == [] then []
    else (if q[0].frame.stream == id then [q[0]] else []) + Only(q[1..], id)
  }

  function View(m: Mux, id: u16): Link {
    var e := EndsOf(m, id);
    Link(id, e.handler, Only(m.down, id), Only(m.up, id), e.session, e.resolving, e.cur, e.logs)
  }

  /** Sessions in the host's table. */
  function SessionIds(m: Mux): set<u16> {
    set id | id in m.ends && m.ends[id].session.Some?
  }

  /** Ids with a handler. */
  function InUse(m: Mux): set<u16> {
    set id | id in m.ends && m.ends[id].handler.Some?
  }

  // Steps.

  /** A step of one stream that takes nothing out of a pipe. */
  predicate LocalStep(step: Step) {
    !step.Register? && !step.Route? && !step.HostFrame?
  }

  /** A client is accepted and takes the first free id, `skipped` ids on; one stream
      takes a step of its own; the guest routes the next frame; the host handles the
      next frame. */
  datatype MuxStep =
    | Accept(port: u16, host: seq<byte>, skipped: nat)
    | Local(id: u16, step: Step)
    | RouteHead
    | HandleHead

  function NextMux(m: Mux, step: MuxStep): Mux {
    match step
    case Accept(port, host, k) =>
      if FirstFree(InUse(m), m.counter, k) then
        var id := Candidate(m.counter, k);
        Install(m, id, Next(View(m, id), Register(port, host)), m.down, m.up)
          .(counter := CounterAfter(m.counter, k))
      else m
    case Local(id, st) =>
      if LocalStep(st) then Install(m, id, Next(View(m, id), st), m.down, m.up) else m
    case RouteHead =>
      if m.down == [] then m
      else
        var id := m.down[0].frame.stream;
        Install(m, id, Next(View(m, id), Route), m.down[1..], m.up)
    case HandleHead =>
      if m.up == [] then m
      else
        var id := m.up[0].frame.stream;
        var full := |SessionIds(m)| >= MAX_SESSIONS;
        Install(m, id, Next(View(m, id), HostFrame(full)), m.down, m.up[1..])
  }

  /** Put stream `id` back after a step, with the frames it added to what is left
      of the pipes. */
  function Install(m: Mux, id: u16, v: Link, down: seq<Tagged>, up: seq<Tagged>): Mux {
    Mux(m.ends[id := Ends(v.handler, v.session, v.resolving, v.cur, v.logs)],
        down + Added(Only(down, id), v.down),
        up + Added(Only(up, id), v.up),
        m.counter)
  }

  function Added(before: seq<Tagged>, after: seq<Tagged>): seq<Tagged> {
    if |before| <= |after| then after[|before|..] else []
  }

  function RunMux(m: Mux, steps: seq<MuxStep>): Mux
    decreases |steps|
  {
    if steps == [] then m else RunMux(NextMux(m, steps[0]), steps[1..])
  }

  // Pipes seen from one stream.

  lemma {:induction false} OnlyAppend(a: seq<Tagged>, b: seq<Tagged>, id: u16)
    ensures Only(a + b, id) == Only(a, id) + Only(b, id)
  {
    if a == [] {
      assert a + b == b;
    } else {
      var first := if a[0].frame.stream == id then [a[0]] else [];
      assert (a + b)[0] == a[0] && (a + b)[1..] == a[1..] + b;
      OnlyAppend(a[1..], b, id);
      OnlyFirst(a, id);
      OnlyFirst(a + b, id);
      hide Only;
      assert first + (Only(a[1..], id) + Only(b, id)) == first + Only(a[1..], id) + Only(b, id);
    }
  }

  lemma OnlyFirst(q: seq<Tagged>, id: u16)
    requires q != []
    ensures Only(q, id) == (if q[0].frame.stream == id then [q[0]] else []) + Only(q[1..], id)
  {
  }

  predicate OfStream(q: seq<Tagged>, id: u16) {
    forall i :: 0 <= i < |q| ==> q[i].frame.stream == id
  }

  lemma {:induction false} OnlyOfStream(q: seq<Tagged>, id: u16, other: u16)
    requires OfStream(q, id)
    ensures Only(q, other) == if other == id then q else []
  {
    if q != [] {
      OnlyOfStream(q[1..], id, other);
    }
  }

  lemma {:induction false} OnlyIsOfStream(q: seq<Tagged>, id: u16)
    ensures OfStream(Only(q, id), id)
  {
    if q != [] {
      OnlyIsOfStream(q[1..], id);
    }
  }

  /** After the part of the pipe that is left, only frames of this stream came. */
  predicate Extends(left: seq<Tagged>, after: seq<Tagged>, id: u16) {
    && |left| <= |after| && after[..|left|] == left
    && OfStream(after[|left|..], id)
  }

  lemma ChunkedOfStream(id: u16, bytes: seq<byte>)
    ensures forall i :: 0 <= i < |Chunked(id, bytes)| ==> Chunked(id, bytes)[i].stream == id
  {
    ChunkedConserves(id, bytes);
  }

  lemma ApplyExtends(l: Link, o: Outcome)
    requires forall i :: 0 <= i < |o.out| ==> o.out[i].stream == l.id
    ensures var n := Apply(l, o);
            n.id == l.id && n.up == l.up && Extends(l.down, n.down, l.id)
  {
  }

  lemma ServiceExtends(l: Link, io: Io)
    requires l.session.Some? && PossibleIo(l.session.value, io)
    ensures var n := ServiceIo(l, io);
            n.id == l.id && n.up == l.up && Extends(l.down, n.down, l.id)
  {
    var s := l.session.value;
    var t := Transfer(s, io);
    ChunkedOfStream(l.id, t.toGuest[..Releasable(t)]);
    hide Chunked;
    ApplyExtends(l, RunOpenIo(l.id, s, l.resolving, io));
  }

  lemma ReceiveExtends(l: Link, ok: bool, partial: nat)
    requires l.handler.Some? && l.handler.value.inbox != []
    ensures var n := ReceiveFrame(l, ok, partial);
            n.id == l.id && n.down == l.down && Extends(l.up, n.up, l.id)
  {
    hide SetLog, LogOf;
  }

  /** A local step only adds to the pipes, and only frames of its own stream. */
  lemma LocalExtends(l: Link, step: Step)
    requires LocalStep(step) || step.Register?
    ensures var n := Next(l, step);
            n.id == l.id && Extends(l.down, n.down, l.id) && Extends(l.up, n.up, l.id)
  {
    hide ReceiveFrame, ServiceIo, HarvestAnswer, RunConnecting, RunOpenIo, Apply;
    match step
    case Receive(ok, partial) => if CanReceive(l) { ReceiveExtends(l, ok, partial); }
    case HostAnswer(answer) =>
      AnswerOut(l.id, l.session, answer);
      ApplyExtends(l, HarvestAnswer(l.id, l.session, answer));
    case HostPoll(poll) =>
      if l.session.Some? {
        PollOut(l.id, l.session.value, l.resolving, poll);
        ApplyExtends(l, RunConnecting(l.id, l.session.value, l.resolving, poll));
      }
    case HostIo(io) =>
      if l.session.Some? && PossibleIo(l.session.value, io) {
        ServiceExtends(l, io);
      }
    case _ =>
  }

  lemma AnswerOut(id: u16, session: Option<Session>, answer: Answer)
    ensures var out := HarvestAnswer(id, session, answer).out;
            forall i :: 0 <= i < |out| ==> out[i].stream == id
  {
  }

  lemma PollOut(id: u16, s: Session, resolving: bool, poll: ConnectPoll)
    ensures var out := RunConnecting(id, s, resolving, poll).out;
            forall i :: 0 <= i < |out| ==> out[i].stream == id
  {
  }

  lemma FrameOut(f: Frame, session: Option<Session>, resolving: bool, full: bool)
    ensures var out := HandleFrame(f, session, resolving, full).out;
            forall i :: 0 <= i < |out| ==> out[i].stream == f.stream
  {
  }

  // Projection.

  /** Installing a step of stream `id` shows up in the view of `id` and in no
      other. */
  lemma InstallView(m: Mux, id: u16, v: Link, down: seq<Tagged>, up: seq<Tagged>, other: u16)
    requires v.id == id
    requires Extends(Only(down, id), v.down, id) && Extends(Only(up, id), v.up, id)
    ensures View(Install(m, id, v, down, up), other)
         == if other == id then v
            else View(m, other).(down := Only(down, other), up := Only(up, other))
  {
    hide Only;
    var newDown, newUp := Added(Only(down, id), v.down), Added(Only(up, id), v.up);
    OnlyAppend(down, newDown, other);
    OnlyAppend(up, newUp, other);
    OnlyOfStream(newDown, id, other);
    OnlyOfStream(newUp, id, other);
    assert Only(down, id) + newDown == v.down;
    assert Only(up, id) + newUp == v.up;
  }

  lemma RouteView(m: Mux, other: u16)
    requires m.down != []
    ensures View(NextMux(m, RouteHead), other)
         == if other == m.down[0].frame.stream then Next(View(m, other), Route) else View(m, other)
  {
    var id := m.down[0].frame.stream;
    var v := Next(View(m, id), Route);
    assert Only(m.down, id) == [m.down[0]] + Only(m.down[1..], id);
    assert v.down == Only(m.down[1..], id);
    hide Next, Only;
    InstallView(m, id, v, m.down[1..], m.up, other);
    if other != id {
      OnlySkips(m.down, other);
    }
  }

  lemma OnlySkips(q: seq<Tagged>, other: u16)
    requires q != [] && q[0].frame.stream != other
    ensures Only(q, other) == Only(q[1..], other)
  {
  }

  lemma HandleView(m: Mux, other: u16)
    requires m.up != []
    ensures View(NextMux(m, HandleHead), other)
         == if other == m.up[0].frame.stream
            then Next(View(m, other), HostFrame(|SessionIds(m)| >= MAX_SESSIONS))
            else View(m, other)
  {
    var id := m.up[0].frame.stream;
    var full := |SessionIds(m)| >= MAX_SESSIONS;
    var l := View(m, id);
    assert Only(m.up, id) == [m.up[0]] + Only(m.up[1..], id);
    var v := Next(l, HostFrame(full));
    FrameOut(l.up[0].frame, l.session, l.resolving, full);
    HandleUpExtends(l, full);
    hide Next, Only, HandleUp;
    InstallView(m, id, v, m.down, m.up[1..], other);
    if other != id {
      OnlySkips(m.up, other);
    }
  }

  lemma HandleUpExtends(l: Link, full: bool)
    requires l.up != [] && l.up[0].frame.stream == l.id
    ensures var n := HandleUp(l, full);
            n.id == l.id && Extends(l.down, n.down, l.id) && n.up == l.up[1..]
  {
    hide HandleFrame;
    FrameOut(l.up[0].frame, l.session, l.resolving, full);
  }

  lemma LocalView(m: Mux, id: u16, step: Step, other: u16)
    requires LocalStep(step)
    ensures View(NextMux(m, Local(id, step)), other)
         == if other == id then Next(View(m, id), step) else View(m, other)
  {
    hide Next, Only;
    LocalExtends(View(m, id), step);
    InstallView(m, id, Next(View(m, id), step), m.down, m.up, other);
  }

  lemma AcceptView(m: Mux, port: u16, host: seq<byte>, k: nat, other: u16)
    requires FirstFree(InUse(m), m.counter, k)
    ensures var id := Candidate(m.counter, k);
            View(NextMux(m, Accept(port, host, k)), other)
            == if other == id then RegisterClient(View(m, id), port, host) else View(m, other)
  {
    var id := Candidate(m.counter, k);
    assert Next(View(m, id), Register(port, host)) == RegisterClient(View(m, id), port, host);
    hide Next, Only, RegisterClient;
    LocalExtends(View(m, id), Register(port, host));
    InstallView(m, id, Next(View(m, id), Register(port, host)), m.down, m.up, other);
  }

  /** Seen from any one stream, a step of the mux is a step of its link or none. */
  lemma StepProjects(m: Mux, step: MuxStep, id: u16)
    ensures Reaches(View(m, id), View(NextMux(m, step), id))
  {
    hide Next, Install, Only;
    var l := View(m, id);
    assert Run(l, []) == l;
    match step
    case Accept(port, host, k) =>
      if FirstFree(InUse(m), m.counter, k) {
        AcceptView(m, port, host, k, id);
        ReachesNext(l, l, Register(port, host));
        AcceptIsRegister(m, port, host, k);
      }
    case Local(at, st) =>
      if LocalStep(st) {
        LocalView(m, at, st, id);
        ReachesNext(l, l, st);
      }
    case RouteHead =>
      if m.down != [] {
        RouteView(m, id);
        ReachesNext(l, l, Route);
      }
    case HandleHead =>
      if m.up != [] {
        HandleView(m, id);
        ReachesNext(l, l, HostFrame(|SessionIds(m)| >= MAX_SESSIONS));
      }
  }

  lemma AcceptIsRegister(m: Mux, port: u16, host: seq<byte>, k: nat)
    requires FirstFree(InUse(m), m.counter, k)
    ensures var l := View(m, Candidate(m.counter, k));
            Next(l, Register(port, host)) == RegisterClient(l, port, host)
  {
  }

  /** Seen from any one stream, a run of the whole mux is a run of its link. */
  lemma {:induction false} RunProjects(m: Mux, steps: seq<MuxStep>, id: u16)
    ensures Reaches(View(m, id), View(RunMux(m, steps), id))
    decreases |steps|
  {
    hide NextMux, View;
    if steps == [] {
      assert Run(View(m, id), []) == View(m, id);
    } else {
      hide Run;
      StepProjects(m, steps[0], id);
      RunProjects(NextMux(m, steps[0]), steps[1..], id);
      ReachesOn(View(m, id), View(NextMux(m, steps[0]), id), View(RunMux(m, steps), id));
    }
  }

  // The promises of the channel, for every stream in every run.

  lemma MuxRunKeeps(steps: seq<MuxStep>, id: u16)
    ensures Inv(View(RunMux(NEW_MUX, steps), id))
  {
    assert View(NEW_MUX, id) == NewLink(id);
    hide RunMux, View, Run;
    RunProjects(NEW_MUX, steps, id);
    NewLinkInv(id);
    var run :| Run(NewLink(id), run) == View(RunMux(NEW_MUX, steps), id);
    RunKeeps(NewLink(id), run);
  }

  lemma MuxRunRests(steps: seq<MuxStep>, id: u16)
    ensures AtRest(View(RunMux(NEW_MUX, steps), id))
  {
    assert View(NEW_MUX, id) == NewLink(id);
    hide RunMux, View, Run;
    RunProjects(NEW_MUX, steps, id);
    var run :| Run(NewLink(id), run) == View(RunMux(NEW_MUX, steps), id);
    RestRun(NewLink(id), run);
  }

  /** Two-sided flow control, for every stream that is up. */
  lemma MuxFlowControl(steps: seq<MuxStep>, id: u16)
    ensures var l := View(RunMux(NEW_MUX, steps), id);
            Live(l) && Countable(LogOf(l, l.handler.value.inc).stray) ==>
              var credit, ungranted := l.session.value.credit, l.handler.value.ungranted;
              var stray := LogOf(l, l.handler.value.inc).stray;
              && credit + DataInFlight(l) + ungranted + CreditInFlight(l) == WINDOW_BYTES + stray
              && DataInFlight(l) <= WINDOW_BYTES + stray
              && (DataInFlight(l) == 0 && CreditInFlight(l) == 0 ==> credit > 0)
  {
    MuxRunKeeps(steps, id);
    hide RunMux, View, DataInFlight, CreditInFlight, LogsOk, PipesOk, HostPart, GuestOk, FlowPart;
    var l := View(RunMux(NEW_MUX, steps), id);
    if Live(l) && Countable(LogOf(l, l.handler.value.inc).stray) {
      FlowControl(l);
    }
  }

  /** End-to-end byte order, for every use of every id. */
  lemma MuxByteOrder(steps: seq<MuxStep>, id: u16, inc: nat)
    requires inc < |EndsOf(RunMux(NEW_MUX, steps), id).logs|
    ensures var g := EndsOf(RunMux(NEW_MUX, steps), id).logs[inc];
            && g.stray <= |g.delivered| && g.delivered[g.stray..] <= g.yielded
            && (g.sawClose ==> g.delivered[g.stray..] == g.yielded)
            && g.written <= g.pushed
            && forall i, j :: 0 <= i < j < |g.sent| && g.sent[i].Close? ==> g.sent[j].Rst?
  {
    hide Inv, RunMux;
    MuxRunKeeps(steps, id);
    ByteOrder(View(RunMux(NEW_MUX, steps), id), inc);
  }
}
