/** One stream id of the egress mux with both of its ends: the guest handler, the
    host session, and the two ordered pipes of frames between them, as a state
    machine over every interleaving.  A stream id is used many times, so each use
    has an incarnation number; frames and histories carry it, the programs at the
    two ends never look at it. */
module MuxLink {
  import opened Prelude
  import opened EgressCodec
  import opened EgressSession

  const WINDOW_GRANT_THRESHOLD: nat := 16 * 1024
  const CLIENT_READ_CHUNK: nat := 16 * 1024

  datatype Tagged = Tagged(inc: nat, frame: Frame)

  /** Where a guest connection handler stands: waiting for the connect verdict,
      relaying both ways, or waiting for its up thread after `relay_down` ended. */
  datatype Phase = Opening | Relaying | Closing

  datatype Handler = Handler(inc: nat, phase: Phase, inbox: seq<Tagged>, ungranted: nat, upDone: bool)

  /** Everything that ever happened to one incarnation. */
  datatype Log = Log(
    inc: nat,
    yielded: seq<byte>,    // bytes read from the host socket
    sent: seq<Frame>,      // frames the host queued for the guest
    taken: seq<Tagged>,    // frames its handler has acted on
    delivered: seq<byte>,  // bytes written to the client
    stray: nat,            // how many of them came in frames of another incarnation
    sawClose: bool,        // the handler acted on this incarnation's CLOSE
    pushed: seq<byte>,     // client bytes framed toward the host
    written: seq<byte>)    // bytes the host socket accepted

  function NewLog(inc: nat): Log {
    Log(inc, [], [], [], [], 0, false, [], [])
  }

  datatype Link = Link(
    id: u16,
    handler: Option<Handler>,
    down: seq<Tagged>,     // host to guest, not yet routed
    up: seq<Tagged>,       // guest to host, not yet handled
    session: Option<Session>,
    resolving: bool,
    cur: int,              // incarnation of the last OPEN handled, -1 before any
    logs: seq<Log>)        // one per incarnation so far
  {
    function Last(): int { |logs| - 1 }
  }

  function NewLink(id: u16): Link {
    Link(id, None, [], [], None, false, -1, [])
  }

  // Steps.  Each parameter is a choice of the environment or the scheduler; a
  // step that is not possible leaves the link as it is.

  datatype Step =
    | Register(port: u16, host: seq<byte>)
    | Route
    | Receive(ok: bool, partial: nat)
    | UpData(bytes: seq<byte>)
    | UpClose
    | UpRst
    | Deregister
    | HostFrame(full: bool)
    | HostAnswer(answer: Answer)
    | HostPoll(poll: ConnectPoll)
    | HostIo(io: Io)

  function Next(l: Link, step: Step): Link {
    match step
    case Register(port, host) => if l.handler.None? then RegisterClient(l, port, host) else l
    case Route => if l.down != [] then RouteFrame(l) else l
    case Receive(ok, partial) =>
      if l.handler.Some? && !l.handler.value.phase.Closing? && l.handler.value.inbox != []
      then ReceiveFrame(l, ok, partial) else l
    case UpData(bytes) =>
      if UpRunning(l) && 0 < |bytes| <= CLIENT_READ_CHUNK
      then PushUp(l, Data(l.id, bytes)) else l
    case UpClose => if UpRunning(l) then FinishUp(PushUp(l, Close(l.id))) else l
    case UpRst => if UpRunning(l) then FinishUp(PushUp(l, Rst(l.id))) else l
    case Deregister =>
      if l.handler.Some? && l.handler.value.phase.Closing? && l.handler.value.upDone
      then l.(handler := None) else l
    case HostFrame(full) => if l.up != [] then HandleUp(l, full) else l
    case HostAnswer(answer) =>
      if l.resolving then Apply(l, HarvestAnswer(l.id, l.session, answer)) else l
    case HostPoll(poll) =>
      if l.session.Some? && l.session.value.state.Connecting?
      then Apply(l, RunConnecting(l.id, l.session.value, l.resolving, poll)) else l
    case HostIo(io) =>
      if l.session.Some? && l.session.value.IsOpen() && PossibleIo(l.session.value, io)
      then ServiceIo(l, io) else l
  }

  // The guest end.

  function RegisterClient(l: Link, port: u16, host: seq<byte>): Link {
    var inc := |l.logs|;
    l.(handler := Some(Handler(inc, Opening, [], 0, false)),
       up := l.up + [Tagged(inc, Open(l.id, port, host))],
       logs := l.logs + [NewLog(inc)])
  }

  /** Hand the next frame to the handler registered for it, if there is one. */
  function RouteFrame(l: Link): Link
    requires l.down != []
  {
    var h := match l.handler
             case None => None
             case Some(h) => Some(h.(inbox := h.inbox + [l.down[0]]));
    l.(down := l.down[1..], handler := h)
  }

  /** The handler takes one message.  `ok` is whether the SOCKS reply or the
      client write succeeded; a failed client write had put out `partial` bytes. */
  function ReceiveFrame(l: Link, ok: bool, partial: nat): Link
    requires l.handler.Some? && l.handler.value.inbox != []
  {
    var h := l.handler.value;
    var f := h.inbox[0].frame;
    var h' := h.(inbox := h.inbox[1..]);
    var own := h.inbox[0].inc == h.inc;
    var m := Took(l, h.inc, h.inbox[0]);
    if h.phase.Opening? then
      if f.OpenOk? && ok then m.(handler := Some(h'.(phase := Relaying)))
      else if f.OpenOk? then SendUp(m, h.inc, Rst(l.id)).(handler := None)
      else m.(handler := None)
    else match f
         case Data(_, bytes) =>
           if ok then Granted(Delivered(m, h.inc, bytes, own), h'.(ungranted := h.ungranted + |bytes|))
           else SendUp(Delivered(m, h.inc, bytes[..Min(partial, |bytes|)], own), h.inc, Rst(l.id))
                .(handler := Some(h'.(phase := Closing)))
         case Close(_) => SawClose(m, h.inc, own).(handler := Some(h'.(phase := Closing)))
         case Rst(_) => m.(handler := Some(h'.(phase := Closing)))
         case _ => m.(handler := Some(h'))
  }

  /** Return the credit once enough delivered bytes have piled up. */
  function Granted(l: Link, h: Handler): Link {
    if h.ungranted >= WINDOW_GRANT_THRESHOLD then
      SendUp(l, h.inc, Window(l.id, h.ungranted % 0x1_0000_0000))
      .(handler := Some(h.(ungranted := 0)))
    else l.(handler := Some(h))
  }

  predicate UpRunning(l: Link) {
    && l.handler.Some? && !l.handler.value.phase.Opening? && !l.handler.value.upDone
  }

  function PushUp(l: Link, f: Frame): Link
    requires l.handler.Some?
  {
    var inc := l.handler.value.inc;
    var m := SendUp(l, inc, f);
    if f.Data? then SetLog(m, inc, LogOf(l, inc).(pushed := LogOf(l, inc).pushed + f.payload)) else m
  }

  function FinishUp(l: Link): Link
    requires l.handler.Some?
  {
    l.(handler := Some(l.handler.value.(upDone := true)))
  }

  function SendUp(l: Link, inc: nat, f: Frame): Link {
    l.(up := l.up + [Tagged(inc, f)])
  }

  // The host end.

  /** The stream after `o`: its frames join the down pipe under the incarnation
      the host last opened. */
  function Apply(l: Link, o: Outcome): Link {
    var m := l.(session := o.session, resolving := o.resolving);
    if l.cur < 0 then m
    else
      SetLog(m.(down := l.down + Tag(l.cur, o.out)), l.cur,
             LogOf(l, l.cur).(sent := LogOf(l, l.cur).sent + o.out))
  }

  function Tag(inc: nat, frames: seq<Frame>): seq<Tagged> {
    seq(|frames|, i requires 0 <= i < |frames| => Tagged(inc, frames[i]))
  }

  function HandleUp(l: Link, full: bool): Link
    requires l.up != []
  {
    var t := l.up[0];
    var m := l.(up := l.up[1..], cur := if t.frame.Open? then t.inc else l.cur);
    Apply(m, HandleFrame(t.frame, l.session, l.resolving, full))
  }

  function ServiceIo(l: Link, io: Io): Link
    requires l.session.Some? && PossibleIo(l.session.value, io)
  {
    var s := l.session.value;
    var m := Apply(l, RunOpenIo(l.id, s, l.resolving, io));
    if l.cur < 0 then m
    else
      var g := LogOf(m, l.cur);
      SetLog(m, l.cur, g.(yielded := g.yielded + io.received,
                          written := g.written + s.toSocket[..io.accepted]))
  }

  // Histories.

  function LogOf(l: Link, inc: nat): Log {
    if inc < |l.logs| then l.logs[inc] else NewLog(inc)
  }

  function SetLog(l: Link, inc: nat, g: Log): (m: Link)
    ensures m == l.(logs := m.logs)
  {
    if inc < |l.logs| then l.(logs := l.logs[inc := g]) else l
  }

  function Took(l: Link, inc: nat, t: Tagged): Link {
    SetLog(l, inc, LogOf(l, inc).(taken := LogOf(l, inc).taken + [t]))
  }

  function Delivered(l: Link, inc: nat, bytes: seq<byte>, own: bool): Link {
    var g := LogOf(l, inc);
    SetLog(l, inc, g.(delivered := g.delivered + bytes, stray := g.stray + if own then 0 else |bytes|))
  }

  function SawClose(l: Link, inc: nat, own: bool): Link {
    SetLog(l, inc, LogOf(l, inc).(sawClose := LogOf(l, inc).sawClose || own))
  }

  // Runs.

  function Run(l: Link, steps: seq<Step>): Link
    decreases |steps|
  {
    if steps == [] then l else Run(Next(l, steps[0]), steps[1..])
  }

  ghost predicate Reaches(l: Link, m: Link) {
    exists steps :: Run(l, steps) == m
  }

  lemma {:induction false} RunAppend(l: Link, a: seq<Step>, b: seq<Step>)
    ensures Run(l, a + b) == Run(Run(l, a), b)
    decreases |a|
  {
    hide Next;
    if a == [] {
      assert a + b == b;
    } else {
      assert (a + b)[0] == a[0] && (a + b)[1..] == a[1..] + b;
      RunAppend(Next(l, a[0]), a[1..], b);
    }
  }

  lemma ReachesNext(l: Link, m: Link, step: Step)
    requires Reaches(l, m)
    ensures Reaches(l, Next(m, step))
  {
    var steps :| Run(l, steps) == m;
    RunAppend(l, steps, [step]);
    assert [step][1..] == [];
    assert Run(m, [step]) == Run(Next(m, step), []);
    hide Next;
  }

  lemma ReachesOn(l: Link, m: Link, n: Link)
    requires Reaches(l, m) && Reaches(m, n)
    ensures Reaches(l, n)
  {
    hide Next, Run;
    var a :| Run(l, a) == m;
    var b :| Run(m, b) == n;
    RunAppend(l, a, b);
  }
}
