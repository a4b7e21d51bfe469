/** The whole session table of the host backend, against a guest that may send any
    frames at all: which sockets are open, which DNS requests are outstanding, and
    whose request an answer belongs to. */
module EgressHost {
  import opened Prelude
  import opened EgressCodec
  import opened EgressSession

  /** A DNS request handed to the resolver.  The ticket tells two requests for the
      same stream id apart; the backend only ever sees the stream id. */
  datatype Job = Job(stream: u16, ticket: nat)

  datatype Host = Host(
    sessions: map<u16, Session>,
    resolving: set<u16>,
    sockets: set<u16>,             // sockets the connector holds
    halfClosed: set<u16>,          // sockets whose write half is shut down
    yielded: map<u16, seq<byte>>,  // bytes the sockets of a stream yielded so far
    taken: map<u16, seq<byte>>,    // bytes the sockets of a stream took so far
    asked: set<Job>,               // requests the resolver has not answered
    tickets: nat,                  // requests so far
    owner: map<u16, nat>,          // the request made for a stream's last session
    out: seq<Frame>)               // every frame queued for the guest so far

  const NEW_HOST := Host(map[], {}, {}, {}, map[], map[], {}, 0, map[], [])

  function SessionOf(h: Host, id: u16): Option<Session> {
    if id in h.sessions then Some(h.sessions[id]) else None
  }

  /** What went through the sockets of `id`, over all its uses. */
  function History(bytes: map<u16, seq<byte>>, id: u16): seq<byte> {
    if id in bytes then bytes[id] else []
  }

  function Grown(bytes: map<u16, seq<byte>>, id: u16, more: seq<byte>): (r: map<u16, seq<byte>>)
    ensures forall k: u16 :: History(r, k) == if k == id then History(bytes, k) + more else History(bytes, k)
  {
    if more == [] then bytes else bytes[id := History(bytes, id) + more]
  }

  datatype HostStep =
    | Frame(frame: EgressCodec.Frame)
    | Harvest(job: Job, answer: Answer)
    | Poll(id: u16, poll: ConnectPoll)
    | Turn(id: u16, io: Io)

  /** The table after one stream's outcome. */
  function Install(h: Host, id: u16, o: Outcome): Host {
    Host(
      if o.session.Some? then h.sessions[id := o.session.value] else h.sessions - {id},
      if o.resolving then h.resolving + {id} else h.resolving - {id},
      match o.effect {
        case SocketOpened => h.sockets + {id}
        case SocketClosed => h.sockets - {id}
        case _ => h.sockets
      },
      match o.effect {
        case ShutdownWrite => if id in h.sockets then h.halfClosed + {id} else h.halfClosed
        case SocketOpened => h.halfClosed - {id}
        case SocketClosed => h.halfClosed - {id}
        case _ => h.halfClosed
      },
      h.yielded,
      h.taken,
      if o.effect.StartResolve? then h.asked + {Job(id, h.tickets)} else h.asked,
      if o.effect.StartResolve? then h.tickets + 1 else h.tickets,
      if o.effect.StartResolve? then h.owner[id := h.tickets] else h.owner,
      h.out + o.out)
  }

  predicate Possible(h: Host, step: HostStep) {
    match step
    case Frame(f) => true
    case Harvest(job, _) => job in h.asked
    case Poll(id, poll) =>
      && id in h.sessions && h.sessions[id].state.Connecting?
      && (poll.Failed? ==> !poll.reason.Other?)
    case Turn(id, io) => id in h.sessions && h.sessions[id].IsOpen() && PossibleIo(h.sessions[id], io)
  }

  function OutcomeOf(h: Host, step: HostStep): Outcome
    requires Possible(h, step)
  {
    match step
    case Frame(f) =>
      HandleFrame(f, SessionOf(h, f.stream), f.stream in h.resolving, |h.sessions| >= MAX_SESSIONS)
    case Harvest(job, answer) => HarvestAnswer(job.stream, SessionOf(h, job.stream), answer)
    case Poll(id, poll) => RunConnecting(id, h.sessions[id], id in h.resolving, poll)
    case Turn(id, io) => RunOpenIo(id, h.sessions[id], id in h.resolving, io)
  }

  function StreamOf(step: HostStep): u16 {
    match step
    case Frame(f) => f.stream
    case Harvest(job, _) => job.stream
    case Poll(id, _) => id
    case Turn(id, _) => id
  }

  /** The outside world's part of a step: an answer leaves the resolver, bytes go
      through a socket. */
  function Heard(h: Host, step: HostStep): Host
    requires Possible(h, step)
  {
    match step
    case Harvest(job, _) => h.(asked := h.asked - {job})
    case Turn(id, io) =>
      h.(yielded := Grown(h.yielded, id, io.received),
         taken := Grown(h.taken, id, h.sessions[id].toSocket[..io.accepted]))
    case _ => h
  }

  function NextHost(h: Host, step: HostStep): Host {
    if !Possible(h, step) then h
    else Install(Heard(h, step), StreamOf(step), OutcomeOf(h, step))
  }

  function RunHost(h: Host, steps: seq<HostStep>): Host
    decreases |steps|
  {
    if steps == [] then h else NextHost(RunHost(h, steps[..|steps| - 1]), steps[|steps| - 1])
  }

  // The invariant.

  predicate SessionOk(h: Host, id: u16)
    requires id in h.sessions
  {
    var s := h.sessions[id];
    && s.Valid()
    && (s.state.Resolving? <==> id in h.resolving)
    && (s.state.Resolving? ==> id in h.owner && Job(id, h.owner[id]) in h.asked)
    && (!s.state.Resolving? <==> id in h.sockets)
    && (id in h.halfClosed ==> s.guestWriteClosed)
    && (s.IsOpen() && s.guestWriteClosed ==> id in h.halfClosed)
  }

  predicate SessionsOk(h: Host) {
    && |h.sessions| <= MAX_SESSIONS
    && (forall id <- h.sessions :: SessionOk(h, id))
    && (forall id <- h.sockets :: id in h.sessions)
    && h.halfClosed <= h.sockets
  }

  /** One outstanding request per stream id, and exactly for the ids resolving. */
  ghost predicate AskedOk(h: Host) {
    && (forall j <- h.asked :: j.ticket < h.tickets && j.stream in h.resolving)
    && (forall j, k :: j in h.asked && k in h.asked && j.stream == k.stream ==> j == k)
    && (forall id <- h.resolving :: exists j :: j in h.asked && j.stream == id)
  }

  ghost predicate HostInv(h: Host) {
    SessionsOk(h) && AskedOk(h) && WireFrames(h.out)
  }

  /** What a step must leave on its own stream for the table to stay in order. */
  predicate Consistent(id: u16, o: Outcome, socket: bool, half: bool) {
    var socket' := if o.effect.SocketOpened? then true
                   else if o.effect.SocketClosed? then false else socket;
    var half' := if o.effect.ShutdownWrite? then socket || half
                 else half && !o.effect.SocketOpened? && !o.effect.SocketClosed?;
    && (o.session.None? ==> !socket') && (half' ==> socket')
    && (o.session.Some? ==>
          && o.session.value.Valid()
          && (o.session.value.state.Resolving? <==> o.resolving)
          && (o.session.value.state.Resolving? <==> !socket')
          && (half' ==> o.session.value.guestWriteClosed)
          && (o.session.value.IsOpen() && o.session.value.guestWriteClosed ==> half'))
    && WireFrames(o.out)
  }

  lemma ChunkedWire(id: u16, bytes: seq<byte>)
    ensures WireFrames(Chunked(id, bytes))
  {
    ChunkedConserves(id, bytes);
  }

  lemma FrameConsistent(f: EgressCodec.Frame, session: Option<Session>, resolving: bool, socket: bool, half: bool,
                        full: bool)
    requires session.Some? ==>
               && session.value.Valid()
               && (session.value.state.Resolving? <==> resolving)
               && (session.value.state.Resolving? <==> !socket)
               && (half ==> session.value.guestWriteClosed)
               && (session.value.IsOpen() && session.value.guestWriteClosed ==> half)
    requires session.None? ==> !socket
    requires half ==> socket
    ensures Consistent(f.stream, HandleFrame(f, session, resolving, full), socket, half)
  {
    hide ReasonCode, ReasonFromCode;
    HandleFrameKeepsValid(f, session, resolving, full);
    var o := HandleFrame(f, session, resolving, full);
    if o.out != [] {
      EndingFramesWire(f.stream, StreamLimit);
      EndingFramesWire(f.stream, ProtocolError);
    }
  }

  lemma EndingFramesWire(id: u16, reason: Reason)
    requires !reason.Other?
    ensures WireFrame(Rst(id)) && WireFrame(OpenErr(id, reason)) && WireFrame(OpenOk(id))
    ensures WireFrame(EgressCodec.Frame.Close(id))
  {
  }

  lemma TurnConsistent(id: u16, s: Session, io: Io)
    requires s.Valid() && s.IsOpen() && PossibleIo(s, io)
    ensures Consistent(id, RunOpenIo(id, s, false, io), true, s.guestWriteClosed)
  {
    hide Chunked, WireFrame;
    RunOpenIoKeepsValid(id, s, false, io);
    EndingFramesWire(id, Overrun);
    var t := Transfer(s, io);
    ChunkedWire(id, t.toGuest[..Releasable(t)]);
  }

  lemma FewerSessions(h: Host, id: u16, o: Outcome)
    requires o.session.Some? ==> id in h.sessions
    ensures |Install(h, id, o).sessions| <= |h.sessions|
  {
    var n := Install(h, id, o);
    assert n.sessions.Keys <= h.sessions.Keys;
    SubMap(n.sessions, h.sessions);
  }

  /** A session other than the one that moved. */
  lemma OtherSession(h: Host, n: Host, id: u16, k: u16)
    requires k != id && k in h.sessions && SessionOk(h, k)
    requires k in n.sessions && n.sessions[k] == h.sessions[k]
    requires k in n.resolving <==> k in h.resolving
    requires k in n.sockets <==> k in h.sockets
    requires k in n.halfClosed <==> k in h.halfClosed
    requires k in h.owner ==> k in n.owner && n.owner[k] == h.owner[k]
    requires forall j :: j in h.asked && j.stream == k ==> j in n.asked
    ensures SessionOk(n, k)
  {
  }

  /** Installing a consistent outcome that dispatches no request. */
  lemma InstallSessions(h: Host, id: u16, o: Outcome)
    requires SessionsOk(h) && Consistent(id, o, id in h.sockets, id in h.halfClosed)
    requires !o.effect.StartResolve? && o.resolving == (id in h.resolving)
    requires o.session.Some? ==> id in h.sessions
    ensures SessionsOk(Install(h, id, o))
  {
    hide Session.Valid, WireFrames;
    var n := Install(h, id, o);
    FewerSessions(h, id, o);
    forall k <- n.sessions ensures SessionOk(n, k) {
      if k != id {
        OtherSession(h, n, id, k);
      } else {
        assert SessionOk(h, k);
      }
    }
  }

  lemma InstallKeeps(h: Host, id: u16, o: Outcome)
    requires HostInv(h) && Consistent(id, o, id in h.sockets, id in h.halfClosed)
    requires !o.effect.StartResolve? && o.resolving == (id in h.resolving)
    requires o.session.Some? ==> id in h.sessions
    ensures HostInv(Install(h, id, o))
  {
    hide SessionsOk, WireFrame, Session.Valid;
    InstallSessions(h, id, o);
    var n := Install(h, id, o);
    assert n.resolving == h.resolving;
  }

  /** The table after a new OPEN with its request. */
  lemma OpenedTable(h: Host, id: u16, n: Host)
    requires id !in h.sessions && n == Install(h, id, Outcome(Some(NEW_SESSION), true, [], StartResolve))
    ensures n.sessions == h.sessions[id := NEW_SESSION] && |n.sessions| == |h.sessions| + 1
    ensures n.resolving == h.resolving + {id} && n.sockets == h.sockets && n.halfClosed == h.halfClosed
    ensures n.owner == h.owner[id := h.tickets] && n.asked == h.asked + {Job(id, h.tickets)}
  {
    assert n.sessions.Keys == h.sessions.Keys + {id};
    assert |n.sessions.Keys| == |h.sessions.Keys| + 1;
  }

  lemma OpenSessions(h: Host, id: u16)
    requires SessionsOk(h) && id !in h.sessions && id !in h.resolving && |h.sessions| < MAX_SESSIONS
    ensures SessionsOk(Install(h, id, Outcome(Some(NEW_SESSION), true, [], StartResolve)))
  {
    var n := Install(h, id, Outcome(Some(NEW_SESSION), true, [], StartResolve));
    OpenedTable(h, id, n);
    hide Install;
    assert id !in n.sockets;
    assert SessionOk(n, id);
    hide SessionOk;
    forall k <- n.sessions ensures SessionOk(n, k) {
      if k != id {
        OtherSession(h, n, id, k);
      }
    }
  }

  lemma OpenInstallKeeps(h: Host, id: u16)
    requires HostInv(h) && id !in h.sessions && id !in h.resolving && |h.sessions| < MAX_SESSIONS
    ensures HostInv(Install(h, id, Outcome(Some(NEW_SESSION), true, [], StartResolve)))
  {
    hide WireFrames, SessionsOk, AskedOk;
    assert h.out + [] == h.out;
    OpenSessions(h, id);
    OpenAskedOk(h, id);
  }

  lemma OpenAskedOk(h: Host, id: u16)
    requires AskedOk(h) && id !in h.resolving
    ensures AskedOk(Install(h, id, Outcome(Some(NEW_SESSION), true, [], StartResolve)))
  {
    var n := Install(h, id, Outcome(Some(NEW_SESSION), true, [], StartResolve));
    forall k <- n.resolving ensures exists j :: j in n.asked && j.stream == k {
      if k == id {
        assert Job(id, h.tickets) in n.asked;
      } else {
        var j :| j in h.asked && j.stream == k;
        assert j in n.asked;
      }
    }
  }

  /** Taking an answer off the resolver. */
  lemma AnsweredAskedOk(h: Host, n: Host, job: Job)
    requires AskedOk(h) && job in h.asked
    requires n.asked == h.asked - {job} && n.tickets == h.tickets
    requires n.resolving == h.resolving - {job.stream}
    ensures AskedOk(n)
  {
    forall k <- n.resolving ensures exists j :: j in n.asked && j.stream == k {
      var j :| j in h.asked && j.stream == k;
      assert j in n.asked;
    }
  }

  lemma HarvestShape(id: u16, session: Option<Session>, answer: Answer)
    requires session.Some? ==> session.value.Valid()
    ensures var o := HarvestAnswer(id, session, answer);
            && !o.resolving && WireFrames(o.out)
            && (o.session.Some? ==> session.Some? && o.session.value.Valid() && !o.session.value.state.Resolving?)
            && (session.Some? && session.value.state.Resolving? ==>
                  o.effect == if o.session.Some? then SocketOpened else SocketClosed)
            && (session.None? || !session.value.state.Resolving? ==> o.effect.NoEffect? && o.session == session)
            && (o.session.Some? && o.session.value.IsOpen() ==> o.effect.NoEffect?)
  {
    EndingFramesWire(id, ResolveFailed);
    EndingFramesWire(id, Unreachable);
    hide WireFrame;
  }

  /** The table after an answer, in terms of what was decided for its stream. */
  lemma HarvestedTable(h: Host, job: Job, answer: Answer, o: Outcome, n: Host)
    requires job in h.asked && o == HarvestAnswer(job.stream, SessionOf(h, job.stream), answer)
    requires n == NextHost(h, Harvest(job, answer)) && !o.resolving && !o.effect.StartResolve?
    requires !o.effect.ShutdownWrite?
    requires o.session.Some? ==> job.stream in h.sessions
    ensures n.owner == h.owner && n.asked == h.asked - {job} && n.resolving == h.resolving - {job.stream}
    ensures n.sessions == if o.session.Some? then h.sessions[job.stream := o.session.value]
                   else h.sessions - {job.stream}
    ensures n.sockets == (match o.effect case SocketOpened => h.sockets + {job.stream}
                                         case SocketClosed => h.sockets - {job.stream}
                                         case _ => h.sockets)
    ensures n.halfClosed == if o.effect.SocketOpened? || o.effect.SocketClosed? then h.halfClosed - {job.stream}
                     else h.halfClosed
    ensures |n.sessions| <= |h.sessions|
  {
    hide HarvestAnswer;
    FewerSessions(h.(asked := h.asked - {job}), job.stream, o);
  }

  lemma HarvestSessions(h: Host, job: Job, answer: Answer)
    requires SessionsOk(h) && job in h.asked
    ensures SessionsOk(NextHost(h, Harvest(job, answer)))
  {
    hide Session.Valid, WireFrames, HarvestAnswer, NextHost, SessionOk;
    var id := job.stream;
    var o := HarvestAnswer(id, SessionOf(h, id), answer);
    var n := NextHost(h, Harvest(job, answer));
    OwnIsValid(h, id);
    HarvestShape(id, SessionOf(h, id), answer);
    HarvestedTable(h, job, answer, o, n);
    HarvestOwn(h, job, answer, o, n);
    forall k <- n.sessions ensures SessionOk(n, k) {
      if k != id {
        OtherFields(h, n, id, o, k);
        HarvestOther(h, n, job, k);
      }
    }
  }

  lemma OwnIsValid(h: Host, id: u16)
    requires SessionsOk(h)
    ensures SessionOf(h, id).Some? ==> SessionOf(h, id).value.Valid()
  {
    assert id in h.sessions ==> SessionOk(h, id);
  }

  lemma OtherFields(h: Host, n: Host, id: u16, o: Outcome, k: u16)
    requires k != id && k in n.sessions
    requires n.sessions == if o.session.Some? then h.sessions[id := o.session.value] else h.sessions - {id}
    requires n.sockets == (match o.effect case SocketOpened => h.sockets + {id}
                                          case SocketClosed => h.sockets - {id}
                                          case _ => h.sockets)
    requires n.halfClosed == if o.effect.SocketOpened? || o.effect.SocketClosed? then h.halfClosed - {id}
                      else h.halfClosed
    ensures k in h.sessions && n.sessions[k] == h.sessions[k] && (k in n.sockets <==> k in h.sockets)
    ensures k in n.halfClosed <==> k in h.halfClosed
  {
  }

  /** The answered stream itself: it has left Resolving, with a socket if it goes on. */
  lemma HarvestOwn(h: Host, job: Job, answer: Answer, o: Outcome, n: Host)
    requires SessionsOk(h) && o == HarvestAnswer(job.stream, SessionOf(h, job.stream), answer)
    requires n.resolving == h.resolving - {job.stream}
    requires n.sessions == if o.session.Some? then h.sessions[job.stream := o.session.value]
                    else h.sessions - {job.stream}
    requires n.sockets == (match o.effect case SocketOpened => h.sockets + {job.stream}
                                          case SocketClosed => h.sockets - {job.stream}
                                          case _ => h.sockets)
    requires n.halfClosed == if o.effect.SocketOpened? || o.effect.SocketClosed? then h.halfClosed - {job.stream}
                      else h.halfClosed
    ensures job.stream in n.sessions ==> SessionOk(n, job.stream)
    ensures (forall k <- n.sockets :: k in n.sessions) && n.halfClosed <= n.sockets
  {
    hide Session.Valid, WireFrames, HarvestAnswer;
    var id := job.stream;
    assert id in h.sessions ==> SessionOk(h, id);
    HarvestShape(id, SessionOf(h, id), answer);
  }

  lemma HarvestOther(h: Host, n: Host, job: Job, k: u16)
    requires SessionsOk(h) && k in h.sessions && k != job.stream
    requires k in n.sessions && n.sessions[k] == h.sessions[k]
    requires k in n.resolving <==> k in h.resolving
    requires k in n.sockets <==> k in h.sockets
    requires k in n.halfClosed <==> k in h.halfClosed
    requires n.owner == h.owner && n.asked == h.asked - {job}
    ensures SessionOk(n, k)
  {
    hide Session.Valid;
    assert SessionOk(h, k);
    OtherSession(h, n, job.stream, k);
  }

  lemma HarvestKeeps(h: Host, job: Job, answer: Answer)
    requires HostInv(h) && job in h.asked
    ensures HostInv(NextHost(h, Harvest(job, answer)))
  {
    HarvestSessions(h, job, answer);
    assert job.stream in h.sessions ==> SessionOk(h, job.stream);
    HarvestShape(job.stream, SessionOf(h, job.stream), answer);
    hide SessionsOk, HarvestAnswer, WireFrame, AskedOk;
    AnsweredAskedOk(h, NextHost(h, Harvest(job, answer)), job);
  }

  lemma FrameKeeps(h: Host, f: EgressCodec.Frame)
    requires HostInv(h)
    ensures HostInv(NextHost(h, Frame(f)))
  {
    hide HandleFrame, Consistent, Install, AskedOk, WireFrames;
    var id := f.stream;
    var full := |h.sessions| >= MAX_SESSIONS;
    assert id in h.sessions ==> SessionOk(h, id);
    FrameConsistent(f, SessionOf(h, id), id in h.resolving, id in h.sockets, id in h.halfClosed, full);
    var o := HandleFrame(f, SessionOf(h, id), id in h.resolving, full);
    FrameResolving(f, SessionOf(h, id), id in h.resolving, full);
    hide HostInv, SessionsOk;
    if o.effect.StartResolve? {
      OpenInstallKeeps(h, id);
    } else {
      InstallKeeps(h, id, o);
    }
  }

  lemma FrameResolving(f: EgressCodec.Frame, session: Option<Session>, resolving: bool, full: bool)
    ensures var o := HandleFrame(f, session, resolving, full);
            if o.effect.StartResolve?
            then session.None? && !resolving && !full
                 && o == Outcome(Some(NEW_SESSION), true, [], StartResolve)
            else o.resolving == resolving && (o.session.Some? ==> session.Some?)
  {
  }

  lemma PollKeeps(h: Host, id: u16, poll: ConnectPoll)
    requires HostInv(h) && Possible(h, Poll(id, poll))
    ensures HostInv(NextHost(h, Poll(id, poll)))
  {
    assert SessionOk(h, id);
    var o := RunConnecting(id, h.sessions[id], id in h.resolving, poll);
    EndingFramesWire(id, if poll.Failed? then poll.reason else Overrun);
    hide WireFrame;
    assert Consistent(id, o, id in h.sockets, id in h.halfClosed);
    InstallKeeps(h, id, o);
  }

  lemma TurnKeeps(h: Host, id: u16, io: Io)
    requires HostInv(h) && Possible(h, Turn(id, io))
    ensures HostInv(NextHost(h, Turn(id, io)))
  {
    assert SessionOk(h, id);
    var s := h.sessions[id];
    TurnConsistent(id, s, io);
    TurnResolving(id, s, io);
    HeardKeeps(h, Turn(id, io));
    hide RunOpenIo, Install, HostInv;
    InstallKeeps(Heard(h, Turn(id, io)), id, RunOpenIo(id, s, false, io));
  }

  lemma HeardKeeps(h: Host, step: HostStep)
    requires HostInv(h) && Possible(h, step) && step.Turn?
    ensures HostInv(Heard(h, step))
  {
    hide Session.Valid, WireFrames, Grown;
    forall id <- h.sessions ensures SessionOk(Heard(h, step), id) {
      assert SessionOk(h, id);
    }
  }

  lemma TurnResolving(id: u16, s: Session, io: Io)
    requires PossibleIo(s, io)
    ensures var o := RunOpenIo(id, s, false, io); !o.resolving && !o.effect.StartResolve?
  {
    hide Chunked;
  }

  lemma HostKeeps(h: Host, step: HostStep)
    requires HostInv(h)
    ensures HostInv(NextHost(h, step))
  {
    hide HostInv, Install, OutcomeOf;
    if Possible(h, step) {
      match step
      case Frame(f) => FrameKeeps(h, f);
      case Harvest(job, answer) => HarvestKeeps(h, job, answer);
      case Poll(id, poll) => PollKeeps(h, id, poll);
      case Turn(id, io) => TurnKeeps(h, id, io);
    }
  }

  /** Whatever the guest sends and the world answers, in any order. */
  lemma {:induction false} HostRunKeeps(steps: seq<HostStep>)
    ensures HostInv(RunHost(NEW_HOST, steps))
    decreases |steps|
  {
    if steps != [] {
      hide HostInv, NextHost;
      HostRunKeeps(steps[..|steps| - 1]);
      HostKeeps(RunHost(NEW_HOST, steps[..|steps| - 1]), steps[|steps| - 1]);
    }
  }

  // What it means.

  /** An empty table and no resolve in flight mean, and are meant by, an outside world
      that holds nothing of ours: no socket and no unanswered request. */
  lemma EmptyTableHoldsNothing(steps: seq<HostStep>)
    ensures var h := RunHost(NEW_HOST, steps);
            h.sessions == map[] && h.resolving == {} <==> h.sockets == {} && h.asked == {}
  {
    hide RunHost;
    HostRunKeeps(steps);
    var h := RunHost(NEW_HOST, steps);
    if h.sessions != map[] {
      var id :| id in h.sessions;
      assert SessionOk(h, id);
    }
  }

  /** The open sockets are those of the sessions past `Resolving`, the outstanding
      requests those of `resolving`, and a connected socket is shut down for writing
      exactly when the guest closed its half. */
  lemma TableMirrorsWorld(steps: seq<HostStep>)
    ensures var h := RunHost(NEW_HOST, steps);
            && h.sockets == (set id | id in h.sessions && !h.sessions[id].state.Resolving?)
            && h.resolving == (set j | j in h.asked :: j.stream)
            && |h.asked| == |h.resolving|
            && (forall id <- h.sessions :: h.sessions[id].state.Resolving? <==> id in h.resolving)
            && forall id <- h.sessions :: h.sessions[id].IsOpen() ==>
                 (id in h.halfClosed <==> h.sessions[id].guestWriteClosed)
  {
    hide RunHost;
    HostRunKeeps(steps);
    var h := RunHost(NEW_HOST, steps);
    forall id ensures id in h.sockets <==> id in h.sessions && !h.sessions[id].state.Resolving? {
      assert id in h.sessions ==> SessionOk(h, id);
    }
    OneJobEach(h.asked);
    assert h.resolving == (set j | j in h.asked :: j.stream);
    forall id <- h.sessions
      ensures h.sessions[id].state.Resolving? <==> id in h.resolving
      ensures h.sessions[id].IsOpen() ==> (id in h.halfClosed <==> h.sessions[id].guestWriteClosed)
    {
      assert SessionOk(h, id);
    }
  }

  lemma {:induction false} OneJobEach(asked: set<Job>)
    requires forall j, k :: j in asked && k in asked && j.stream == k.stream ==> j == k
    ensures |asked| == |set j | j in asked :: j.stream|
  {
    if asked != {} {
      var x :| x in asked;
      var rest := asked - {x};
      OneJobEach(rest);
      assert (set j | j in asked :: j.stream) == (set j | j in rest :: j.stream) + {x.stream};
    }
  }

  /** A late answer never binds to a reused id: the answer that takes a session out
      of `Resolving` is the answer to the request made for that very session. */
  lemma AnswerIsOwn(steps: seq<HostStep>, job: Job, answer: Answer)
    ensures var h := RunHost(NEW_HOST, steps);
            var n := NextHost(h, Harvest(job, answer));
            job.stream in h.sessions && h.sessions[job.stream].state.Resolving?
            && SessionOf(n, job.stream) != SessionOf(h, job.stream)
            ==> job.stream in h.owner && h.owner[job.stream] == job.ticket
  {
    hide RunHost;
    HostRunKeeps(steps);
    var h := RunHost(NEW_HOST, steps);
    if job in h.asked && job.stream in h.sessions && h.sessions[job.stream].state.Resolving? {
      assert SessionOk(h, job.stream);
      var own := Job(job.stream, h.owner[job.stream]);
      assert own in h.asked && own.stream == job.stream;
    }
  }

  lemma SubMap(a: map<u16, Session>, b: map<u16, Session>)
    requires a.Keys <= b.Keys
    ensures |a| <= |b|
  {
    SubSet(a.Keys, b.Keys);
  }

  lemma {:induction false} SubSet<T>(a: set<T>, b: set<T>)
    requires a <= b
    ensures |a| <= |b|
  {
    if a != {} {
      var x :| x in a;
      SubSet(a - {x}, b - {x});
    }
  }
}
