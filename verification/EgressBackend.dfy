/** The host-side backend as the program runs it: a session table, the parse and
    transmit buffers, and a connector whose answers are the outside world's.  Every
    method is tied to the steps of `EgressHost`, so what holds in every run of those
    steps holds of every reachable backend. */
module EgressBackend {
  import opened Prelude
  import opened EgressCodec
  import opened EgressSession
  import opened EgressHost

  datatype ReadResult = ReadBlocked | Got(bytes: seq<byte>) | ReadError
  datatype WriteResult = WriteBlocked | Accepted(n: nat) | WriteError

  /** A finished resolution; the backend never looks at the ticket. */
  datatype Resolved = Resolved(stream: u16, found: bool, ticket: nat)

  function JobOf(r: Resolved): Job {
    Job(r.stream, r.ticket)
  }

  function JobsOf(answers: seq<Resolved>): set<Job> {
    if answers == [] then {} else {JobOf(answers[0])} + JobsOf(answers[1..])
  }

  /** No request is answered twice. */
  predicate AnswersOnce(answers: seq<Resolved>) {
    answers == [] || (JobOf(answers[0]) !in JobsOf(answers[1..]) && AnswersOnce(answers[1..]))
  }

  /** What the connector answered when it was asked for resolutions or about a socket. */
  datatype Answered =
    | Resolutions(answers: seq<Resolved>)
    | Started(stream: u16, ok: bool)
    | Polled(stream: u16, poll: ConnectPoll)
    | Wrote(stream: u16, w: WriteResult)
    | HasRead(stream: u16, want: nat, r: ReadResult)

  /** DNS and sockets, keyed by stream id.  Any answer is possible, except that
      each request is answered at most once. */
  class Connector {
    var sockets: set<u16>
    var halfClosed: set<u16>
    var asked: set<Job>
    var tickets: nat

    ghost var yielded: map<u16, seq<byte>>  // what the sockets of a stream gave us
    ghost var taken: map<u16, seq<byte>>    // what the sockets of a stream took from us
    ghost var told: seq<Answered>           // its answers so far, in order

    constructor ()
      ensures IsNew()
    {
      sockets, halfClosed, asked, tickets := {}, {}, {}, 0;
      yielded, taken, told := map[], map[], [];
    }

    ghost predicate IsNew()
      reads this
    {
      && sockets == {} && halfClosed == {} && asked == {} && tickets == 0
      && yielded == map[] && taken == map[] && told == []
    }

    method StartResolve(stream: u16)
      modifies this`asked, this`tickets
      ensures asked == old(asked) + {Job(stream, old(tickets))} && tickets == old(tickets) + 1
    {
      asked, tickets := asked + {Job(stream, tickets)}, tickets + 1;
    }

    method TakeResolved() returns (answers: seq<Resolved>)
      modifies this`asked, this`told
      ensures AnswersOnce(answers) && JobsOf(answers) <= old(asked)
      ensures asked == old(asked) - JobsOf(answers)
      ensures told == old(told) + [Resolutions(answers)]
    {
      answers := [];
      while *
        invariant AnswersOnce(answers) && JobsOf(answers) <= old(asked)
        invariant asked == old(asked) - JobsOf(answers) && told == old(told)
        decreases asked
      {
        if asked == {} {
          break;
        }
        var job :| job in asked;
        var found: bool := *;
        asked := asked - {job};
        answers := [Resolved(job.stream, found, job.ticket)] + answers;
      }
      told := told + [Resolutions(answers)];
    }

    method StartConnect(stream: u16) returns (ok: bool)
      modifies this`sockets, this`halfClosed, this`told
      ensures sockets == if ok then old(sockets) + {stream} else old(sockets)
      ensures halfClosed == if ok then old(halfClosed) - {stream} else old(halfClosed)
      ensures told == old(told) + [Started(stream, ok)]
    {
      ok := *;
      if ok {
        sockets, halfClosed := sockets + {stream}, halfClosed - {stream};
      }
      told := told + [Started(stream, ok)];
    }

    method PollConnect(stream: u16) returns (poll: ConnectPoll)
      modifies this`told
      ensures poll.Failed? ==> !poll.reason.Other?
      ensures told == old(told) + [Polled(stream, poll)]
    {
      poll := *;
      if poll.Failed? && poll.reason.Other? {
        poll := Failed(Unreachable);
      }
      told := told + [Polled(stream, poll)];
    }

    method Read(stream: u16, want: nat) returns (r: ReadResult)
      modifies this`yielded, this`told
      ensures r.Got? ==> |r.bytes| <= want
      ensures yielded == if r.Got? then Grown(old(yielded), stream, r.bytes) else old(yielded)
      ensures told == old(told) + [HasRead(stream, want, r)]
    {
      r := *;
      if r.Got? {
        r := Got(r.bytes[..Min(|r.bytes|, want)]);
        yielded := Grown(yielded, stream, r.bytes);
      }
      told := told + [HasRead(stream, want, r)];
    }

    /** The socket may claim more than it was offered. */
    method Write(stream: u16, data: seq<byte>) returns (w: WriteResult)
      modifies this`taken, this`told
      ensures taken == if w.Accepted? then Grown(old(taken), stream, data[..Min(w.n, |data|)]) else old(taken)
      ensures told == old(told) + [Wrote(stream, w)]
    {
      w := *;
      if w.Accepted? {
        var n :| 0 <= n;
        w := Accepted(n);
        taken := Grown(taken, stream, data[..Min(n, |data|)]);
      }
      told := told + [Wrote(stream, w)];
    }

    method ShutdownWrite(stream: u16)
      modifies this`halfClosed
      ensures halfClosed == if stream in sockets then old(halfClosed) + {stream} else old(halfClosed)
    {
      if stream in sockets {
        halfClosed := halfClosed + {stream};
      }
    }

    method CloseSocket(stream: u16)
      modifies this`sockets, this`halfClosed
      ensures sockets == old(sockets) - {stream} && halfClosed == old(halfClosed) - {stream}
    {
      sockets, halfClosed := sockets - {stream}, halfClosed - {stream};
    }
  }

  class EgressBackend {
    const connector: Connector
    var sessions: map<u16, Session>
    var resolving: set<u16>
    var rxParse: seq<byte>
    var txPending: seq<byte>

    ghost var asked: set<Job>       // requests whose answer was not acted on yet
    ghost var owner: map<u16, nat>
    ghost var queued: seq<Frame>    // every frame queued so far
    ghost var handed: seq<byte>     // bytes already handed to the UART
    ghost var trace: seq<HostStep>  // the steps taken so far

    ghost function Table(): Host
      reads this, connector
    {
      Host(sessions, resolving, connector.sockets, connector.halfClosed, connector.yielded, connector.taken,
           asked, connector.tickets, owner, queued)
    }

    /** The table is where the steps so far put it, and every frame they queued is
        either handed over or still pending, byte for byte. */
    ghost predicate Tracked()
      reads this, connector
    {
      && Table() == RunHost(NEW_HOST, trace)
      && WireFrames(queued) && WireAll(queued) == handed + txPending
    }

    ghost predicate Valid()
      reads this, connector
    {
      && Tracked()
      && asked == connector.asked
      && Decode(rxParse).NeedMore?
    }

    constructor (c: Connector)
      requires c.IsNew()
      ensures Valid() && connector == c
      ensures sessions == map[] && resolving == {} && rxParse == [] && txPending == []
    {
      connector := c;
      sessions, resolving, rxParse, txPending := map[], {}, [], [];
      asked, owner, queued, handed, trace := {}, map[], [], [], [];
    }

    predicate IsQuiescent()
      reads this
    {
      sessions == map[] && resolving == {} && rxParse == [] && txPending == []
    }

    /** Quiescence is what the jump gate needs, and no more: nothing outside is waiting
        for us, no part of a frame is unparsed, and every byte of every frame is with
        the guest. */
    lemma QuiescentIffIdle()
      requires Valid()
      ensures IsQuiescent() <==>
                connector.sockets == {} && connector.asked == {} && rxParse == [] && handed == WireAll(queued)
    {
      hide RunHost;
      EmptyTableHoldsNothing(trace);
      assert txPending == [] ==> handed + txPending == handed;
    }

    // The transmit queue.

    method DrainToGuest(max: nat) returns (bytes: seq<byte>)
      modifies this`txPending
      ensures bytes == old(txPending)[..Min(max, |old(txPending)|)]
      ensures bytes + txPending == old(txPending)
    {
      var take := Min(max, |txPending|);
      bytes, txPending := txPending[..take], txPending[take..];
    }

    method UnshiftToGuest(bytes: seq<byte>)
      modifies this`txPending
      ensures txPending == bytes + old(txPending)
    {
      var i := |bytes|;
      while i > 0
        invariant 0 <= i <= |bytes|
        invariant txPending == bytes[i..] + old(txPending)
      {
        i := i - 1;
        txPending := [bytes[i]] + txPending;
      }
    }

    method Enqueue(frame: EgressCodec.Frame)
      requires WireFrame(frame) && WireFrames(queued) && WireAll(queued) == handed + txPending
      modifies this`txPending, this`queued
      ensures queued == old(queued) + [frame]
      ensures txPending == old(txPending) + Wire(frame)
      ensures WireFrames(queued) && WireAll(queued) == handed + txPending
    {
      hide Wire, Encodable, WireAll;
      QueueOne(queued, handed, txPending, frame);
      txPending := txPending + Wire(frame);
      queued := queued + [frame];
    }

    // The ways a stream ends.

    /** Record that the table took `step`. */
    ghost method Record(step: HostStep, before: Host)
      requires before == RunHost(NEW_HOST, trace) && Table() == NextHost(before, step)
      requires WireFrames(queued) && WireAll(queued) == handed + txPending
      modifies this`trace
      ensures Tracked() && trace == old(trace) + [step]
    {
      hide NextHost;
      RunHostThen(trace, step);
      trace := trace + [step];
    }

    method ResetStream(stream: u16)
      requires WireFrames(queued) && WireAll(queued) == handed + txPending
      modifies this`sessions, this`txPending, this`queued, connector`sockets, connector`halfClosed
      ensures WireFrames(queued) && WireAll(queued) == handed + txPending
      ensures Table() == Install(old(Table()), stream, Reset(stream, stream in resolving))
    {
      hide WireFrames, WireAll, Wire, WireFrame, Encodable;
      connector.CloseSocket(stream);
      sessions := sessions - {stream};
      EndingFramesWire(stream, Overrun);
      Enqueue(Rst(stream));
      InstallResolving(resolving, stream);
    }

    method FailOpenWith(stream: u16, reason: Reason)
      requires !reason.Other?
      requires WireFrames(queued) && WireAll(queued) == handed + txPending
      modifies this`sessions, this`txPending, this`queued, connector`sockets, connector`halfClosed
      ensures WireFrames(queued) && WireAll(queued) == handed + txPending
      ensures Table() == Install(old(Table()), stream, FailOpen(stream, stream in resolving, reason))
    {
      hide WireFrames, WireAll, Wire, WireFrame, Encodable;
      connector.CloseSocket(stream);
      sessions := sessions - {stream};
      EndingFramesWire(stream, reason);
      Enqueue(OpenErr(stream, reason));
      InstallResolving(resolving, stream);
    }

    // Frames from the guest.

    method AskFor(frame: EgressCodec.Frame)
      requires frame.Open? && frame.stream !in sessions && frame.stream !in resolving
      requires |sessions| < MAX_SESSIONS && frame.host != [] && frame.port != 0
      modifies this`sessions, this`resolving, this`asked, this`owner, connector`asked, connector`tickets
      ensures Table() == NextHost(old(Table()), Frame(frame))
      ensures asked == old(asked) + {Job(frame.stream, old(connector.tickets))}
      ensures connector.asked == old(connector.asked) + {Job(frame.stream, old(connector.tickets))}
    {
      hide NextHost;
      OpenStep(Table(), frame);
      ghost var job := Job(frame.stream, connector.tickets);
      connector.StartResolve(frame.stream);
      resolving := resolving + {frame.stream};
      sessions := sessions[frame.stream := NEW_SESSION];
      asked, owner := asked + {job}, owner[frame.stream := job.ticket];
    }

    method HandleOpen(frame: EgressCodec.Frame)
      requires Valid() && frame.Open?
      modifies this, connector
      ensures Valid() && rxParse == old(rxParse) && handed == old(handed) && connector.told == old(connector.told)
      ensures trace == old(trace) + [Frame(frame)]
    {
      hide RunHost, WireFrames, WireAll, Decode, NextHost, Install, Wire, WireFrame, Encodable;
      ghost var before := Table();
      var stream := frame.stream;
      if stream in sessions || stream in resolving {
        ResetStep(before, frame);
        ResetStream(stream);
      } else if |sessions| >= MAX_SESSIONS {
        RefusedStep(before, frame);
        FailOpenWith(stream, StreamLimit);
      } else if frame.host == [] || frame.port == 0 {
        RefusedStep(before, frame);
        FailOpenWith(stream, ProtocolError);
      } else {
        AskFor(frame);
      }
      Record(Frame(frame), before);
    }

    method HandleData(frame: EgressCodec.Frame)
      requires Valid() && frame.Data?
      modifies this, connector
      ensures Valid() && rxParse == old(rxParse) && handed == old(handed) && connector.told == old(connector.told)
      ensures trace == old(trace) + [Frame(frame)]
    {
      hide RunHost, WireFrames, WireAll, Decode, NextHost, Install, Wire, WireFrame, Encodable;
      ghost var before := Table();
      var stream := frame.stream;
      if stream in sessions && !sessions[stream].guestWriteClosed {
        var s := sessions[stream];
        s := s.(toSocket := s.toSocket + frame.payload);
        if |s.toSocket| > TO_SOCKET_CAP {
          ResetStep(before, frame);
          ResetStream(stream);
        } else {
          DataStep(before, frame);
          sessions := sessions[stream := s];
        }
      } else {
        ResetStep(before, frame);
        ResetStream(stream);
      }
      Record(Frame(frame), before);
    }

    method HandleClose(frame: EgressCodec.Frame)
      requires Valid() && frame.Close?
      modifies this, connector
      ensures Valid() && rxParse == old(rxParse) && handed == old(handed) && connector.told == old(connector.told)
      ensures trace == old(trace) + [Frame(frame)]
    {
      hide RunHost, WireFrames, WireAll, Decode, NextHost, Install, Wire, WireFrame, Encodable;
      ghost var before := Table();
      var stream := frame.stream;
      if stream in sessions {
        var s := sessions[stream];
        s := s.(guestWriteClosed := true);
        if s.state.Established? {
          s := s.(state := HalfClosed);
        }
        sessions := sessions[stream := s];
        connector.ShutdownWrite(stream);
        CloseStep(before, frame);
      } else {
        UnknownStream(before, frame);
      }
      Record(Frame(frame), before);
    }

    method DropStream(frame: EgressCodec.Frame)
      requires Valid() && frame.Rst?
      modifies this, connector
      ensures Valid() && rxParse == old(rxParse) && handed == old(handed) && connector.told == old(connector.told)
      ensures trace == old(trace) + [Frame(frame)]
    {
      hide RunHost, WireFrames, WireAll, Decode, NextHost, Install, Wire, WireFrame, Encodable;
      ghost var before := Table();
      connector.CloseSocket(frame.stream);
      sessions := sessions - {frame.stream};
      RstStep(before, frame);
      Record(Frame(frame), before);
    }

    method GrantCredit(frame: EgressCodec.Frame)
      requires Valid() && frame.Window?
      modifies this, connector
      ensures Valid() && rxParse == old(rxParse) && handed == old(handed) && connector.told == old(connector.told)
      ensures trace == old(trace) + [Frame(frame)]
    {
      hide RunHost, WireFrames, WireAll, Decode, NextHost, Install, Wire, WireFrame, Encodable;
      ghost var before := Table();
      var stream := frame.stream;
      if stream in sessions {
        var s := sessions[stream];
        sessions := sessions[stream := s.(credit := Min(s.credit + frame.credit, USIZE_MAX))];
        WindowStep(before, frame);
      } else {
        UnknownStream(before, frame);
      }
      Record(Frame(frame), before);
    }

    method HandleFrame(frame: EgressCodec.Frame)
      requires Valid()
      modifies this, connector
      ensures Valid() && rxParse == old(rxParse) && handed == old(handed) && connector.told == old(connector.told)
      ensures trace == old(trace) + [Frame(frame)]
    {
      hide RunHost, WireFrames, WireAll, Decode, NextHost, Install, Wire, WireFrame, Encodable;
      match frame
      case Open(_, _, _) => HandleOpen(frame);
      case Data(_, _) => HandleData(frame);
      case Close(_) => HandleClose(frame);
      case Rst(_) => DropStream(frame);
      case Window(_, _) => GrantCredit(frame);
      case _ =>
        ghost var before := Table();
        ResetStep(before, frame);
        ResetStream(frame.stream);
        Record(Frame(frame), before);
    }

    /** Absorb new guest bytes, split off every whole frame, act on each.  A stream
        that lost its framing changes nothing but the parse buffer. */
    method IngestAndParse(fromGuest: seq<byte>) returns (error: Option<CodecError>)
      requires Valid()
      modifies this, connector
      ensures Valid() && handed == old(handed) && connector.told == old(connector.told)
      ensures error == Parse(old(rxParse) + fromGuest).error
      ensures error.Some? ==> rxParse == [] && trace == old(trace)
      ensures error.None? ==>
                && rxParse == Parse(old(rxParse) + fromGuest).rest
                && trace == old(trace) + FrameSteps(Parse(old(rxParse) + fromGuest).frames)
    {
      hide RunHost, WireFrames, WireAll, Decode, Parse, Wire, WireFrame, Encodable;
      PrefixOfNothing();
      rxParse := rxParse + fromGuest;
      var owned, offset, e := WholeFrames(rxParse);
      if e.Some? {
        rxParse := [];
        return e;
      }
      rxParse := rxParse[offset..];
      HandleAll(owned);
      return None;
    }

    method HandleAll(frames: seq<EgressCodec.Frame>)
      requires Valid()
      modifies this, connector
      ensures Valid() && rxParse == old(rxParse) && handed == old(handed) && connector.told == old(connector.told)
      ensures trace == old(trace) + FrameSteps(frames)
    {
      hide RunHost, WireFrames, WireAll, Decode, Wire, WireFrame, Encodable;
      assert FrameSteps(frames[..0]) == [];
      for i := 0 to |frames|
        invariant Valid() && rxParse == old(rxParse) && handed == old(handed) && connector.told == old(connector.told)
        invariant trace == old(trace) + FrameSteps(frames[..i])
      {
        HandleFrame(frames[i]);
        assert FrameSteps(frames[..i + 1]) == FrameSteps(frames[..i]) + [Frame(frames[i])];
      }
      assert frames[..|frames|] == frames;
    }

    /** Act on every resolution that has come back. */
    method HarvestResolves()
      requires Valid()
      modifies this, connector
      ensures Valid() && rxParse == old(rxParse) && handed == old(handed)
      ensures old(trace) <= trace && |old(connector.told)| < |connector.told|
      ensures ActedOn(connector.told[|old(connector.told)|], trace[|old(trace)|..])
    {
      hide RunHost, WireFrames, WireAll, Decode, Wire, WireFrame, Encodable;
      var answers := connector.TakeResolved();
      ghost var told := connector.told;
      assert answers[0..] == answers;
      for i := 0 to |answers|
        invariant Tracked() && rxParse == old(rxParse) && handed == old(handed)
        invariant AnswersOnce(answers[i..]) && JobsOf(answers[i..]) !! connector.asked
        invariant asked == connector.asked + JobsOf(answers[i..])
        invariant old(trace) <= trace && |trace| == |old(trace)| + i
        invariant forall j :: 0 <= j < i ==> Acts(trace[|old(trace)| + j], answers[j])
        invariant |told| <= |connector.told| && connector.told[..|told|] == told
      {
        assert answers[i..][1..] == answers[i + 1..];
        ActOnAnswer(answers[i]);
      }
      assert connector.told[|told| - 1] == told[|told| - 1];
    }

    /** Start connecting to the address found, or fail the open. */
    method Connect(r: Resolved) returns (ghost answer: Answer)
      requires WireFrames(queued) && WireAll(queued) == handed + txPending
      requires r.stream in sessions && r.stream !in resolving
      modifies this`sessions, this`txPending, this`queued, connector`sockets, connector`halfClosed, connector`told
      ensures WireFrames(queued) && WireAll(queued) == handed + txPending
      ensures Table() == Advanced(old(Table()), r.stream, answer)
      ensures AnswerHeard(r, old(connector.told), connector.told, answer)
    {
      hide WireFrames, WireAll, Install, Wire, WireFrame, Encodable;
      var id := r.stream;
      if !r.found {
        answer := NoAddress;
        FailOpenWith(id, ResolveFailed);
      } else {
        var ok := connector.StartConnect(id);
        if ok {
          answer := ConnectStarted;
          sessions := sessions[id := sessions[id].(state := Connecting)];
        } else {
          answer := ConnectError;
          FailOpenWith(id, Unreachable);
        }
      }
    }

    method ActOnAnswer(r: Resolved)
      requires Tracked() && JobOf(r) in asked && JobOf(r) !in connector.asked
      modifies this`sessions, this`resolving, this`txPending, this`queued, this`asked, this`trace,
               connector`sockets, connector`halfClosed, connector`told
      ensures Tracked() && asked == old(asked) - {JobOf(r)}
      ensures |trace| == |old(trace)| + 1 && old(trace) <= trace
      ensures Acts(trace[|old(trace)|], r) && old(connector.told) <= connector.told
      ensures r.stream in old(sessions) && old(sessions)[r.stream].state.Resolving? ==>
                AnswerHeard(r, old(connector.told), connector.told, trace[|old(trace)|].answer)
    {
      hide RunHost, WireFrames, WireAll, NextHost, Install, Wire, WireFrame, Encodable;
      ghost var before := Table();
      ghost var answer := NoAddress;
      resolving := resolving - {r.stream};
      asked := asked - {JobOf(r)};
      if r.stream in sessions && sessions[r.stream].state.Resolving? {
        answer := Connect(r);
      }
      HarvestStep(before, JobOf(r), answer);
      Record(Harvest(JobOf(r), answer), before);
    }

    // A service turn.

    /** The socket is connected: tell the guest, and apply a CLOSE that came before. */
    method FinishConnect(id: u16)
      requires WireFrames(queued) && WireAll(queued) == handed + txPending
      requires id in sessions && sessions[id].state.Connecting?
      modifies this`sessions, this`txPending, this`queued, connector`halfClosed
      ensures WireFrames(queued) && WireAll(queued) == handed + txPending
      ensures Table() == NextHost(old(Table()), Poll(id, Connected))
    {
      hide WireFrames, WireAll, NextHost, Wire, WireFrame, Encodable;
      ConnectedStep(Table(), id);
      Enqueue(OpenOk(id));
      var s := sessions[id].(state := Established);
      if s.guestWriteClosed {
        connector.ShutdownWrite(id);
        s := s.(state := HalfClosed);
      }
      sessions := sessions[id := s];
    }

    method RunConnecting(id: u16)
      requires Valid() && id in sessions && sessions[id].state.Connecting?
      modifies this, connector
      ensures Valid() && rxParse == old(rxParse) && handed == old(handed)
      ensures |trace| == |old(trace)| + 1 && old(trace) <= trace
      ensures trace[|old(trace)|].Poll? && trace[|old(trace)|].id == id
      ensures connector.told == old(connector.told) + [Polled(id, trace[|old(trace)|].poll)]
    {
      hide RunHost, WireFrames, WireAll, NextHost, Install, Decode, Wire, WireFrame, Encodable;
      ghost var before := Table();
      var poll := connector.PollConnect(id);
      match poll {
        case Pending =>
          PendingStep(before, id);
        case Connected =>
          FinishConnect(id);
        case Failed(reason) =>
          ConnectFailedStep(before, id, reason);
          connector.CloseSocket(id);
          Enqueue(OpenErr(id, reason));
          sessions := sessions - {id};
      }
      Record(Poll(id, poll), before);
    }

    /** One session's turn, which leaves every other session as it was. */
    method ServeSession(id: u16)
      requires Valid() && id in sessions && !sessions[id].state.Resolving?
      modifies this, connector
      ensures Valid() && rxParse == old(rxParse) && handed == old(handed)
      ensures |trace| == |old(trace)| + 1 && old(trace) <= trace && ServesStream(trace[|old(trace)|], id)
      ensures old(connector.told) <= connector.told
      ensures forall k :: k in old(sessions) && k != id ==> k in sessions && sessions[k] == old(sessions)[k]
    {
      hide RunHost, WireFrames, WireAll, Decode, Wire, WireFrame, Encodable, NextHost, Install;
      HostRunKeeps(trace);
      assert SessionOk(Table(), id);
      ghost var before := trace;
      if sessions[id].state.Connecting? {
        RunConnecting(id);
      } else {
        RunOpenIo(id);
      }
      OthersStay(before, trace[|before|], id);
      assert trace == before + [trace[|before|]];
    }

    /** Advance every session past Resolving exactly once, in any order. */
    method ServiceSessions()
      requires Valid()
      modifies this, connector
      ensures Valid() && rxParse == old(rxParse) && handed == old(handed)
      ensures old(trace) <= trace && ServesAll(old(Table()), trace[|old(trace)|..])
      ensures old(connector.told) <= connector.told
    {
      hide RunHost, WireFrames, WireAll, Decode, Wire, WireFrame, Encodable, NextHost, Install;
      ghost var order: seq<u16> := [];
      var ids := sessions.Keys;
      while ids != {}
        invariant Valid() && rxParse == old(rxParse) && handed == old(handed)
        invariant old(trace) <= trace && |trace| == |old(trace)| + |order|
        invariant old(connector.told) <= connector.told
        invariant forall i :: 0 <= i < |order| ==> ServesStream(trace[|old(trace)| + i], order[i])
        invariant forall i, j :: 0 <= i < j < |order| ==> order[i] != order[j]
        invariant forall id <- order :: id !in ids
        invariant forall id <- ids :: id in sessions && id in old(sessions) && sessions[id] == old(sessions)[id]
        invariant forall id :: id in old(sessions) && !old(sessions)[id].state.Resolving? && id !in ids ==> id in order
        invariant forall id <- order :: id in old(sessions) && !old(sessions)[id].state.Resolving?
        decreases ids
      {
        var id :| id in ids;
        ids := ids - {id};
        if !sessions[id].state.Resolving? {
          ServeSession(id);
          order := order + [id];
        }
      }
      assert ServesIn(old(Table()), trace[|old(trace)|..], order);
    }

    /** The one effects function: guest bytes in, answers in, every session served.
        When framing is lost nothing but the parse buffer has changed. */
    method Pump(fromGuest: seq<byte>) returns (error: Option<CodecError>, ghost harvested: nat)
      requires Valid()
      modifies this, connector
      ensures Valid() && handed == old(handed)
      ensures error == Parse(old(rxParse) + fromGuest).error
      ensures error.Some? ==> rxParse == [] && trace == old(trace) && connector.told == old(connector.told)
      ensures error.None? ==>
                && rxParse == Parse(old(rxParse) + fromGuest).rest
                && var parsed := old(trace) + FrameSteps(Parse(old(rxParse) + fromGuest).frames);
                   && parsed <= trace && |parsed| <= harvested <= |trace|
                   && |old(connector.told)| < |connector.told|
                   && ActedOn(connector.told[|old(connector.told)|], trace[|parsed|..harvested])
                   && ServesAll(RunHost(NEW_HOST, trace[..harvested]), trace[harvested..])
    {
      hide RunHost, WireFrames, WireAll, Decode, Parse, Wire, WireFrame, Encodable, ActedOn, ServesAll;
      error := IngestAndParse(fromGuest);
      harvested := |trace|;
      if error.Some? {
        return;
      }
      ghost var parsed := trace;
      HarvestResolves();
      harvested := |trace|;
      ghost var steps, told := trace, connector.told;
      ServiceSessions();
      assert trace[..harvested] == steps && trace[|parsed|..harvested] == steps[|parsed|..];
      assert connector.told[|old(connector.told)|] == told[|old(connector.told)|];
    }

    /** Steps 1 to 5 of an open session's turn. */
    method RunOpenIo(id: u16)
      requires Valid() && id in sessions && sessions[id].IsOpen() && sessions[id].Valid()
      modifies this, connector
      ensures Valid() && rxParse == old(rxParse) && handed == old(handed)
      ensures |trace| == |old(trace)| + 1 && old(trace) <= trace
      ensures trace[|old(trace)|].Turn? && trace[|old(trace)|].id == id
      ensures old(connector.told) <= connector.told
      ensures TurnHeard(connector.told[|old(connector.told)|..], id, old(sessions)[id], trace[|old(trace)|].io)
    {
      hide RunHost, WireFrames, WireAll, NextHost, Install, Decode, AfterTransfer, Reset, Wire, WireFrame, Encodable;
      hide Grown, TurnHeard, PossibleIo, Transfer;
      ghost var before := Table();
      var s, failed;
      ghost var io;
      s, failed, io := TransferBytes(connector, id, sessions[id]);
      assert Table() == Heard(before, Turn(id, io));
      if failed {
        TurnFailed(before, id, io);
        ResetStream(id);
      } else {
        TurnStep(before, id, io);
        FinishTurn(id, s);
      }
      Record(Turn(id, io), before);
    }

    /** Steps 3 to 5: frame, announce the end, and drop a drained session. */
    method FinishTurn(id: u16, t: Session)
      requires WireFrames(queued) && WireAll(queued) == handed + txPending
      modifies this`sessions, this`txPending, this`queued, connector`sockets, connector`halfClosed
      ensures WireFrames(queued) && WireAll(queued) == handed + txPending
      ensures Table() == AfterTransfer(old(Table()), id, t)
    {
      hide WireFrames, WireAll, Chunked, Wire, WireFrame, Encodable;
      var s := FrameWindow(id, t);
      if s.hostReadClosed && s.toGuest == [] && !s.hostCloseSent {
        EndingFramesWire(id, Overrun);
        Enqueue(EgressCodec.Frame.Close(id));
        s := s.(hostCloseSent := true);
      }
      if s.IsDrained() {
        connector.CloseSocket(id);
        sessions := sessions - {id};
      } else {
        sessions := sessions[id := s];
      }
    }

    /** Step 3: frame as much of the window buffer as the credit allows. */
    method FrameWindow(id: u16, s0: Session) returns (s: Session)
      requires WireFrames(queued) && WireAll(queued) == handed + txPending
      modifies this`txPending, this`queued
      ensures WireFrames(queued) && WireAll(queued) == handed + txPending
      ensures s == Release(s0)
      ensures queued == old(queued) + Framed(id, s0)
    {
      hide WireFrames, WireAll, Wire, WireFrame, Encodable, Release, Framed;
      s := s0;
      ghost var framed := [];
      assert [] + Framed(id, s0) == Framed(id, s0);
      while s.toGuest != [] && s.credit > 0
        invariant WireFrames(queued) && WireAll(queued) == handed + txPending
        invariant Release(s) == Release(s0)
        invariant queued == old(queued) + framed
        invariant framed + Framed(id, s) == Framed(id, s0)
        decreases |s.toGuest|
      {
        var take := Min(Min(|s.toGuest|, s.credit), MAX_PAYLOAD);
        var chunk := s.toGuest[..take];
        var next := s.(toGuest := s.toGuest[take..], credit := s.credit - take);
        FrameStep(id, s, take, next);
        DataWire(id, chunk);
        Reassociate(framed, Data(id, chunk), Framed(id, next));
        Enqueue(Data(id, chunk));
        framed := framed + [Data(id, chunk)];
        s := next;
      }
      FrameDone(id, s);
      assert framed + [] == framed;
    }
  }

  // What the sockets' answers mean.

  /** Each of these writes was taken in part at least. */
  predicate AllTaken(told: seq<Answered>, id: u16) {
    forall i :: 0 <= i < |told| ==>
      told[i].Wrote? && told[i].stream == id && told[i].w.Accepted? && told[i].w.n > 0
  }

  /** Writing goes on while the socket takes bytes and some are left, and has failed
      exactly if the last write did. */
  predicate Flushed(told: seq<Answered>, id: u16, left: bool, failed: bool) {
    if !left then !failed && AllTaken(told, id)
    else
      && told != [] && AllTaken(told[..|told| - 1], id)
      && var last := told[|told| - 1];
         && last.Wrote? && last.stream == id && !(last.w.Accepted? && last.w.n > 0)
         && (failed <==> last.w.WriteError?)
  }

  predicate IsRead(a: Answered, id: u16) {
    a.HasRead? && a.stream == id && 0 < a.want <= READ_CHUNK
  }

  predicate AllYielded(told: seq<Answered>, id: u16) {
    forall i :: 0 <= i < |told| ==> IsRead(told[i], id) && told[i].r.Got? && told[i].r.bytes != []
  }

  /** Reading goes on while the socket yields bytes and there is room, and the socket
      has ended or failed exactly if the last read said so. */
  predicate Filled(told: seq<Answered>, id: u16, room: bool, eof: bool, failed: bool) {
    if !room then !eof && !failed && AllYielded(told, id)
    else
      && told != [] && AllYielded(told[..|told| - 1], id)
      && var last := told[|told| - 1];
         && IsRead(last, id) && !(last.r.Got? && last.r.bytes != [])
         && (eof <==> last.r.Got?) && (failed <==> last.r.ReadError?)
  }

  /** The answers behind one turn: the writes, then the reads if there were any to do. */
  ghost predicate TurnHeard(told: seq<Answered>, id: u16, s: Session, io: Io) {
    exists k :: 0 <= k <= |told| && TurnHeardAt(told, k, id, s, io)
  }

  predicate TurnHeardAt(told: seq<Answered>, k: nat, id: u16, s: Session, io: Io)
    requires k <= |told|
  {
    && Flushed(told[..k], id, io.accepted < |s.toSocket|, io.writeFailed)
    && if io.writeFailed || s.hostReadClosed then told[k..] == []
       else Filled(told[k..], id, |s.toGuest| + |io.received| < WINDOW_BYTES, io.eof, io.readFailed)
  }

  lemma HeardParts(told: seq<Answered>, flushed: seq<Answered>, all: seq<Answered>, id: u16, s: Session, io: Io)
    requires told <= flushed <= all
    requires Flushed(flushed[|told|..], id, io.accepted < |s.toSocket|, io.writeFailed)
    requires if io.writeFailed || s.hostReadClosed then all == flushed
             else Filled(all[|flushed|..], id, |s.toGuest| + |io.received| < WINDOW_BYTES, io.eof, io.readFailed)
    ensures TurnHeard(all[|told|..], id, s, io)
  {
    hide Flushed, Filled;
    var more, k := all[|told|..], |flushed| - |told|;
    assert more[..k] == flushed[|told|..] && more[k..] == all[|flushed|..];
    assert TurnHeardAt(more, k, id, s, io);
  }

  /** The decision on a resolution: what the resolver found, and whether the connect
      could be started. */
  predicate AnswerHeard(r: Resolved, before: seq<Answered>, after: seq<Answered>, answer: Answer) {
    if !r.found then answer.NoAddress? && after == before
    else after == before + [Started(r.stream, answer.ConnectStarted?)] && !answer.NoAddress?
  }

  lemma GrownByNothing(bytes: map<u16, seq<byte>>, id: u16)
    ensures Grown(bytes, id, []) == bytes
  {
  }

  lemma GrownTwice(bytes: map<u16, seq<byte>>, id: u16, a: seq<byte>, b: seq<byte>)
    ensures Grown(Grown(bytes, id, a), id, b) == Grown(bytes, id, a + b)
  {
    assert History(bytes, id) + a + b == History(bytes, id) + (a + b);
    assert a + [] == a && [] + b == b;
  }

  /** Step 1: flush guest bytes to the socket until it takes no more. */
  method FlushToSocket(connector: Connector, id: u16, s0: Session)
    returns (s: Session, failed: bool, ghost accepted: nat)
    modifies connector`taken, connector`told
    ensures accepted <= |s0.toSocket| && s == s0.(toSocket := s0.toSocket[accepted..])
    ensures connector.taken == Grown(old(connector.taken), id, s0.toSocket[..accepted])
    ensures old(connector.told) <= connector.told
    ensures Flushed(connector.told[|old(connector.told)|..], id, s.toSocket != [], failed)
  {
    hide Grown;
    s, failed, accepted := s0, false, 0;
    GrownByNothing(connector.taken, id);
    while s.toSocket != []
      invariant accepted <= |s0.toSocket| && s == s0.(toSocket := s0.toSocket[accepted..])
      invariant connector.taken == Grown(old(connector.taken), id, s0.toSocket[..accepted])
      invariant old(connector.told) <= connector.told
      invariant AllTaken(connector.told[|old(connector.told)|..], id)
      decreases |s.toSocket|
    {
      ghost var before, taken := connector.told[|old(connector.told)|..], connector.taken;
      var w := connector.Write(id, s.toSocket);
      assert connector.told[|old(connector.told)|..] == before + [Wrote(id, w)];
      match w
      case Accepted(n) =>
        if n == 0 {
          assert s.toSocket[..0] == [];
          GrownByNothing(taken, id);
          return;
        }
        var m := Min(n, |s.toSocket|);
        GrownTwice(old(connector.taken), id, s0.toSocket[..accepted], s.toSocket[..m]);
        assert s0.toSocket[..accepted] + s.toSocket[..m] == s0.toSocket[..accepted + m];
        s := s.(toSocket := s.toSocket[m..]);
        accepted := accepted + m;
      case WriteBlocked => return;
      case WriteError =>
        failed := true;
        return;
    }
  }

  /** Step 2: read into the window buffer until it is full, the socket has nothing
      more now, or it ended. */
  method ReadWindow(connector: Connector, id: u16, s0: Session)
    returns (s: Session, failed: bool, ghost received: seq<byte>, ghost eof: bool)
    requires !s0.hostReadClosed
    modifies connector`yielded, connector`told
    ensures s == s0.(toGuest := s0.toGuest + received, hostReadClosed := eof,
                     state := if eof && s0.state.Established? then HalfClosed else s0.state)
    ensures received != [] ==> |s0.toGuest| + |received| <= WINDOW_BYTES
    ensures eof || failed ==> |s0.toGuest| + |received| < WINDOW_BYTES
    ensures connector.yielded == Grown(old(connector.yielded), id, received)
    ensures old(connector.told) <= connector.told
    ensures Filled(connector.told[|old(connector.told)|..], id, |s.toGuest| < WINDOW_BYTES, eof, failed)
  {
    hide Grown;
    s, failed, received, eof := s0, false, [], false;
    GrownByNothing(connector.yielded, id);
    while |s.toGuest| < WINDOW_BYTES
      invariant s == s0.(toGuest := s0.toGuest + received)
      invariant received != [] ==> |s0.toGuest| + |received| <= WINDOW_BYTES
      invariant connector.yielded == Grown(old(connector.yielded), id, received)
      invariant old(connector.told) <= connector.told
      invariant AllYielded(connector.told[|old(connector.told)|..], id)
      decreases WINDOW_BYTES - |s.toGuest|
    {
      ghost var before := connector.told[|old(connector.told)|..];
      var want := Min(WINDOW_BYTES - |s.toGuest|, READ_CHUNK);
      var r := connector.Read(id, want);
      assert connector.told[|old(connector.told)|..] == before + [HasRead(id, want, r)];
      match r
      case Got(bytes) =>
        GrownTwice(old(connector.yielded), id, received, bytes);
        if bytes == [] {
          assert received + bytes == received;
          eof := true;
          s := s.(hostReadClosed := true,
                  state := if s.state.Established? then HalfClosed else s.state);
          return;
        }
        var got := bytes[..Min(|bytes|, want)];
        assert got == bytes;
        s := s.(toGuest := s.toGuest + got);
        received := received + got;
      case ReadBlocked => return;
      case ReadError =>
        failed := true;
        return;
    }
  }

  /** Steps 1 and 2. */
  method TransferBytes(connector: Connector, id: u16, s0: Session)
    returns (s: Session, failed: bool, ghost io: Io)
    modifies connector`taken, connector`yielded, connector`told
    ensures PossibleIo(s0, io) && failed == (io.writeFailed || io.readFailed)
    ensures !failed ==> s == Transfer(s0, io)
    ensures connector.taken == Grown(old(connector.taken), id, s0.toSocket[..io.accepted])
    ensures connector.yielded == Grown(old(connector.yielded), id, io.received)
    ensures old(connector.told) <= connector.told
    ensures TurnHeard(connector.told[|old(connector.told)|..], id, s0, io)
  {
    hide Grown, TurnHeard;
    ghost var accepted;
    s, failed, accepted := FlushToSocket(connector, id, s0);
    io := Io(accepted, failed, [], false, false);
    ghost var flushed := connector.told;
    if failed || s.hostReadClosed {
      GrownByNothing(connector.yielded, id);
    } else {
      ghost var received, eof;
      s, failed, received, eof := ReadWindow(connector, id, s);
      io := io.(received := received, eof := eof, readFailed := failed);
    }
    HeardParts(old(connector.told), flushed, connector.told, id, s0, io);
  }

  /** The parse loop: every whole frame at the front of `input` and where the last
      of them ends. */
  method WholeFrames(input: seq<byte>)
    returns (owned: seq<EgressCodec.Frame>, offset: nat, error: Option<CodecError>)
    ensures owned == Parse(input).frames && error == Parse(input).error
    ensures error.None? ==> offset <= |input| && input[offset..] == Parse(input).rest
  {
    hide Decode, Parse, Wire, WireFrame, Encodable;
    owned, offset := [], 0;
    assert input[0..] == input;
    while true
      invariant offset <= |input|
      invariant Parse(input).frames == owned + Parse(input[offset..]).frames
      invariant Parse(input).rest == Parse(input[offset..]).rest
      invariant Parse(input).error == Parse(input[offset..]).error
      decreases |input| - offset
    {
      match Decode(input[offset..])
      case Whole(f, n) =>
        ParseStep(input[offset..], f, n);
        assert input[offset..][n..] == input[offset + n..];
        Reassociate(owned, f, Parse(input[offset + n..]).frames);
        owned, offset := owned + [f], offset + n;
      case NeedMore =>
        ParseStop(input[offset..]);
        return owned, offset, None;
      case Malformed(e) =>
        ParseStop(input[offset..]);
        return owned, offset, Some(e);
    }
  }

  // What each frame does to the table, spelled out.

  lemma OpenStep(h: Host, f: EgressCodec.Frame)
    requires f.Open?
    requires f.stream !in h.sessions && f.stream !in h.resolving && |h.sessions| < MAX_SESSIONS
    requires f.host != [] && f.port != 0
    ensures NextHost(h, Frame(f))
         == h.(sessions := h.sessions[f.stream := NEW_SESSION], resolving := h.resolving + {f.stream},
               asked := h.asked + {Job(f.stream, h.tickets)}, tickets := h.tickets + 1,
               owner := h.owner[f.stream := h.tickets])
  {
    assert OutcomeOf(h, Frame(f)) == Outcome(Some(NEW_SESSION), true, [], StartResolve);
    hide OutcomeOf;
    assert h.out + [] == h.out;
  }

  lemma DataStep(h: Host, f: EgressCodec.Frame)
    requires f.Data? && f.stream in h.sessions && !h.sessions[f.stream].guestWriteClosed
    requires |h.sessions[f.stream].toSocket + f.payload| <= TO_SOCKET_CAP
    ensures var s := h.sessions[f.stream];
            NextHost(h, Frame(f)) ==
              h.(sessions := h.sessions[f.stream := s.(toSocket := s.toSocket + f.payload)])
  {
    assert h.out + [] == h.out;
    InstallResolving(h.resolving, f.stream);
  }

  lemma CloseStep(h: Host, f: EgressCodec.Frame)
    requires f.Close? && f.stream in h.sessions
    ensures var s := h.sessions[f.stream];
            var state := if s.state.Established? then HalfClosed else s.state;
            NextHost(h, Frame(f)) ==
              h.(sessions := h.sessions[f.stream := s.(guestWriteClosed := true, state := state)],
                 halfClosed := if f.stream in h.sockets then h.halfClosed + {f.stream} else h.halfClosed)
  {
    assert h.out + [] == h.out;
    InstallResolving(h.resolving, f.stream);
  }

  lemma WindowStep(h: Host, f: EgressCodec.Frame)
    requires f.Window? && f.stream in h.sessions
    ensures var s := h.sessions[f.stream];
            NextHost(h, Frame(f)) ==
              h.(sessions := h.sessions[f.stream := s.(credit := Min(s.credit + f.credit, USIZE_MAX))])
  {
    hide Min;
    assert h.out + [] == h.out;
    InstallResolving(h.resolving, f.stream);
  }

  lemma UnknownStream(h: Host, f: EgressCodec.Frame)
    requires (f.Close? || f.Window?) && f.stream !in h.sessions
    ensures NextHost(h, Frame(f)) == h
  {
    assert h.out + [] == h.out && h.sessions - {f.stream} == h.sessions;
    InstallResolving(h.resolving, f.stream);
  }

  lemma RstStep(h: Host, f: EgressCodec.Frame)
    requires f.Rst?
    ensures NextHost(h, Frame(f))
         == h.(sessions := h.sessions - {f.stream}, sockets := h.sockets - {f.stream},
               halfClosed := h.halfClosed - {f.stream})
  {
    assert h.out + [] == h.out;
    InstallResolving(h.resolving, f.stream);
  }

  lemma ResetStep(h: Host, f: EgressCodec.Frame)
    requires || f.OpenOk? || f.OpenErr?
             || (f.Open? && (f.stream in h.sessions || f.stream in h.resolving))
             || (f.Data? && f.stream !in h.sessions)
             || (f.Data? && f.stream in h.sessions &&
                 (h.sessions[f.stream].guestWriteClosed
                  || |h.sessions[f.stream].toSocket + f.payload| > TO_SOCKET_CAP))
    ensures NextHost(h, Frame(f)) == Install(h, f.stream, Reset(f.stream, f.stream in h.resolving))
  {
  }

  lemma RefusedStep(h: Host, f: EgressCodec.Frame)
    requires f.Open? && f.stream !in h.sessions && f.stream !in h.resolving
    requires |h.sessions| >= MAX_SESSIONS || f.host == [] || f.port == 0
    ensures NextHost(h, Frame(f))
         == Install(h, f.stream,
                    FailOpen(f.stream, false, if |h.sessions| >= MAX_SESSIONS then StreamLimit else ProtocolError))
  {
  }

  lemma InstallResolving(resolving: set<u16>, stream: u16)
    ensures (if stream in resolving then resolving + {stream} else resolving - {stream}) == resolving
  {
  }

  predicate Acts(step: HostStep, r: Resolved) {
    step.Harvest? && step.job == JobOf(r)
  }

  /** Every resolution of one delivery was acted on, in turn. */
  predicate ActedOn(told: Answered, steps: seq<HostStep>) {
    && told.Resolutions? && |steps| == |told.answers|
    && forall i :: 0 <= i < |steps| ==> Acts(steps[i], told.answers[i])
  }

  /** Every session past Resolving was served exactly once. */
  ghost predicate ServesAll(h: Host, steps: seq<HostStep>) {
    exists order: seq<u16> :: ServesIn(h, steps, order)
  }

  ghost predicate ServesIn(h: Host, steps: seq<HostStep>, order: seq<u16>) {
    && |steps| == |order| && (forall i :: 0 <= i < |order| ==> ServesStream(steps[i], order[i]))
    && (forall i, j :: 0 <= i < j < |order| ==> order[i] != order[j])
    && forall id :: id in order <==> id in h.sessions && !h.sessions[id].state.Resolving?
  }

  predicate ServesStream(step: HostStep, id: u16) {
    (step.Poll? || step.Turn?) && step.id == id
  }

  /** Serving one stream leaves every other session as it was. */
  lemma OthersStay(trace: seq<HostStep>, step: HostStep, id: u16)
    requires ServesStream(step, id)
    ensures var before, after := RunHost(NEW_HOST, trace), RunHost(NEW_HOST, trace + [step]);
            forall k :: k != id && k in before.sessions ==>
              k in after.sessions && after.sessions[k] == before.sessions[k]
  {
    RunHostThen(trace, step);
    hide RunHost, OutcomeOf, Possible;
  }

  lemma RunHostThen(steps: seq<HostStep>, step: HostStep)
    ensures RunHost(NEW_HOST, steps + [step]) == NextHost(RunHost(NEW_HOST, steps), step)
  {
    hide NextHost;
    var all := steps + [step];
    assert all[..|all| - 1] == steps && all[|all| - 1] == step;
  }

  lemma WireOne(f: EgressCodec.Frame)
    requires WireFrame(f)
    ensures WireFrames([f]) && WireAll([f]) == Wire(f)
  {
    assert [f][1..] == [];
  }

  lemma QueueOne(queued: seq<EgressCodec.Frame>, handed: seq<byte>, pending: seq<byte>, f: EgressCodec.Frame)
    requires WireFrames(queued) && WireAll(queued) == handed + pending && WireFrame(f)
    ensures WireFrames(queued + [f]) && WireAll(queued + [f]) == handed + (pending + Wire(f))
  {
    hide Wire, WireFrame, WireAll;
    WireOne(f);
    WireAllAppend(queued, [f]);
  }

  /** The table once a resolving stream has its answer. */
  function Advanced(h: Host, id: u16, answer: Answer): Host
    requires id in h.sessions
  {
    match answer
    case NoAddress => Install(h, id, FailOpen(id, false, ResolveFailed))
    case ConnectError => Install(h, id, FailOpen(id, false, Unreachable))
    case ConnectStarted =>
      h.(sessions := h.sessions[id := h.sessions[id].(state := Connecting)],
         sockets := h.sockets + {id}, halfClosed := h.halfClosed - {id})
  }

  /** Acting on an answer when the id is already out of `resolving`. */
  lemma HarvestStep(h: Host, job: Job, answer: Answer)
    requires job in h.asked
    ensures var id, g := job.stream, h.(asked := h.asked - {job}, resolving := h.resolving - {job.stream});
            NextHost(h, Harvest(job, answer)) ==
              if id !in h.sessions || !h.sessions[id].state.Resolving? then g else Advanced(g, id, answer)
  {
    assert h.out + [] == h.out;
    assert job.stream !in h.sessions ==> h.sessions - {job.stream} == h.sessions;
    assert job.stream in h.sessions ==> h.sessions[job.stream := h.sessions[job.stream]] == h.sessions;
    assert h.resolving - {job.stream} - {job.stream} == h.resolving - {job.stream};
  }

  function FrameSteps(frames: seq<EgressCodec.Frame>): seq<HostStep> {
    seq(|frames|, i requires 0 <= i < |frames| => HostStep.Frame(frames[i]))
  }

  lemma PendingStep(h: Host, id: u16)
    requires id in h.sessions && h.sessions[id].state.Connecting?
    ensures NextHost(h, Poll(id, Pending)) == h
  {
    InstallResolving(h.resolving, id);
    assert h.out + [] == h.out && h.sessions[id := h.sessions[id]] == h.sessions;
  }

  lemma ConnectedStep(h: Host, id: u16)
    requires id in h.sessions && h.sessions[id].state.Connecting?
    ensures WireFrame(OpenOk(id))
    ensures var s := h.sessions[id];
            var state := if s.guestWriteClosed then HalfClosed else Established;
            NextHost(h, Poll(id, Connected)) ==
              h.(sessions := h.sessions[id := s.(state := state)], out := h.out + [OpenOk(id)],
                 halfClosed := if s.guestWriteClosed && id in h.sockets then h.halfClosed + {id} else h.halfClosed)
  {
    InstallResolving(h.resolving, id);
    EndingFramesWire(id, Overrun);
  }

  lemma ConnectFailedStep(h: Host, id: u16, reason: Reason)
    requires id in h.sessions && h.sessions[id].state.Connecting? && !reason.Other?
    ensures WireFrame(OpenErr(id, reason))
    ensures NextHost(h, Poll(id, Failed(reason))) ==
              h.(sessions := h.sessions - {id}, sockets := h.sockets - {id}, halfClosed := h.halfClosed - {id},
                 out := h.out + [OpenErr(id, reason)])
  {
    InstallResolving(h.resolving, id);
    EndingFramesWire(id, reason);
  }

  lemma TurnFailed(h: Host, id: u16, io: Io)
    requires Possible(h, Turn(id, io)) && (io.writeFailed || io.readFailed)
    ensures NextHost(h, Turn(id, io)) == Install(Heard(h, Turn(id, io)), id, Reset(id, id in h.resolving))
  {
    hide Chunked, Grown;
  }

  /** The table once session `t`, with its transfers done, has been framed. */
  function AfterTransfer(h: Host, id: u16, t: Session): Host {
    var u := Release(t);
    var v := u.(hostCloseSent := u.hostCloseSent || AnnouncesClose(u));
    var out := Chunked(id, t.toGuest[..Releasable(t)])
               + if AnnouncesClose(u) then [EgressCodec.Frame.Close(id)] else [];
    if v.IsDrained()
    then h.(sessions := h.sessions - {id}, sockets := h.sockets - {id}, halfClosed := h.halfClosed - {id},
            out := h.out + out)
    else h.(sessions := h.sessions[id := v], out := h.out + out)
  }

  lemma TurnStep(h: Host, id: u16, io: Io)
    requires Possible(h, Turn(id, io)) && !io.writeFailed && !io.readFailed
    ensures NextHost(h, Turn(id, io)) == AfterTransfer(Heard(h, Turn(id, io)), id, Transfer(h.sessions[id], io))
  {
    hide Chunked, Grown;
    InstallResolving(h.resolving, id);
  }

  /** The frames a session's releasable bytes go out in. */
  function Framed(id: u16, s: Session): seq<EgressCodec.Frame> {
    Chunked(id, s.toGuest[..Releasable(s)])
  }

  /** The chunk the framing loop takes next is the next chunk of the whole. */
  lemma FrameStep(id: u16, s: Session, take: nat, next: Session)
    requires s.toGuest != [] && s.credit > 0 && take == Min(Min(|s.toGuest|, s.credit), MAX_PAYLOAD)
    requires next == s.(toGuest := s.toGuest[take..], credit := s.credit - take)
    ensures Release(next) == Release(s) && |next.toGuest| < |s.toGuest|
    ensures Framed(id, s) == [Data(id, s.toGuest[..take])] + Framed(id, next)
  {
    hide Chunked;
    var n := Releasable(s);
    assert Releasable(next) == n - take;
    SliceAgain(s.toGuest, take, n);
    var all := s.toGuest[..n];
    assert take == Min(|all|, MAX_PAYLOAD);
    ChunkedFirst(id, all, take);
  }

  lemma SliceAgain(bytes: seq<byte>, take: nat, n: nat)
    requires take <= n <= |bytes|
    ensures bytes[take..][n - take..] == bytes[n..]
    ensures bytes[..n][..take] == bytes[..take] && bytes[..n][take..] == bytes[take..][..n - take]
  {
  }

  lemma ChunkedFirst(id: u16, bytes: seq<byte>, take: nat)
    requires bytes != [] && take == Min(|bytes|, MAX_PAYLOAD)
    ensures Chunked(id, bytes) == [Data(id, bytes[..take])] + Chunked(id, bytes[take..])
  {
  }

  lemma FrameDone(id: u16, s: Session)
    requires s.toGuest == [] || s.credit == 0
    ensures Release(s) == s && Framed(id, s) == []
  {
    assert s.toGuest[0..] == s.toGuest && s.toGuest[..0] == [];
  }

  lemma Reassociate<T>(a: seq<T>, x: T, b: seq<T>)
    ensures a + ([x] + b) == (a + [x]) + b
  {
  }

  lemma DataWire(id: u16, chunk: seq<byte>)
    requires |chunk| <= MAX_PAYLOAD
    ensures WireFrame(Data(id, chunk))
  {
  }
}
