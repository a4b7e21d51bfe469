/** Every interleaving of one mux stream, over any number of uses of its id, keeps
    the flow-control equation and the byte order. */
module MuxProof {
  import opened EgressCodec
  import opened EgressSession
  import opened MuxLink
  import opened MuxInv
  import opened MuxGuest
  import opened MuxHost

  /** Every step of either end keeps the invariant. */
  lemma NextKeeps(l: Link, step: Step)
    requires Inv(l)
    ensures Inv(Next(l, step))
  {
    hide Inv, ReceiveFrame, HandleUp, ServiceIo, RegisterClient, RouteFrame, Apply, PushUp, FinishUp;
    match step
    case Register(port, host) => if l.handler.None? { RegisterKeeps(l, port, host); }
    case Route => if l.down != [] { RouteKeeps(l); }
    case Receive(ok, partial) => if CanReceive(l) { ReceiveKeeps(l, ok, partial); }
    case UpData(bytes) => if UpRunning(l) { UpDataKeeps(l, bytes); }
    case UpClose => if UpRunning(l) { UpEndKeeps(l, Close(l.id)); }
    case UpRst => if UpRunning(l) { UpEndKeeps(l, Rst(l.id)); }
    case Deregister => if l.handler.Some? { DeregisterKeeps(l); }
    case HostFrame(full) => if l.up != [] { HandleUpKeeps(l, full); }
    case HostAnswer(answer) => if l.resolving { AnswerKeeps(l, answer); }
    case HostPoll(poll) =>
      if l.session.Some? && l.session.value.state.Connecting? { PollKeeps(l, poll); }
    case HostIo(io) =>
      if l.session.Some? && l.session.value.IsOpen() && PossibleIo(l.session.value, io) {
        ServiceKeeps(l, io);
      }
  }

  lemma {:induction false} RunKeeps(l: Link, steps: seq<Step>)
    requires Inv(l)
    ensures Inv(Run(l, steps))
    decreases |steps|
  {
    hide Inv, Next;
    if steps != [] {
      NextKeeps(l, steps[0]);
      RunKeeps(Next(l, steps[0]), steps[1..]);
    }
  }

  // What it means.

  /** DATA bytes of the live use on their way to the client. */
  function DataInFlight(l: Link): nat {
    |DataBytes(Own(Toward(l), l.cur))|
  }

  /** WINDOW credit of the live use on its way to the host. */
  function CreditInFlight(l: Link): nat {
    WindowSum(Own(l.up, l.cur))
  }

  /** On every live stream the credit, the DATA in flight, the bytes not granted back
      and the WINDOW credit in flight add up to the window, plus what the client was
      given of other uses of the id; and with nothing in flight the host can always
      send. */
  lemma FlowControl(l: Link)
    requires Inv(l) && Live(l) && Countable(l.logs[l.Last()].stray)
    ensures var credit, ungranted, stray := l.session.value.credit, l.handler.value.ungranted, l.logs[l.Last()].stray;
            && credit + DataInFlight(l) + ungranted + CreditInFlight(l) == WINDOW_BYTES + stray
            && DataInFlight(l) <= WINDOW_BYTES + stray
            && (DataInFlight(l) == 0 && CreditInFlight(l) == 0 ==> credit > 0)
  {
    hide LogOk, HostOk, DataBytes, WindowSum, ShapeFrom, Own, UpFrom, EndTag, DownOk;
  }

  /** For every incarnation there ever was: what the client has is first what came of
      other incarnations and then a prefix of what its own socket yielded, all of it
      once the handler acted on its CLOSE; the socket has a prefix of what the client
      sent; and after a CLOSE there is only RST. */
  lemma ByteOrder(l: Link, inc: nat)
    requires Inv(l) && inc < |l.logs|
    ensures var g := l.logs[inc];
            && g.stray <= |g.delivered| && g.delivered[g.stray..] <= g.yielded
            && (g.sawClose ==> g.delivered[g.stray..] == g.yielded)
            && g.written <= g.pushed
            && forall i, j :: 0 <= i < j < |g.sent| && g.sent[i].Close? ==> g.sent[j].Rst?
  {
    var g := l.logs[inc];
    assert LogOk(g);
    forall i, j | 0 <= i < j < |g.sent| && g.sent[i].Close?
      ensures g.sent[j].Rst?
    {
      AfterClose(g.sent, i, j);
    }
  }

  lemma AfterClose(sent: seq<Frame>, i: nat, j: nat)
    requires ShapeFrom(Start, sent) != Broken
    requires i < j < |sent| && sent[i].Close?
    ensures sent[j].Rst?
  {
    var before, tail := sent[..i], sent[i + 1..];
    assert sent == before + [sent[i]] + tail;
    assert sent[j] == tail[j - (i + 1)];
    ShapeAfterClose(before, sent[i], tail);
    hide ShapeFrom;
    QuietTail(Ended, tail);
  }

  lemma ShapeAfterClose(before: seq<Frame>, close: Frame, tail: seq<Frame>)
    requires close.Close? && ShapeFrom(Start, before + [close] + tail) != Broken
    ensures ShapeFrom(Ended, tail) != Broken
  {
    ShapeAppend(Start, before + [close], tail);
    ShapeAppend(Start, before, [close]);
    var p := ShapeFrom(Start, before);
    assert ShapeFrom(p, [close]) == ShapeFrom(Advance(p, close), []);
    BrokenStays(tail);
  }
}
