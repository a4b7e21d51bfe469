/** What the host backend does to one stream: the session record and the three
    ways a pump moves it (a guest frame, a DNS answer, a service turn).  The
    outside world's answers are parameters. */
module EgressSession {
  import opened Prelude
  import opened EgressCodec

  const WINDOW_BYTES: nat := 32 * 1024
  const READ_CHUNK: nat := 16 * 1024
  const TO_SOCKET_CAP: nat := 256 * 1024
  const MAX_SESSIONS: nat := 256
  const USIZE_MAX: nat := 0xffff_ffff_ffff_ffff

  datatype SessionState = Resolving | Connecting | Established | HalfClosed

  datatype Session = Session(
    state: SessionState,
    toSocket: seq<byte>,
    toGuest: seq<byte>,
    credit: nat,
    guestWriteClosed: bool,
    hostReadClosed: bool,
    hostCloseSent: bool)
  {
    predicate IsDrained() {
      guestWriteClosed && hostReadClosed && toSocket == [] && toGuest == []
    }

    /** What every reachable session satisfies. */
    predicate Valid() {
      && |toGuest| <= WINDOW_BYTES
      && |toSocket| <= TO_SOCKET_CAP
      && (hostCloseSent ==> hostReadClosed && toGuest == [])
      && (state.Resolving? || state.Connecting? ==> toGuest == [] && !hostReadClosed)
      && (state.Established? ==> !guestWriteClosed && !hostReadClosed)
      && (state.HalfClosed? ==> guestWriteClosed || hostReadClosed)
    }

    /** Connected at some point: its socket exists and `OPEN_OK` went out. */
    predicate IsOpen() {
      state.Established? || state.HalfClosed?
    }
  }

  const NEW_SESSION := Session(Resolving, [], [], WINDOW_BYTES, false, false, false)

  /** What a step asked of the connector, besides reads and writes. */
  datatype Effect = NoEffect | StartResolve | SocketOpened | ShutdownWrite | SocketClosed

  /** The stream after a step, with the frames it queued for the guest. */
  datatype Outcome = Outcome(session: Option<Session>, resolving: bool, out: seq<Frame>, effect: Effect)

  /** `reset_stream` and `abort_open`. */
  function Reset(id: u16, resolving: bool): Outcome {
    Outcome(None, resolving, [Rst(id)], SocketClosed)
  }

  function FailOpen(id: u16, resolving: bool, reason: Reason): Outcome {
    Outcome(None, resolving, [OpenErr(id, reason)], SocketClosed)
  }

  // A frame from the guest.

  function HandleFrame(f: Frame, session: Option<Session>, resolving: bool, full: bool): Outcome {
    var id := f.stream;
    match f
    case Open(_, port, host) =>
      if session.Some? || resolving then Reset(id, resolving)
      else if full then FailOpen(id, resolving, StreamLimit)
      else if host == [] || port == 0 then FailOpen(id, resolving, ProtocolError)
      else Outcome(Some(NEW_SESSION), true, [], StartResolve)
    case Data(_, payload) =>
      if session.None? || session.value.guestWriteClosed then Reset(id, resolving)
      else
        var s := session.value.(toSocket := session.value.toSocket + payload);
        if |s.toSocket| > TO_SOCKET_CAP then Reset(id, resolving)
        else Outcome(Some(s), resolving, [], NoEffect)
    case Close(_) =>
      if session.None? then Outcome(None, resolving, [], NoEffect)
      else
        var s := session.value;
        var state := if s.state.Established? then HalfClosed else s.state;
        Outcome(Some(s.(guestWriteClosed := true, state := state)), resolving, [], ShutdownWrite)
    case Rst(_) => Outcome(None, resolving, [], SocketClosed)
    case Window(_, credit) =>
      if session.None? then Outcome(None, resolving, [], NoEffect)
      else
        var s := session.value;
        Outcome(Some(s.(credit := Min(s.credit + credit, USIZE_MAX))), resolving, [], NoEffect)
    case _ => Reset(id, resolving)
  }

  // The answer to a DNS request.

  /** The resolver's answer and, when it named an address, whether the connect
      could be started. */
  datatype Answer = NoAddress | ConnectError | ConnectStarted

  function HarvestAnswer(id: u16, session: Option<Session>, answer: Answer): Outcome {
    if session.None? || !session.value.state.Resolving? then Outcome(session, false, [], NoEffect)
    else match answer
         case NoAddress => FailOpen(id, false, ResolveFailed)
         case ConnectError => FailOpen(id, false, Unreachable)
         case ConnectStarted =>
           Outcome(Some(session.value.(state := Connecting)), false, [], SocketOpened)
  }

  // A service turn.

  datatype ConnectPoll = Pending | Connected | Failed(reason: Reason)

  function RunConnecting(id: u16, s: Session, resolving: bool, poll: ConnectPoll): Outcome {
    match poll
    case Pending => Outcome(Some(s), resolving, [], NoEffect)
    case Connected =>
      if s.guestWriteClosed then
        Outcome(Some(s.(state := HalfClosed)), resolving, [OpenOk(id)], ShutdownWrite)
      else
        Outcome(Some(s.(state := Established)), resolving, [OpenOk(id)], NoEffect)
    case Failed(reason) => Outcome(None, resolving, [OpenErr(id, reason)], SocketClosed)
  }

  /** The socket's side of one turn: how many buffered bytes it accepted, the
      bytes it yielded, and how writing and reading ended. */
  datatype Io = Io(accepted: nat, writeFailed: bool, received: seq<byte>, eof: bool, readFailed: bool)

  /** The turns that the write and read loops can produce. */
  predicate PossibleIo(s: Session, io: Io) {
    && io.accepted <= |s.toSocket| && (io.writeFailed ==> io.accepted < |s.toSocket|)
    && (io.writeFailed || s.hostReadClosed ==> io.received == [] && !io.eof && !io.readFailed)
    && (io.received != [] ==> |s.toGuest| + |io.received| <= WINDOW_BYTES)
    && (io.eof || io.readFailed ==> |s.toGuest| + |io.received| < WINDOW_BYTES)
    && !(io.eof && io.readFailed)
  }

  /** `bytes` as DATA frames of at most `MAX_PAYLOAD` bytes each. */
  function Chunked(id: u16, bytes: seq<byte>): seq<Frame> {
    if bytes == [] then []
    else
      var take := Min(|bytes|, MAX_PAYLOAD);
      [Data(id, bytes[..take])] + Chunked(id, bytes[take..])
  }

  /** Steps 1 and 2: flush to the socket, read into the window buffer. */
  function Transfer(s: Session, io: Io): Session
    requires PossibleIo(s, io)
  {
    s.(toSocket := s.toSocket[io.accepted..],
       toGuest := s.toGuest + io.received,
       hostReadClosed := s.hostReadClosed || io.eof,
       state := if io.eof && s.state.Established? then HalfClosed else s.state)
  }

  /** Step 3: how much of the window buffer the credit lets out. */
  function Releasable(s: Session): nat {
    Min(|s.toGuest|, s.credit)
  }

  function Release(s: Session): Session {
    s.(toGuest := s.toGuest[Releasable(s)..], credit := s.credit - Releasable(s))
  }

  /** Step 3b: announce the read-side EOF once the buffer is framed. */
  predicate AnnouncesClose(s: Session) {
    s.hostReadClosed && s.toGuest == [] && !s.hostCloseSent
  }

  function RunOpenIo(id: u16, s: Session, resolving: bool, io: Io): Outcome
    requires PossibleIo(s, io)
  {
    if io.writeFailed || io.readFailed then Reset(id, resolving)
    else
      var t := Transfer(s, io);
      var data := Chunked(id, t.toGuest[..Releasable(t)]);
      var u := Release(t);
      var close := if AnnouncesClose(u) then [Close(id)] else [];
      var v := u.(hostCloseSent := u.hostCloseSent || AnnouncesClose(u));
      if v.IsDrained() then Outcome(None, resolving, data + close, SocketClosed)
      else Outcome(Some(v), resolving, data + close, NoEffect)
  }

  // What every step keeps.

  lemma HandleFrameKeepsValid(f: Frame, session: Option<Session>, resolving: bool, full: bool)
    requires session.Some? ==> session.value.Valid()
    ensures var o := HandleFrame(f, session, resolving, full);
            o.session.Some? ==> o.session.value.Valid()
  {
  }

  lemma RunOpenIoKeepsValid(id: u16, s: Session, resolving: bool, io: Io)
    requires s.Valid() && s.IsOpen() && PossibleIo(s, io)
    ensures var o := RunOpenIo(id, s, resolving, io);
            o.session.Some? ==> o.session.value.Valid() && o.session.value.IsOpen()
  {
    hide Chunked;
  }

  /** The payload bytes of the DATA frames in `frames`, in order. */
  function DataBytes(frames: seq<Frame>): seq<byte> {
    if frames == [] then []
    else (if frames[0].Data? then frames[0].payload else []) + DataBytes(frames[1..])
  }

  lemma {:induction false} DataBytesAppend(a: seq<Frame>, b: seq<Frame>)
    ensures DataBytes(a + b) == DataBytes(a) + DataBytes(b)
  {
    if a == [] {
      assert a + b == b;
    } else {
      assert (a + b)[1..] == a[1..] + b;
      DataBytesAppend(a[1..], b);
    }
  }

  predicate AllData(id: u16, frames: seq<Frame>) {
    forall i :: 0 <= i < |frames| ==> frames[i].Data? && frames[i].stream == id && Encodable(frames[i])
  }

  /** Chunking loses, reorders and invents nothing, and every chunk fits a frame. */
  lemma {:induction false} ChunkedConserves(id: u16, bytes: seq<byte>)
    ensures DataBytes(Chunked(id, bytes)) == bytes
    ensures AllData(id, Chunked(id, bytes))
    decreases |bytes|
  {
    if bytes != [] {
      var take := Min(|bytes|, MAX_PAYLOAD);
      ChunkedConserves(id, bytes[take..]);
      assert Chunked(id, bytes)[1..] == Chunked(id, bytes[take..]);
      assert bytes == bytes[..take] + bytes[take..];
    }
  }
}
