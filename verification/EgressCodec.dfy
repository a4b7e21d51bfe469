/** The binary mux wire protocol of the egress channel: a six-byte header
    (version, type, stream, length; little-endian) and a typed payload. */
module EgressCodec {
  import opened Prelude

  const VERSION: byte := 1
  const HEADER_LEN: nat := 6
  const MAX_PAYLOAD: nat := 0xffff
  const MAX_HOST_LEN: nat := 255

  const T_OPEN: byte := 1
  const T_OPEN_OK: byte := 2
  const T_OPEN_ERR: byte := 3
  const T_DATA: byte := 4
  const T_CLOSE: byte := 5
  const T_RST: byte := 6
  const T_WINDOW: byte := 7

  /** Why an `OPEN` was refused. */
  datatype Reason =
    | ResolveFailed
    | ConnectRefused
    | Unreachable
    | StreamLimit
    | ProtocolError
    | Overrun
    | Other(code: byte)

  function ReasonCode(r: Reason): byte {
    match r
    case ResolveFailed => 0
    case ConnectRefused => 1
    case Unreachable => 2
    case StreamLimit => 3
    case ProtocolError => 4
    case Overrun => 5
    case Other(c) => c
  }

  function ReasonFromCode(c: byte): Reason {
    if c == 0 then ResolveFailed
    else if c == 1 then ConnectRefused
    else if c == 2 then Unreachable
    else if c == 3 then StreamLimit
    else if c == 4 then ProtocolError
    else if c == 5 then Overrun
    else Other(c)
  }

  datatype Frame =
    | Open(stream: u16, port: u16, host: seq<byte>)
    | OpenOk(stream: u16)
    | OpenErr(stream: u16, reason: Reason)
    | Data(stream: u16, payload: seq<byte>)
    | Close(stream: u16)
    | Rst(stream: u16)
    | Window(stream: u16, credit: u32)

  datatype CodecError =
    | UnsupportedVersion(version: byte)
    | UnknownType(ty: byte)
    | BadLength(frameType: byte, len: u16)
    | HostTooLong(size: nat)
    | PayloadTooLong(size: nat)

  datatype Decoded =
    | NeedMore
    | Whole(frame: Frame, consumed: nat)
    | Malformed(error: CodecError)

  // Little-endian integers.

  function Le16(x: u16): (bs: seq<byte>)
    ensures |bs| == 2 && FromLe16(bs[0], bs[1]) == x
  {
    [x % 0x100, x / 0x100]
  }

  function FromLe16(a: byte, b: byte): u16 {
    a + 0x100 * b
  }

  function Le32(x: u32): (bs: seq<byte>)
    ensures |bs| == 4 && FromLe32(bs[0], bs[1], bs[2], bs[3]) == x
  {
    Le16(x % 0x1_0000) + Le16(x / 0x1_0000)
  }

  function FromLe32(a: byte, b: byte, c: byte, d: byte): u32 {
    FromLe16(a, b) + 0x1_0000 * FromLe16(c, d)
  }

  // Encoding.

  function Header(ty: byte, stream: u16, len: u16): (bs: seq<byte>)
    ensures |bs| == HEADER_LEN
  {
    [VERSION, ty] + Le16(stream) + Le16(len)
  }

  function FrameType(f: Frame): byte {
    match f
    case Open(_, _, _) => T_OPEN
    case OpenOk(_) => T_OPEN_OK
    case OpenErr(_, _) => T_OPEN_ERR
    case Data(_, _) => T_DATA
    case Close(_) => T_CLOSE
    case Rst(_) => T_RST
    case Window(_, _) => T_WINDOW
  }

  function Payload(f: Frame): seq<byte> {
    match f
    case Open(_, port, host) => Le16(port) + host
    case OpenErr(_, reason) => [ReasonCode(reason)]
    case Data(_, payload) => payload
    case Window(_, credit) => Le32(credit)
    case _ => []
  }

  /** Every field fits the wire format. */
  predicate Encodable(f: Frame) {
    |Payload(f)| <= (if f.Open? then 2 + MAX_HOST_LEN else MAX_PAYLOAD)
  }

  function Wire(f: Frame): (bs: seq<byte>)
    requires Encodable(f)
    ensures |bs| == HEADER_LEN + |Payload(f)|
  {
    Header(FrameType(f), f.stream, |Payload(f)|) + Payload(f)
  }

  /** Encode one frame, or report the field that is too long for it. */
  function Encode(f: Frame): Result<seq<byte>, CodecError> {
    if f.Open? && |f.host| > MAX_HOST_LEN then Err(HostTooLong(|f.host|))
    else if f.Data? && |f.payload| > MAX_PAYLOAD then Err(PayloadTooLong(|f.payload|))
    else Ok(Wire(f))
  }

  // Decoding.

  /** Decode the frame at the front of `input`. */
  function Decode(input: seq<byte>): Decoded {
    if input != [] && input[0] != VERSION then Malformed(UnsupportedVersion(input[0]))
    else if |input| < HEADER_LEN then NeedMore
    else
      var stream := FromLe16(input[2], input[3]);
      var len := FromLe16(input[4], input[5]);
      var total := HEADER_LEN + len;
      if |input| < total then NeedMore
      else match DecodeBody(input[1], stream, input[HEADER_LEN..total])
           case Ok(f) => Whole(f, total)
           case Err(e) => Malformed(e)
  }

  function DecodeBody(ty: byte, stream: u16, payload: seq<byte>): Result<Frame, CodecError>
    requires |payload| <= MAX_PAYLOAD
  {
    var badLen := Err(BadLength(ty, |payload|));
    if ty == T_OPEN then
      if |payload| < 2 || |payload| - 2 > MAX_HOST_LEN then badLen
      else Ok(Open(stream, FromLe16(payload[0], payload[1]), payload[2..]))
    else if ty == T_OPEN_OK then
      if |payload| != 0 then badLen else Ok(OpenOk(stream))
    else if ty == T_OPEN_ERR then
      if |payload| != 1 then badLen else Ok(OpenErr(stream, ReasonFromCode(payload[0])))
    else if ty == T_DATA then Ok(Data(stream, payload))
    else if ty == T_CLOSE then
      if |payload| != 0 then badLen else Ok(Close(stream))
    else if ty == T_RST then
      if |payload| != 0 then badLen else Ok(Rst(stream))
    else if ty == T_WINDOW then
      if |payload| != 4 then badLen
      else Ok(Window(stream, FromLe32(payload[0], payload[1], payload[2], payload[3])))
    else Err(UnknownType(ty))
  }

  // One frame: decode inverts encode, encode inverts decode.

  /** The frame a peer sees: an `Other` reason whose code has a name of its own
      comes back as that name. */
  function Canonical(f: Frame): Frame {
    if f.OpenErr? then f.(reason := ReasonFromCode(ReasonCode(f.reason))) else f
  }

  lemma EncodeSucceedsIff(f: Frame)
    ensures Encode(f).Ok? <==> Encodable(f)
  {
    hide Le16, FromLe16, Le32, FromLe32, Wire;
    match f
    case Open(_, port, host) => assert |Payload(f)| == 2 + |host|;
    case _ =>
  }

  lemma BodyInvertsPayload(f: Frame)
    requires Encodable(f)
    ensures DecodeBody(FrameType(f), f.stream, Payload(f)) == Ok(Canonical(f))
  {
    match f
    case Open(_, port, host) =>
      assert Payload(f)[0] == Le16(port)[0] && Payload(f)[1] == Le16(port)[1];
      assert Payload(f)[2..] == host;
    case Window(_, credit) =>
    case OpenErr(_, _) =>
    case _ =>
  }

  lemma DecodeHeader(ty: byte, stream: u16, payload: seq<byte>, rest: seq<byte>)
    requires |payload| <= MAX_PAYLOAD
    ensures Decode(Header(ty, stream, |payload|) + payload + rest)
         == match DecodeBody(ty, stream, payload)
            case Ok(f) => Whole(f, HEADER_LEN + |payload|)
            case Err(e) => Malformed(e)
  {
    hide DecodeBody;
    var bs := Header(ty, stream, |payload|) + payload + rest;
    var len := Le16(|payload|);
    assert bs[4] == len[0] && bs[5] == len[1];
    assert bs[HEADER_LEN..HEADER_LEN + |payload|] == payload;
  }

  lemma DecodeInvertsWire(f: Frame, rest: seq<byte>)
    requires Encodable(f)
    ensures Decode(Wire(f) + rest) == Whole(Canonical(f), |Wire(f)|)
  {
    hide Decode, DecodeBody, Payload, FrameType, Canonical, Header;
    BodyInvertsPayload(f);
    DecodeHeader(FrameType(f), f.stream, Payload(f), rest);
  }

  /** A frame survives the wire unchanged iff its refusal reason, if it has one,
      is not an `Other` that reuses one of the six named codes. */
  lemma RoundTripIff(f: Frame)
    requires Encode(f).Ok?
    ensures Decode(Encode(f).value) == Whole(f, |Encode(f).value|)
       <==> !(f.OpenErr? && f.reason.Other? && f.reason.code < 6)
  {
    hide Decode, DecodeBody, Payload, Wire;
    EncodeSucceedsIff(f);
    DecodeInvertsWire(f, []);
    assert Wire(f) + [] == Wire(f);
  }

  lemma Le16InvertsFrom(a: byte, b: byte)
    ensures Le16(FromLe16(a, b)) == [a, b]
  {
  }

  lemma HalvesOf(low: int, high: int)
    requires 0 <= low < 0x1_0000 && 0 <= high < 0x1_0000
    ensures (low + 0x1_0000 * high) % 0x1_0000 == low
    ensures (low + 0x1_0000 * high) / 0x1_0000 == high
  {
  }

  lemma PayloadInvertsBody(ty: byte, stream: u16, payload: seq<byte>)
    requires |payload| <= MAX_PAYLOAD
    requires DecodeBody(ty, stream, payload).Ok?
    ensures var f := DecodeBody(ty, stream, payload).value;
            && FrameType(f) == ty && f.stream == stream && Payload(f) == payload
            && Encodable(f) && Canonical(f) == f
  {
    hide Le16, FromLe16;
    if ty == T_OPEN && |payload| >= 2 {
      Le16InvertsFrom(payload[0], payload[1]);
      assert payload == [payload[0], payload[1]] + payload[2..];
    } else if ty == T_WINDOW && |payload| == 4 {
      HalvesOf(FromLe16(payload[0], payload[1]), FromLe16(payload[2], payload[3]));
      Le16InvertsFrom(payload[0], payload[1]);
      Le16InvertsFrom(payload[2], payload[3]);
      assert payload == [payload[0], payload[1], payload[2], payload[3]];
    }
  }

  lemma HeaderBytes(h: seq<byte>)
    requires |h| == HEADER_LEN && h[0] == VERSION
    ensures h == Header(h[1], FromLe16(h[2], h[3]), FromLe16(h[4], h[5]))
  {
    assert Le16(FromLe16(h[2], h[3])) == [h[2], h[3]];
    assert Le16(FromLe16(h[4], h[5])) == [h[4], h[5]];
  }

  /** Whatever decodes is the wire form of the frame it decoded to. */
  lemma WireInvertsDecode(input: seq<byte>)
    requires Decode(input).Whole?
    ensures var d := Decode(input);
            && HEADER_LEN <= d.consumed <= |input|
            && WireFrame(d.frame)
            && Wire(d.frame) == input[..d.consumed]
  {
    hide DecodeBody, Payload, FrameType, Canonical, Header;
    var d := Decode(input);
    var p := input[HEADER_LEN..d.consumed];
    var stream := FromLe16(input[2], input[3]);
    PayloadInvertsBody(input[1], stream, p);
    assert input[..d.consumed] == input[..HEADER_LEN] + p;
    HeaderBytes(input[..HEADER_LEN]);
  }

  /** Only a decode that asked for more bytes can change when bytes arrive. */
  lemma DecodeStable(input: seq<byte>, more: seq<byte>)
    requires !Decode(input).NeedMore?
    ensures Decode(input + more) == Decode(input)
  {
    hide DecodeBody;
    if input[0] == VERSION {
      var total := HEADER_LEN + FromLe16(input[4], input[5]);
      assert (input + more)[HEADER_LEN..total] == input[HEADER_LEN..total];
    }
  }

  // The byte stream as a whole.

  /** A frame that the decoder gives back unchanged. */
  predicate WireFrame(f: Frame) {
    Encodable(f) && Canonical(f) == f
  }

  predicate WireFrames(frames: seq<Frame>) {
    forall i :: 0 <= i < |frames| ==> WireFrame(frames[i])
  }

  function WireAll(frames: seq<Frame>): seq<byte>
    requires WireFrames(frames)
  {
    if frames == [] then [] else Wire(frames[0]) + WireAll(frames[1..])
  }

  lemma {:induction false} WireAllAppend(a: seq<Frame>, b: seq<Frame>)
    requires WireFrames(a) && WireFrames(b)
    ensures WireAll(a + b) == WireAll(a) + WireAll(b)
  {
    hide WireFrame, Wire;
    if a == [] {
      assert a + b == b;
    } else {
      assert (a + b)[1..] == a[1..] + b;
      WireAllAppend(a[1..], b);
    }
  }

  datatype Parsed = Parsed(frames: seq<Frame>, rest: seq<byte>, error: Option<CodecError>)

  /** Split every whole frame off the front of `input`. */
  function Parse(input: seq<byte>): (p: Parsed)
    ensures p.error.None? ==> Decode(p.rest).NeedMore?
    decreases |input|
  {
    match Decode(input)
    case NeedMore => Parsed([], input, None)
    case Malformed(e) => Parsed([], [], Some(e))
    case Whole(f, n) =>
      WireInvertsDecode(input);
      var p := Parse(input[n..]);
      Parsed([f] + p.frames, p.rest, p.error)
  }

  lemma ParseStop(input: seq<byte>)
    requires !Decode(input).Whole?
    ensures Parse(input).frames == []
    ensures Decode(input).NeedMore? ==> Parse(input).rest == input && Parse(input).error.None?
    ensures Decode(input).Malformed? ==> Parse(input).error == Some(Decode(input).error)
  {
    hide Decode;
  }

  lemma ParseStep(input: seq<byte>, f: Frame, n: nat)
    requires Decode(input) == Whole(f, n)
    ensures 0 < n <= |input| && WireFrame(f) && Wire(f) == input[..n]
    ensures Parse(input).frames == [f] + Parse(input[n..]).frames
    ensures Parse(input).rest == Parse(input[n..]).rest
    ensures Parse(input).error == Parse(input[n..]).error
  {
    hide Decode, Wire, WireFrame;
    WireInvertsDecode(input);
  }

  /** How the input is cut into chunks does not matter: parsing `a`, keeping the
      rest and parsing on with `b` gives the frames of `a + b`. */
  lemma {:induction false} ParseSplit(a: seq<byte>, b: seq<byte>)
    requires Parse(a).error.None?
    ensures Parse(a + b).frames == Parse(a).frames + Parse(Parse(a).rest + b).frames
    ensures Parse(a + b).rest == Parse(Parse(a).rest + b).rest
    ensures Parse(a + b).error == Parse(Parse(a).rest + b).error
    decreases |a|
  {
    hide Decode, Wire, WireFrame, Parse;
    match Decode(a)
    case NeedMore => ParseStop(a);
    case Malformed(_) => ParseStop(a);
    case Whole(f, n) =>
      ParseStep(a, f, n);
      DecodeStable(a, b);
      ParseStep(a + b, f, n);
      assert (a + b)[n..] == a[n..] + b;
      ParseSplit(a[n..], b);
  }

  /** Every byte of the input is in exactly one frame or in the rest, in order. */
  lemma {:induction false} ParseConserves(input: seq<byte>)
    requires Parse(input).error.None?
    ensures WireFrames(Parse(input).frames)
    ensures WireAll(Parse(input).frames) + Parse(input).rest == input
    decreases |input|
  {
    hide Decode, Wire, WireFrame, Parse;
    match Decode(input)
    case NeedMore => ParseStop(input);
    case Malformed(_) => ParseStop(input);
    case Whole(f, n) =>
      ParseStep(input, f, n);
      ParseConserves(input[n..]);
      assert ([f] + Parse(input[n..]).frames)[1..] == Parse(input[n..]).frames;
      assert input == input[..n] + input[n..];
  }

  /** A proper prefix of one encoded frame is never taken for a frame. */
  lemma PrefixNeedsMore(f: Frame, cut: nat)
    requires WireFrame(f) && cut < |Wire(f)|
    ensures Decode(Wire(f)[..cut]).NeedMore?
  {
    hide DecodeBody, Payload, FrameType;
    var e := Wire(f);
    DecodeInvertsWire(f, []);
    assert e + [] == e;
    assert e[..cut] + e[cut..] == e;
    if Decode(e[..cut]).Whole? {
      DecodeStable(e[..cut], e[cut..]);
      WireInvertsDecode(e[..cut]);
      assert false;
    } else if Decode(e[..cut]).Malformed? {
      DecodeStable(e[..cut], e[cut..]);
      assert false;
    }
  }

  /** A stream of encoded frames cut anywhere: the parser yields exactly the
      frames wholly inside the cut, and the bytes it keeps plus the bytes still
      to come are the encoding of the others. */
  lemma {:induction false} ParseOfWire(frames: seq<Frame>, cut: nat) returns (k: nat)
    requires WireFrames(frames)
    requires cut <= |WireAll(frames)|
    ensures k <= |frames|
    ensures Parse(WireAll(frames)[..cut]).error.None?
    ensures Parse(WireAll(frames)[..cut]).frames == frames[..k]
    ensures Parse(WireAll(frames)[..cut]).rest + WireAll(frames)[cut..] == WireAll(frames[k..])
  {
    hide Decode, Wire, Encodable, Canonical, Parse, WireAll;
    if frames == [] {
      NothingOnTheWire();
      k := 0;
      PrefixOfNothing();
      ParseStop([]);
    } else {
      if cut < |Wire(frames[0])| {
        k := 0;
        InsideFirstFrame(frames, cut);
        assert frames[..0] == [] && frames[0..] == frames;
      } else {
        WireAllFirst(frames);
        var k' := ParseOfWire(frames[1..], cut - |Wire(frames[0])|);
        k := k' + 1;
        FirstFrame(frames, cut);
        assert frames[..k] == [frames[0]] + frames[1..][..k'];
        assert frames[k..] == frames[1..][k'..];
      }
    }
  }

  lemma InsideFirstFrame(frames: seq<Frame>, cut: nat)
    requires frames != [] && WireFrames(frames) && cut < |Wire(frames[0])|
    ensures var all := WireAll(frames);
            && cut <= |all|
            && Parse(all[..cut]).frames == [] && Parse(all[..cut]).error.None?
            && Parse(all[..cut]).rest + all[cut..] == all
  {
    hide Decode, Wire, Encodable, Canonical, Parse;
    var all, e := WireAll(frames), Wire(frames[0]);
    assert all[..cut] == e[..cut];
    PrefixNeedsMore(frames[0], cut);
    ParseStop(all[..cut]);
    assert all[..cut] + all[cut..] == all;
  }

  lemma FirstFrame(frames: seq<Frame>, cut: nat)
    requires frames != [] && WireFrames(frames)
    requires |Wire(frames[0])| <= cut <= |WireAll(frames)|
    ensures var all, tail, c := WireAll(frames), WireAll(frames[1..]), cut - |Wire(frames[0])|;
            && c <= |tail|
            && Parse(all[..cut]).frames == [frames[0]] + Parse(tail[..c]).frames
            && Parse(all[..cut]).rest == Parse(tail[..c]).rest
            && Parse(all[..cut]).error == Parse(tail[..c]).error
            && all[cut..] == tail[c..]
  {
    hide Decode, Wire, Encodable, Canonical, Parse;
    var all, e, tail := WireAll(frames), Wire(frames[0]), WireAll(frames[1..]);
    var c := cut - |e|;
    assert all[..cut] == e + tail[..c];
    DecodeInvertsWire(frames[0], tail[..c]);
    ParseStep(all[..cut], frames[0], |e|);
    assert all[..cut][|e|..] == tail[..c];
  }

  lemma WireAllFirst(frames: seq<Frame>)
    requires frames != [] && WireFrames(frames)
    ensures WireAll(frames) == Wire(frames[0]) + WireAll(frames[1..])
  {
  }

  lemma NothingOnTheWire()
    ensures WireAll([]) == []
  {
  }

  lemma PrefixOfNothing()
    ensures Decode([]).NeedMore?
  {
  }
}
