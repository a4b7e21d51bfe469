/** What holds of a mux stream in every state it can reach, whatever was left in
    flight when its id was used again. */
module MuxInv {
  import opened Prelude
  import opened EgressCodec
  import opened EgressSession
  import opened MuxLink

  // The shape of what the host sends for one incarnation.

  /** Nothing yet; connected; CLOSE sent; refused or reset; out of order. */
  datatype Shape = Start | Flowing | Ended | Over | Broken

  function Advance(p: Shape, f: Frame): Shape {
    match p
    case Start => if f.OpenOk? then Flowing else if f.OpenErr? || f.Rst? then Over else Broken
    case Flowing =>
      if f.Data? then Flowing else if f.Close? then Ended else if f.Rst? then Over else Broken
    case Ended => if f.Rst? then Over else Broken
    case Over => if f.Rst? then Over else Broken
    case Broken => Broken
  }

  function ShapeFrom(p: Shape, frames: seq<Frame>): Shape
    decreases |frames|
  {
    if frames == [] then p else ShapeFrom(Advance(p, frames[0]), frames[1..])
  }

  lemma {:induction false} ShapeAppend(p: Shape, a: seq<Frame>, b: seq<Frame>)
    ensures ShapeFrom(p, a + b) == ShapeFrom(ShapeFrom(p, a), b)
    decreases |a|
  {
    if a == [] {
      assert a + b == b;
    } else {
      assert (a + b)[1..] == a[1..] + b;
      ShapeAppend(Advance(p, a[0]), a[1..], b);
    }
  }

  lemma {:induction false} BrokenStays(frames: seq<Frame>)
    ensures ShapeFrom(Broken, frames) == Broken
  {
    if frames != [] {
      BrokenStays(frames[1..]);
    }
  }

  /** Nothing but RST follows a CLOSE, a refusal or a reset. */
  lemma {:induction false} QuietTail(p: Shape, frames: seq<Frame>)
    requires p.Ended? || p.Over?
    requires ShapeFrom(p, frames) != Broken
    ensures forall i :: 0 <= i < |frames| ==> frames[i].Rst?
    ensures DataBytes(frames) == []
    decreases |frames|
  {
    if frames != [] {
      if !frames[0].Rst? {
        BrokenStays(frames[1..]);
        assert false;
      }
      QuietTail(Over, frames[1..]);
    }
  }

  lemma {:induction false} FlowingHasNoClose(p: Shape, frames: seq<Frame>)
    requires ShapeFrom(p, frames) == Flowing
    ensures p.Start? || p.Flowing?
    ensures forall i :: 0 <= i < |frames| ==> !frames[i].Close?
    decreases |frames|
  {
    if frames != [] {
      FlowingHasNoClose(Advance(p, frames[0]), frames[1..]);
    }
  }

  lemma {:induction false} DataKeepsFlowing(id: u16, frames: seq<Frame>)
    requires AllData(id, frames)
    ensures ShapeFrom(Flowing, frames) == Flowing
  {
    if frames != [] {
      DataKeepsFlowing(id, frames[1..]);
    }
  }

  lemma FlowingNotClosed(frames: seq<Frame>)
    requires ShapeFrom(Start, frames) == Flowing
    ensures !HasClose(frames)
  {
    FlowingHasNoClose(Start, frames);
  }

  // Frames in flight.

  predicate TaggedAll(q: seq<Tagged>, inc: int) {
    forall i :: 0 <= i < |q| ==> q[i].inc == inc
  }

  function Untag(q: seq<Tagged>): seq<Frame> {
    seq(|q|, i requires 0 <= i < |q| => q[i].frame)
  }

  /** The frames of incarnation `inc`, in order. */
  function Own(q: seq<Tagged>, inc: int): seq<Frame> {
    if q == [] then []
    else (if q[0].inc == inc then [q[0].frame] else []) + Own(q[1..], inc)
  }

  lemma {:induction false} OwnAppend(a: seq<Tagged>, b: seq<Tagged>, inc: int)
    ensures Own(a + b, inc) == Own(a, inc) + Own(b, inc)
  {
    if a == [] {
      assert a + b == b;
    } else {
      assert (a + b)[1..] == a[1..] + b;
      OwnAppend(a[1..], b, inc);
      var first := if a[0].inc == inc then [a[0].frame] else [];
      assert Own(a + b, inc) == first + (Own(a[1..], inc) + Own(b, inc));
    }
  }

  lemma {:induction false} OwnOfAll(q: seq<Tagged>, inc: int, other: int)
    requires TaggedAll(q, inc)
    ensures Own(q, other) == if other == inc then Untag(q) else []
  {
    if q != [] {
      OwnOfAll(q[1..], inc, other);
    }
  }

  lemma {:induction false} OwnOfNone(q: seq<Tagged>, inc: int)
    requires forall i :: 0 <= i < |q| ==> q[i].inc != inc
    ensures Own(q, inc) == []
  {
    if q != [] {
      OwnOfNone(q[1..], inc);
    }
  }

  lemma OwnAtHead(q: seq<Tagged>, inc: int)
    requires q != []
    ensures Own(q, inc) == if q[0].inc == inc then [q[0].frame] + Own(q[1..], inc) else Own(q[1..], inc)
  {
  }

  lemma OwnTag(inc: nat, frames: seq<Frame>, other: int)
    ensures Own(Tag(inc, frames), other) == if other == inc then frames else []
  {
    OwnOfAll(Tag(inc, frames), inc, other);
    assert Untag(Tag(inc, frames)) == frames;
  }

  lemma OwnSnoc(q: seq<Tagged>, t: Tagged, inc: int)
    ensures Own(q + [t], inc) == Own(q, inc) + if t.inc == inc then [t.frame] else []
  {
    OwnAppend(q, [t], inc);
    assert Own([t], inc) == if t.inc == inc then [t.frame] else [];
  }

  /** The credit in the WINDOW frames of `frames`. */
  function WindowSum(frames: seq<Frame>): nat {
    if frames == [] then 0
    else (if frames[0].Window? then frames[0].credit else 0) + WindowSum(frames[1..])
  }

  lemma {:induction false} WindowSumAppend(a: seq<Frame>, b: seq<Frame>)
    ensures WindowSum(a + b) == WindowSum(a) + WindowSum(b)
  {
    if a == [] {
      assert a + b == b;
    } else {
      assert (a + b)[1..] == a[1..] + b;
      WindowSumAppend(a[1..], b);
    }
  }

  lemma HeadFlow(f: Frame, rest: seq<Frame>)
    ensures DataBytes([f] + rest) == (if f.Data? then f.payload else []) + DataBytes(rest)
    ensures WindowSum([f] + rest) == (if f.Window? then f.credit else 0) + WindowSum(rest)
  {
    assert ([f] + rest)[1..] == rest;
  }

  /** One more frame at the end of a pipe. */
  lemma SnocFlow(q: seq<Tagged>, t: Tagged, inc: int)
    ensures DataBytes(Own(q + [t], inc))
         == DataBytes(Own(q, inc)) + if t.inc == inc && t.frame.Data? then t.frame.payload else []
    ensures WindowSum(Own(q + [t], inc))
         == WindowSum(Own(q, inc)) + if t.inc == inc && t.frame.Window? then t.frame.credit else 0
  {
    OwnSnoc(q, t, inc);
    var tail := if t.inc == inc then [t.frame] else [];
    DataBytesAppend(Own(q, inc), tail);
    WindowSumAppend(Own(q, inc), tail);
    assert [t.frame] + [] == [t.frame];
    HeadFlow(t.frame, []);
  }

  // Incarnations follow each other in both pipes.

  /** What the host will find after incarnation `cur`: more of its frames, then
      the OPEN of a later one, then its frames, and so on. */
  predicate UpFrom(cur: int, q: seq<Tagged>)
    decreases |q|
  {
    q == [] ||
    (if q[0].frame.Open? then cur < q[0].inc && UpFrom(q[0].inc, q[1..])
     else q[0].inc == cur && UpFrom(cur, q[1..]))
  }

  /** The incarnation the host will be in when it has taken all of `q`. */
  function EndTag(cur: int, q: seq<Tagged>): int
    decreases |q|
  {
    if q == [] then cur else EndTag(if q[0].frame.Open? then q[0].inc else cur, q[1..])
  }

  lemma {:induction false} UpBounds(cur: int, q: seq<Tagged>)
    requires UpFrom(cur, q)
    ensures cur <= EndTag(cur, q)
    ensures forall i :: 0 <= i < |q| ==> cur <= q[i].inc <= EndTag(cur, q)
    decreases |q|
  {
    if q != [] {
      UpBounds(q[0].inc, q[1..]);
      assert forall i :: 1 <= i < |q| ==> q[i] == q[1..][i - 1];
    }
  }

  lemma {:induction false} UpSnoc(cur: int, q: seq<Tagged>, t: Tagged)
    requires UpFrom(cur, q)
    requires if t.frame.Open? then EndTag(cur, q) < t.inc else t.inc == EndTag(cur, q)
    ensures UpFrom(cur, q + [t]) && EndTag(cur, q + [t]) == t.inc
    decreases |q|
  {
    if q == [] {
      assert q + [t] == [t] && [t][1..] == [];
    } else {
      assert (q + [t])[1..] == q[1..] + [t];
      UpSnoc(q[0].inc, q[1..], t);
    }
  }

  /** In order of incarnation, none beyond the host's, and no DATA over the frame size. */
  predicate DownOk(q: seq<Tagged>, cur: int) {
    && (forall i :: 0 <= i < |q| ==> q[i].inc <= cur)
    && (forall i, j :: 0 <= i < j < |q| ==> q[i].inc <= q[j].inc)
    && (forall i :: 0 <= i < |q| ==> SmallData(q[i].frame))
  }

  predicate SmallData(f: Frame) {
    f.Data? ==> |f.payload| <= MAX_PAYLOAD
  }

  lemma DownSnoc(q: seq<Tagged>, cur: nat, out: seq<Frame>)
    requires DownOk(q, cur) && forall i :: 0 <= i < |out| ==> SmallData(out[i])
    ensures DownOk(q + Tag(cur, out), cur)
  {
  }

  /** Everything on its way to the handler. */
  function Toward(l: Link): seq<Tagged> {
    (if l.handler.Some? then l.handler.value.inbox else []) + l.down
  }

  // The invariant.

  predicate HasClose(frames: seq<Frame>) {
    exists i :: 0 <= i < |frames| && frames[i].Close?
  }

  lemma HasCloseAppend(a: seq<Frame>, b: seq<Frame>)
    ensures HasClose(a + b) <==> HasClose(a) || HasClose(b)
  {
    if HasClose(a) {
      var i :| 0 <= i < |a| && a[i].Close?;
      assert (a + b)[i].Close?;
    } else if HasClose(b) {
      var i :| 0 <= i < |b| && b[i].Close?;
      assert (a + b)[|a| + i].Close?;
    }
  }

  /** One incarnation's history.  What its client was given is, after any bytes of
      other incarnations, in order. */
  predicate LogOk(g: Log) {
    && ShapeFrom(Start, g.sent) != Broken
    && DataBytes(g.sent) <= g.yielded
    && (HasClose(g.sent) ==> DataBytes(g.sent) == g.yielded)
    && g.stray <= |g.delivered|
    && g.delivered[g.stray..] <= DataBytes(g.sent)
    && (g.sawClose ==> HasClose(g.sent) && g.delivered[g.stray..] == g.yielded)
    && g.written <= g.pushed
  }

  /** An incarnation whose OPEN the host has not handled: `up` is what its handler
      has sent since. */
  predicate Unopened(g: Log, up: seq<Frame>) {
    && g.sent == [] && g.yielded == [] && g.written == []
    && g.pushed == DataBytes(up)
  }

  predicate LogsOk(l: Link) {
    forall i :: 0 <= i < |l.logs| ==>
      l.logs[i].inc == i && LogOk(l.logs[i]) && (l.cur < i ==> Unopened(l.logs[i], Own(l.up, i)))
  }

  predicate PipesOk(l: Link) {
    && -1 <= l.cur
    && UpFrom(l.cur, l.up) && EndTag(l.cur, l.up) == l.Last()
    && DownOk(Toward(l), l.cur)
  }

  /** The session belongs to the incarnation whose OPEN came last. */
  predicate HostPart(l: Link) {
    l.session.Some? ==>
      0 <= l.cur < |l.logs| && HostOk(l.session.value, l.logs[l.cur], Own(l.up, l.cur))
  }

  predicate HostOk(s: Session, g: Log, up: seq<Frame>) {
    && s.Valid()
    && (!s.IsOpen() ==> g.sent == [])
    && (s.IsOpen() ==> ShapeFrom(Start, g.sent) == if s.hostCloseSent then Ended else Flowing)
    && g.yielded == DataBytes(g.sent) + s.toGuest
    && g.pushed == g.written + s.toSocket + DataBytes(up)
  }

  /** The handler belongs to the latest incarnation. */
  predicate GuestPart(l: Link) {
    l.handler.Some? ==>
      && l.handler.value.inc == l.Last()
      && GuestOk(l.handler.value, l.logs[l.Last()], Toward(l), Own(l.up, l.Last()), l.cur)
  }

  /** A handler that is still reading has taken its frames in order, and is owed the
      rest of what the host sent it.  Until the host has seen its OPEN, all it was
      given is of other incarnations. */
  predicate GuestOk(h: Handler, g: Log, toward: seq<Tagged>, up: seq<Frame>, cur: int) {
    && (h.phase.Opening? ==> g.taken == [] && g.delivered == [] && g.stray == 0 && h.ungranted == 0)
    && (!h.phase.Closing? ==>
          && DownOk(g.taken + toward, cur)
          && g.sent == Own(g.taken, h.inc) + Own(toward, h.inc)
          && !g.sawClose && g.stray <= |g.delivered|
          && g.delivered[g.stray..] == DataBytes(Own(g.taken, h.inc))
          && h.ungranted < WINDOW_GRANT_THRESHOLD
          && (cur < h.inc ==> h.ungranted + WindowSum(up) == g.stray))
  }

  /** Both ends of one use of the id are up: a host session and a handler still
      reading, of the same incarnation. */
  predicate Live(l: Link) {
    && l.session.Some? && l.handler.Some? && !l.handler.value.phase.Closing?
    && l.handler.value.inc == l.cur
  }

  /** (As long as the credit counter does not saturate.) */
  predicate FlowPart(l: Link) {
    Live(l) && Countable(LogOf(l, l.handler.value.inc).stray) ==>
      FlowOk(l.session.value, l.handler.value, Own(Toward(l), l.cur), Own(l.up, l.cur),
             LogOf(l, l.handler.value.inc).stray)
  }

  predicate Countable(stray: nat) {
    stray + WINDOW_BYTES <= USIZE_MAX
  }

  /** The flow-control equation: credit, DATA in flight, bytes the client has that
      are not granted back yet, and WINDOW credit in flight make up the window and
      whatever the client was given of other incarnations. */
  predicate FlowOk(s: Session, h: Handler, down: seq<Frame>, up: seq<Frame>, stray: nat) {
    s.credit + |DataBytes(down)| + h.ungranted + WindowSum(up) == WINDOW_BYTES + stray
  }

  predicate Core(l: Link) {
    PipesOk(l) && LogsOk(l) && HostPart(l) && GuestPart(l)
  }

  predicate Inv(l: Link) {
    Core(l) && FlowPart(l)
  }

  lemma NewLinkInv(id: u16)
    ensures Inv(NewLink(id))
  {
  }

  // First consequences.

  /** The host is never ahead of the registrations. */
  lemma CurBound(l: Link)
    requires PipesOk(l)
    ensures l.cur <= l.Last()
    ensures forall i :: 0 <= i < |l.up| ==> l.cur <= l.up[i].inc <= l.Last()
  {
    UpBounds(l.cur, l.up);
  }
}
