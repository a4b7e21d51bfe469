/** The guest's steps keep the invariant of a mux stream. */
module MuxGuest {
  import opened Prelude
  import opened EgressCodec
  import opened EgressSession
  import opened MuxLink
  import opened MuxInv

  // A new client takes the id.

  lemma RegisterLogs(l: Link, t: Tagged)
    requires Inv(l) && t.inc == |l.logs| && t.frame.Open?
    ensures LogsOk(l.(up := l.up + [t], logs := l.logs + [NewLog(t.inc)]))
    ensures WindowSum(Own(l.up + [t], t.inc)) == 0
    ensures Own(l.up + [t], l.cur) == Own(l.up, l.cur)
  {
    hide GuestOk, HostOk, UpFrom;
    var m := l.(up := l.up + [t], logs := l.logs + [NewLog(t.inc)]);
    CurBound(l);
    OwnOfNone(l.up, t.inc);
    SnocFlow(l.up, t, t.inc);
    OwnSnoc(l.up, t, l.cur);
    assert LogOk(NewLog(t.inc));
    hide LogOk;
    forall i | 0 <= i < |m.logs|
      ensures m.logs[i].inc == i && LogOk(m.logs[i]) && (m.cur < i ==> Unopened(m.logs[i], Own(m.up, i)))
    {
      SnocFlow(l.up, t, i);
    }
  }

  lemma FreshGuest(inc: nat, toward: seq<Tagged>, up: seq<Frame>, cur: int)
    requires DownOk(toward, cur) && cur < inc && WindowSum(up) == 0
    ensures GuestOk(Handler(inc, Opening, [], 0, false), NewLog(inc), toward, up, cur)
  {
    OwnOfNone(toward, inc);
    assert [] + toward == toward;
  }

  lemma RegisterKeeps(l: Link, port: u16, host: seq<byte>)
    requires Inv(l) && l.handler.None?
    ensures Inv(RegisterClient(l, port, host))
  {
    hide LogOk, HostOk, UpFrom, EndTag, Own, DataBytes, WindowSum, DownOk, GuestOk;
    var t := Tagged(|l.logs|, Open(l.id, port, host));
    var m := RegisterClient(l, port, host);
    RegisterLogs(l, t);
    CurBound(l);
    UpSnoc(l.cur, l.up, t);
    assert Toward(m) == Toward(l);
    FreshGuest(t.inc, Toward(m), Own(m.up, t.inc), l.cur);
    assert PipesOk(m);
    assert HostPart(m);
    assert GuestPart(m);
  }

  lemma RouteKeeps(l: Link)
    requires Inv(l) && l.down != []
    ensures Inv(RouteFrame(l))
  {
    hide Inv, RouteFrame;
    if l.handler.Some? {
      RouteToHandler(l, l.handler.value);
    } else {
      RouteToNobody(l);
    }
  }

  lemma RouteToNobody(l: Link)
    requires Inv(l) && l.down != [] && l.handler.None?
    ensures Inv(RouteFrame(l))
  {
    hide LogOk, HostOk, UpFrom, EndTag, Own, DataBytes, WindowSum, DownOk, LogsOk, GuestOk;
    var m := l.(down := l.down[1..]);
    assert RouteFrame(l) == m && Toward(l) == l.down && Toward(m) == l.down[1..];
    DownOkTail(l.down, l.cur);
    SameLogs(l, m);
  }

  lemma DownOkTail(q: seq<Tagged>, cur: int)
    requires DownOk(q, cur) && q != []
    ensures DownOk(q[1..], cur)
  {
  }

  lemma RouteToHandler(l: Link, h: Handler)
    requires Inv(l) && l.down != [] && l.handler == Some(h)
    ensures Inv(RouteFrame(l))
  {
    hide LogOk, HostOk, UpFrom, EndTag, Own, DataBytes, WindowSum, DownOk, LogsOk;
    var h' := h.(inbox := h.inbox + [l.down[0]]);
    var m := l.(handler := Some(h'), down := l.down[1..]);
    assert (h.inbox + [l.down[0]]) + l.down[1..] == h.inbox + l.down;
    assert Toward(m) == Toward(l);
    SameGuest(h, h', l.logs[l.Last()], Toward(l), Own(l.up, l.Last()), l.cur);
    hide GuestOk;
    assert GuestPart(m);
    assert LogsOk(m) by { SameLogs(l, m); }
    assert FlowPart(m);
  }

  lemma SameGuest(h: Handler, h': Handler, g: Log, toward: seq<Tagged>, up: seq<Frame>, cur: int)
    requires GuestOk(h, g, toward, up, cur) && h' == h.(inbox := h'.inbox, upDone := h'.upDone)
    ensures GuestOk(h', g, toward, up, cur)
  {
  }

  lemma SameLogs(l: Link, m: Link)
    requires LogsOk(l) && m.logs == l.logs && m.up == l.up && m.cur == l.cur
    ensures LogsOk(m)
  {
  }

  // What the guest sends.

  /** The up pipe after the handler sent `f`, if anything. */
  function Sent(l: Link, f: Option<Frame>): seq<Tagged>
    requires l.logs != []
  {
    if f.Some? then l.up + [Tagged(l.Last(), f.value)] else l.up
  }

  predicate Control(f: Option<Frame>) {
    f.Some? ==> !f.value.Data? && !f.value.Open?
  }

  function Credit(f: Option<Frame>): nat {
    if f.Some? && f.value.Window? then f.value.credit else 0
  }

  /** A control frame changes no bytes on their way, and only the last incarnation's
      credit. */
  lemma SentFlow(l: Link, f: Option<Frame>, inc: int)
    requires l.logs != [] && Control(f)
    ensures DataBytes(Own(Sent(l, f), inc)) == DataBytes(Own(l.up, inc))
    ensures WindowSum(Own(Sent(l, f), inc)) == WindowSum(Own(l.up, inc)) + if inc == l.Last() then Credit(f) else 0
  {
    if f.Some? {
      SnocFlow(l.up, Tagged(l.Last(), f.value), inc);
    }
  }

  lemma SentPipes(l: Link, f: Option<Frame>)
    requires PipesOk(l) && l.logs != [] && Control(f)
    ensures UpFrom(l.cur, Sent(l, f)) && EndTag(l.cur, Sent(l, f)) == l.Last()
  {
    if f.Some? {
      UpSnoc(l.cur, l.up, Tagged(l.Last(), f.value));
    }
  }

  lemma SentLogs(l: Link, f: Option<Frame>, logs: seq<Log>)
    requires LogsOk(l) && l.logs != [] && Control(f) && |logs| == |l.logs|
    requires forall i :: 0 <= i < |logs| ==> GuestEdit(l.logs[i], logs[i]) && LogOk(logs[i])
    ensures LogsOk(l.(up := Sent(l, f), logs := logs))
  {
    hide LogOk, Own, DataBytes, WindowSum, Sent;
    forall i | 0 <= i < |logs|
      ensures logs[i].inc == i && LogOk(logs[i]) && (l.cur < i ==> Unopened(logs[i], Own(Sent(l, f), i)))
    {
      SentFlow(l, f, i);
    }
  }

  lemma SendEndKeeps(l: Link, f: Frame)
    requires Inv(l) && l.logs != [] && (f.Rst? || f.Close?)
    ensures Inv(SendUp(l, l.Last(), f))
  {
    hide LogOk, ShapeFrom, DownOk, Own, DataBytes, WindowSum, UpFrom, EndTag;
    var m := SendUp(l, l.Last(), f);
    assert m.up == Sent(l, Some(f)) && Toward(m) == Toward(l);
    SentPipes(l, Some(f));
    SentLogs(l, Some(f), l.logs);
    SentFlow(l, Some(f), l.Last());
    SentFlow(l, Some(f), l.cur);
    assert HostPart(m);
    assert GuestPart(m);
  }

  lemma PushedLogs(l: Link, bytes: seq<byte>)
    requires Inv(l) && UpRunning(l)
    ensures var m := PushUp(l, Data(l.id, bytes));
            && LogsOk(m)
            && m.logs == l.logs[l.Last() := l.logs[l.Last()].(pushed := l.logs[l.Last()].pushed + bytes)]
  {
    hide GuestOk, HostOk, UpFrom, Own, DataBytes, WindowSum, ShapeFrom, HasClose;
    var t := Tagged(l.Last(), Data(l.id, bytes));
    var m := PushUp(l, Data(l.id, bytes));
    forall i | 0 <= i < |m.logs|
      ensures m.logs[i].inc == i && LogOk(m.logs[i]) && (m.cur < i ==> Unopened(m.logs[i], Own(m.up, i)))
    {
      SnocFlow(l.up, t, i);
    }
  }

  lemma UpDataKeeps(l: Link, bytes: seq<byte>)
    requires Inv(l) && UpRunning(l)
    ensures Inv(PushUp(l, Data(l.id, bytes)))
  {
    hide LogsOk, LogOk, ShapeFrom, DownOk, Own, DataBytes, WindowSum, UpFrom, EndTag, PushUp;
    var t := Tagged(l.Last(), Data(l.id, bytes));
    var m := PushUp(l, Data(l.id, bytes));
    PushedLogs(l, bytes);
    PushShape(l, bytes);
    UpSnoc(l.cur, l.up, t);
    SnocFlow(l.up, t, l.cur);
    SnocFlow(l.up, t, l.Last());
    assert Toward(m) == Toward(l);
    assert PipesOk(m);
    assert GuestPart(m);
    assert HostPart(m);
  }

  lemma PushShape(l: Link, bytes: seq<byte>)
    requires UpRunning(l) && l.handler.value.inc == l.Last()
    ensures var m, g := PushUp(l, Data(l.id, bytes)), l.logs[l.Last()];
            m == l.(up := l.up + [Tagged(l.Last(), Data(l.id, bytes))],
                    logs := l.logs[l.Last() := g.(pushed := g.pushed + bytes)])
  {
  }

  lemma UpEndKeeps(l: Link, f: Frame)
    requires Inv(l) && UpRunning(l) && (f.Close? || f.Rst?)
    ensures Inv(FinishUp(PushUp(l, f)))
  {
    hide Inv, FinishUp;
    assert PushUp(l, f) == SendUp(l, l.Last(), f) by { RunsForLast(l); }
    SendEndKeeps(l, f);
    FinishKeeps(SendUp(l, l.Last(), f));
  }

  lemma RunsForLast(l: Link)
    requires Inv(l) && UpRunning(l)
    ensures l.handler.value.inc == l.Last()
  {
  }

  lemma FinishKeeps(l: Link)
    requires Inv(l) && l.handler.Some?
    ensures Inv(FinishUp(l))
  {
    hide LogOk, HostOk, UpFrom, EndTag, DownOk, Own, DataBytes, WindowSum, LogsOk, FlowOk, GuestOk;
    var h, n := l.handler.value, FinishUp(l);
    assert Toward(n) == Toward(l);
    SameGuest(h, h.(upDone := true), l.logs[l.Last()], Toward(l), Own(l.up, l.Last()), l.cur);
    assert LogsOk(n) by { SameLogs(l, n); }
    SameFlow(l, n);
  }

  lemma SameFlow(l: Link, n: Link)
    requires FlowPart(l) && l.handler.Some? && n == FinishUp(l) && Toward(n) == Toward(l)
    ensures FlowPart(n)
  {
    hide Own, DataBytes, WindowSum;
  }

  lemma DeregisterKeeps(l: Link)
    requires Inv(l) && l.handler.Some?
    ensures Inv(l.(handler := None))
  {
    hide LogOk, HostOk, UpFrom, EndTag, Own, DataBytes, WindowSum, FlowOk;
    LeavingIsOk(l, l.(handler := None));
  }

  /** A handler that leaves takes its inbox with it. */
  lemma LeavingIsOk(l: Link, n: Link)
    requires l.handler.Some? && DownOk(Toward(l), l.cur) && n.handler.None? && n.down == l.down
    ensures DownOk(Toward(n), l.cur)
  {
    var k := |l.handler.value.inbox|;
    assert Toward(n) == Toward(l)[k..];
  }

  // The handler takes a message.

  predicate CanReceive(l: Link) {
    l.handler.Some? && !l.handler.value.phase.Closing? && l.handler.value.inbox != []
  }

  /** Only what a handler writes into its history. */
  predicate GuestEdit(g: Log, g': Log) {
    g' == g.(taken := g'.taken, delivered := g'.delivered, stray := g'.stray, sawClose := g'.sawClose)
  }

  function Head(l: Link): Tagged
    requires CanReceive(l)
  {
    l.handler.value.inbox[0]
  }

  lemma HeadOf(l: Link)
    requires Core(l) && CanReceive(l)
    ensures Toward(l) == [Head(l)] + Toward(l)[1..]
    ensures Head(l).inc <= l.cur <= l.Last() && SmallData(Head(l).frame)
    ensures Toward(l)[1..] == l.handler.value.inbox[1..] + l.down
  {
    hide LogOk, HostOk, GuestOk, Own;
    CurBound(l);
    assert Toward(l)[0] == Head(l);
  }

  /** The handler acted on the head frame and sent `f`: its history became `g'`. */
  lemma GuestTook(l: Link, n: Link, g': Log, f: Option<Frame>)
    requires Core(l) && CanReceive(l) && Control(f)
    requires GuestEdit(l.logs[l.Last()], g') && LogOk(g')
    requires n == l.(handler := n.handler, up := Sent(l, f), logs := l.logs[l.Last() := g'])
    requires n.handler.Some? ==>
               && n.handler.value.inc == l.Last()
               && n.handler.value.inbox == l.handler.value.inbox[1..]
               && GuestOk(n.handler.value, g', Toward(l)[1..], Own(Sent(l, f), l.Last()), l.cur)
    ensures Core(n)
    ensures n.handler.Some? ==> Toward(n) == Toward(l)[1..]
  {
    HeadOf(l);
    hide LogOk, ShapeFrom, GuestOk, Own, DataBytes, WindowSum, UpFrom, EndTag, Sent;
    SentPipes(l, f);
    SentLogs(l, f, n.logs);
    SentFlow(l, f, l.cur);
    if n.handler.None? {
      LeavingIsOk(l, n);
    } else {
      assert Toward(n) == Toward(l)[1..];
    }
    assert PipesOk(n);
    if l.session.Some? {
      HostIgnoresGuest(l.session.value, l.logs[l.cur], n.logs[l.cur], Own(l.up, l.cur), Own(n.up, l.cur));
    }
  }

  lemma HostIgnoresGuest(s: Session, g: Log, g': Log, up: seq<Frame>, up': seq<Frame>)
    requires HostOk(s, g, up) && GuestEdit(g, g') && DataBytes(up') == DataBytes(up)
    ensures HostOk(s, g', up')
  {
  }

  // What taking the head frame does to the history.

  predicate HeadIsOwn(l: Link)
    requires CanReceive(l)
  {
    Head(l).inc == l.handler.value.inc
  }

  /** The head joins what was taken; a frame of another incarnation comes before any
      of the handler's own. */
  lemma TookHead(l: Link)
    requires Core(l) && CanReceive(l)
    ensures var g, t, inc := l.logs[l.Last()], Head(l), l.Last();
            var rest, mine := Toward(l)[1..], if HeadIsOwn(l) then [t.frame] else [];
            && DownOk((g.taken + [t]) + rest, l.cur)
            && Own(g.taken + [t], inc) == Own(g.taken, inc) + mine
            && Own(Toward(l), inc) == mine + Own(rest, inc)
            && g.sent == Own(g.taken + [t], inc) + Own(rest, inc)
            && (!HeadIsOwn(l) ==> Own(g.taken, inc) == [])
  {
    HeadOf(l);
    hide LogOk, HostOk, ShapeFrom, DataBytes, WindowSum, UpFrom, EndTag;
    var g, t, inc := l.logs[l.Last()], Head(l), l.Last();
    var rest := Toward(l)[1..];
    assert (g.taken + [t]) + rest == g.taken + Toward(l);
    OwnSnoc(g.taken, t, inc);
    OwnFirst(t, rest, inc);
    if !HeadIsOwn(l) {
      assert (g.taken + Toward(l))[|g.taken|] == t;
      forall i | 0 <= i < |g.taken| ensures g.taken[i].inc != inc {
        assert (g.taken + Toward(l))[i] == g.taken[i];
      }
      OwnOfNone(g.taken, inc);
    }
  }

  lemma OwnFirst(t: Tagged, rest: seq<Tagged>, inc: int)
    ensures Own([t] + rest, inc) == (if t.inc == inc then [t.frame] else []) + Own(rest, inc)
  {
    assert ([t] + rest)[1..] == rest;
  }

  /** Bytes of the head frame reach the client. */
  function WithBytes(l: Link, bytes: seq<byte>): Log
    requires CanReceive(l) && l.logs != []
  {
    var g := l.logs[l.Last()];
    g.(taken := g.taken + [Head(l)], delivered := g.delivered + bytes,
       stray := g.stray + if HeadIsOwn(l) then 0 else |bytes|)
  }

  lemma BytesTaken(l: Link, bytes: seq<byte>)
    requires Core(l) && CanReceive(l) && l.handler.value.phase.Relaying? && Head(l).frame.Data?
    requires bytes <= Head(l).frame.payload
    ensures var g, g' := l.logs[l.Last()], WithBytes(l, bytes);
            && LogOk(g') && g'.stray <= |g'.delivered|
            && g'.delivered[g'.stray..] == g.delivered[g.stray..] + if HeadIsOwn(l) then bytes else []
  {
    TookHead(l);
    var g, g' := l.logs[l.Last()], WithBytes(l, bytes);
    var mine, inc := if HeadIsOwn(l) then [Head(l).frame] else [], l.Last();
    assert g'.delivered[g'.stray..] == g.delivered[g.stray..] + if HeadIsOwn(l) then bytes else [];
    DataBytesAppend(Own(g.taken, inc), mine);
    DataBytesAppend(Own(g.taken, inc) + mine, Own(Toward(l)[1..], inc));
    HeadFlow(Head(l).frame, []);
    assert [Head(l).frame] + [] == [Head(l).frame];
    assert LogOk(g);
    hide ShapeFrom, HostOk, WindowSum, UpFrom, EndTag, DownOk, HasClose, Own;
  }

  // The connect verdict.

  /** The handler acts on the verdict, its own or one an earlier use of the id
      left behind: it starts relaying, or it gives up. */
  lemma VerdictKeeps(l: Link, ok: bool, partial: nat)
    requires Inv(l) && CanReceive(l) && l.handler.value.phase.Opening?
    ensures Inv(ReceiveFrame(l, ok, partial))
  {
    var h, g, t := l.handler.value, l.logs[l.Last()], Head(l);
    var g' := g.(taken := [t]);
    var n := ReceiveFrame(l, ok, partial);
    assert g.taken + [t] == [t];
    assert LogOk(g');
    TookHead(l);
    if t.frame.OpenOk? && ok {
      OpenedVerdict(l, g', n.handler.value);
      hide LogOk, HostOk, ShapeFrom, DataBytes, Own, WindowSum, UpFrom, EndTag, DownOk, GuestOk;
      GuestTook(l, n, g', None);
    } else {
      hide LogOk, HostOk, ShapeFrom, DataBytes, Own, WindowSum, UpFrom, EndTag, DownOk, GuestOk;
      var m := l.(handler := None, logs := l.logs[l.Last() := g']);
      GuestTook(l, m, g', None);
      if t.frame.OpenOk? {
        SendEndKeeps(m, Rst(l.id));
        assert n == SendUp(m, l.Last(), Rst(l.id));
      } else {
        assert n == m;
      }
    }
  }

  lemma OpenedVerdict(l: Link, g': Log, h': Handler)
    requires Inv(l) && CanReceive(l) && l.handler.value.phase.Opening? && Head(l).frame.OpenOk?
    requires g' == l.logs[l.Last()].(taken := [Head(l)])
    requires h' == l.handler.value.(inbox := l.handler.value.inbox[1..], phase := Relaying)
    ensures GuestOk(h', g', Toward(l)[1..], Own(l.up, l.Last()), l.cur)
    ensures Live(l) && Countable(g'.stray) ==>
              FlowOk(l.session.value, h', Own(Toward(l)[1..], l.cur), Own(l.up, l.cur), g'.stray)
  {
    TookHead(l);
    var t, g := Head(l), l.logs[l.Last()];
    var rest := Own(Toward(l)[1..], l.Last());
    assert g.taken + [t] == [t];
    HeadFlow(t.frame, []);
    HeadFlow(t.frame, rest);
    assert [t.frame] + [] == [t.frame] && [] + rest == rest && Own([], l.Last()) == [] && [] + [t.frame] == [t.frame];
    assert DataBytes(Own([t], l.Last())) == [];
    hide LogOk, HostOk, ShapeFrom, Own, WindowSum, UpFrom, EndTag, DownOk;
  }

  // Relaying.

  /** What the whole payload of the head frame adds to the history. */
  lemma DataTakenLog(l: Link)
    requires Inv(l) && CanReceive(l) && l.handler.value.phase.Relaying? && Head(l).frame.Data?
    ensures var g', inc := WithBytes(l, Head(l).frame.payload), l.Last();
            && LogOk(g')
            && DownOk(g'.taken + Toward(l)[1..], l.cur)
            && g'.sent == Own(g'.taken, inc) + Own(Toward(l)[1..], inc)
            && !g'.sawClose && g'.stray <= |g'.delivered|
            && g'.delivered[g'.stray..] == DataBytes(Own(g'.taken, inc))
  {
    TookHead(l);
    BytesTaken(l, Head(l).frame.payload);
    var g, f, inc := l.logs[l.Last()], Head(l).frame, l.Last();
    DataBytesAppend(Own(g.taken, inc), if HeadIsOwn(l) then [f] else []);
    HeadFlow(f, []);
    assert [f] + [] == [f];
    hide LogOk, HostOk, ShapeFrom, Own, WindowSum, UpFrom, EndTag, DownOk;
  }

  /** Delivered bytes move from the pipe, or from an earlier use, to the ungranted
      count. */
  lemma DataTaken(l: Link, h': Handler)
    requires Inv(l) && CanReceive(l) && l.handler.value.phase.Relaying? && Head(l).frame.Data?
    requires var h, f := l.handler.value, Head(l).frame;
             h' == h.(inbox := h.inbox[1..], ungranted := h.ungranted + |f.payload|)
    ensures var g' := WithBytes(l, Head(l).frame.payload);
            && h'.ungranted < WINDOW_GRANT_THRESHOLD + MAX_PAYLOAD + 1
            && (l.cur < h'.inc ==> h'.ungranted + WindowSum(Own(l.up, l.Last())) == g'.stray)
            && (Live(l) && Countable(g'.stray) ==>
                  FlowOk(l.session.value, h', Own(Toward(l)[1..], l.cur), Own(l.up, l.cur), g'.stray))
  {
    HeadOf(l);
    TookHead(l);
    var f, inc := Head(l).frame, l.Last();
    HeadFlow(f, Own(Toward(l)[1..], inc));
    assert [] + Own(Toward(l)[1..], inc) == Own(Toward(l)[1..], inc);
    hide LogOk, HostOk, ShapeFrom, DataBytes, Own, WindowSum, UpFrom, EndTag, DownOk;
  }

  lemma ReceiveDataIs(l: Link, partial: nat, h': Handler)
    requires CanReceive(l) && l.handler.value.phase.Relaying? && Head(l).frame.Data?
    requires l.handler.value.inc == l.Last()
    requires var h, f := l.handler.value, Head(l).frame;
             h' == h.(inbox := h.inbox[1..], ungranted := h.ungranted + |f.payload|)
    ensures ReceiveFrame(l, true, partial)
         == Granted(l.(logs := l.logs[l.Last() := WithBytes(l, Head(l).frame.payload)]), h')
  {
    hide Granted;
    var h, f := l.handler.value, Head(l).frame;
    var m := Delivered(Took(l, h.inc, Head(l)), h.inc, f.payload, HeadIsOwn(l));
    assert m.logs == l.logs[l.Last() := WithBytes(l, f.payload)];
    assert m == l.(logs := m.logs);
  }

  lemma ReceiveDataKeeps(l: Link, partial: nat)
    requires Inv(l) && CanReceive(l) && l.handler.value.phase.Relaying? && Head(l).frame.Data?
    ensures Inv(ReceiveFrame(l, true, partial))
  {
    hide LogOk, HostOk, ShapeFrom, DataBytes, Own, WindowSum, UpFrom, EndTag, DownOk, ReceiveFrame;
    var h, f := l.handler.value, Head(l).frame;
    var g' := WithBytes(l, f.payload);
    var h' := h.(inbox := h.inbox[1..], ungranted := h.ungranted + |f.payload|);
    var n := ReceiveFrame(l, true, partial);
    ReceiveDataIs(l, partial, h');
    DataTakenLog(l);
    DataTaken(l, h');
    if h'.ungranted < WINDOW_GRANT_THRESHOLD {
      GuestTook(l, n, g', None);
    } else {
      hide WithBytes, Granted, GuestOk;
      GrantTook(l, n, g', h');
    }
  }

  /** Granting moves the ungranted bytes into a WINDOW frame of the same size. */
  lemma GrantTook(l: Link, n: Link, g': Log, h': Handler)
    requires Inv(l) && CanReceive(l) && l.handler.value.phase.Relaying? && Head(l).frame.Data?
    requires GuestEdit(l.logs[l.Last()], g') && LogOk(g')
    requires h' == l.handler.value.(inbox := l.handler.value.inbox[1..], ungranted := h'.ungranted)
    requires WINDOW_GRANT_THRESHOLD <= h'.ungranted < 0x1_0000_0000
    requires n == Granted(l.(logs := l.logs[l.Last() := g']), h')
    requires DownOk(g'.taken + Toward(l)[1..], l.cur)
    requires g'.sent == Own(g'.taken, h'.inc) + Own(Toward(l)[1..], h'.inc)
    requires !g'.sawClose && g'.stray <= |g'.delivered|
    requires g'.delivered[g'.stray..] == DataBytes(Own(g'.taken, h'.inc))
    requires l.cur < h'.inc ==> h'.ungranted + WindowSum(Own(l.up, l.Last())) == g'.stray
    requires Live(l) && Countable(g'.stray) ==>
               FlowOk(l.session.value, h', Own(Toward(l)[1..], l.cur), Own(l.up, l.cur), g'.stray)
    ensures Inv(n)
  {
    hide LogOk, HostOk, ShapeFrom, DataBytes, Own, WindowSum, UpFrom, EndTag, DownOk;
    var f := Some(Window(l.id, h'.ungranted));
    assert h'.ungranted % 0x1_0000_0000 == h'.ungranted;
    assert n.up == Sent(l, f);
    SentFlow(l, f, l.Last());
    SentFlow(l, f, l.cur);
    GuestTook(l, n, g', f);
  }

  lemma ReceiveFailedDataKeeps(l: Link, partial: nat)
    requires Inv(l) && CanReceive(l) && l.handler.value.phase.Relaying? && Head(l).frame.Data?
    ensures Inv(ReceiveFrame(l, false, partial))
  {
    var h, f := l.handler.value, Head(l).frame;
    var bytes := f.payload[..Min(partial, |f.payload|)];
    var g' := WithBytes(l, bytes);
    BytesTaken(l, bytes);
    hide LogOk, HostOk, ShapeFrom, DataBytes, Own, WindowSum, FlowOk, UpFrom, EndTag, DownOk;
    var m := l.(handler := Some(h.(inbox := h.inbox[1..], phase := Closing)),
                logs := l.logs[l.Last() := g']);
    assert ReceiveFrame(l, false, partial) == SendUp(m, l.Last(), Rst(l.id));
    hide ReceiveFrame;
    GuestTook(l, m, g', None);
    hide Core;
    SendEndKeeps(m, Rst(l.id));
  }

  /** A CLOSE of its own arrives after the last byte: nothing but RST can still be
      behind it. */
  lemma CloseIsLast(g: Log, took: seq<Frame>, f: Frame, rest: seq<Frame>)
    requires LogOk(g) && f.Close? && g.sent == (took + [f]) + rest
    requires g.delivered[g.stray..] == DataBytes(took)
    ensures HasClose(g.sent) && g.delivered[g.stray..] == g.yielded
  {
    ShapeAppend(Start, took + [f], rest);
    ShapeAppend(Start, took, [f]);
    var p := ShapeFrom(Start, took);
    assert ShapeFrom(p, [f]) == ShapeFrom(Advance(p, f), []);
    BrokenStays(rest);
    QuietTail(Ended, rest);
    DataBytesAppend(took + [f], rest);
    DataBytesAppend(took, [f]);
    HeadFlow(f, []);
    assert [f] + [] == [f];
    assert g.sent[|took|] == f;
  }

  lemma EndTaken(l: Link)
    requires Inv(l) && CanReceive(l) && l.handler.value.phase.Relaying? && !Head(l).frame.Data?
    ensures var g, t := l.logs[l.Last()], Head(l);
            LogOk(g.(taken := g.taken + [t], sawClose := g.sawClose || (t.frame.Close? && HeadIsOwn(l))))
  {
    TookHead(l);
    var g, t := l.logs[l.Last()], Head(l);
    assert LogOk(g);
    if t.frame.Close? && HeadIsOwn(l) {
      CloseIsLast(g, Own(g.taken, l.Last()), t.frame, Own(Toward(l)[1..], l.Last()));
    }
    hide ShapeFrom, HostOk, DataBytes, Own, WindowSum, UpFrom, EndTag, HasClose, GuestOk;
  }

  lemma ReceiveEndKeeps(l: Link, ok: bool, partial: nat)
    requires Inv(l) && CanReceive(l) && l.handler.value.phase.Relaying?
    requires Head(l).frame.Close? || Head(l).frame.Rst?
    ensures Inv(ReceiveFrame(l, ok, partial))
  {
    EndTaken(l);
    EndShape(l, ok, partial);
    hide LogOk, HostOk, ShapeFrom, DataBytes, Own, WindowSum, FlowOk, UpFrom, EndTag, DownOk, LogsOk, ReceiveFrame;
    var g, t := l.logs[l.Last()], Head(l);
    var g' := g.(taken := g.taken + [t], sawClose := g.sawClose || (t.frame.Close? && HeadIsOwn(l)));
    GuestTook(l, ReceiveFrame(l, ok, partial), g', None);
  }

  lemma EndShape(l: Link, ok: bool, partial: nat)
    requires CanReceive(l) && l.handler.value.phase.Relaying? && l.handler.value.inc == l.Last()
    requires Head(l).frame.Close? || Head(l).frame.Rst?
    ensures var h, g, t := l.handler.value, l.logs[l.Last()], Head(l);
            var g' := g.(taken := g.taken + [t], sawClose := g.sawClose || (t.frame.Close? && HeadIsOwn(l)));
            ReceiveFrame(l, ok, partial)
            == l.(handler := Some(h.(inbox := h.inbox[1..], phase := Closing)), logs := l.logs[l.Last() := g'])
  {
    var g := l.logs[l.Last()];
    assert l.logs[l.Last() := g.(taken := g.taken + [Head(l)])][l.Last()] == g.(taken := g.taken + [Head(l)]);
  }

  /** A late verdict is ignored. */
  lemma ReceiveOtherKeeps(l: Link, ok: bool, partial: nat)
    requires Inv(l) && CanReceive(l) && l.handler.value.phase.Relaying?
    requires var f := Head(l).frame; !f.Data? && !f.Close? && !f.Rst?
    ensures Inv(ReceiveFrame(l, ok, partial))
  {
    EndTaken(l);
    OtherTaken(l);
    hide LogOk, HostOk, ShapeFrom, DataBytes, Own, WindowSum, UpFrom, EndTag, DownOk;
    var g, t := l.logs[l.Last()], Head(l);
    var n := ReceiveFrame(l, ok, partial);
    var g' := g.(taken := g.taken + [t]);
    assert n.logs == l.logs[l.Last() := g'];
    GuestTook(l, n, g', None);
  }

  lemma OtherTaken(l: Link)
    requires Inv(l) && CanReceive(l) && l.handler.value.phase.Relaying? && !Head(l).frame.Data?
    ensures var h, g := l.handler.value, l.logs[l.Last()];
            var h', g' := h.(inbox := h.inbox[1..]), g.(taken := g.taken + [Head(l)]);
            && GuestOk(h', g', Toward(l)[1..], Own(l.up, l.Last()), l.cur)
            && (Live(l) && Countable(g.stray) ==>
                  FlowOk(l.session.value, h', Own(Toward(l)[1..], l.cur), Own(l.up, l.cur), g.stray))
  {
    TookHead(l);
    var g, f, inc := l.logs[l.Last()], Head(l).frame, l.Last();
    var mine := if HeadIsOwn(l) then [f] else [];
    DataBytesAppend(Own(g.taken, inc), mine);
    DataBytesAppend(mine, Own(Toward(l)[1..], inc));
    HeadFlow(f, []);
    assert [f] + [] == [f];
    hide LogOk, HostOk, ShapeFrom, DataBytes, Own, WindowSum, UpFrom, EndTag, DownOk;
  }

  lemma ReceiveKeeps(l: Link, ok: bool, partial: nat)
    requires Inv(l) && CanReceive(l)
    ensures Inv(ReceiveFrame(l, ok, partial))
  {
    hide Inv, ReceiveFrame;
    var f := Head(l).frame;
    if l.handler.value.phase.Opening? {
      VerdictKeeps(l, ok, partial);
    } else if f.Close? || f.Rst? {
      ReceiveEndKeeps(l, ok, partial);
    } else if !f.Data? {
      ReceiveOtherKeeps(l, ok, partial);
    } else if ok {
      ReceiveDataKeeps(l, partial);
    } else {
      ReceiveFailedDataKeeps(l, partial);
    }
  }
}
