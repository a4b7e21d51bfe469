/** Exactly when a client that takes a stream id acts on its own connection's frames
    only, in the whole mux. */
module MuxExact {
  import opened Prelude
  import opened EgressCodec
  import opened EgressSession
  import opened MuxLink
  import opened MuxInv
  import opened MuxGuest
  import opened MuxHost
  import opened MuxProof
  import opened MuxFresh
  import opened Forwarder
  import opened MuxSystem
  import opened MuxLift

  /** Some run hands the client a frame that is not its own. */
  ghost predicate Strays(m: Mux, id: u16, inc: nat) {
    exists n :: MuxReaches(m, n) && !OwnOnly(View(n, id), inc)
  }

  lemma StraysLater(m: Mux, n: Mux, id: u16, inc: nat)
    requires MuxReaches(m, n) && Strays(n, id, inc)
    ensures Strays(m, id, inc)
  {
    hide MuxReaches, OwnOnly, View;
    var p :| MuxReaches(n, p) && !OwnOnly(View(p, id), inc);
    MuxReachesOn(m, n, p);
  }

  /** The client has registered and nothing has reached it yet. */
  predicate Waiting(l: Link, inc: nat) {
    l.handler == Some(Handler(inc, Opening, [], 0, false)) && inc == l.Last()
  }

  lemma StrayTaken(l: Link, inc: nat)
    requires Waiting(l, inc) && l.down != [] && l.down[0].inc != inc
    ensures !OwnOnly(Next(Next(l, Route), Receive(true, 0)), inc)
  {
    var t, r := l.down[0], Next(l, Route);
    assert [] + [t] == [t];
    assert r.handler.value.inbox == [t];
    var n := Next(r, Receive(true, 0));
    ReceiveShape(r, true, 0);
    hide ReceiveFrame;
    assert n.logs[inc].taken == r.logs[inc].taken + [t];
    assert n.logs[inc].taken[|r.logs[inc].taken|].inc != inc;
  }

  lemma TakesStray(m: Mux, id: u16, inc: nat)
    requires Waiting(View(m, id), inc) && View(m, id).down != [] && View(m, id).down[0].inc != inc
    ensures Strays(m, id, inc)
  {
    StrayTaken(View(m, id), inc);
    hide MuxReaches, Next, OwnOnly, View, Others;
    var r := LiftRoute(m, id);
    var n := LiftLocal(r, id, Receive(true, 0));
    MuxReachesOn(m, r, n);
  }

  /** How to make a speaking session speak. */
  function Prompt(s: Session): (step: Step)
    ensures LocalStep(step)
  {
    if s.state.Resolving? then HostAnswer(NoAddress)
    else if s.state.Connecting? then HostPoll(Failed(Unreachable))
    else if s.toSocket != [] then HostIo(Io(0, true, [], false, false))
    else if !s.hostReadClosed && |s.toGuest| < WINDOW_BYTES then HostIo(Io(0, false, [], false, true))
    else HostIo(Io(0, false, [], false, false))
  }

  lemma OpenSpeaks(id: u16, s: Session, resolving: bool)
    requires s.IsOpen() && Speaks(s)
    ensures Prompt(s).HostIo? && PossibleIo(s, Prompt(s).io)
    ensures RunOpenIo(id, s, resolving, Prompt(s).io).out != []
  {
    var io := Prompt(s).io;
    if !io.writeFailed && !io.readFailed {
      var t := Transfer(s, io);
      assert t.toSocket == s.toSocket && t.toGuest == s.toGuest;
      assert t == s;
      if s.toGuest != [] && s.credit > 0 {
        assert t.toGuest[..Releasable(t)] != [];
      }
    }
  }

  lemma ApplyQueues(l: Link, o: Outcome)
    requires 0 <= l.cur < |l.logs| && l.down == [] && o.out != []
    ensures var n := Apply(l, o);
            n.handler == l.handler && |n.logs| == |l.logs| && n.down != [] && n.down[0].inc == l.cur
  {
  }

  /** The session says something of an incarnation before the client's. */
  lemma Prompted(l: Link, s: Session, inc: nat)
    requires Inv(l) && AtRest(l) && Waiting(l, inc) && l.down == [] && l.cur < inc
    requires l.session == Some(s) && Speaks(s)
    ensures var n := Next(l, Prompt(s));
            Waiting(n, inc) && n.down != [] && n.down[0].inc != inc
  {
    assert 0 <= l.cur && s.Valid();
    CurBound(l);
    if s.IsOpen() {
      PromptedOpen(l, s, inc);
    } else {
      PromptedPending(l, s, inc);
    }
  }

  lemma PromptedOpen(l: Link, s: Session, inc: nat)
    requires Waiting(l, inc) && l.down == [] && 0 <= l.cur < inc && l.cur < |l.logs|
    requires l.session == Some(s) && s.Valid() && s.IsOpen() && Speaks(s)
    ensures var n := Next(l, Prompt(s));
            Waiting(n, inc) && n.down != [] && n.down[0].inc != inc
  {
    var io := Prompt(s).io;
    OpenSpeaks(l.id, s, l.resolving);
    ServiceQueues(l, s, io);
    hide RunOpenIo, ServiceIo, Speaks;
    assert Next(l, Prompt(s)) == ServiceIo(l, io);
  }

  lemma ServiceQueues(l: Link, s: Session, io: Io)
    requires 0 <= l.cur < |l.logs| && l.down == [] && l.session == Some(s) && PossibleIo(s, io)
    requires RunOpenIo(l.id, s, l.resolving, io).out != []
    ensures var n := ServiceIo(l, io);
            n.handler == l.handler && |n.logs| == |l.logs| && n.down != [] && n.down[0].inc == l.cur
  {
    ApplyQueues(l, RunOpenIo(l.id, s, l.resolving, io));
    hide RunOpenIo, Apply;
  }

  lemma PromptedPending(l: Link, s: Session, inc: nat)
    requires Rests(Some(s), l.resolving) && Waiting(l, inc) && l.down == [] && 0 <= l.cur < inc
    requires l.session == Some(s) && !s.IsOpen()
    ensures var n := Next(l, Prompt(s));
            Waiting(n, inc) && n.down != [] && n.down[0].inc != inc
  {
    if s.state.Resolving? {
      ApplyQueues(l, HarvestAnswer(l.id, l.session, NoAddress));
    } else {
      ApplyQueues(l, RunConnecting(l.id, s, l.resolving, Failed(Unreachable)));
    }
    hide Apply;
  }

  lemma SpeakingStrays(m: Mux, id: u16, s: Session, inc: nat)
    requires var l := View(m, id);
             && Inv(l) && AtRest(l) && Waiting(l, inc) && l.down == [] && l.cur < inc
             && l.session == Some(s) && Speaks(s)
    ensures Strays(m, id, inc)
  {
    Prompted(View(m, id), s, inc);
    hide MuxReaches, Next, Strays, View, Others, Inv, AtRest;
    var n := LiftLocal(m, id, Prompt(s));
    TakesStray(n, id, inc);
    StraysLater(m, n, id, inc);
  }

  /** A frame taken before the client's own: the host answers it, or opens a session
      for it, or goes on as `CanSpeak` foresees. */
  lemma FrameSpeaks(l: Link, full: bool, inc: nat)
    requires Inv(l) && Waiting(l, inc) && l.down == [] && l.cur < inc
    requires CanSpeak(l.session, l.up, inc) && !(l.session.Some? && Speaks(l.session.value))
    ensures l.up != []
    ensures var n := Next(l, HostFrame(full));
            && Waiting(n, inc) && n.cur < inc && |n.up| < |l.up|
            && ((n.down != [] && n.down[0].inc != inc) || (n.down == [] && CanSpeak(n.session, n.up, inc)))
  {
    CurBound(l);
    var t := l.up[0];
    var m := l.(up := l.up[1..], cur := if t.frame.Open? then t.inc else l.cur);
    var o := HandleFrame(t.frame, l.session, l.resolving, full);
    var n := Next(l, HostFrame(full));
    assert n == Apply(m, o);
    assert 0 <= m.cur < inc;
    StillSpeaks(l, full, inc);
    hide HandleFrame, Inv, CanSpeak;
    if o.out != [] {
      ApplyQueues(m, o);
    } else {
      ApplyNothing(m, o);
    }
  }

  lemma StillSpeaks(l: Link, full: bool, inc: nat)
    requires CanSpeak(l.session, l.up, inc) && !(l.session.Some? && Speaks(l.session.value))
    ensures l.up != []
    ensures var o := HandleFrame(l.up[0].frame, l.session, l.resolving, full);
            o.out == [] ==> CanSpeak(o.session, l.up[1..], inc)
  {
    assert Speaks(NEW_SESSION);
  }

  lemma {:induction false} CanSpeakStrays(m: Mux, id: u16, inc: nat)
    requires var l := View(m, id);
             && Inv(l) && AtRest(l) && Waiting(l, inc) && l.down == [] && l.cur < inc
             && CanSpeak(l.session, l.up, inc)
    ensures Strays(m, id, inc)
    decreases |View(m, id).up|
  {
    hide MuxReaches, Next, Strays, View, Others, Inv, AtRest;
    var l := View(m, id);
    if l.session.Some? && Speaks(l.session.value) {
      SpeakingStrays(m, id, l.session.value, inc);
    } else {
      FrameSpeaks(l, true, inc);
      var n, full := LiftHandle(m, id);
      FrameSpeaks(l, full, inc);
      NextKeeps(l, HostFrame(full));
      RestStep(l, HostFrame(full));
      hide CanSpeak, Speaks;
      if View(n, id).down != [] {
        TakesStray(n, id, inc);
      } else {
        CanSpeakStrays(n, id, inc);
      }
      StraysLater(m, n, id, inc);
    }
  }

  // The exact condition.

  lemma AcceptedWaits(l: Link, port: u16, host: seq<byte>)
    requires Inv(l) && l.handler.None?
    ensures var m := RegisterClient(l, port, host);
            && Waiting(m, |l.logs|) && m.cur < |l.logs| && m.down == l.down && m.session == l.session
            && CanSpeak(m.session, m.up, |l.logs|) == CanSpeak(l.session, l.up, |l.logs|)
            && (l.down != [] ==> l.down[0].inc < |l.logs|)
            && Inv(m) && (AtRest(l) ==> AtRest(m))
  {
    RegisterKeeps(l, port, host);
    hide CanSpeak;
    CurBound(l);
    assert Toward(l) == l.down;
    SpeakSnoc(l.session, l.up, Tagged(|l.logs|, Open(l.id, port, host)), |l.logs|);
    hide Inv;
  }

  lemma FreeHasNoHandler(m: Mux, k: nat)
    requires FirstFree(InUse(m), m.counter, k)
    ensures View(m, Candidate(m.counter, k)).handler.None?
  {
  }

  lemma BusyStrays(l: Link, n: Mux, id: u16, port: u16, host: seq<byte>)
    requires Inv(l) && AtRest(l) && l.handler.None? && !Idle(l) && View(n, id) == RegisterClient(l, port, host)
    ensures Strays(n, id, |l.logs|)
  {
    AcceptedWaits(l, port, host);
    hide Inv, AtRest, CanSpeak, RegisterClient, Strays, View;
    if l.down != [] {
      TakesStray(n, id, |l.logs|);
    } else {
      CanSpeakStrays(n, id, |l.logs|);
    }
  }

  /** In any state of the mux: the client accepted next will only ever act on its own
      connection's frames, in every run from there, if and only if its id is idle. */
  lemma MuxFreshExact(before: seq<MuxStep>, port: u16, host: seq<byte>, k: nat)
    requires var m := RunMux(NEW_MUX, before); FirstFree(InUse(m), m.counter, k)
    ensures var m := RunMux(NEW_MUX, before);
            var id := Candidate(m.counter, k);
            var start, inc := NextMux(m, Accept(port, host, k)), |EndsOf(m, id).logs|;
            (forall n :: MuxReaches(start, n) ==> OwnOnly(View(n, id), inc)) <==> Idle(View(m, id))
  {
    var m := RunMux(NEW_MUX, before);
    var id := Candidate(m.counter, k);
    var l, start := View(m, id), NextMux(m, Accept(port, host, k));
    FreeHasNoHandler(m, k);
    AcceptView(m, port, host, k, id);
    MuxRunKeeps(before, id);
    MuxRunRests(before, id);
    assert |l.logs| == |EndsOf(m, id).logs|;
    hide NextMux, RunMux, View, Inv, AtRest, Idle, RegisterClient, Reaches, EndsOf;
    if Idle(l) {
      forall n | MuxReaches(start, n) ensures OwnOnly(View(n, id), |l.logs|) {
        var steps :| RunMux(start, steps) == n;
        RunProjects(start, steps, id);
        IdleIsClean(l, port, host, View(n, id));
      }
    } else {
      BusyStrays(l, start, id, port, host);
    }
  }
}
