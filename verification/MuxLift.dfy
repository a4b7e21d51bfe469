/** What one stream could do on its own, it can do among all the others: the other
    streams' frames in front of its own are routed and handled, and a session that
    one of them opens meanwhile is made to fail. */
module MuxLift {
  import opened Prelude
  import opened EgressSession
  import opened MuxLink
  import opened MuxSystem

  ghost predicate MuxReaches(m: Mux, n: Mux) {
    exists steps :: RunMux(m, steps) == n
  }

  lemma {:induction false} RunMuxAppend(m: Mux, a: seq<MuxStep>, b: seq<MuxStep>)
    ensures RunMux(m, a + b) == RunMux(RunMux(m, a), b)
    decreases |a|
  {
    hide NextMux;
    if a == [] {
      assert a + b == b;
    } else {
      assert (a + b)[0] == a[0] && (a + b)[1..] == a[1..] + b;
      RunMuxAppend(NextMux(m, a[0]), a[1..], b);
    }
  }

  lemma MuxReachesSelf(m: Mux)
    ensures MuxReaches(m, m)
  {
    assert RunMux(m, []) == m;
  }

  lemma MuxReachesStep(m: Mux, step: MuxStep)
    ensures MuxReaches(m, NextMux(m, step))
  {
    assert [step][1..] == [];
    assert RunMux(m, [step]) == RunMux(NextMux(m, step), []);
    assert RunMux(m, [step]) == NextMux(m, step);
    hide NextMux;
  }

  lemma MuxReachesOn(m: Mux, n: Mux, p: Mux)
    requires MuxReaches(m, n) && MuxReaches(n, p)
    ensures MuxReaches(m, p)
  {
    hide NextMux, RunMux;
    var a :| RunMux(m, a) == n;
    var b :| RunMux(n, b) == p;
    RunMuxAppend(m, a, b);
  }

  // Who has a session.

  lemma HasSession(m: Mux, id: u16)
    ensures id in SessionIds(m) <==> View(m, id).session.Some?
  {
  }

  function Others(m: Mux, id: u16): set<u16> {
    SessionIds(m) - {id}
  }

  /** The other streams leave room in the session table. */
  predicate Room(m: Mux, id: u16) {
    |Others(m, id)| < MAX_SESSIONS
  }

  lemma OthersKeep(m: Mux, n: Mux, id: u16)
    requires forall k: u16 :: k != id && View(n, k).session.Some? ==> View(m, k).session.Some?
    ensures Others(n, id) <= Others(m, id)
  {
    forall k | k in Others(n, id) ensures k in Others(m, id) {
      HasSession(n, k);
      HasSession(m, k);
    }
  }

  lemma RoomKeeps(m: Mux, n: Mux, id: u16)
    requires Room(m, id) && Others(n, id) <= Others(m, id)
    ensures Room(n, id)
  {
    SubsetCard(Others(n, id), Others(m, id));
  }

  lemma SubsetCard(a: set<u16>, b: set<u16>)
    requires a <= b
    ensures |a| <= |b|
  {
    assert b == a + (b - a);
    assert |a + (b - a)| == |a| + |b - a|;
  }

  lemma RoomIsNotFull(m: Mux, id: u16)
    requires Room(m, id) && View(m, id).session.None?
    ensures |SessionIds(m)| < MAX_SESSIONS
  {
    HasSession(m, id);
    assert Others(m, id) == SessionIds(m);
  }

  // One step of one stream.

  lemma LiftLocal(m: Mux, id: u16, step: Step) returns (n: Mux)
    requires LocalStep(step)
    ensures MuxReaches(m, n) && View(n, id) == Next(View(m, id), step)
    ensures Others(n, id) <= Others(m, id)
  {
    n := NextMux(m, Local(id, step));
    MuxReachesStep(m, Local(id, step));
    hide NextMux, View, MuxReaches, Next;
    forall k: u16 | k != id && View(n, k).session.Some? ensures View(m, k).session.Some? {
      LocalView(m, id, step, k);
    }
    OthersKeep(m, n, id);
    LocalView(m, id, step, id);
  }

  lemma RouteShrinks(m: Mux)
    requires m.down != []
    ensures NextMux(m, RouteHead).down == m.down[1..] && NextMux(m, RouteHead).up == m.up
  {
    var id := m.down[0].frame.stream;
    var l := View(m, id);
    assert Only(m.down, id) == [m.down[0]] + Only(m.down[1..], id);
    var v := Next(l, Route);
    assert v.down == Only(m.down[1..], id) && v.up == Only(m.up, id);
    hide Next, Only;
    assert Added(Only(m.down[1..], id), v.down) == [] && Added(Only(m.up, id), v.up) == [];
    assert m.down[1..] + [] == m.down[1..] && m.up + [] == m.up;
  }

  lemma RouteKeepsSessions(m: Mux, id: u16)
    requires m.down != []
    ensures Others(NextMux(m, RouteHead), id) <= Others(m, id)
  {
    var n := NextMux(m, RouteHead);
    hide NextMux, View;
    forall k: u16 | k != id && View(n, k).session.Some? ensures View(m, k).session.Some? {
      RouteView(m, k);
      RouteSession(View(m, k));
    }
    OthersKeep(m, n, id);
  }

  lemma RouteSession(l: Link)
    ensures Next(l, Route).session == l.session
  {
  }

  lemma {:induction false} LiftRoute(m: Mux, id: u16) returns (n: Mux)
    requires View(m, id).down != []
    ensures MuxReaches(m, n) && View(n, id) == Next(View(m, id), Route)
    ensures Others(n, id) <= Others(m, id)
    decreases |m.down|
  {
    hide NextMux, MuxReaches, Next, Others, Only;
    assert m.down != [] by { OnlyNothing(id); }
    var p := NextMux(m, RouteHead);
    MuxReachesStep(m, RouteHead);
    RouteView(m, id);
    RouteShrinks(m);
    RouteKeepsSessions(m, id);
    if m.down[0].frame.stream == id {
      n := p;
    } else {
      n := LiftRoute(p, id);
      MuxReachesOn(m, p, n);
    }
  }

  lemma OnlyNothing(id: u16)
    ensures Only([], id) == []
  {
  }

  // The host's next frame of this stream.

  lemma HandleShrinks(m: Mux)
    requires m.up != []
    ensures NextMux(m, HandleHead).up == m.up[1..]
  {
    var id := m.up[0].frame.stream;
    var l := View(m, id);
    assert Only(m.up, id) == [m.up[0]] + Only(m.up[1..], id);
    var full := |SessionIds(m)| >= MAX_SESSIONS;
    HandleUpExtends(l, full);
    var v := Next(l, HostFrame(full));
    assert v.up == Only(m.up[1..], id);
    hide Next, Only, HandleUp;
    assert Added(Only(m.up[1..], id), v.up) == [];
    assert m.up[1..] + [] == m.up[1..];
  }

  lemma LocalKeepsUp(m: Mux, id: u16, answer: Answer)
    ensures NextMux(m, Local(id, HostAnswer(answer))).up == m.up
  {
    var l := View(m, id);
    var v := Next(l, HostAnswer(answer));
    assert v.up == l.up;
    hide Next, Only;
    assert Added(Only(m.up, id), v.up) == [];
    assert m.up + [] == m.up;
  }

  /** Handling another stream's frame adds no session for good. */
  lemma HandleOther(m: Mux, id: u16) returns (n: Mux)
    requires m.up != [] && m.up[0].frame.stream != id
    ensures MuxReaches(m, n) && View(n, id) == View(m, id) && n.up == m.up[1..]
    ensures Others(n, id) <= Others(m, id)
  {
    var k := m.up[0].frame.stream;
    var p := NextMux(m, HandleHead);
    MuxReachesStep(m, HandleHead);
    HandleShrinks(m);
    HandleView(m, id);
    if View(m, k).session.None? && View(p, k).session.Some? {
      n := NextMux(p, Local(k, HostAnswer(NoAddress)));
      MuxReachesStep(p, Local(k, HostAnswer(NoAddress)));
      MuxReachesOn(m, p, n);
      LocalKeepsUp(p, k, NoAddress);
      LocalView(p, k, HostAnswer(NoAddress), id);
      HandleView(m, k);
      NewSessionFails(View(m, k), |SessionIds(m)| >= MAX_SESSIONS);
      hide NextMux, View, MuxReaches, Next;
      forall j: u16 | j != id && View(n, j).session.Some? ensures View(m, j).session.Some? {
        LocalView(p, k, HostAnswer(NoAddress), j);
        HandleView(m, j);
      }
    } else {
      n := p;
      hide NextMux, View, MuxReaches, Next;
      forall j: u16 | j != id && View(n, j).session.Some? ensures View(m, j).session.Some? {
        HandleView(m, j);
      }
    }
    OthersKeep(m, n, id);
  }

  /** An accepted OPEN waits for its resolver, and fails if that finds nothing. */
  lemma NewSessionFails(l: Link, full: bool)
    requires l.session.None?
    ensures var n := Next(l, HostFrame(full));
            n.session.Some? ==> Next(n, HostAnswer(NoAddress)).session.None?
  {
    hide SetLog, LogOf, Tag;
  }

  lemma {:induction false} LiftHandle(m: Mux, id: u16) returns (n: Mux, full: bool)
    requires View(m, id).up != []
    ensures MuxReaches(m, n) && View(n, id) == Next(View(m, id), HostFrame(full))
    ensures Others(n, id) <= Others(m, id)
    ensures Room(m, id) && View(m, id).session.None? ==> !full
    decreases |m.up|
  {
    hide NextMux, MuxReaches, Next, Others, Only;
    assert m.up != [] by { OnlyNothing(id); }
    if m.up[0].frame.stream == id {
      n, full := NextMux(m, HandleHead), |SessionIds(m)| >= MAX_SESSIONS;
      MuxReachesStep(m, HandleHead);
      HandleView(m, id);
      HandleKeepsOthers(m, id);
      if Room(m, id) && View(m, id).session.None? {
        RoomIsNotFull(m, id);
      }
    } else {
      var p := HandleOther(m, id);
      n, full := LiftHandle(p, id);
      MuxReachesOn(m, p, n);
      if Room(m, id) {
        RoomKeeps(m, p, id);
      }
    }
  }

  lemma HandleKeepsOthers(m: Mux, id: u16)
    requires m.up != [] && m.up[0].frame.stream == id
    ensures Others(NextMux(m, HandleHead), id) <= Others(m, id)
  {
    var n := NextMux(m, HandleHead);
    hide NextMux, View;
    forall k: u16 | k != id && View(n, k).session.Some? ensures View(m, k).session.Some? {
      HandleView(m, k);
    }
    OthersKeep(m, n, id);
  }
}
