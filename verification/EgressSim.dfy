/** Every step of the host's session table is a step of the mux: what the backend does
    to its sessions, the mux does to the host end of its streams, and the frames that
    the backend queues join the mux's pipe. */
module EgressSim {
  import opened Prelude
  import opened EgressCodec
  import opened EgressSession
  import opened MuxLink
  import opened MuxInv
  import opened MuxProof
  import opened MuxSystem
  import opened MuxLift
  import EH = EgressHost

  // What is compared.

  /** What the socket of one use of an id took (`up`) or yielded. */
  function Part(g: Log, up: bool): seq<byte> {
    if up then g.written else g.yielded
  }

  /** What the sockets of an id took or yielded, over all its uses. */
  function Carried(logs: seq<Log>, up: bool): seq<byte> {
    if logs == [] then [] else Carried(logs[..|logs| - 1], up) + Part(logs[|logs| - 1], up)
  }

  /** The mux has the sessions and lookups of the table, and its logs the bytes that
      went through the table's sockets. */
  ghost predicate Coupled(h: EH.Host, m: Mux) {
    forall id: u16 :: CoupledAt(h, EndsOf(m, id), id)
  }

  predicate CoupledAt(h: EH.Host, e: Ends, id: u16) {
    && e.session == EH.SessionOf(h, id) && e.resolving == (id in h.resolving)
    && Carried(e.logs, false) == EH.History(h.yielded, id) && Carried(e.logs, true) == EH.History(h.taken, id)
  }

  ghost predicate AllInv(m: Mux) {
    forall id: u16 :: Inv(View(m, id))
  }

  /** What the clients of an id have got and what they have sent. */
  predicate SameClients(a: seq<Log>, b: seq<Log>) {
    |a| == |b| && forall k :: 0 <= k < |a| ==> a[k].delivered == b[k].delivered && a[k].pushed == b[k].pushed
  }

  /** The guest's end is as it was. */
  ghost predicate SameGuest(m: Mux, n: Mux) {
    && n.counter == m.counter
    && forall id: u16 ::
         EndsOf(n, id).handler == EndsOf(m, id).handler && SameClients(EndsOf(m, id).logs, EndsOf(n, id).logs)
  }

  lemma SameGuestOn(m: Mux, n: Mux, p: Mux)
    requires SameGuest(m, n) && SameGuest(n, p)
    ensures SameGuest(m, p)
  {
    hide EndsOf;
    forall id: u16
      ensures EndsOf(p, id).handler == EndsOf(m, id).handler
           && SameClients(EndsOf(m, id).logs, EndsOf(p, id).logs)
    {
      assert SameClients(EndsOf(m, id).logs, EndsOf(n, id).logs);
      assert SameClients(EndsOf(n, id).logs, EndsOf(p, id).logs);
    }
  }

  // The bytes of an id's sockets.

  lemma {:induction false} CarriedSame(a: seq<Log>, b: seq<Log>, up: bool)
    requires |a| == |b| && forall k :: 0 <= k < |a| ==> Part(a[k], up) == Part(b[k], up)
    ensures Carried(a, up) == Carried(b, up)
  {
    if a != [] {
      CarriedSame(a[..|a| - 1], b[..|b| - 1], up);
    }
  }

  lemma {:induction false} CarriedMore(logs: seq<Log>, c: nat, g: Log, up: bool, more: seq<byte>)
    requires c < |logs| && Part(g, up) == Part(logs[c], up) + more
    requires forall k :: c < k < |logs| ==> Part(logs[k], up) == []
    ensures Carried(logs[c := g], up) == Carried(logs, up) + more
  {
    hide Part;
    var last, logs' := |logs| - 1, logs[c := g];
    if c == last {
      assert logs'[..last] == logs[..last];
      Associates(Carried(logs[..last], up), Part(logs[c], up), more);
    } else {
      assert logs'[..last] == logs[..last][c := g];
      CarriedMore(logs[..last], c, g, up, more);
      assert Carried(logs, up) == Carried(logs[..last], up) + [] == Carried(logs[..last], up);
      assert Carried(logs', up) == Carried(logs'[..last], up) + [] == Carried(logs'[..last], up);
    }
  }

  lemma Associates(a: seq<byte>, b: seq<byte>, c: seq<byte>)
    ensures a + (b + c) == a + b + c
  {
  }

  // One stream.

  /** What a host step reads of the outside: the outcome it has on the link. */
  predicate Causes(l: Link, step: Step, o: Outcome) {
    match step
    case HostFrame(full) =>
      l.up != [] && l.up[0].frame.stream == l.id && o == HandleFrame(l.up[0].frame, l.session, l.resolving, full)
    case HostAnswer(answer) => l.resolving && o == HarvestAnswer(l.id, l.session, answer)
    case HostPoll(poll) =>
      l.session.Some? && l.session.value.state.Connecting?
      && o == RunConnecting(l.id, l.session.value, l.resolving, poll)
    case HostIo(io) =>
      l.session.Some? && l.session.value.IsOpen() && PossibleIo(l.session.value, io)
      && o == RunOpenIo(l.id, l.session.value, l.resolving, io)
    case _ => false
  }

  /** What goes through the socket of `l` in a step. */
  function Moved(l: Link, step: Step, up: bool): seq<byte>
    requires step.HostIo? ==> l.session.Some? && step.io.accepted <= |l.session.value.toSocket|
  {
    if !step.HostIo? then [] else if up then l.session.value.toSocket[..step.io.accepted] else step.io.received
  }

  lemma HostLink(l: Link, step: Step, o: Outcome)
    requires Inv(l) && Causes(l, step, o)
    ensures var n := Next(l, step);
            && n.id == l.id && n.session == o.session && n.resolving == o.resolving && n.handler == l.handler
            && n.up == (if step.HostFrame? then l.up[1..] else l.up)
            && |n.down| == |l.down| + |o.out| && n.down[..|l.down|] == l.down && Untag(n.down[|l.down|..]) == o.out
            && SameClients(l.logs, n.logs)
  {
    hide HandleFrame, HarvestAnswer, RunConnecting, RunOpenIo, Next, Inv, PossibleIo;
    CauseIsOpened(l, step, o);
    HostFields(l, step, o);
    var n := Next(l, step);
    var cur := if step.HostFrame? && l.up[0].frame.Open? then l.up[0].inc else l.cur;
    if cur < 0 {
      HostSilent(l, step, o);
      assert n.down[..|l.down|] == l.down && Untag(n.down[|l.down|..]) == [];
    } else {
      LogsMove(l, step, o, cur);
      assert n.down[|l.down|..] == Tag(cur, o.out);
      assert Untag(Tag(cur, o.out)) == o.out;
    }
  }

  lemma HostCarries(l: Link, step: Step, o: Outcome, up: bool)
    requires Inv(l) && Causes(l, step, o)
    ensures Carried(Next(l, step).logs, up) == Carried(l.logs, up) + Moved(l, step, up)
  {
    assert step.HostIo? ==> step.io.accepted <= |l.session.value.toSocket|;
    hide HandleFrame, HarvestAnswer, RunConnecting, RunOpenIo, Next, Inv, Carried, PossibleIo;
    CauseIsOpened(l, step, o);
    var cur := if step.HostFrame? && l.up[0].frame.Open? then l.up[0].inc else l.cur;
    if cur < 0 {
      HostSilent(l, step, o);
      assert Carried(l.logs, up) + [] == Carried(l.logs, up);
    } else {
      LogsMove(l, step, o, cur);
      hide Causes, Moved;
      LaterAreEmpty(l, cur);
      CarriedMore(l.logs, cur, Next(l, step).logs[cur], up, Moved(l, step, up));
    }
  }

  lemma HostFields(l: Link, step: Step, o: Outcome)
    requires Causes(l, step, o)
    ensures var n := Next(l, step);
            && n.id == l.id && n.session == o.session && n.resolving == o.resolving && n.handler == l.handler
            && n.up == (if step.HostFrame? then l.up[1..] else l.up)
  {
    hide HandleFrame, HarvestAnswer, RunConnecting, RunOpenIo, Tag;
  }

  lemma HostSilent(l: Link, step: Step, o: Outcome)
    requires Causes(l, step, o) && !step.HostIo? && l.cur < 0 && (step.HostFrame? ==> !l.up[0].frame.Open?)
    ensures Next(l, step).logs == l.logs && Next(l, step).down == l.down
  {
    hide HandleFrame, HarvestAnswer, RunConnecting, RunOpenIo, Tag;
  }

  /** A host that speaks has handled an OPEN. */
  lemma CauseIsOpened(l: Link, step: Step, o: Outcome)
    requires Inv(l) && Causes(l, step, o)
    ensures var cur := if step.HostFrame? && l.up[0].frame.Open? then l.up[0].inc else l.cur;
            cur < |l.logs| && l.cur <= cur && (cur < 0 ==> o.out == [] && !step.HostIo?)
  {
    CurBound(l);
    if step.HostAnswer? && l.session.None? {
      assert o.out == [];
    }
  }

  lemma LaterAreEmpty(l: Link, cur: nat)
    requires Inv(l) && l.cur <= cur < |l.logs|
    ensures forall k :: cur < k < |l.logs| ==> l.logs[k].yielded == [] && l.logs[k].written == []
  {
    forall k | cur < k < |l.logs| ensures l.logs[k].yielded == [] && l.logs[k].written == [] {
      assert Unopened(l.logs[k], Own(l.up, k));
    }
  }

  lemma LogsMove(l: Link, step: Step, o: Outcome, cur: nat)
    requires Causes(l, step, o) && cur < |l.logs|
    requires cur == if step.HostFrame? && l.up[0].frame.Open? then l.up[0].inc else l.cur
    ensures var n := Next(l, step);
            && n.down == l.down + Tag(cur, o.out) && |n.logs| == |l.logs| && n.logs == l.logs[cur := n.logs[cur]]
            && n.logs[cur].delivered == l.logs[cur].delivered && n.logs[cur].pushed == l.logs[cur].pushed
            && n.logs[cur].yielded == l.logs[cur].yielded + Moved(l, step, false)
            && n.logs[cur].written == l.logs[cur].written + Moved(l, step, true)
  {
    hide HandleFrame, HarvestAnswer, RunConnecting, RunOpenIo, Tag;
    assert l.logs[cur].yielded + [] == l.logs[cur].yielded && l.logs[cur].written + [] == l.logs[cur].written;
  }

  // The whole table.

  function StepOf(m: Mux, step: EH.HostStep): (s: MuxStep)
    ensures s.HandleHead? || s.Local?
  {
    match step
    case Frame(_) => HandleHead
    case Harvest(job, answer) => Local(job.stream, HostAnswer(answer))
    case Poll(id, poll) => Local(id, HostPoll(poll))
    case Turn(id, io) => Local(id, HostIo(io))
  }

  /** The same step on the link of its stream. */
  function LinkStep(m: Mux, step: EH.HostStep): Step {
    match step
    case Frame(_) => HostFrame(|SessionIds(m)| >= MAX_SESSIONS)
    case Harvest(_, answer) => HostAnswer(answer)
    case Poll(_, poll) => HostPoll(poll)
    case Turn(_, io) => HostIo(io)
  }

  lemma CoupledSessions(h: EH.Host, m: Mux)
    requires Coupled(h, m)
    ensures SessionIds(m) == h.sessions.Keys
  {
    forall id: u16 ensures id in SessionIds(m) <==> id in h.sessions.Keys {
      HasSession(m, id);
      assert CoupledAt(h, EndsOf(m, id), id);
    }
  }

  /** The step is next in the mux: it is possible in the table, and a frame it handles
      is the first in the pipe. */
  predicate IsNext(h: EH.Host, m: Mux, step: EH.HostStep) {
    EH.Possible(h, step) && (step.Frame? ==> m.up != [] && m.up[0].frame == step.frame)
  }

  lemma StepCauses(h: EH.Host, m: Mux, step: EH.HostStep)
    requires Coupled(h, m) && EH.AskedOk(h) && IsNext(h, m, step)
    ensures Causes(View(m, EH.StreamOf(step)), LinkStep(m, step), EH.OutcomeOf(h, step))
    ensures step.Frame? ==> View(m, EH.StreamOf(step)).up != []
  {
    CoupledSessions(h, m);
    var id := EH.StreamOf(step);
    assert CoupledAt(h, EndsOf(m, id), id);
    hide HandleFrame, HarvestAnswer, RunConnecting, RunOpenIo;
    if step.Frame? {
      assert Only(m.up, id) == [m.up[0]] + Only(m.up[1..], id);
      assert |SessionIds(m)| == |h.sessions|;
    }
  }

  lemma StepPipes(m: Mux, step: EH.HostStep, o: Outcome)
    requires var l := View(m, EH.StreamOf(step));
             var v := Next(l, LinkStep(m, step));
             && (step.Frame? ==> l.up != []) && v.up == (if step.Frame? then l.up[1..] else l.up)
             && |v.down| == |l.down| + |o.out| && Untag(v.down[|l.down|..]) == o.out
    requires step.Frame? ==> m.up != [] && m.up[0].frame.stream == EH.StreamOf(step)
    ensures var n := NextMux(m, StepOf(m, step));
            && n.up == (if step.Frame? then m.up[1..] else m.up)
            && Untag(n.down) == Untag(m.down) + o.out && n.counter == m.counter
            && EndsAre(n, EH.StreamOf(step), Next(View(m, EH.StreamOf(step)), LinkStep(m, step)))
            && forall j: u16 :: j != EH.StreamOf(step) ==> EndsOf(n, j) == EndsOf(m, j)
  {
    var id := EH.StreamOf(step);
    var l, v := View(m, id), Next(View(m, id), LinkStep(m, step));
    hide Next;
    if step.Frame? {
      assert Only(m.up, id) == [m.up[0]] + Only(m.up[1..], id);
      assert v.up == Only(m.up[1..], id);
      assert m.up[1..] + [] == m.up[1..];
    } else {
      assert m.up + [] == m.up;
    }
    hide Only;
    assert Untag(m.down + v.down[|l.down|..]) == Untag(m.down) + o.out;
  }

  predicate EndsAre(m: Mux, id: u16, v: Link) {
    EndsOf(m, id) == Ends(v.handler, v.session, v.resolving, v.cur, v.logs)
  }

  /** What goes through the socket of `id` in a step of the table. */
  function TurnBytes(h: EH.Host, step: EH.HostStep, id: u16, up: bool): seq<byte>
    requires EH.Possible(h, step)
  {
    if !step.Turn? || step.id != id then []
    else if up then h.sessions[id].toSocket[..step.io.accepted] else step.io.received
  }

  lemma StepSim(h: EH.Host, m: Mux, step: EH.HostStep)
    requires Coupled(h, m) && EH.AskedOk(h) && AllInv(m) && IsNext(h, m, step)
    ensures var n, h' := NextMux(m, StepOf(m, step)), EH.NextHost(h, step);
            && Coupled(h', n) && SameGuest(m, n) && AllInv(n)
            && n.up == (if step.Frame? then m.up[1..] else m.up)
            && Untag(n.down) == Untag(m.down) + EH.OutcomeOf(h, step).out
            && h'.out == h.out + EH.OutcomeOf(h, step).out
  {
    hide Next, NextMux, EH.NextHost, Inv, Carried, EH.OutcomeOf, Only, EndsOf, Untag, Causes, EH.SessionOf;
    hide EH.AskedOk, EH.Possible, EH.History, Moved, TurnBytes;
    var at := EH.StreamOf(step);
    var o := EH.OutcomeOf(h, step);
    StepCauses(h, m, step);
    HostLink(View(m, at), LinkStep(m, step), o);
    HostCarries(View(m, at), LinkStep(m, step), o, false);
    HostCarries(View(m, at), LinkStep(m, step), o, true);
    StepMoves(h, m, step);
    StepPipes(m, step, o);
    StepTable(h, step, o);
    StepInv(m, StepOf(m, step));
    hide AllInv;
    var n, h' := NextMux(m, StepOf(m, step)), EH.NextHost(h, step);
    forall id: u16
      ensures CoupledAt(h', EndsOf(n, id), id)
      ensures EndsOf(n, id).handler == EndsOf(m, id).handler && SameClients(EndsOf(m, id).logs, EndsOf(n, id).logs)
    {
      assert CoupledAt(h, EndsOf(m, id), id);
      if id != at {
        assert EndsOf(n, id) == EndsOf(m, id);
      }
    }
  }

  /** The same bytes go through the table's socket and the link's. */
  lemma StepMoves(h: EH.Host, m: Mux, step: EH.HostStep)
    requires Coupled(h, m) && EH.Possible(h, step)
    ensures var at, l := EH.StreamOf(step), View(m, EH.StreamOf(step));
            && (step.Turn? ==> l.session.Some? && step.io.accepted <= |l.session.value.toSocket|)
            && Moved(l, LinkStep(m, step), false) == TurnBytes(h, step, at, false)
            && Moved(l, LinkStep(m, step), true) == TurnBytes(h, step, at, true)
  {
    var at := EH.StreamOf(step);
    assert CoupledAt(h, EndsOf(m, at), at);
  }

  lemma StepTable(h: EH.Host, step: EH.HostStep, o: Outcome)
    requires EH.Possible(h, step) && o == EH.OutcomeOf(h, step)
    ensures var at, h' := EH.StreamOf(step), EH.NextHost(h, step);
            && h'.out == h.out + o.out
            && EH.SessionOf(h', at) == o.session && (at in h'.resolving <==> o.resolving)
            && EH.History(h'.yielded, at) == EH.History(h.yielded, at) + TurnBytes(h, step, at, false)
            && EH.History(h'.taken, at) == EH.History(h.taken, at) + TurnBytes(h, step, at, true)
            && forall id :: id != at ==>
                 && EH.SessionOf(h', id) == EH.SessionOf(h, id) && (id in h'.resolving <==> id in h.resolving)
                 && EH.History(h'.yielded, id) == EH.History(h.yielded, id)
                 && EH.History(h'.taken, id) == EH.History(h.taken, id)
  {
    hide EH.OutcomeOf, EH.Grown, EH.History;
    assert EH.History(h.yielded, EH.StreamOf(step)) + [] == EH.History(h.yielded, EH.StreamOf(step));
    assert EH.History(h.taken, EH.StreamOf(step)) + [] == EH.History(h.taken, EH.StreamOf(step));
  }

  lemma StepInv(m: Mux, step: MuxStep)
    requires AllInv(m)
    ensures AllInv(NextMux(m, step))
  {
    hide NextMux, View, Inv, Run;
    forall id: u16 ensures Inv(View(NextMux(m, step), id)) {
      StepProjects(m, step, id);
      var run :| Run(View(m, id), run) == View(NextMux(m, step), id);
      RunKeeps(View(m, id), run);
    }
  }

  // Runs.

  /** The frames handled in a stretch of the table's run. */
  function FramesOf(steps: seq<EH.HostStep>): seq<Frame> {
    if steps == [] then []
    else (if steps[0].Frame? then [steps[0].frame] else []) + FramesOf(steps[1..])
  }

  /** The mux went from `m` to `n` as the table did over `more`. */
  ghost predicate Follows(trace: seq<EH.HostStep>, more: seq<EH.HostStep>, m: Mux, n: Mux) {
    var h, h' := EH.RunHost(EH.NEW_HOST, trace), EH.RunHost(EH.NEW_HOST, trace + more);
    && Coupled(h', n) && SameGuest(m, n)
    && |FramesOf(more)| <= |m.up| && n.up == m.up[|FramesOf(more)|..]
    && |h.out| <= |h'.out| && h'.out[..|h.out|] == h.out && Untag(n.down) == Untag(m.down) + h'.out[|h.out|..]
  }

  /** Any further stretch of the table's run is a run of the mux, if the frames it
      handles are the ones that wait in the pipe. */
  lemma {:induction false} SimRun(trace: seq<EH.HostStep>, more: seq<EH.HostStep>, m: Mux) returns (run: seq<MuxStep>)
    requires Coupled(EH.RunHost(EH.NEW_HOST, trace), m) && AllInv(m)
    requires FramesOf(more) <= Untag(m.up)
    ensures Follows(trace, more, m, RunMux(m, run))
    decreases |more|
  {
    hide NextMux, EH.NextHost, EH.RunHost, AllInv, Coupled, Untag, EH.HostInv, EH.Possible, Follows, IsNext;
    if more == [] {
      run := [];
      FollowsNothing(trace, m);
    } else {
      var step := more[0];
      var trace' := trace + [step];
      if EH.Possible(EH.RunHost(EH.NEW_HOST, trace), step) {
        FirstStep(trace, more, m);
        var n := NextMux(m, StepOf(m, step));
        var rest := SimRun(trace', more[1..], n);
        run := [StepOf(m, step)] + rest;
        assert run[0] == StepOf(m, step) && run[1..] == rest;
        FollowsOn(trace, more, m, n, RunMux(m, run));
      } else {
        ImpossibleStays(trace, step);
        run := SimRun(trace', more[1..], m);
        FollowsSkip(trace, more, m, RunMux(m, run));
      }
    }
  }

  lemma FollowsNothing(trace: seq<EH.HostStep>, m: Mux)
    requires Coupled(EH.RunHost(EH.NEW_HOST, trace), m)
    ensures Follows(trace, [], m, m)
  {
    hide EH.RunHost, Coupled;
    var h := EH.RunHost(EH.NEW_HOST, trace);
    assert trace + [] == trace && m.up[0..] == m.up && h.out[|h.out|..] == [] && h.out[..|h.out|] == h.out;
    assert Untag(m.down) + [] == Untag(m.down);
    SameGuestSelf(m);
  }

  lemma FollowsSkip(trace: seq<EH.HostStep>, more: seq<EH.HostStep>, m: Mux, n: Mux)
    requires more != [] && !more[0].Frame? && Follows(trace + [more[0]], more[1..], m, n)
    requires EH.RunHost(EH.NEW_HOST, trace + [more[0]]) == EH.RunHost(EH.NEW_HOST, trace)
    ensures Follows(trace, more, m, n)
  {
    hide EH.RunHost, Coupled, SameGuest, Untag;
    assert trace + [more[0]] + more[1..] == trace + more;
    assert [] + FramesOf(more[1..]) == FramesOf(more);
  }

  /** The table and the mux take the first step together. */
  ghost predicate Together(trace: seq<EH.HostStep>, step: EH.HostStep, m: Mux, n: Mux) {
    var h, h' := EH.RunHost(EH.NEW_HOST, trace), EH.RunHost(EH.NEW_HOST, trace + [step]);
    && SameGuest(m, n) && n.up == (if step.Frame? && m.up != [] then m.up[1..] else m.up)
    && exists out :: h'.out == h.out + out && Untag(n.down) == Untag(m.down) + out
  }

  lemma FirstStep(trace: seq<EH.HostStep>, more: seq<EH.HostStep>, m: Mux)
    requires Coupled(EH.RunHost(EH.NEW_HOST, trace), m) && AllInv(m)
    requires more != [] && FramesOf(more) <= Untag(m.up) && EH.Possible(EH.RunHost(EH.NEW_HOST, trace), more[0])
    ensures var n := NextMux(m, StepOf(m, more[0]));
            && Coupled(EH.RunHost(EH.NEW_HOST, trace + [more[0]]), n) && AllInv(n)
            && FramesOf(more[1..]) <= Untag(n.up) && Together(trace, more[0], m, n)
            && |FramesOf(more)| <= |m.up| && |FramesOf(more[1..])| <= |n.up|
            && n.up[|FramesOf(more[1..])|..] == m.up[|FramesOf(more)|..]
  {
    var h, step := EH.RunHost(EH.NEW_HOST, trace), more[0];
    EH.HostRunKeeps(trace);
    FirstFrameIsNext(h, m, more);
    StepSim(h, m, step);
    RunOneMore(trace, step);
    hide NextMux, EH.NextHost, EH.RunHost, AllInv, EndsOf, Carried, EH.HostInv, EH.Possible, SameClients;
    hide Coupled, SameGuest, EH.OutcomeOf, IsNext, FramesOf;
    AfterFirst(m, NextMux(m, StepOf(m, step)), more);
  }

  lemma FollowsOn(trace: seq<EH.HostStep>, more: seq<EH.HostStep>, m: Mux, n: Mux, p: Mux)
    requires more != [] && Together(trace, more[0], m, n) && Follows(trace + [more[0]], more[1..], n, p)
    requires |FramesOf(more)| <= |m.up| && |FramesOf(more[1..])| <= |n.up|
    requires n.up[|FramesOf(more[1..])|..] == m.up[|FramesOf(more)|..]
    ensures Follows(trace, more, m, p)
  {
    hide EH.RunHost, Coupled, SameGuest, Untag, FramesOf;
    SameGuestOn(m, n, p);
    assert trace + [more[0]] + more[1..] == trace + more;
    var h, h' := EH.RunHost(EH.NEW_HOST, trace), EH.RunHost(EH.NEW_HOST, trace + [more[0]]);
    var out :| h'.out == h.out + out && Untag(n.down) == Untag(m.down) + out;
    OutOn(h.out, h'.out, EH.RunHost(EH.NEW_HOST, trace + more).out, out, Untag(m.down));
  }

  lemma SameGuestSelf(m: Mux)
    ensures SameGuest(m, m)
  {
  }

  lemma RunOneMore(trace: seq<EH.HostStep>, step: EH.HostStep)
    ensures EH.RunHost(EH.NEW_HOST, trace + [step]) == EH.NextHost(EH.RunHost(EH.NEW_HOST, trace), step)
  {
    assert (trace + [step])[..|trace|] == trace;
  }

  lemma ImpossibleStays(trace: seq<EH.HostStep>, step: EH.HostStep)
    requires !EH.Possible(EH.RunHost(EH.NEW_HOST, trace), step)
    ensures EH.RunHost(EH.NEW_HOST, trace + [step]) == EH.RunHost(EH.NEW_HOST, trace)
    ensures !step.Frame?
  {
    RunOneMore(trace, step);
  }

  lemma FirstFrameIsNext(h: EH.Host, m: Mux, more: seq<EH.HostStep>)
    requires more != [] && FramesOf(more) <= Untag(m.up) && EH.Possible(h, more[0])
    ensures IsNext(h, m, more[0])
  {
    if more[0].Frame? {
      assert FramesOf(more)[0] == more[0].frame;
      assert Untag(m.up)[0] == m.up[0].frame;
    }
  }

  lemma AfterFirst(m: Mux, n: Mux, more: seq<EH.HostStep>)
    requires more != [] && FramesOf(more) <= Untag(m.up)
    requires n.up == (if more[0].Frame? && m.up != [] then m.up[1..] else m.up)
    ensures FramesOf(more[1..]) <= Untag(n.up)
    ensures |FramesOf(more)| <= |m.up| && |FramesOf(more[1..])| <= |n.up|
    ensures n.up[|FramesOf(more[1..])|..] == m.up[|FramesOf(more)|..]
  {
    var tail := FramesOf(more[1..]);
    if more[0].Frame? {
      assert FramesOf(more) == [more[0].frame] + tail;
      hide FramesOf;
      assert Untag(m.up)[1..] == Untag(m.up[1..]);
      PrefixTail(more[0].frame, tail, Untag(m.up));
    } else {
      assert FramesOf(more) == [] + tail == tail;
    }
  }

  lemma PrefixTail(f: Frame, tail: seq<Frame>, up: seq<Frame>)
    requires [f] + tail <= up
    ensures |up| > 0 && tail <= up[1..]
  {
    assert up[1..][..|tail|] == ([f] + tail)[1..] == tail;
  }

  lemma OutOn(a: seq<Frame>, b: seq<Frame>, c: seq<Frame>, out: seq<Frame>, down: seq<Frame>)
    requires b == a + out && |b| <= |c| && c[..|b|] == b
    ensures |a| <= |c| && c[..|a|] == a && down + out + c[|b|..] == down + c[|a|..]
  {
    assert c[..|a|] == c[..|b|][..|a|];
    assert out == c[..|b|][|a|..];
    assert c[|a|..] == out + c[|b|..];
  }

  // What the host may say.

  /** A frame for a connection handler. */
  predicate ForGuest(f: Frame) {
    !f.Open? && !f.Window?
  }

  predicate AllForGuest(frames: seq<Frame>) {
    forall i :: 0 <= i < |frames| ==> ForGuest(frames[i])
  }

  lemma OutcomeForGuest(h: EH.Host, step: EH.HostStep)
    requires EH.Possible(h, step)
    ensures AllForGuest(EH.OutcomeOf(h, step).out)
  {
    if step.Turn? {
      TurnForGuest(step.id, h.sessions[step.id], step.id in h.resolving, step.io);
    }
    hide RunOpenIo;
  }

  lemma TurnForGuest(id: u16, s: Session, resolving: bool, io: Io)
    requires PossibleIo(s, io)
    ensures AllForGuest(RunOpenIo(id, s, resolving, io).out)
  {
    var t := Transfer(s, io);
    ChunkedConserves(id, t.toGuest[..Releasable(t)]);
    hide Chunked;
  }

  /** The host never sends an OPEN or a WINDOW. */
  lemma {:induction false} HostForGuest(trace: seq<EH.HostStep>)
    ensures AllForGuest(EH.RunHost(EH.NEW_HOST, trace).out)
  {
    if trace != [] {
      var before, step := trace[..|trace| - 1], trace[|trace| - 1];
      HostForGuest(before);
      var h := EH.RunHost(EH.NEW_HOST, before);
      if EH.Possible(h, step) {
        OutcomeForGuest(h, step);
        StepTable(h, step, EH.OutcomeOf(h, step));
      }
      hide EH.NextHost, EH.OutcomeOf;
    }
  }
}
