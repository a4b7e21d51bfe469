/** The verdict path: the agent's record of the first `finish`, the bridge that forwards
    it, and the host that ends the run on it. Connections come and go, lines arrive in
    any order, any write may fail. */
module Verdict {
  import opened Prelude

  const FINISH: string := "finish"
  const CTL: string := "ctl"
  const INVALID: string := "invalid"
  const EXIT_PASS: int := 0
  const EXIT_FAIL: int := 1
  const EXIT_INFRA: int := 2
  const MAX_CTL_CONNS: nat := 32

  datatype Request = Request(op: string, exit: Option<int>, message: string)

  /** One framed line after decoding. */
  datatype Frame = Blank | Garbage | Command(request: Request)

  datatype GuestEvent = GuestEvent(kind: string, name: string, exit: Option<int>, ok: Option<bool>)

  /** What goes up ttyS1 to the host. */
  datatype Line = EventLine(seqNo: nat, event: GuestEvent) | ReplyLine(ok: bool)

  predicate Reserved(kind: string) {
    kind == FINISH || kind == CTL
  }

  predicate IsFinish(line: Line) {
    line.EventLine? && line.event.kind == FINISH
  }

  // The agent.

  function VerdictOf(req: Request): int {
    if req.exit.Some? then req.exit.value else 0
  }

  class Agent {
    var finished: Option<int>

    constructor ()
      ensures finished == None
    {
      finished := None;
    }

    /** The first finish is recorded; a later one is refused and changes nothing. */
    method DoFinish(req: Request) returns (ok: bool)
      modifies this
      ensures ok == old(finished).None?
      ensures finished == if ok then Some(VerdictOf(req)) else old(finished)
    {
      match finished
      case Some(_) => ok := false;
      case None =>
        finished := Some(VerdictOf(req));
        ok := true;
    }

    /** Any other operation works or does not (`works`). */
    method Handle(req: Request, works: bool) returns (ok: bool)
      modifies this
      ensures finished == Handled(old(finished), req, works).0 && ok == Handled(old(finished), req, works).1
    {
      if req.op == FINISH {
        ok := DoFinish(req);
      } else {
        ok := works;
      }
    }
  }

  function Handled(finished: Option<int>, req: Request, works: bool): (Option<int>, bool) {
    if req.op != FINISH then (finished, works)
    else if finished.Some? then (finished, false)
    else (Some(VerdictOf(req)), true)
  }

  // The bridge.

  function FinishEvent(req: Request): GuestEvent {
    GuestEvent(FINISH, req.message, Some(VerdictOf(req)), None)
  }

  function CtlMirror(req: Request, ok: bool): GuestEvent {
    GuestEvent(CTL, req.op, None, Some(ok))
  }

  /** A workload's line as an event: reserved kinds are the agent's own. */
  function ParseEvent(parsed: Option<GuestEvent>): (ev: GuestEvent)
    ensures !Reserved(ev.kind)
  {
    if parsed.Some? && !Reserved(parsed.value.kind) && parsed.value.kind != "" then parsed.value
    else GuestEvent(INVALID, "", None, None)
  }

  datatype Step =
    | Connect(conn: nat)
    | HangUp(conn: nat)
    | CtlLine(conn: nat, frame: Frame, works: bool, replyWritten: bool, eventWritten: bool)
    | ControlLine(frame: Frame, works: bool, written: bool)
    | FifoLine(parsed: Option<GuestEvent>, written: bool)

  datatype Source = Socket | Host

  /** The guest side. `stopped` is the loop's end on a dead ttyS1; `source` says over
      which channel the recorded finish came. */
  datatype Guest = Guest(finished: Option<int>, conns: set<nat>, seqNo: nat, sent: seq<Line>,
                         stopped: bool, source: Option<Source>, message: string)

  const NEW_GUEST := Guest(None, {}, 0, [], false, None, "")

  /** Forward an event under the next number. */
  function Forward(g: Guest, ev: GuestEvent, written: bool): Guest {
    if written then g.(seqNo := g.seqNo + 1, sent := g.sent + [EventLine(g.seqNo + 1, ev)])
    else g.(seqNo := g.seqNo + 1, stopped := true)
  }

  function Retire(g: Guest, conn: nat, alive: bool): Guest {
    if alive then g else g.(conns := g.conns - {conn})
  }

  function Serve(g: Guest, req: Request, works: bool, source: Source): Guest {
    var finished := Handled(g.finished, req, works).0;
    if finished == g.finished then g else g.(finished := finished, source := Some(source), message := req.message)
  }

  function CtlEvent(g: Guest, req: Request, works: bool): GuestEvent {
    var ok := Handled(g.finished, req, works).1;
    if req.op == FINISH && ok then FinishEvent(req) else CtlMirror(req, ok)
  }

  function Next(g: Guest, step: Step): Guest {
    if g.stopped then g
    else
      match step
      case Connect(c) => if |g.conns| < MAX_CTL_CONNS then g.(conns := g.conns + {c}) else g
      case HangUp(c) => g.(conns := g.conns - {c})
      case CtlLine(c, frame, works, replyWritten, eventWritten) =>
        if c !in g.conns || frame.Blank? then g
        else if frame.Garbage? then Retire(g, c, replyWritten)
        else
          var ev := CtlEvent(g, frame.request, works);
          Retire(Forward(Serve(g, frame.request, works, Socket), ev, eventWritten), c, replyWritten)
      case ControlLine(frame, works, written) =>
        if frame.Blank? then g
        else
          var ok := frame.Command? && Handled(g.finished, frame.request, works).1;
          var served := if frame.Command? then Serve(g, frame.request, works, Host) else g;
          if written then served.(sent := served.sent + [ReplyLine(ok)]) else served.(stopped := true)
      case FifoLine(parsed, written) => Forward(g, ParseEvent(parsed), written)
  }

  function Run(g: Guest, steps: seq<Step>): Guest
    decreases |steps|
  {
    if steps == [] then g else Next(Run(g, steps[..|steps| - 1]), steps[|steps| - 1])
  }

  class Bridge {
    const agent: Agent
    var conns: set<nat>
    var seqNo: nat
    var sent: seq<Line>
    var stopped: bool
    ghost var source: Option<Source>
    ghost var message: string

    ghost function View(): Guest
      reads this, agent
    {
      Guest(agent.finished, conns, seqNo, sent, stopped, source, message)
    }

    constructor (a: Agent)
      requires a.finished == None
      ensures agent == a && View() == NEW_GUEST
    {
      agent, conns, seqNo, sent, stopped := a, {}, 0, [], false;
      source, message := None, "";
    }

    method WriteEvent(ev: GuestEvent, written: bool)
      modifies this`seqNo, this`sent, this`stopped
      ensures View() == Forward(old(View()), ev, written)
    {
      seqNo := seqNo + 1;
      if written {
        sent := sent + [EventLine(seqNo, ev)];
      } else {
        stopped := true;
      }
    }

    /** Serve one control-socket line: the event is decided, and forwarded, whether or
        not the connection takes its reply. */
    method HandleCtlLine(conn: nat, req: Request, works: bool, replyWritten: bool, eventWritten: bool)
      requires !stopped && conn in conns
      modifies this, agent
      ensures View() == Next(old(View()), CtlLine(conn, Command(req), works, replyWritten, eventWritten))
    {
      ghost var before := agent.finished;
      var ok := agent.Handle(req, works);
      if agent.finished != before {
        source, message := Some(Socket), req.message;
      }
      var ev := if req.op == FINISH && ok then FinishEvent(req) else CtlMirror(req, ok);
      WriteEvent(ev, eventWritten);
      if !replyWritten {
        conns := conns - {conn};
      }
    }

    method HandleControlLine(frame: Frame, works: bool, written: bool)
      requires !stopped
      modifies this, agent
      ensures View() == Next(old(View()), ControlLine(frame, works, written))
    {
      if frame.Blank? {
        return;
      }
      var ok := false;
      if frame.Command? {
        ghost var before := agent.finished;
        ok := agent.Handle(frame.request, works);
        if agent.finished != before {
          source, message := Some(Host), frame.request.message;
        }
      }
      if written {
        sent := sent + [ReplyLine(ok)];
      } else {
        stopped := true;
      }
    }

    /** Whatever the poll loop meets next. */
    method Dispatch(step: Step)
      modifies this, agent
      ensures View() == Next(old(View()), step)
    {
      if stopped {
        return;
      }
      match step
      case Connect(c) =>
        if |conns| < MAX_CTL_CONNS {
          conns := conns + {c};
        }
      case HangUp(c) => conns := conns - {c};
      case CtlLine(c, frame, works, replyWritten, eventWritten) =>
        if c in conns && frame.Command? {
          HandleCtlLine(c, frame.request, works, replyWritten, eventWritten);
        } else if c in conns && frame.Garbage? && !replyWritten {
          conns := conns - {c};
        }
      case ControlLine(frame, works, written) => HandleControlLine(frame, works, written);
      case FifoLine(parsed, written) => WriteEvent(ParseEvent(parsed), written);
    }

    method RunLoop(steps: seq<Step>)
      modifies this, agent
      ensures View() == Run(old(View()), steps)
    {
      hide Next;
      for i := 0 to |steps|
        invariant View() == Run(old(View()), steps[..i])
      {
        assert steps[..i + 1][..i] == steps[..i];
        Dispatch(steps[i]);
      }
      assert steps[..|steps|] == steps;
    }
  }

  // The host.

  datatype Outcome = Outcome(code: int, message: Option<string>)
  {
    function ExitCode(): int {
      if code == 0 then EXIT_PASS else EXIT_FAIL
    }
  }

  datatype Tally = Tally(verdict: Option<Outcome>, commands: nat, failed: nat)

  const NEW_TALLY := Tally(None, 0, 0)

  function OutcomeOf(ev: GuestEvent): Outcome {
    Outcome(if ev.exit.Some? then ev.exit.value else EXIT_INFRA, if ev.name == "" then None else Some(ev.name))
  }

  /** Fold one line: whether the run must stop, and the tally after it. */
  function Heard(t: Tally, line: Line): (Tally, bool) {
    if line.ReplyLine? then (t, false)
    else if line.event.kind == FINISH then
      (if t.verdict.Some? then t else t.(verdict := Some(OutcomeOf(line.event))), true)
    else if line.event.kind == CTL then
      (t.(commands := t.commands + 1, failed := if line.event.ok == Some(true) then t.failed else t.failed + 1), false)
    else (t, false)
  }

  function HeardAll(t: Tally, lines: seq<Line>): Tally
    decreases |lines|
  {
    if lines == [] then t else Heard(HeardAll(t, lines[..|lines| - 1]), lines[|lines| - 1]).0
  }

  class DriverRun {
    var verdict: Option<Outcome>
    var commands: nat
    var failedCommands: nat

    function View(): Tally
      reads this
    {
      Tally(verdict, commands, failedCommands)
    }

    constructor ()
      ensures View() == NEW_TALLY
    {
      verdict, commands, failedCommands := None, 0, 0;
    }

    /** A line off ttyS1. The first finish decides; it stays decided. */
    method OnAgentLine(line: Line) returns (stop: bool)
      modifies this
      ensures View() == Heard(old(View()), line).0 && stop == Heard(old(View()), line).1
      ensures old(verdict).Some? ==> verdict == old(verdict)
    {
      stop := false;
      match line
      case ReplyLine(_) =>
      case EventLine(_, ev) =>
        if ev.kind == FINISH {
          stop := true;
          if verdict.None? {
            verdict := Some(OutcomeOf(ev));
          }
        } else if ev.kind == CTL {
          commands := commands + 1;
          if ev.ok != Some(true) {
            failedCommands := failedCommands + 1;
          }
        }
    }
  }

  // One verdict per run.

  /** At most one finish event has gone up, and which. */
  ghost predicate OneFinish(sent: seq<Line>, verdict: Option<GuestEvent>) {
    match verdict
    case None => forall i :: 0 <= i < |sent| ==> !IsFinish(sent[i])
    case Some(ev) =>
      exists k :: 0 <= k < |sent| && IsFinish(sent[k]) && sent[k].event == ev
                  && forall i :: 0 <= i < |sent| && i != k ==> !IsFinish(sent[i])
  }

  /** The finish event that has gone up, if any, is the recorded verdict's; there is
      none while nothing is recorded or the record came from the host; and the record
      of a socket's finish has gone up unless ttyS1 died. */
  ghost predicate Told(g: Guest) {
    var ev := GuestEvent(FINISH, g.message, g.finished, None);
    && (g.finished.None? <==> g.source.None?)
    && (g.source != Some(Socket) ==> OneFinish(g.sent, None))
    && (g.source == Some(Socket) ==> OneFinish(g.sent, Some(ev)) || (g.stopped && OneFinish(g.sent, None)))
  }

  lemma SendOther(sent: seq<Line>, line: Line, verdict: Option<GuestEvent>)
    requires OneFinish(sent, verdict) && !IsFinish(line)
    ensures OneFinish(sent + [line], verdict)
  {
    var all := sent + [line];
    if verdict.Some? {
      var k :| 0 <= k < |sent| && IsFinish(sent[k]) && sent[k].event == verdict.value
               && forall i :: 0 <= i < |sent| && i != k ==> !IsFinish(sent[i]);
      assert IsFinish(all[k]) && all[k].event == verdict.value;
    }
  }

  lemma SendFinish(sent: seq<Line>, line: Line)
    requires OneFinish(sent, None) && IsFinish(line)
    ensures OneFinish(sent + [line], Some(line.event))
  {
    var all := sent + [line];
    assert all[|sent|] == line;
  }

  lemma CtlKeepsTold(g: Guest, req: Request, works: bool, written: bool)
    requires Told(g) && !g.stopped
    ensures Told(Forward(Serve(g, req, works, Socket), CtlEvent(g, req, works), written))
  {
    hide OneFinish;
    var line := EventLine(g.seqNo + 1, CtlEvent(g, req, works));
    if req.op == FINISH && g.finished.None? {
      SendFinish(g.sent, line);
    } else {
      var ev := GuestEvent(FINISH, g.message, g.finished, None);
      if g.source == Some(Socket) {
        SendOther(g.sent, line, Some(ev));
      } else {
        SendOther(g.sent, line, None);
      }
    }
  }

  lemma ControlKeepsTold(g: Guest, frame: Frame, works: bool, written: bool)
    requires Told(g) && !g.stopped
    ensures Told(Next(g, ControlLine(frame, works, written)))
  {
    hide OneFinish;
    var ok := frame.Command? && Handled(g.finished, frame.request, works).1;
    var ev := GuestEvent(FINISH, g.message, g.finished, None);
    if g.source == Some(Socket) {
      SendOther(g.sent, ReplyLine(ok), Some(ev));
    } else {
      SendOther(g.sent, ReplyLine(ok), None);
    }
  }

  lemma FifoKeepsTold(g: Guest, parsed: Option<GuestEvent>, written: bool)
    requires Told(g) && !g.stopped
    ensures Told(Next(g, FifoLine(parsed, written)))
  {
    hide OneFinish;
    var line := EventLine(g.seqNo + 1, ParseEvent(parsed));
    var ev := GuestEvent(FINISH, g.message, g.finished, None);
    if g.source == Some(Socket) {
      SendOther(g.sent, line, Some(ev));
    } else {
      SendOther(g.sent, line, None);
    }
  }

  lemma NextKeepsTold(g: Guest, step: Step)
    requires Told(g)
    ensures Told(Next(g, step))
  {
    hide OneFinish;
    if !g.stopped {
      match step
      case CtlLine(c, frame, works, replyWritten, eventWritten) =>
        if c in g.conns && frame.Command? {
          CtlKeepsTold(g, frame.request, works, eventWritten);
        }
      case ControlLine(frame, works, written) => ControlKeepsTold(g, frame, works, written);
      case FifoLine(parsed, written) => FifoKeepsTold(g, parsed, written);
      case _ =>
    }
  }

  lemma {:induction false} RunKeepsTold(steps: seq<Step>)
    ensures Told(Run(NEW_GUEST, steps))
    decreases |steps|
  {
    hide Next;
    if steps != [] {
      RunKeepsTold(steps[..|steps| - 1]);
      NextKeepsTold(Run(NEW_GUEST, steps[..|steps| - 1]), steps[|steps| - 1]);
    }
  }

  /** The host's verdict is the first finish event among the lines. */
  lemma {:induction false} HostHears(lines: seq<Line>, verdict: Option<GuestEvent>)
    requires OneFinish(lines, verdict)
    ensures HeardAll(NEW_TALLY, lines).verdict == if verdict.Some? then Some(OutcomeOf(verdict.value)) else None
    decreases |lines|
  {
    if lines != [] {
      var init, last := lines[..|lines| - 1], lines[|lines| - 1];
      assert lines == init + [last];
      if IsFinish(last) {
        assert lines[|lines| - 1] == last;
        HostHears(init, None);
      } else {
        DropOther(init, last, verdict);
        HostHears(init, verdict);
      }
    }
  }

  lemma DropOther(init: seq<Line>, last: Line, verdict: Option<GuestEvent>)
    requires OneFinish(init + [last], verdict) && !IsFinish(last)
    ensures OneFinish(init, verdict)
  {
    var all := init + [last];
    assert forall i :: 0 <= i < |init| ==> all[i] == init[i];
    if verdict.Some? {
      var k :| 0 <= k < |all| && IsFinish(all[k]) && all[k].event == verdict.value
               && forall i :: 0 <= i < |all| && i != k ==> !IsFinish(all[i]);
      assert all[|init|] == last;
      assert IsFinish(init[k]) && init[k].event == verdict.value;
    }
  }

  /** The step that decides the run: the first finish, on a connection the running
      loop knows, whose event ttyS1 takes. */
  predicate Decides(g: Guest, step: Step) {
    && !g.stopped && g.finished.None?
    && step.CtlLine? && step.conn in g.conns && step.eventWritten
    && step.frame.Command? && step.frame.request.op == FINISH
  }

  predicate DecidedAt(steps: seq<Step>, k: nat) {
    k < |steps| && Decides(Run(NEW_GUEST, steps[..k]), steps[k])
  }

  /** The finish event that went up, seen from the steps. */
  function Decision(steps: seq<Step>): Option<Request>
    decreases |steps|
  {
    if steps == [] then None
    else
      var init, last := steps[..|steps| - 1], steps[|steps| - 1];
      if Decides(Run(NEW_GUEST, init), last) then Some(last.frame.request) else Decision(init)
  }

  ghost predicate Carried(g: Guest, decision: Option<Request>) {
    && OneFinish(g.sent, if decision.Some? then Some(FinishEvent(decision.value)) else None)
    && (decision.Some? ==> g.finished == Some(VerdictOf(decision.value)))
  }

  lemma SendMaybe(g: Guest, line: Line, written: bool, decision: Option<Request>)
    requires Carried(g, decision) && !IsFinish(line)
    ensures OneFinish(if written then g.sent + [line] else g.sent,
                      if decision.Some? then Some(FinishEvent(decision.value)) else None)
  {
    hide OneFinish;
    SendOther(g.sent, line, if decision.Some? then Some(FinishEvent(decision.value)) else None);
  }

  lemma NextCarried(g: Guest, step: Step, decision: Option<Request>)
    requires Carried(g, decision)
    ensures Decides(g, step) ==> decision.None?
    ensures Carried(Next(g, step), if Decides(g, step) then Some(step.frame.request) else decision)
  {
    hide OneFinish;
    if !g.stopped {
      match step
      case CtlLine(c, frame, works, replyWritten, eventWritten) =>
        if c in g.conns && frame.Command? {
          var line := EventLine(g.seqNo + 1, CtlEvent(g, frame.request, works));
          if frame.request.op == FINISH && g.finished.None? {
            SendFinish(g.sent, line);
          } else {
            SendMaybe(g, line, eventWritten, decision);
          }
        }
      case ControlLine(frame, works, written) =>
        SendMaybe(g, ReplyLine(frame.Command? && Handled(g.finished, frame.request, works).1), written, decision);
      case FifoLine(parsed, written) =>
        SendMaybe(g, EventLine(g.seqNo + 1, ParseEvent(parsed)), written, decision);
      case _ =>
    }
  }

  lemma {:induction false} RunCarried(steps: seq<Step>)
    ensures Carried(Run(NEW_GUEST, steps), Decision(steps))
    decreases |steps|
  {
    hide Next, Decides;
    if steps != [] {
      var init := steps[..|steps| - 1];
      RunCarried(init);
      NextCarried(Run(NEW_GUEST, init), steps[|steps| - 1], Decision(init));
    }
  }

  /** There is a decision exactly when some step decides, and it is that step's. */
  lemma {:induction false} DecisionIsAStep(steps: seq<Step>)
    ensures Decision(steps).Some? <==> exists k: nat :: DecidedAt(steps, k)
    ensures forall k: nat :: DecidedAt(steps, k) ==> Decision(steps) == Some(steps[k].frame.request)
    decreases |steps|
  {
    hide Decides, Run;
    if steps != [] {
      var n := |steps| - 1;
      var init := steps[..n];
      DecisionIsAStep(init);
      assert forall k: nat :: k < n ==> steps[..k] == init[..k] && steps[k] == init[k];
      assert forall k: nat :: k < n ==> (DecidedAt(steps, k) <==> DecidedAt(init, k));
      OnlyOnce(init, steps[n]);
      if Decision(steps).Some? {
        if Decides(Run(NEW_GUEST, init), steps[n]) {
          assert DecidedAt(steps, n);
        } else {
          var k: nat :| DecidedAt(init, k);
          assert DecidedAt(steps, k);
        }
      }
    }
  }

  lemma OnlyOnce(init: seq<Step>, last: Step)
    ensures Decides(Run(NEW_GUEST, init), last) ==> Decision(init).None?
  {
    hide Run, Decision;
    RunCarried(init);
    NextCarried(Run(NEW_GUEST, init), last, Decision(init));
  }

  /** What a finish asks for. */
  function OutcomeFor(req: Request): Outcome {
    Outcome(match req.exit case Some(code) => code case None => 0,
            match req.message case "" => None case _ => Some(req.message))
  }

  /** Over every interleaving of connections, disconnects, commands and workload lines:
      the host gets a verdict if and only if some step decides, and then it is that
      step's (no exit code means zero, no message means none), it is the agent's record,
      and the run passes iff it is zero. */
  lemma OneVerdict(steps: seq<Step>)
    ensures var g := Run(NEW_GUEST, steps);
            var host := HeardAll(NEW_TALLY, g.sent).verdict;
            && (host.Some? <==> exists k: nat :: DecidedAt(steps, k))
            && (forall k: nat :: DecidedAt(steps, k) ==> host == Some(OutcomeFor(steps[k].frame.request)))
            && (host.Some? ==> g.finished == Some(host.value.code))
            && (host.Some? ==> (host.value.ExitCode() == 0 <==> g.finished == Some(0)))
  {
    hide Run, HeardAll, OneFinish, DecidedAt;
    RunCarried(steps);
    DecisionIsAStep(steps);
    var d := Decision(steps);
    HostHears(Run(NEW_GUEST, steps).sent, if d.Some? then Some(FinishEvent(d.value)) else None);
  }

  /** Once the host has a verdict, no further line changes it. */
  lemma {:induction false} VerdictStays(lines: seq<Line>, more: seq<Line>)
    ensures HeardAll(NEW_TALLY, lines).verdict.Some? ==>
              HeardAll(NEW_TALLY, lines + more).verdict == HeardAll(NEW_TALLY, lines).verdict
    decreases |more|
  {
    if more == [] {
      assert lines + more == lines;
    } else {
      assert (lines + more)[..|lines + more| - 1] == lines + more[..|more| - 1];
      VerdictStays(lines, more[..|more| - 1]);
    }
  }

  /** A finish over the host's own line is recorded and never reaches the host as a
      verdict; a container's later finish is refused, and the host counts it as a
      command that failed. */
  lemma HostFinishIsSilent(exit: int, later: Request)
    requires later.op == FINISH
    ensures var steps := [ControlLine(Command(Request(FINISH, Some(exit), "")), true, true), Connect(7),
                          CtlLine(7, Command(later), true, true, true)];
            var g := Run(NEW_GUEST, steps);
            && g.finished == Some(exit) && HeardAll(NEW_TALLY, g.sent) == Tally(None, 1, 1)
  {
    var a := ControlLine(Command(Request(FINISH, Some(exit), "")), true, true);
    var b, c := Connect(7), CtlLine(7, Command(later), true, true, true);
    var g := NEW_GUEST.(finished := Some(exit), source := Some(Host), sent := [ReplyLine(true)]);
    RunThree(a, b, c);
    assert Next(NEW_GUEST, a) == g;
    assert Next(g, b) == g.(conns := {7});
    RefusedFinish(g.(conns := {7}), later);
    hide Run, Next;
    TwoLines(ReplyLine(true), EventLine(1, CtlMirror(later, false)));
  }

  lemma RunThree(a: Step, b: Step, c: Step)
    ensures Run(NEW_GUEST, [a, b, c]) == Next(Next(Next(NEW_GUEST, a), b), c)
  {
    hide Next;
    assert [a, b, c][..2] == [a, b] && [a, b][..1] == [a] && [a][..0] == [];
    assert Run(NEW_GUEST, [a]) == Next(NEW_GUEST, a);
    assert Run(NEW_GUEST, [a, b]) == Next(Next(NEW_GUEST, a), b);
  }

  lemma RefusedFinish(g: Guest, later: Request)
    requires later.op == FINISH && g.finished.Some? && !g.stopped && g.conns == {7}
    ensures var n := Next(g, CtlLine(7, Command(later), true, true, true));
            n.finished == g.finished && n.sent == g.sent + [EventLine(g.seqNo + 1, CtlMirror(later, false))]
  {
  }

  lemma TwoLines(a: Line, b: Line)
    ensures HeardAll(NEW_TALLY, [a, b]) == Heard(Heard(NEW_TALLY, a).0, b).0
  {
    hide Heard;
    assert [a, b][..1] == [a] && [a][..0] == [];
    assert HeardAll(NEW_TALLY, [a]) == Heard(NEW_TALLY, a).0;
  }

  // The tally, the numbering and the connections.

  predicate Mirrors(line: Line, failed: bool) {
    line.EventLine? && line.event.kind == CTL && (failed ==> line.event.ok != Some(true))
  }

  /** The places of the lines that mirror a command, or a command that failed. */
  function MirrorsIn(lines: seq<Line>, failed: bool): set<nat> {
    set k: nat | k < |lines| && Mirrors(lines[k], failed)
  }

  /** The host counts every command mirrored to it, and every one that failed. */
  lemma {:induction false} TallyIs(lines: seq<Line>)
    ensures HeardAll(NEW_TALLY, lines).commands == |MirrorsIn(lines, false)|
    ensures HeardAll(NEW_TALLY, lines).failed == |MirrorsIn(lines, true)|
    decreases |lines|
  {
    if lines != [] {
      TallyIs(lines[..|lines| - 1]);
      OneMoreMirror(lines, false);
      OneMoreMirror(lines, true);
      hide MirrorsIn;
    }
  }

  lemma OneMoreMirror(lines: seq<Line>, failed: bool)
    requires lines != []
    ensures |MirrorsIn(lines, failed)| == |MirrorsIn(lines[..|lines| - 1], failed)|
                                          + if Mirrors(lines[|lines| - 1], failed) then 1 else 0
  {
    hide Mirrors;
    var n := |lines| - 1;
    var before := MirrorsIn(lines[..n], failed);
    assert MirrorsIn(lines, failed) == if Mirrors(lines[n], failed) then before + {n} else before;
  }

  function Events(lines: seq<Line>): nat {
    if lines == [] then 0 else Events(lines[..|lines| - 1]) + if lines[|lines| - 1].EventLine? then 1 else 0
  }

  ghost predicate InSequence(sent: seq<Line>) {
    forall k :: 0 <= k < |sent| && sent[k].EventLine? ==> sent[k].seqNo == Events(sent[..k + 1])
  }

  /** The events are numbered from one without a gap; the counter is ahead of them only
      when the last was not taken, and the loop has ended. */
  ghost predicate Numbered(g: Guest) {
    && InSequence(g.sent) && |g.conns| <= MAX_CTL_CONNS
    && Events(g.sent) <= g.seqNo <= Events(g.sent) + (if g.stopped then 1 else 0)
  }

  lemma SendNumbered(sent: seq<Line>, line: Line)
    requires InSequence(sent) && (line.EventLine? ==> line.seqNo == Events(sent) + 1)
    ensures InSequence(sent + [line])
    ensures Events(sent + [line]) == Events(sent) + if line.EventLine? then 1 else 0
  {
    var all := sent + [line];
    assert all[..|sent|] == sent && all[..|sent| + 1] == all;
    forall k | 0 <= k < |all| && all[k].EventLine? ensures all[k].seqNo == Events(all[..k + 1]) {
      if k < |sent| {
        assert all[..k + 1] == sent[..k + 1];
      }
    }
  }

  lemma ForwardNumbered(g: Guest, ev: GuestEvent, written: bool)
    requires Numbered(g) && !g.stopped
    ensures Numbered(Forward(g, ev, written))
  {
    hide Events, InSequence;
    SendNumbered(g.sent, EventLine(g.seqNo + 1, ev));
  }

  lemma NextKeepsNumbered(g: Guest, step: Step)
    requires Numbered(g)
    ensures Numbered(Next(g, step))
  {
    hide Numbered, Handled, CtlEvent, ParseEvent, Forward, Serve, Retire;
    if !g.stopped {
      match step
      case Connect(c) => ConnsNumbered(g, c);
      case HangUp(c) => ConnsNumbered(g, c);
      case CtlLine(c, frame, works, replyWritten, eventWritten) =>
        RetireNumbered(g, c, replyWritten);
        if frame.Command? {
          CtlNumbered(g, c, frame.request, works, replyWritten, eventWritten);
        }
      case ControlLine(frame, works, written) =>
        var ok := frame.Command? && Handled(g.finished, frame.request, works).1;
        ReplyNumbered(g, ok, written);
        if frame.Command? {
          ServeNumbered(g, frame.request, works, Host);
          ReplyNumbered(Serve(g, frame.request, works, Host), ok, written);
        }
      case FifoLine(parsed, written) => ForwardNumbered(g, ParseEvent(parsed), written);
    }
  }

  lemma ConnsNumbered(g: Guest, c: nat)
    requires Numbered(g)
    ensures |g.conns| < MAX_CTL_CONNS ==> Numbered(g.(conns := g.conns + {c}))
    ensures Numbered(g.(conns := g.conns - {c}))
  {
    hide Events, InSequence;
    OneMore(g.conns, c);
    Fewer(g.conns, c);
  }

  lemma ServeNumbered(g: Guest, req: Request, works: bool, source: Source)
    requires Numbered(g)
    ensures Numbered(Serve(g, req, works, source)) && Serve(g, req, works, source).stopped == g.stopped
  {
    hide Events, InSequence, Handled;
  }

  lemma ReplyNumbered(g: Guest, ok: bool, written: bool)
    requires Numbered(g) && !g.stopped
    ensures Numbered(if written then g.(sent := g.sent + [ReplyLine(ok)]) else g.(stopped := true))
  {
    hide Events, InSequence;
    SendNumbered(g.sent, ReplyLine(ok));
  }

  lemma CtlNumbered(g: Guest, c: nat, req: Request, works: bool, replyWritten: bool, eventWritten: bool)
    requires Numbered(g) && !g.stopped
    ensures Numbered(Retire(Forward(Serve(g, req, works, Socket), CtlEvent(g, req, works), eventWritten),
                            c, replyWritten))
  {
    hide Numbered, Handled, CtlEvent, Forward, Retire, Serve;
    var served := Serve(g, req, works, Socket);
    ServeNumbered(g, req, works, Socket);
    ForwardNumbered(served, CtlEvent(g, req, works), eventWritten);
    RetireNumbered(Forward(served, CtlEvent(g, req, works), eventWritten), c, replyWritten);
  }

  lemma RetireNumbered(g: Guest, c: nat, alive: bool)
    requires Numbered(g)
    ensures Numbered(Retire(g, c, alive))
  {
    hide Events, InSequence;
    Fewer(g.conns, c);
  }

  lemma OneMore(conns: set<nat>, c: nat)
    ensures |conns + {c}| <= |conns| + 1
  {
    assert c in conns ==> conns + {c} == conns;
  }

  lemma Fewer(conns: set<nat>, c: nat)
    ensures |conns - {c}| <= |conns|
  {
  }

  /** In every run: the host sees numbers that start at one and skip nothing, and no
      more connections than the limit are open. */
  lemma {:induction false} RunNumbered(steps: seq<Step>)
    ensures Numbered(Run(NEW_GUEST, steps))
    decreases |steps|
  {
    hide Next;
    if steps != [] {
      RunNumbered(steps[..|steps| - 1]);
      NextKeepsNumbered(Run(NEW_GUEST, steps[..|steps| - 1]), steps[|steps| - 1]);
    }
  }
}
