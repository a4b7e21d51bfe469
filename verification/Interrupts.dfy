/** Interrupt priority in the local APIC, on sets of vectors: what may be injected,
    and why interrupts nest as a stack. */
module Interrupts {
  import opened Prelude
  import opened VecBits

  /** The priority class of a vector: its upper four bits. */
  function Class(v: Vector): Vector {
    v & 0xf0
  }

  lemma ClassOrder(u: Vector, v: Vector)
    ensures u <= v ==> Class(u) <= Class(v)
    ensures Class(u) < Class(v) ==> u < v
    ensures Class(v) > 0 <==> v >= 16
    ensures Class(Class(v)) == Class(v)
    ensures Class(u) < Class(v) <==> u / 16 < v / 16
  {
  }

  /** The highest vector of `s` at or below `v`, or zero when there is none. */
  function HighestBelow(s: set<Vector>, v: Vector): Vector
    decreases v
  {
    if v in s || v == 0 then v else HighestBelow(s, v - 1)
  }

  function HighestOrZero(s: set<Vector>): Vector {
    HighestBelow(s, 255)
  }

  lemma {:induction false} HighestBelowBounds(s: set<Vector>, v: Vector, u: Vector)
    requires u in s && u <= v
    ensures u <= HighestBelow(s, v) && HighestBelow(s, v) in s
    decreases v
  {
    if v !in s {
      SmallerBit(u, v);
      HighestBelowBounds(s, v - 1, u);
    }
  }

  lemma {:induction false} HighestBelowMember(s: set<Vector>, v: Vector)
    ensures HighestBelow(s, v) != 0 ==> HighestBelow(s, v) in s
    decreases v
  {
    if v !in s && v != 0 {
      SmallerBit(v, v);
      HighestBelowMember(s, v - 1);
    }
  }

  lemma HighestBounds(s: set<Vector>)
    ensures HighestOrZero(s) != 0 ==> HighestOrZero(s) in s
    ensures forall u :: u in s ==> u <= HighestOrZero(s) && HighestOrZero(s) in s
  {
    hide HighestBelow;
    HighestBelowMember(s, 255);
    forall u | u in s ensures u <= HighestOrZero(s) && HighestOrZero(s) in s {
      HighestBelowBounds(s, 255, u);
    }
  }

  lemma {:induction false} HighestOfNone(v: Vector)
    ensures HighestBelow({}, v) == 0
    decreases v
  {
    if v != 0 {
      SmallerBit(v, v);
      HighestOfNone(v - 1);
    }
  }

  lemma HighestIs(s: set<Vector>, v: Vector)
    requires v in s && forall u :: u in s ==> u <= v
    ensures HighestOrZero(s) == v
  {
    hide HighestOrZero;
    HighestBounds(s);
  }

  /** What priority decisions depend on. */
  datatype Apic = Apic(enabled: bool, tpr: Vector, irr: set<Vector>, isr: set<Vector>)

  /** The processor priority: the task priority, or the class in service if higher. */
  function Ppr(a: Apic): Vector {
    var isrv := HighestOrZero(a.isr);
    if Class(a.tpr) >= Class(isrv) then a.tpr else Class(isrv)
  }

  function Deliverable(a: Apic): Option<Vector> {
    var irrv := HighestOrZero(a.irr);
    if !a.enabled || irrv == 0 then None
    else if Class(irrv) > Class(Ppr(a)) then Some(irrv)
    else None
  }

  function Raise(a: Apic, v: Vector): Apic {
    a.(irr := a.irr + {v})
  }

  function Inject(a: Apic, v: Vector): Apic {
    a.(irr := a.irr - {v}, isr := a.isr + {v})
  }

  function Eoi(a: Apic): Apic {
    a.(isr := a.isr - {HighestOrZero(a.isr)})
  }

  /** An injectable vector is pending, and above the task priority and everything
      in service. */
  lemma InjectedIsHigher(a: Apic)
    requires Deliverable(a).Some?
    ensures var v := Deliverable(a).value;
            && v in a.irr && v >= 16 && Class(v) > Class(a.tpr)
            && (forall u :: u in a.irr ==> u <= v)
            && (forall u :: u in a.isr ==> Class(u) < Class(v))
  {
    hide HighestOrZero;
    var v, isrv := Deliverable(a).value, HighestOrZero(a.isr);
    HighestBounds(a.irr);
    HighestBounds(a.isr);
    PprAbove(a.tpr, isrv, v);
    forall u | u in a.isr ensures Class(u) < Class(v) {
      LowerClass(u, isrv, v);
    }
  }

  /** What may be injected: of an enabled APIC, the highest pending vector, exactly when
      its upper four bits are above those of the task priority and of everything in
      service. */
  lemma DeliverableIff(a: Apic, v: Vector)
    ensures Deliverable(a) == Some(v) <==>
            && a.enabled && v in a.irr && (forall u :: u in a.irr ==> u <= v)
            && v / 16 > a.tpr / 16 && forall u :: u in a.isr ==> u / 16 < v / 16
  {
    hide HighestOrZero, Class, Deliverable;
    forall u ensures Class(u) < Class(v) <==> u / 16 < v / 16 {
      ClassOrder(u, v);
    }
    if Deliverable(a) == Some(v) {
      EnabledDelivers(a);
      InjectedIsHigher(a);
    } else if a.enabled && v in a.irr && (forall u :: u in a.irr ==> u <= v)
              && v / 16 > a.tpr / 16 && forall u :: u in a.isr ==> u / 16 < v / 16 {
      HighestIs(a.irr, v);
      HighestBounds(a.isr);
      HigherIsDelivered(a, v);
    }
  }

  lemma EnabledDelivers(a: Apic)
    ensures Deliverable(a).Some? ==> a.enabled
  {
  }

  lemma HigherIsDelivered(a: Apic, v: Vector)
    requires a.enabled && HighestOrZero(a.irr) == v && Class(a.tpr) < Class(v)
    requires HighestOrZero(a.isr) != 0 ==> Class(HighestOrZero(a.isr)) < Class(v)
    ensures Deliverable(a) == Some(v)
  {
    hide HighestOrZero;
    NothingIsLow(a.tpr, v);
  }

  lemma NothingIsLow(tpr: Vector, v: Vector)
    requires Class(tpr) < Class(v)
    ensures v != 0 && Class(0) < Class(v)
    ensures forall u: Vector {:trigger Class(Class(u))} :: Class(Class(u)) == Class(u)
  {
  }

  lemma PprAbove(tpr: Vector, isrv: Vector, v: Vector)
    requires Class(v) > Class(if Class(tpr) >= Class(isrv) then tpr else Class(isrv))
    ensures v >= 16 && Class(v) > Class(tpr) && Class(v) > Class(isrv)
  {
  }

  lemma LowerClass(u: Vector, isrv: Vector, v: Vector)
    requires u <= isrv && Class(isrv) < Class(v)
    ensures Class(u) < Class(v)
  {
  }

  // Nesting.

  datatype ApicStep =
    | RaiseVector(v: Vector)
    | WriteTpr(tpr: Vector)
    | WriteEnable(on: bool)
    | InjectIfDeliverable
    | EndOfInterrupt

  /** The APIC with the injected, unretired vectors in injection order. */
  datatype Nest = Nest(apic: Apic, stack: seq<Vector>)

  function NextNest(n: Nest, step: ApicStep): Nest {
    match step
    case RaiseVector(v) => n.(apic := Raise(n.apic, v))
    case WriteTpr(t) => n.(apic := n.apic.(tpr := t))
    case WriteEnable(on) => n.(apic := n.apic.(enabled := on))
    case InjectIfDeliverable =>
      (match Deliverable(n.apic)
       case None => n
       case Some(v) => Nest(Inject(n.apic, v), n.stack + [v]))
    case EndOfInterrupt =>
      if n.stack == [] then n.(apic := Eoi(n.apic))
      else Nest(Eoi(n.apic), n.stack[..|n.stack| - 1])
  }

  function RunNest(n: Nest, steps: seq<ApicStep>): Nest
    decreases |steps|
  {
    if steps == [] then n else NextNest(RunNest(n, steps[..|steps| - 1]), steps[|steps| - 1])
  }

  /** ISR holds exactly the stack, one vector per class, classes rising to the top. */
  ghost predicate NestOk(n: Nest) {
    && (forall v :: v in n.apic.isr <==> v in n.stack)
    && (forall i, j :: 0 <= i < j < |n.stack| ==> Class(n.stack[i]) < Class(n.stack[j]))
  }

  lemma TopIsHighest(n: Nest)
    requires NestOk(n) && n.stack != []
    ensures HighestOrZero(n.apic.isr) == n.stack[|n.stack| - 1]
  {
    var top := n.stack[|n.stack| - 1];
    assert top in n.apic.isr;
    forall u | u in n.apic.isr ensures u <= top {
      var i :| 0 <= i < |n.stack| && n.stack[i] == u;
      ClassOrder(u, top);
    }
    HighestIs(n.apic.isr, top);
  }

  lemma InjectKeepsNest(n: Nest)
    requires NestOk(n) && Deliverable(n.apic).Some?
    ensures NestOk(NextNest(n, InjectIfDeliverable))
  {
    hide Class, Deliverable;
    InjectedIsHigher(n.apic);
    var v := Deliverable(n.apic).value;
    var m := Nest(Inject(n.apic, v), n.stack + [v]);
    forall i, j | 0 <= i < j < |m.stack| ensures Class(m.stack[i]) < Class(m.stack[j]) {
      if j == |n.stack| {
        assert m.stack[i] in n.stack;
      }
    }
  }

  lemma EoiKeepsNest(n: Nest)
    requires NestOk(n)
    ensures NestOk(NextNest(n, EndOfInterrupt))
  {
    if n.stack != [] {
      TopIsHighest(n);
      PopStack(n, Eoi(n.apic).isr);
    }
  }

  lemma PopStack(n: Nest, isr: set<Vector>)
    requires NestOk(n) && n.stack != [] && isr == n.apic.isr - {n.stack[|n.stack| - 1]}
    ensures NestOk(Nest(n.apic.(isr := isr), n.stack[..|n.stack| - 1]))
  {
    hide Class;
    var k := |n.stack| - 1;
    var rest := n.stack[..k];
    forall v ensures v in isr <==> v in rest {
      if v in n.stack {
        var i :| 0 <= i < |n.stack| && n.stack[i] == v;
        if i < k {
          assert Class(n.stack[i]) < Class(n.stack[k]);
          assert rest[i] == v;
        }
      }
    }
  }

  lemma NestKeeps(n: Nest, step: ApicStep)
    requires NestOk(n)
    ensures NestOk(NextNest(n, step))
  {
    hide Class, Deliverable;
    match step
    case InjectIfDeliverable =>
      if Deliverable(n.apic).Some? {
        InjectKeepsNest(n);
      }
    case EndOfInterrupt => EoiKeepsNest(n);
    case _ =>
  }

  lemma {:induction false} RunNestKeeps(n: Nest, steps: seq<ApicStep>)
    requires NestOk(n)
    ensures NestOk(RunNest(n, steps))
    decreases |steps|
  {
    hide NextNest, NestOk;
    if steps != [] {
      RunNestKeeps(n, steps[..|steps| - 1]);
      NestKeeps(RunNest(n, steps[..|steps| - 1]), steps[|steps| - 1]);
    }
  }

  /** What the invariant says to a reader: the next injection outranks everything
      in service, ISR has one vector per class, and EOI retires the top. */
  ghost predicate NestsAsStack(n: Nest) {
    && (Deliverable(n.apic).Some? ==>
          forall u :: u in n.apic.isr ==> Class(u) < Class(Deliverable(n.apic).value))
    && (forall u, v :: u in n.apic.isr && v in n.apic.isr && Class(u) == Class(v) ==> u == v)
    && (n.stack != [] ==>
          && n.stack[|n.stack| - 1] in n.apic.isr
          && Eoi(n.apic).isr == n.apic.isr - {n.stack[|n.stack| - 1]})
    && (n.stack == [] ==> forall v :: v !in n.apic.isr)
  }

  lemma NestMeans(n: Nest)
    requires NestOk(n)
    ensures NestsAsStack(n)
  {
    hide Class, Deliverable, HighestOrZero;
    if Deliverable(n.apic).Some? {
      InjectedIsHigher(n.apic);
    }
    if n.stack != [] {
      TopIsHighest(n);
    }
    OnePerClass(n);
  }

  /** In every run of raises, priority changes, injections and EOIs. */
  lemma InterruptsNest(start: Apic, steps: seq<ApicStep>)
    requires start.isr == {}
    ensures NestsAsStack(RunNest(Nest(start, []), steps))
  {
    hide RunNest, NestsAsStack;
    RunNestKeeps(Nest(start, []), steps);
    NestMeans(RunNest(Nest(start, []), steps));
  }

  lemma OnePerClass(n: Nest)
    requires NestOk(n)
    ensures forall u, v :: u in n.apic.isr && v in n.apic.isr && Class(u) == Class(v) ==> u == v
  {
    forall u, v | u in n.apic.isr && v in n.apic.isr && Class(u) == Class(v) ensures u == v {
      var i :| 0 <= i < |n.stack| && n.stack[i] == u;
      var j :| 0 <= j < |n.stack| && n.stack[j] == v;
      StrictOrder(Class(u), Class(v));
    }
  }

  lemma StrictOrder(a: Vector, b: Vector)
    ensures a == b ==> !(a < b) && !(b < a)
  {
  }

  // Draining.

  /** Repeat inject-then-EOI until nothing is deliverable. */
  function Drain(a: Apic): seq<Vector>
    decreases |a.irr|
  {
    match Deliverable(a)
    case None => []
    case Some(v) =>
      InjectedIsHigher(a);
      if v in a.irr then [v] + Drain(Eoi(Inject(a, v))) else []
  }

  /** One round of inject-then-EOI on an idle APIC takes the highest vector out. */
  lemma DrainRound(a: Apic)
    requires a.enabled && Class(a.tpr) == 0 && a.isr == {}
    ensures var top := HighestOrZero(a.irr);
            if top >= 16
            then Deliverable(a) == Some(top) && Eoi(Inject(a, top)) == a.(irr := a.irr - {top})
            else Deliverable(a) == None
  {
    var top := HighestOrZero(a.irr);
    HighestOfNone(255);
    ClassOrder(top, top);
    HighestIs({top}, top);
    hide HighestOrZero;
    assert a.isr + {top} == {top} && {top} - {top} == {};
  }

  /** From an enabled APIC with nothing in service and task priority class zero,
      every pending vector of 16 or more is delivered exactly once, highest first. */
  lemma {:induction false} DrainDelivers(a: Apic)
    requires a.enabled && Class(a.tpr) == 0 && a.isr == {}
    ensures forall v :: v in Drain(a) <==> v in a.irr && v >= 16
    ensures forall i, j :: 0 <= i < j < |Drain(a)| ==> Drain(a)[i] > Drain(a)[j]
    decreases |a.irr|
  {
    hide Deliverable, HighestOrZero, Inject, Eoi, Class;
    var top := HighestOrZero(a.irr);
    DrainRound(a);
    HighestBounds(a.irr);
    ZeroIsLow(top);
    if top >= 16 {
      var b := a.(irr := a.irr - {top});
      DrainDelivers(b);
      DrainFirst(a, top);
      Descends(top, Drain(b), b.irr);
    } else {
      NothingHigh(a.irr, top);
    }
  }

  lemma ZeroIsLow(top: Vector)
    ensures top >= 16 ==> top != 0
  {
  }

  lemma NothingHigh(irr: set<Vector>, top: Vector)
    requires top < 16 && forall u :: u in irr ==> u <= top
    ensures forall u :: u in irr ==> u < 16
  {
  }

  lemma DrainFirst(a: Apic, top: Vector)
    requires Deliverable(a) == Some(top) && top in a.irr
    ensures Drain(a) == [top] + Drain(Eoi(Inject(a, top)))
  {
    hide Deliverable, Inject, Eoi;
  }

  lemma Descends(top: Vector, rest: seq<Vector>, below: set<Vector>)
    requires forall v :: v in rest <==> v in below && v >= 16
    requires forall v :: v in below ==> v <= top
    requires top !in below
    requires forall i, j :: 0 <= i < j < |rest| ==> rest[i] > rest[j]
    ensures var all := [top] + rest;
            forall i, j :: 0 <= i < j < |all| ==> all[i] > all[j]
  {
    var all := [top] + rest;
    forall i, j | 0 <= i < j < |all| ensures all[i] > all[j] {
      if i == 0 {
        assert rest[j - 1] in rest;
        Below(rest[j - 1], top);
      }
    }
  }

  lemma Below(u: Vector, top: Vector)
    ensures u <= top && u != top ==> top > u
  {
  }
}
