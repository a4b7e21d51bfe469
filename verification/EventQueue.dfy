/** The virtual-time event queue: events by deadline, ties in insertion order. */
module EventQueue {
  import opened Prelude

  datatype Event<T> = Event(deadline: u64, payload: T, seqNo: nat)

  predicate Earlier<T>(a: Event<T>, b: Event<T>) {
    a.deadline < b.deadline || (a.deadline == b.deadline && a.seqNo < b.seqNo)
  }

  /** The pending events, listed in insertion order. */
  ghost predicate InOrder<T>(events: seq<Event<T>>) {
    forall i, j :: 0 <= i < j < |events| ==> events[i].seqNo < events[j].seqNo
  }

  ghost predicate IsFirst<T>(events: seq<Event<T>>, m: nat) {
    && m < |events|
    && forall i :: 0 <= i < |events| && i != m ==> Earlier(events[m], events[i])
  }

  /** The event the heap has at its root. */
  method Root<T>(events: seq<Event<T>>) returns (m: nat)
    requires InOrder(events) && events != []
    ensures IsFirst(events, m)
  {
    m := 0;
    for k := 1 to |events|
      invariant m < k && IsFirst(events[..k], m)
    {
      if Earlier(events[k], events[m]) {
        m := k;
      }
    }
    assert events[..|events|] == events;
  }

  function Without<T>(events: seq<Event<T>>, m: nat): (rest: seq<Event<T>>)
    requires m < |events|
    ensures |rest| == |events| - 1
  {
    events[..m] + events[m + 1..]
  }

  ghost predicate NoneDue<T>(events: seq<Event<T>>, now: nat) {
    forall e :: e in events ==> now < e.deadline
  }

  class EventQueue<T> {
    var heap: seq<Event<T>>
    var nextSeq: nat

    ghost predicate Valid()
      reads this
    {
      && InOrder(heap)
      && forall e :: e in heap ==> e.seqNo < nextSeq
    }

    constructor ()
      ensures Valid() && heap == [] && nextSeq == 0
    {
      heap, nextSeq := [], 0;
    }

    method Push(deadline: u64, payload: T)
      requires Valid()
      modifies this
      ensures Valid() && nextSeq == old(nextSeq) + 1
      ensures heap == old(heap) + [Event(deadline, payload, old(nextSeq))]
    {
      heap := heap + [Event(deadline, payload, nextSeq)];
      nextSeq := nextSeq + 1;
    }

    /** The minimum over everything pending. */
    method PeekDeadline() returns (d: Option<u64>)
      requires Valid()
      ensures d.None? <==> heap == []
      ensures d.Some? ==> exists e :: e in heap && e.deadline == d.value
      ensures d.Some? ==> forall e :: e in heap ==> d.value <= e.deadline
    {
      if heap == [] {
        return None;
      }
      var m := Root(heap);
      return Some(heap[m].deadline);
    }

    /** Take out the earliest event if it is due; without one, nothing is due. */
    method PopDue(now: u64) returns (e: Option<Event<T>>)
      requires Valid()
      modifies this`heap
      ensures Valid()
      ensures e.None? ==> heap == old(heap) && NoneDue(heap, now)
      ensures e.Some? ==> e.value.deadline <= now
      ensures e.Some? ==> exists m: nat :: IsFirst(old(heap), m) && e.value == old(heap)[m]
                                           && heap == Without(old(heap), m)
      ensures e.Some? ==> |heap| < |old(heap)|
    {
      if heap == [] {
        return None;
      }
      var m := Root(heap);
      if heap[m].deadline <= now {
        e := Some(heap[m]);
        heap := Without(heap, m);
      } else {
        e := None;
      }
    }

    method Clear()
      requires Valid()
      modifies this`heap
      ensures Valid() && heap == []
    {
      heap := [];
    }
  }

  // Draining everything due at a loop boundary.

  /** The events still pending after everything due is gone, in insertion order. */
  function Later<T>(events: seq<Event<T>>, now: nat): seq<Event<T>> {
    if events == [] then []
    else (if events[0].deadline > now then [events[0]] else []) + Later(events[1..], now)
  }

  ghost predicate Sorted<T>(fired: seq<Event<T>>) {
    forall i, j :: 0 <= i < j < |fired| ==> Earlier(fired[i], fired[j])
  }

  /** What a drain owes: it fires all and only the due events, each once, earliest
      first and ties in insertion order, and leaves the rest as it was. */
  ghost predicate Drained<T>(events: seq<Event<T>>, now: nat, fired: seq<Event<T>>, rest: seq<Event<T>>) {
    && Sorted(fired)
    && (forall e :: e in fired ==> e.deadline <= now)
    && NoneDue(rest, now)
    && rest == Later(events, now)
    && multiset(fired) + multiset(rest) == multiset(events)
  }

  lemma {:induction false} LaterAppend<T>(a: seq<Event<T>>, b: seq<Event<T>>, now: nat)
    ensures Later(a + b, now) == Later(a, now) + Later(b, now)
  {
    if a == [] {
      assert a + b == b;
    } else {
      assert (a + b)[1..] == a[1..] + b;
      LaterAppend(a[1..], b, now);
    }
  }

  lemma {:induction false} LaterOfNoneDue<T>(events: seq<Event<T>>, now: nat)
    requires NoneDue(events, now)
    ensures Later(events, now) == events
  {
    if events != [] {
      LaterOfNoneDue(events[1..], now);
    }
  }

  lemma WithoutDue<T>(events: seq<Event<T>>, m: nat, now: nat)
    requires m < |events| && events[m].deadline <= now
    ensures Later(Without(events, m), now) == Later(events, now)
    ensures multiset(events) == multiset{events[m]} + multiset(Without(events, m))
  {
    var a, b := events[..m], events[m + 1..];
    assert events == a + ([events[m]] + b);
    LaterAppend(a, [events[m]] + b, now);
    LaterAppend([events[m]], b, now);
    LaterAppend(a, b, now);
  }

  lemma WithoutFirst<T>(events: seq<Event<T>>, m: nat)
    requires InOrder(events) && IsFirst(events, m)
    ensures InOrder(Without(events, m))
    ensures forall e :: e in Without(events, m) ==> e in events && Earlier(events[m], e)
  {
  }

  /** One turn of the drain loop. */
  lemma DrainTurn<T>(before: seq<Event<T>>, m: nat, fired: seq<Event<T>>, now: nat)
    requires InOrder(before) && IsFirst(before, m) && before[m].deadline <= now
    requires Sorted(fired) && forall e, p :: e in fired && p in before ==> Earlier(e, p)
    ensures Sorted(fired + [before[m]])
    ensures forall e, p :: e in fired + [before[m]] && p in Without(before, m) ==> Earlier(e, p)
  {
    WithoutFirst(before, m);
    var all := fired + [before[m]];
    forall i, j | 0 <= i < j < |all| ensures Earlier(all[i], all[j]) {
      assert fired[i] in fired;
    }
  }

  /** The loop of the vCPU boundary: pop until nothing is due. */
  method DrainDue<T>(queue: EventQueue<T>, now: u64) returns (fired: seq<Event<T>>)
    requires queue.Valid()
    modifies queue
    ensures queue.Valid() && queue.nextSeq == old(queue.nextSeq)
    ensures Drained(old(queue.heap), now, fired, queue.heap)
  {
    fired := [];
    var e := queue.PopDue(now);
    ghost var before := old(queue.heap);
    while e.Some?
      invariant queue.Valid() && queue.nextSeq == old(queue.nextSeq)
      invariant e.None? ==> queue.heap == before && NoneDue(before, now)
      invariant e.Some? ==> exists m: nat :: IsFirst(before, m) && e.value == before[m]
                                             && queue.heap == Without(before, m)
      invariant e.Some? ==> e.value.deadline <= now
      invariant InOrder(before) && Sorted(fired)
      invariant forall f, p :: f in fired && p in before ==> Earlier(f, p)
      invariant forall f :: f in fired ==> f.deadline <= now
      invariant Later(before, now) == Later(old(queue.heap), now)
      invariant multiset(fired) + multiset(before) == multiset(old(queue.heap))
      decreases |queue.heap|, e.Some?
    {
      ghost var m: nat :| IsFirst(before, m) && e.value == before[m] && queue.heap == Without(before, m);
      DrainTurn(before, m, fired, now);
      WithoutDue(before, m, now);
      fired := fired + [e.value];
      before := queue.heap;
      e := queue.PopDue(now);
    }
    LaterOfNoneDue(queue.heap, now);
  }

  // Whole runs of pushes, drains and clears.

  datatype QueueOp<T> = PushOp(deadline: u64, payload: T) | DrainOp(now: u64) | ClearOp

  function Pushes<T>(ops: seq<QueueOp<T>>): nat
    decreases |ops|
  {
    if ops == [] then 0
    else Pushes(ops[..|ops| - 1]) + if ops[|ops| - 1].PushOp? then 1 else 0
  }

  /** Every event the operations push, numbered in order. */
  ghost function AllPushed<T>(ops: seq<QueueOp<T>>): multiset<Event<T>>
    decreases |ops|
  {
    if ops == [] then multiset{}
    else
      var before, op := ops[..|ops| - 1], ops[|ops| - 1];
      AllPushed(before) +
      if op.PushOp? then multiset{Event(op.deadline, op.payload, Pushes(before))} else multiset{}
  }

  /** What is pending after the operations, in insertion order. */
  ghost function Pending<T>(ops: seq<QueueOp<T>>): seq<Event<T>>
    decreases |ops|
  {
    if ops == [] then []
    else
      var before, op := ops[..|ops| - 1], ops[|ops| - 1];
      match op
      case PushOp(deadline, payload) => Pending(before) + [Event(deadline, payload, Pushes(before))]
      case DrainOp(now) => Later(Pending(before), now)
      case ClearOp => []
  }

  lemma {:induction false} PushedOnce<T>(ops: seq<QueueOp<T>>)
    ensures forall e :: e in AllPushed(ops) ==> e.seqNo < Pushes(ops) && AllPushed(ops)[e] == 1
    decreases |ops|
  {
    if ops != [] {
      PushedOnce(ops[..|ops| - 1]);
    }
  }

  /** Nothing is lost, nothing fires twice: whatever is done to a queue, every event
      pushed was fired once, or is pending, or was pending at a clear; all pushed events
      are distinct; and pending is what no drain has found due and no clear has met. */
  method EveryEventFiresOnce<T>(ops: seq<QueueOp<T>>)
    returns (queue: EventQueue<T>, fired: seq<Event<T>>, ghost cleared: multiset<Event<T>>)
    ensures queue.Valid() && queue.heap == Pending(ops)
    ensures multiset(fired) + multiset(queue.heap) + cleared == AllPushed(ops)
    ensures forall e :: e in AllPushed(ops) ==> AllPushed(ops)[e] == 1
    ensures ClearOp !in ops ==> cleared == multiset{}
  {
    hide Drained;
    queue := new EventQueue();
    fired, cleared := [], multiset{};
    for i := 0 to |ops|
      invariant queue.Valid() && queue.nextSeq == Pushes(ops[..i]) && queue.heap == Pending(ops[..i])
      invariant multiset(fired) + multiset(queue.heap) + cleared == AllPushed(ops[..i])
      invariant ClearOp !in ops ==> cleared == multiset{}
    {
      assert ops[..i + 1][..i] == ops[..i] && ops[i] in ops;
      match ops[i]
      case PushOp(deadline, payload) => queue.Push(deadline, payload);
      case DrainOp(now) =>
        ghost var before := queue.heap;
        var due := DrainDue(queue, now);
        DrainedKeeps(before, now, due, queue.heap);
        fired := fired + due;
      case ClearOp =>
        cleared := cleared + multiset(queue.heap);
        queue.Clear();
    }
    assert ops[..|ops|] == ops;
    PushedOnce(ops);
  }

  lemma DrainedKeeps<T>(events: seq<Event<T>>, now: nat, fired: seq<Event<T>>, rest: seq<Event<T>>)
    requires Drained(events, now, fired, rest)
    ensures multiset(fired) + multiset(rest) == multiset(events) && rest == Later(events, now)
  {
  }
}
