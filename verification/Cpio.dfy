/** The rootfs segment writer: inodes renumbered, hard links counted, and entries
    written as their groups complete. */
module Cpio {
  import opened Prelude
  import opened HexText
  import opened Newc
  import opened CpioOrder

  const TWO32: int := 0x1_0000_0000
  const BUILD_EPOCH: u32 := 1785542400
  const S_IFCHR: nat := 0x2000
  const S_IFBLK: nat := 0x6000

  // Pass 1: inode numbers.

  /** The first entry with this key. */
  function First(nodes: seq<Node>, key: Key): (i: nat)
    ensures i <= |nodes| && (forall j :: 0 <= j < i ==> nodes[j].key != key)
    ensures i < |nodes| ==> nodes[i].key == key
  {
    if nodes == [] || nodes[0].key == key then 0 else 1 + First(nodes[1..], key)
  }

  ghost predicate HasNumber(ino: map<Key, nat>, v: nat) {
    exists key :: key in ino && ino[key] == v
  }

  /** The numbers in use are the first ones. */
  ghost predicate Dense(ino: map<Key, nat>) {
    && (forall key :: key in ino ==> ino[key] < |ino|)
    && forall v: nat :: v < |ino| ==> HasNumber(ino, v)
  }

  /** Every key so far has a number, and the numbers go by first appearance. */
  ghost predicate ByAppearance(nodes: seq<Node>, k: nat, ino: map<Key, nat>)
    requires k <= |nodes|
  {
    && (forall i :: 0 <= i < k ==> nodes[i].key in ino)
    && (forall key :: key in ino ==> First(nodes, key) < k)
    && (forall p, q :: p in ino && q in ino ==> (ino[p] < ino[q] <==> First(nodes, p) < First(nodes, q)))
  }

  ghost predicate Numbered(nodes: seq<Node>, ino: map<Key, nat>) {
    Dense(ino) && ByAppearance(nodes, |nodes|, ino)
  }

  /** No two files share a number. */
  lemma NumbersDiffer(nodes: seq<Node>, ino: map<Key, nat>, p: Key, q: Key)
    requires Numbered(nodes, ino) && p in ino && q in ino && p != q
    ensures ino[p] != ino[q]
  {
    assert nodes[First(nodes, p)].key == p && nodes[First(nodes, q)].key == q;
  }

  lemma AddDense(ino: map<Key, nat>, key: Key)
    requires Dense(ino) && key !in ino
    ensures |ino[key := |ino|]| == |ino| + 1 && Dense(ino[key := |ino|])
  {
    var next := ino[key := |ino|];
    assert next.Keys == ino.Keys + {key};
    forall v: nat | v < |next| ensures HasNumber(next, v) {
      if v < |ino| {
        assert HasNumber(ino, v);
        var p :| p in ino && ino[p] == v;
        assert p in next && next[p] == v;
      } else {
        assert key in next && next[key] == v;
      }
    }
  }

  lemma AddByAppearance(nodes: seq<Node>, k: nat, ino: map<Key, nat>)
    requires k < |nodes| && Dense(ino) && ByAppearance(nodes, k, ino)
    ensures nodes[k].key in ino ==> ByAppearance(nodes, k + 1, ino)
    ensures nodes[k].key !in ino ==> ByAppearance(nodes, k + 1, ino[nodes[k].key := |ino|])
  {
    hide HasNumber, First;
    var key := nodes[k].key;
    if key !in ino {
      FirstIs(nodes, k);
      var next := ino[key := |ino|];
      forall p, q | p in next && q in next
        ensures next[p] < next[q] <==> First(nodes, p) < First(nodes, q)
      {
        if p != key && q != key {
          assert p in ino && q in ino;
        }
      }
    }
  }

  lemma FirstIs(nodes: seq<Node>, k: nat)
    requires k < |nodes| && forall i :: 0 <= i < k ==> nodes[i].key != nodes[k].key
    ensures First(nodes, nodes[k].key) == k
  {
    var i := First(nodes, nodes[k].key);
    assert i >= k;
  }

  method Renumber(nodes: seq<Node>) returns (ino: map<Key, nat>)
    ensures Numbered(nodes, ino) && |ino| <= |nodes|
  {
    hide Dense, ByAppearance;
    ino := map[];
    NothingNumbered(nodes);
    var counter := 0;
    for k := 0 to |nodes|
      invariant Dense(ino) && ByAppearance(nodes, k, ino) && counter == |ino| <= k
    {
      AddByAppearance(nodes, k, ino);
      if nodes[k].key !in ino {
        AddDense(ino, nodes[k].key);
        ino := ino[nodes[k].key := counter];
        counter := counter + 1;
      }
    }
  }

  lemma NothingNumbered(nodes: seq<Node>)
    ensures Dense(map[]) && ByAppearance(nodes, 0, map[])
  {
  }

  // Pass 1b: group sizes.

  /** For every key with links among the first `k`, how many. */
  ghost predicate Counted(nodes: seq<Node>, k: nat, count: map<Key, nat>)
    requires k <= |nodes|
  {
    forall key :: Get(count, key, 0) == |Links(nodes, key, k)|
  }

  function Get<V>(m: map<Key, V>, key: Key, default: V): V {
    if key in m then m[key] else default
  }

  lemma LinksNext(nodes: seq<Node>, key: Key, k: nat)
    requires k < |nodes|
    ensures Links(nodes, key, k + 1) == Links(nodes, key, k) + if Names(nodes, key, k) then [k] else []
  {
  }

  lemma CountNext(nodes: seq<Node>, k: nat, count: map<Key, nat>)
    requires k < |nodes| && Counted(nodes, k, count)
    ensures !nodes[k].Linked() ==> Counted(nodes, k + 1, count)
    ensures nodes[k].Linked() ==> Counted(nodes, k + 1, count[nodes[k].key := Get(count, nodes[k].key, 0) + 1])
  {
    hide Links;
    var own := nodes[k].key;
    var next := if nodes[k].Linked() then count[own := Get(count, own, 0) + 1] else count;
    forall key ensures Get(next, key, 0) == |Links(nodes, key, k + 1)|
    {
      LinksNext(nodes, key, k);
      assert Get(count, key, 0) == |Links(nodes, key, k)|;
    }
  }

  method CountGroups(nodes: seq<Node>) returns (total: map<Key, nat>)
    ensures Counted(nodes, |nodes|, total)
  {
    hide Counted;
    total := map[];
    NothingCounted(nodes);
    for k := 0 to |nodes|
      invariant Counted(nodes, k, total)
    {
      CountNext(nodes, k, total);
      if nodes[k].Linked() {
        total := total[nodes[k].key := Get(total, nodes[k].key, 0) + 1];
      }
    }
  }

  lemma NothingCounted(nodes: seq<Node>)
    ensures Counted(nodes, 0, map[])
  {
  }

  // Pass 2: what is held back.

  /** Groups begun and not complete are held back, all of their links so far. */
  ghost predicate Deferred(nodes: seq<Node>, k: nat, deferred: map<Key, seq<nat>>)
    requires k <= |nodes|
  {
    forall key ::
      && (key in deferred <==> 0 < |Links(nodes, key, k)| < |Links(nodes, key, |nodes|)|)
      && (key in deferred ==> deferred[key] == Links(nodes, key, k))
  }

  lemma NothingDeferred(nodes: seq<Node>)
    ensures Deferred(nodes, 0, map[])
  {
  }

  lemma DeferNext(nodes: seq<Node>, k: nat, deferred: map<Key, seq<nat>>)
    requires k < |nodes| && Deferred(nodes, k, deferred)
    ensures !nodes[k].Linked() ==> Deferred(nodes, k + 1, deferred)
    ensures nodes[k].Linked() && !IsLast(nodes, k) ==>
              Deferred(nodes, k + 1, deferred[nodes[k].key := Get(deferred, nodes[k].key, []) + [k]])
    ensures nodes[k].Linked() && IsLast(nodes, k) ==> Deferred(nodes, k + 1, deferred - {nodes[k].key})
    ensures nodes[k].Linked() ==> Get(deferred, nodes[k].key, []) == Links(nodes, nodes[k].key, k)
  {
    if nodes[k].Linked() {
      LastIffTotal(nodes, k);
    }
    hide Links, IsLast;
    forall key ensures Links(nodes, key, k + 1) == Links(nodes, key, k) + if Names(nodes, key, k) then [k] else [] {
      LinksNext(nodes, key, k);
    }
  }

  lemma NothingLeft(nodes: seq<Node>, deferred: map<Key, seq<nat>>)
    requires Deferred(nodes, |nodes|, deferred)
    ensures deferred == map[]
  {
    hide Links;
    assert forall key :: key !in deferred;
    assert deferred.Keys == {};
  }

  // Writing.

  /** Device numbers of a device node, in the split GNU cpio uses. */
  function RdevOf(rdev: u64, mode: u32): (u32, u32) {
    var t := mode / 0x1000 % 16 * 0x1000;
    if t == S_IFCHR || t == S_IFBLK
    then (rdev / 0x100 % 0x1000, (rdev % 0x100 + rdev / 0x10_0000 * 0x100) % TWO32)
    else (0, 0)
  }

  predicate IsDevice(mode: u32) {
    mode / 0x1000 % 16 * 0x1000 in {S_IFCHR, S_IFBLK}
  }

  /** The split undoes: the low 44 bits of the device number come back, and an entry
      that is no device has none. */
  lemma RdevReads(rdev: u64, mode: u32)
    ensures var (major, minor) := RdevOf(rdev, mode);
            if IsDevice(mode)
            then major < 0x1000 && minor % 0x100 + major * 0x100 + minor / 0x100 * 0x10_0000 == rdev % 0x1000_0000_0000
            else major == 0 && minor == 0
  {
    if IsDevice(mode) {
      SplitRejoins(rdev);
    }
  }

  lemma SplitRejoins(rdev: nat)
    ensures var major, minor := rdev / 0x100 % 0x1000, (rdev % 0x100 + rdev / 0x10_0000 * 0x100) % TWO32;
            minor % 0x100 + major * 0x100 + minor / 0x100 * 0x10_0000 == rdev % 0x1000_0000_0000
  {
    var low, up, high := rdev % 0x100, rdev / 0x100, rdev / 0x10_0000;
    HighPart(rdev);
    var mid, h := up % 0x1000, high % 0x100_0000;
    LowPart(low, high);
    Rejoined(rdev, low, mid, high, h);
  }

  /** Quotient and remainder are the only way to divide. */
  lemma Divided(n: nat, m: nat, q: nat, r: nat)
    requires r < m && n == m * q + r
    ensures n / m == q && n % m == r
  {
    var p, s := n / m, n % m;
    assert n == m * p + s && s < m;
    if p > q {
      Apart(m, q, p);
    } else if q > p {
      Apart(m, p, q);
    }
  }

  lemma {:induction false} Apart(m: nat, a: nat, b: nat)
    requires a < b
    ensures m * a + m <= m * b
    decreases b
  {
    assert m * b == m * (b - 1) + m;
    if a < b - 1 {
      Apart(m, a, b - 1);
    }
  }

  lemma HighPart(n: nat)
    ensures n / 0x10_0000 == n / 0x100 / 0x1000
  {
    var low, up := n % 0x100, n / 0x100;
    Divided(n, 0x10_0000, up / 0x1000, 0x100 * (up % 0x1000) + low);
  }

  lemma LowPart(low: nat, high: nat)
    requires low < 0x100
    ensures var minor := (low + high * 0x100) % TWO32;
            minor % 0x100 == low && minor / 0x100 == high % 0x100_0000
  {
    var h, q := high % 0x100_0000, high / 0x100_0000;
    Divided(low + high * 0x100, TWO32, q, low + h * 0x100);
    Divided(low + h * 0x100, 0x100, h, low);
  }

  lemma Rejoined(n: nat, low: nat, mid: nat, high: nat, h: nat)
    requires low == n % 0x100 && mid == n / 0x100 % 0x1000 && high == n / 0x100 / 0x1000 && h == high % 0x100_0000
    ensures low + mid * 0x100 + h * 0x10_0000 == n % 0x1000_0000_0000
  {
    Divided(n, 0x1000_0000_0000, high / 0x100_0000, low + mid * 0x100 + h * 0x10_0000);
  }

  /** What the record of an entry holds: its own name, mode and time, the new number of
      its file, two links for a directory and the entry's own count for anything else,
      the device it stands for, no containing device, and the data whole. */
  predicate Represents(r: Record, e: Node, ino: u32, payload: Bytes) {
    var h := r.header;
    && h.name == e.name && h.mode == e.mode && h.mtime == BUILD_EPOCH && h.ino == ino
    && h.nlink == (if e.isDir then 2 else e.nlink)
    && h.devmajor == 0 && h.devminor == 0
    && (if IsDevice(e.mode)
        then h.rdevminor % 0x100 + h.rdevmajor * 0x100 + h.rdevminor / 0x100 * 0x10_0000 == e.rdev % 0x1000_0000_0000
        else h.rdevmajor == 0 && h.rdevminor == 0)
    && h.filesize == |payload| && r.data == payload
  }

  /** The record for an entry: directories count two links, names without data have
      size zero. */
  function RecordOf(e: Node, ino: u32, payload: Bytes): (r: Record)
    requires |e.name| + 1 < TWO32 && |payload| < TWO32
    ensures r.Ok() && Represents(r, e, ino, payload)
  {
    var (major, minor) := RdevOf(e.rdev, e.mode);
    RdevReads(e.rdev, e.mode);
    Record(NewcHeader(ino, e.mode, if e.isDir then 2 else e.nlink, BUILD_EPOCH, |payload|, 0, 0, major, minor, e.name),
           payload)
  }

  /** Everything that goes in: entries, their payloads and the numbers of their files. */
  datatype Tree = Tree(nodes: seq<Node>, payloads: seq<Bytes>, ino: map<Key, nat>)
  {
    ghost predicate Ok() {
      && |payloads| == |nodes|
      && (forall i :: 0 <= i < |nodes| ==> |nodes[i].name| + 1 < TWO32)
      && (forall i :: 0 <= i < |nodes| ==> nodes[i].key in ino && ino[nodes[i].key] < TWO32)
    }

    ghost predicate Fits(e: Emit)
      requires Ok()
    {
      e.index < |nodes| && (e.withData ==> |payloads[e.index]| < TWO32)
    }

    /** What is to be written for an entry. */
    ghost predicate Holds(r: Record, e: Emit)
      requires Ok() && Fits(e)
    {
      Represents(r, nodes[e.index], ino[nodes[e.index].key], if e.withData then payloads[e.index] else [])
    }

    ghost function At(e: Emit): (r: Record)
      requires Ok() && Fits(e)
      ensures r.Ok() && Holds(r, e)
    {
      RecordOf(nodes[e.index], ino[nodes[e.index].key], if e.withData then payloads[e.index] else [])
    }

    ghost function Records(order: seq<Emit>): (rs: seq<Record>)
      requires Ok() && forall e :: e in order ==> Fits(e)
      ensures |rs| == |order| && forall r :: r in rs ==> r.Ok()
      ensures forall i :: 0 <= i < |rs| ==> Fits(order[i]) && Holds(rs[i], order[i])
    {
      if order == [] then [] else Records(order[..|order| - 1]) + [At(order[|order| - 1])]
    }
  }

  lemma {:induction false} PrintAppend(records: seq<Record>, r: Record)
    requires (forall x :: x in records ==> x.Ok()) && r.Ok()
    ensures forall x :: x in records + [r] ==> x.Ok()
    ensures PrintAll(records + [r]) == PrintAll(records) + r.Print()
    decreases |records|
  {
    hide Record.Print;
    var all := records + [r];
    if records == [] {
      assert all[1..] == [];
    } else {
      assert all[1..] == records[1..] + [r];
      PrintAppend(records[1..], r);
    }
  }

  class Cpio {
    var out: Bytes

    constructor ()
      ensures out == []
    {
      out := [];
    }

    method PadZeros(n: nat)
      modifies this
      ensures out == old(out) + Zeros(n)
    {
      out := out + Zeros(n);
    }

    method Header(h: NewcHeader)
      requires h.Ok()
      modifies this
      ensures out == old(out) + HeaderBytes(h)
    {
      hide Hex, Zeros;
      var before := out;
      out := out + MAGIC;
      var fields := h.Fields();
      for i := 0 to |fields|
        invariant out == before + (MAGIC + Encode(fields[..i]))
      {
        assert fields[..i + 1][..i] == fields[..i];
        out := out + Hex(fields[i], 8);
        assert MAGIC + Encode(fields[..i]) + Hex(fields[i], 8) == MAGIC + Encode(fields[..i + 1]);
      }
      assert fields[..|fields|] == fields;
      out := out + h.name;
      out := out + [0];
      var hdrlen := HEADER + |h.name| + 1;
      PadZeros((4 - hdrlen % 4) % 4);
    }

    method Data(d: Bytes)
      modifies this
      ensures out == old(out) + DataBytes(d)
    {
      hide Zeros;
      out := out + d;
      PadZeros((4 - |d| % 4) % 4);
    }

    method Trailer()
      modifies this
      ensures END.Ok() && out == old(out) + END.Print()
    {
      hide HeaderBytes;
      Header(NewcHeader(0, 0, 1, 0, 0, 0, 0, 0, 0, TRAILER));
    }

    /** To the block boundary, so that another segment can follow. */
    method PadTo512()
      modifies this
      ensures |out| % 512 == 0 && old(out) <= out
    {
      PadZeros((512 - |out| % 512) % 512);
    }

    method WriteEntry(e: Node, ino: u32, payload: Bytes) returns (ok: bool)
      requires |e.name| + 1 < TWO32
      modifies this
      ensures ok <==> |payload| < TWO32
      ensures ok ==> out == old(out) + RecordOf(e, ino, payload).Print()
      ensures ok ==> Represents(RecordOf(e, ino, payload), e, ino, payload)
      ensures !ok ==> out == old(out)
    {
      hide HeaderBytes, DataBytes;
      if |payload| >= TWO32 {
        return false;
      }
      Header(RecordOf(e, ino, payload).header);
      if payload != [] {
        Data(payload);
      }
      ok := true;
    }

    /** One entry onto the end. */
    method WriteNext(t: Tree, e: Emit, ghost base: Bytes, ghost order: seq<Emit>) returns (ok: bool)
      requires t.Ok() && e.index < |t.nodes| && AllFit(t, order)
      requires out == base + PrintAll(t.Records(order))
      modifies this
      ensures ok <==> t.Fits(e)
      ensures ok ==> AllFit(t, order + [e]) && out == base + PrintAll(t.Records(order + [e]))
    {
      hide PrintAll, RecordOf, Record.Print;
      var node := t.nodes[e.index];
      ok := WriteEntry(node, t.ino[node.key], if e.withData then t.payloads[e.index] else []);
      if ok {
        RecordsAppend(t, order, e);
        assert base + PrintAll(t.Records(order)) + t.At(e).Print()
            == base + (PrintAll(t.Records(order)) + t.At(e).Print());
      }
    }

    /** The links held back, last first, as bare names. */
    method WriteReversed(t: Tree, links: seq<nat>, ghost base: Bytes, ghost order: seq<Emit>)
      requires t.Ok() && AllFit(t, order) && forall j :: j in links ==> j < |t.nodes|
      requires out == base + PrintAll(t.Records(order))
      modifies this
      ensures AllFit(t, order + Reversed(links)) && out == base + PrintAll(t.Records(order + Reversed(links)))
    {
      hide PrintAll, Tree.Records;
      var i := |links|;
      ghost var done := order;
      assert links[..i] == links;
      while i > 0
        invariant 0 <= i <= |links|
        invariant AllFit(t, done) && out == base + PrintAll(t.Records(done))
        invariant done + Reversed(links[..i]) == order + Reversed(links)
      {
        i := i - 1;
        assert links[i] in links && links[..i + 1][..i] == links[..i];
        var e := Emit(links[i], false);
        assert done + Reversed(links[..i + 1]) == (done + [e]) + Reversed(links[..i]);
        var ok := WriteNext(t, e, base, done);
        done := done + [e];
      }
      assert done + [] == done;
    }

    /** What reaching entry `k` does: hold it back, or write its block. */
    method EmitEntry(t: Tree, k: nat, total: map<Key, nat>, seen: map<Key, nat>, deferred: map<Key, seq<nat>>,
                     ghost base: Bytes)
      returns (ok: bool, seenNext: map<Key, nat>, deferredNext: map<Key, seq<nat>>)
      requires t.Ok() && k < |t.nodes| && AllFit(t, Order(t.nodes, k))
      requires Counted(t.nodes, |t.nodes|, total) && Counted(t.nodes, k, seen) && Deferred(t.nodes, k, deferred)
      requires out == base + PrintAll(t.Records(Order(t.nodes, k)))
      modifies this
      ensures ok <==> AllFit(t, Order(t.nodes, k + 1))
      ensures ok ==> out == base + PrintAll(t.Records(Order(t.nodes, k + 1)))
      ensures ok ==> Counted(t.nodes, k + 1, seenNext) && Deferred(t.nodes, k + 1, deferredNext)
    {
      hide PrintAll, Tree.Records, Counted, Deferred, Links, IsLast;
      var e := t.nodes[k];
      seenNext, deferredNext := seen, deferred;
      ghost var order := Order(t.nodes, k);
      assert order + [] == order;
      CountNext(t.nodes, k, seen);
      DeferNext(t.nodes, k, deferred);
      if !e.Linked() {
        ok := WriteNext(t, Emit(k, true), base, order);
        return;
      }
      LastByCount(t.nodes, k, total, seen);
      var s := Get(seen, e.key, 0) + 1;
      seenNext := seen[e.key := s];
      if s < total[e.key] {
        deferredNext := deferred[e.key := Get(deferred, e.key, []) + [k]];
        return true, seenNext, deferredNext;
      }
      var links := Get(deferred, e.key, []);
      LinksInRange(t.nodes, e.key, k);
      WriteReversed(t, links, base, order);
      deferredNext := deferred - {e.key};
      ok := WriteNext(t, Emit(k, true), base, order + Reversed(links));
      assert order + Reversed(links) + [Emit(k, true)] == order + (Reversed(links) + [Emit(k, true)]);
    }

    /** The whole segment. It fails exactly when a payload does not fit its size field;
        otherwise the entries are written in group order, nothing stays held back, the
        length is in whole blocks, and an unpacker finds exactly one record for each
        entry, holding what the entry holds, unless one is named like the trailer. */
    method WriteRootfsSegment(nodes: seq<Node>, payloads: seq<Bytes>)
      returns (ok: bool, ghost t: Tree, ghost records: seq<Record>)
      requires |payloads| == |nodes| <= TWO32
      requires forall i :: 0 <= i < |nodes| ==> |nodes[i].name| + 1 < TWO32
      modifies this
      ensures t.nodes == nodes && t.payloads == payloads && t.Ok() && Numbered(nodes, t.ino)
      ensures ok <==> AllFit(t, Order(nodes, |nodes|))
      ensures ok ==>
                var order := Order(nodes, |nodes|);
                && |records| == |order|
                && (forall i :: 0 <= i < |order| ==> t.Fits(order[i]) && t.Holds(records[i], order[i]))
                && |out| % 512 == 0
                && |old(out)| <= |out| && out[..|old(out)|] == old(out)
                && (Unpack(out[|old(out)|..]) == Some(records)
                    <==> forall r :: r in records ==> r.header.name != TRAILER)
    {
      hide PrintAll, Tree.Records, Tree.Holds, Counted, Deferred, Links, IsLast, Block, Record.Print, Unpack, Numbered;
      ghost var base := out;
      var ino := Renumber(nodes);
      var tree := Tree(nodes, payloads, ino);
      t := tree;
      TreeOk(tree);
      var total := CountGroups(nodes);
      var seen: map<Key, nat>, deferred: map<Key, seq<nat>> := map[], map[];
      NothingCounted(nodes);
      NothingDeferred(nodes);
      NothingWritten(tree, base);
      ok, records := true, [];
      for k := 0 to |nodes|
        invariant AllFit(tree, Order(nodes, k)) && out == base + PrintAll(tree.Records(Order(nodes, k)))
        invariant Counted(nodes, k, seen) && Deferred(nodes, k, deferred)
      {
        ok, seen, deferred := EmitEntry(tree, k, total, seen, deferred, base);
        if !ok {
          OrderGrows(tree, k + 1);
          return;
        }
      }
      NothingLeft(nodes, deferred);
      assert deferred == map[];
      records := tree.Records(Order(nodes, |nodes|));
      Trailer();
      ghost var sofar := out;
      PadTo512();
      ok := true;
      SegmentUnpacks(base, records, sofar, out);
    }
  }

  ghost predicate AllFit(t: Tree, order: seq<Emit>)
    requires t.Ok()
  {
    forall e :: e in order ==> t.Fits(e)
  }

  lemma RecordsAppend(t: Tree, order: seq<Emit>, e: Emit)
    requires t.Ok() && AllFit(t, order) && t.Fits(e)
    ensures AllFit(t, order + [e])
    ensures PrintAll(t.Records(order + [e])) == PrintAll(t.Records(order)) + t.At(e).Print()
  {
    hide PrintAll, Record.Print;
    var all := order + [e];
    assert all[..|all| - 1] == order;
    PrintAppend(t.Records(order), t.At(e));
  }

  lemma LinksInRange(nodes: seq<Node>, key: Key, k: nat)
    requires k <= |nodes|
    ensures forall j :: j in Links(nodes, key, k) ==> j < |nodes|
  {
    forall j | j in Links(nodes, key, k) ensures j < |nodes| {
      LinksMembers(nodes, key, k, j);
    }
  }

  /** The count says whether this is the group's last link. */
  lemma LastByCount(nodes: seq<Node>, k: nat, total: map<Key, nat>, seen: map<Key, nat>)
    requires k < |nodes| && nodes[k].Linked() && Counted(nodes, |nodes|, total) && Counted(nodes, k, seen)
    ensures nodes[k].key in total
    ensures Get(seen, nodes[k].key, 0) + 1 < total[nodes[k].key] <==> !IsLast(nodes, k)
  {
    LastIffTotal(nodes, k);
    hide Links, IsLast;
    var key := nodes[k].key;
    assert Get(seen, key, 0) == |Links(nodes, key, k)| && Get(total, key, 0) == |Links(nodes, key, |nodes|)|;
  }

  lemma TreeOk(t: Tree)
    requires |t.payloads| == |t.nodes| <= TWO32 && Numbered(t.nodes, t.ino) && |t.ino| <= |t.nodes|
    requires forall i :: 0 <= i < |t.nodes| ==> |t.nodes[i].name| + 1 < TWO32
    ensures t.Ok()
  {
  }

  lemma NothingWritten(t: Tree, base: Bytes)
    requires t.Ok()
    ensures AllFit(t, Order(t.nodes, 0)) && base + PrintAll(t.Records(Order(t.nodes, 0))) == base
  {
  }

  lemma {:induction false} OrderGrows(t: Tree, k: nat)
    requires t.Ok() && k <= |t.nodes| && !AllFit(t, Order(t.nodes, k))
    ensures !AllFit(t, Order(t.nodes, |t.nodes|))
    decreases |t.nodes| - k
  {
    hide Block;
    if k < |t.nodes| {
      var e :| e in Order(t.nodes, k) && !t.Fits(e);
      assert e in Order(t.nodes, k + 1);
      OrderGrows(t, k + 1);
    }
  }

  lemma SegmentUnpacks(base: Bytes, records: seq<Record>, sofar: Bytes, out: Bytes)
    requires (forall r :: r in records ==> r.Ok()) && END.Ok()
    requires sofar == base + PrintAll(records) + END.Print() && sofar <= out
    ensures |base| <= |out| && out[..|base|] == base
    ensures Unpack(out[|base|..]) == Some(records) <==> forall r :: r in records ==> r.header.name != TRAILER
  {
    hide Unpack, PrintAll, Record.Print;
    var rest := out[|sofar|..];
    assert out == sofar + rest;
    assert out[|base|..] == PrintAll(records) + (END.Print() + rest);
    UnpacksIff(records, rest);
  }
}
