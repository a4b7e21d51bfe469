/** The line framer of the guest agent: newline-terminated frames cut out of a byte
    stream that arrives in arbitrary chunks. */
module LineReader {
  import opened Prelude

  type Bytes = seq<byte>

  const LF: byte := 10
  const RX_LINE_CAP: nat := 0x1_0000
  const READ_SIZE: nat := 0x2000

  /** The index of the first newline, or the length. */
  function Newline(s: Bytes): (i: nat)
    ensures i <= |s| && (forall j :: 0 <= j < i ==> s[j] != LF) && (i < |s| ==> s[i] == LF)
  {
    if s == [] || s[0] == LF then 0 else 1 + Newline(s[1..])
  }

  datatype Drained = Drained(frames: seq<Bytes>, rest: Bytes)

  /** All the frames a buffer yields and what it keeps: lines, and an unterminated
      tail only when it is over the cap. */
  function Drain(buf: Bytes): Drained
    decreases |buf|
  {
    var i := Newline(buf);
    if i < |buf| then
      var more := Drain(buf[i + 1..]);
      Drained([buf[..i + 1]] + more.frames, more.rest)
    else if |buf| > RX_LINE_CAP then Drained([buf], [])
    else Drained([], buf)
  }

  /** Reads as they come, each drained before the next. */
  function Feed(buf: Bytes, chunks: seq<Bytes>): Drained
    decreases |chunks|
  {
    if chunks == [] then Drained([], buf)
    else
      var d := Drain(buf + chunks[0]);
      var more := Feed(d.rest, chunks[1..]);
      Drained(d.frames + more.frames, more.rest)
  }

  class LineReader {
    var buf: Bytes
    ghost var fed: Bytes             // everything read so far
    ghost var yielded: seq<Bytes>    // every frame surfaced so far

    /** Nothing is lost, added or reordered. */
    ghost predicate Valid()
      reads this
    {
      Flatten(yielded) + buf == fed
    }

    constructor ()
      ensures Valid() && buf == [] && fed == [] && yielded == []
    {
      buf, fed, yielded := [], [], [];
    }

    /** One read of the source: nothing is the end of the stream. */
    method Fill(read: Bytes) returns (more: bool)
      requires Valid() && |read| <= READ_SIZE
      modifies this`buf, this`fed
      ensures Valid() && more == (read != [])
      ensures buf == old(buf) + read && fed == old(fed) + read
    {
      if read == [] {
        assert buf + read == buf && fed + read == fed;
        return false;
      }
      assert Flatten(yielded) + (buf + read) == (Flatten(yielded) + buf) + read;
      buf, fed := buf + read, fed + read;
      more := true;
    }

    method Next() returns (frame: Option<Bytes>)
      requires Valid()
      modifies this`buf, this`yielded
      ensures Valid()
      ensures frame.None? ==> buf == old(buf) && yielded == old(yielded) && Drain(buf) == Drained([], buf)
      ensures frame.Some? ==> yielded == old(yielded) + [frame.value] && |buf| < |old(buf)|
      ensures frame.Some? ==>
                Drain(old(buf)) == Drained([frame.value] + Drain(buf).frames, Drain(buf).rest)
    {
      var i := Newline(buf);
      if i < |buf| {
        Surface(yielded, buf, buf[..i + 1], buf[i + 1..]);
        frame := Some(buf[..i + 1]);
        yielded := yielded + [buf[..i + 1]];
        buf := buf[i + 1..];
      } else if |buf| > RX_LINE_CAP {
        Surface(yielded, buf, buf, []);
        frame := Some(buf);
        yielded := yielded + [buf];
        buf := [];
      } else {
        frame := None;
      }
    }

    /** Fill once and iterate to the end. The buffer stays within the cap. */
    method FillAndDrain(read: Bytes) returns (frames: seq<Bytes>)
      requires Valid() && |read| <= READ_SIZE
      modifies this
      ensures Valid() && fed == old(fed) + read && yielded == old(yielded) + frames
      ensures Drained(frames, buf) == Drain(old(buf) + read)
      ensures |buf| <= RX_LINE_CAP && LF !in buf
    {
      hide Drain, Flatten;
      var _ := Fill(read);
      ghost var start := buf;
      frames := [];
      var more := true;
      assert yielded + [] == yielded;
      while more
        invariant Valid() && fed == old(fed) + read && yielded == old(yielded) + frames
        invariant Drain(start) == Drained(frames + (if more then Drain(buf).frames else []),
                                          if more then Drain(buf).rest else buf)
        decreases |buf|, more
      {
        var f := Next();
        if f.None? {
          more := false;
        } else {
          frames := frames + [f.value];
        }
      }
      assert frames + [] == frames;
      DrainBounds(start);
    }
  }

  /** Chunk after chunk, as the poll loop serves them. */
  method Serve(reader: LineReader, chunks: seq<Bytes>) returns (frames: seq<Bytes>)
    requires reader.Valid() && forall c :: c in chunks ==> |c| <= READ_SIZE
    modifies reader
    ensures reader.Valid() && reader.fed == old(reader.fed) + Flatten(chunks)
    ensures Drained(frames, reader.buf) == Feed(old(reader.buf), chunks)
  {
    hide Drain, Feed, Flatten, LineReader.Valid;
    frames := [];
    assert chunks[0..] == chunks;
    ghost var goal := Feed(reader.buf, chunks);
    assert [] + goal.frames == goal.frames;
    for i := 0 to |chunks|
      invariant reader.Valid() && reader.fed + Flatten(chunks[i..]) == old(reader.fed) + Flatten(chunks)
      invariant goal.frames == frames + Feed(reader.buf, chunks[i..]).frames
      invariant goal.rest == Feed(reader.buf, chunks[i..]).rest
    {
      assert chunks[i..][1..] == chunks[i + 1..] && chunks[i] in chunks;
      FeedStep(reader.buf, chunks[i..]);
      FlattenStep(reader.fed, chunks[i..]);
      ghost var before := frames;
      var got := reader.FillAndDrain(chunks[i]);
      frames := frames + got;
      assert before + (got + Feed(reader.buf, chunks[i + 1..]).frames)
          == frames + Feed(reader.buf, chunks[i + 1..]).frames;
    }
    assert chunks[|chunks|..] == [];
    NothingFed(reader.buf, frames, reader.fed);
  }

  lemma FeedStep(buf: Bytes, chunks: seq<Bytes>)
    requires chunks != []
    ensures var d := Drain(buf + chunks[0]);
            var more := Feed(d.rest, chunks[1..]);
            Feed(buf, chunks) == Drained(d.frames + more.frames, more.rest)
  {
    hide Drain;
  }

  lemma FlattenStep(fed: Bytes, chunks: seq<Bytes>)
    requires chunks != []
    ensures fed + Flatten(chunks) == fed + chunks[0] + Flatten(chunks[1..])
  {
  }

  lemma NothingFed(buf: Bytes, frames: seq<Bytes>, fed: Bytes)
    ensures Feed(buf, []) == Drained([], buf) && frames + [] == frames
    ensures fed + Flatten([]) == fed
  {
  }

  lemma Surface(yielded: seq<Bytes>, buf: Bytes, frame: Bytes, rest: Bytes)
    requires buf == frame + rest
    ensures Flatten(yielded + [frame]) + rest == Flatten(yielded) + buf
  {
    FlattenAppend(yielded, [frame]);
    assert Flatten([frame]) == frame;
  }

  lemma {:induction false} DrainBounds(buf: Bytes)
    ensures |Drain(buf).rest| <= RX_LINE_CAP && LF !in Drain(buf).rest
    decreases |buf|
  {
    var i := Newline(buf);
    if i < |buf| {
      DrainBounds(buf[i + 1..]);
    }
  }

  // Chunking.

  /** No line is over the cap, and what follows the last newline is at most one
      byte over it. */
  predicate Bounded(s: Bytes)
    decreases |s|
  {
    var i := Newline(s);
    if i < |s| then i <= RX_LINE_CAP && Bounded(s[i + 1..]) else |s| <= RX_LINE_CAP + 1
  }

  lemma NewlineOfJoin(a: Bytes, b: Bytes)
    ensures Newline(a) < |a| ==> Newline(a + b) == Newline(a)
    ensures Newline(a) == |a| ==> Newline(a + b) >= |a|
  {
    hide Newline;
    assert forall j :: 0 <= j < |a| ==> (a + b)[j] == a[j];
    var i, k := Newline(a), Newline(a + b);
    assert i < |a| ==> (a + b)[i] == LF;
    assert k < |a| ==> a[k] == LF;
  }

  lemma DrainLine(s: Bytes, i: nat)
    requires i == Newline(s) < |s|
    ensures Drain(s) == Drained([s[..i + 1]] + Drain(s[i + 1..]).frames, Drain(s[i + 1..]).rest)
  {
    hide Newline, Bounded;
  }

  lemma BoundedLine(s: Bytes, i: nat)
    requires i == Newline(s) < |s| && Bounded(s)
    ensures Bounded(s[i + 1..])
  {
    hide Newline, Drain;
  }

  lemma DrainPart(a: Bytes, b: Bytes)
    requires Newline(a) == |a| && Newline(a + b) >= |a| && Bounded(a + b)
    ensures Drain(a) == Drained([], a) || (b == [] && Drain(a) == Drained([a], []))
  {
  }

  lemma DrainNothing()
    ensures Drain([]) == Drained([], []) && Bounded([])
  {
  }

  /** Draining in two steps yields what draining at once would. */
  lemma {:induction false} DrainSplit(a: Bytes, b: Bytes)
    requires Bounded(a + b)
    ensures var first := Drain(a);
            var second := Drain(first.rest + b);
            && Drain(a + b) == Drained(first.frames + second.frames, second.rest)
            && Bounded(first.rest + b)
    decreases |a|
  {
    hide Drain, Bounded;
    NewlineOfJoin(a, b);
    var i := Newline(a);
    var all := a + b;
    if i < |a| {
      assert all[i + 1..] == a[i + 1..] + b && all[..i + 1] == a[..i + 1];
      DrainLine(all, i);
      BoundedLine(all, i);
      DrainLine(a, i);
      DrainSplit(a[i + 1..], b);
      var more := Drain(a[i + 1..]);
      var second := Drain(more.rest + b);
      assert [a[..i + 1]] + (more.frames + second.frames) == [a[..i + 1]] + more.frames + second.frames;
    } else {
      DrainPart(a, b);
      assert [] + Drain(all).frames == Drain(all).frames;
      DrainNothing();
      assert b == [] ==> all == a && [] + b == [] && [a] + [] == [a];
    }
  }

  /** However a bounded stream is cut into chunks, the frames are those of the
      whole stream. */
  lemma {:induction false} ChunkingIsInvisible(buf: Bytes, chunks: seq<Bytes>)
    requires Bounded(buf + Flatten(chunks)) && Drain(buf) == Drained([], buf)
    ensures Feed(buf, chunks) == Drain(buf + Flatten(chunks))
    decreases |chunks|
  {
    hide Drain, Bounded;
    if chunks == [] {
      assert buf + Flatten(chunks) == buf;
    } else {
      var head, tail := buf + chunks[0], Flatten(chunks[1..]);
      assert buf + Flatten(chunks) == head + tail;
      DrainSplit(head, tail);
      DrainTwice(head);
      ChunkingIsInvisible(Drain(head).rest, chunks[1..]);
    }
  }

  lemma {:induction false} DrainTwice(a: Bytes)
    ensures Drain(Drain(a).rest) == Drained([], Drain(a).rest)
    decreases |a|
  {
    var i := Newline(a);
    if i < |a| {
      DrainTwice(a[i + 1..]);
    }
  }

  // Exactly the bounded streams.

  /** The stream one byte at a time. */
  function Bytewise(s: Bytes): (chunks: seq<Bytes>)
    ensures Flatten(chunks) == s && forall c :: c in chunks ==> |c| == 1
  {
    if s == [] then []
    else
      var chunks := [[s[0]]] + Bytewise(s[1..]);
      assert chunks[1..] == Bytewise(s[1..]);
      assert [s[0]] + s[1..] == s;
      chunks
  }

  lemma FeedByte(buf: Bytes, s: Bytes)
    requires s != []
    ensures var d := Drain(buf + [s[0]]);
            var more := Feed(d.rest, Bytewise(s[1..]));
            Feed(buf, Bytewise(s)) == Drained(d.frames + more.frames, more.rest)
  {
    hide Drain;
    assert Bytewise(s)[0] == [s[0]] && Bytewise(s)[1..] == Bytewise(s[1..]);
  }

  lemma DrainShort(buf: Bytes)
    requires |buf| <= RX_LINE_CAP && LF !in buf
    ensures Drain(buf) == Drained([], buf)
  {
    assert Newline(buf) == |buf|;
  }

  lemma FeedWaitsOne(buf: Bytes, s: Bytes)
    requires s != [] && |buf| < RX_LINE_CAP && LF !in buf + [s[0]]
    ensures Feed(buf, Bytewise(s)) == Feed(buf + [s[0]], Bytewise(s[1..]))
  {
    hide Feed, Bytewise, Drain;
    var more := Feed(buf + [s[0]], Bytewise(s[1..]));
    FeedByte(buf, s);
    DrainShort(buf + [s[0]]);
    assert [] + more.frames == more.frames;
  }

  /** Bytes within the cap and without a newline wait in the buffer. */
  lemma {:induction false} FeedWaits(buf: Bytes, part: Bytes, s: Bytes)
    requires |buf| + |part| <= RX_LINE_CAP && LF !in buf + part
    ensures Feed(buf, Bytewise(part + s)) == Feed(buf + part, Bytewise(s))
    decreases |part|
  {
    hide Feed, Bytewise, Drain;
    if part == [] {
      assert buf + part == buf && part + s == s;
    } else {
      var next := buf + [part[0]];
      assert (part + s)[0] == part[0] && (part + s)[1..] == part[1..] + s;
      assert next + part[1..] == buf + part;
      assert next == (buf + part)[..|next|];
      FeedWaitsOne(buf, part + s);
      FeedWaits(next, part[1..], s);
    }
  }

  /** A line within the cap is one frame, also byte by byte. */
  lemma FeedLine(s: Bytes, i: nat)
    requires i == Newline(s) < |s| && i <= RX_LINE_CAP
    ensures var more := Feed([], Bytewise(s[i + 1..]));
            Feed([], Bytewise(s)) == Drained([s[..i + 1]] + more.frames, more.rest)
  {
    hide Newline, Feed, Bytewise, Drain;
    assert s[..i] + s[i..] == s && [] + s[..i] == s[..i];
    FeedWaits([], s[..i], s[i..]);
    FeedByte(s[..i], s[i..]);
    var line := s[..i + 1];
    assert s[..i] + [s[i..][0]] == line && s[i..][1..] == s[i + 1..];
    DrainOneLine(line);
  }

  lemma DrainOneLine(line: Bytes)
    requires line != [] && line[|line| - 1] == LF && LF !in line[..|line| - 1]
    ensures Drain(line) == Drained([line], [])
  {
    var i := |line| - 1;
    assert forall j :: 0 <= j < i ==> line[j] == line[..i][j];
    assert Newline(line) == i && line[i + 1..] == [] && line[..i + 1] == line;
    DrainNothing();
    assert [line] + [] == [line];
  }

  /** A longer stretch is cut one byte over the cap. */
  lemma FeedCuts(s: Bytes)
    requires |s| > RX_LINE_CAP && Newline(s) > RX_LINE_CAP
    ensures var d := Feed([], Bytewise(s)); |d.frames| > 0 && |d.frames[0]| == RX_LINE_CAP + 1
  {
    hide Newline, Feed, Bytewise, Drain;
    var k := RX_LINE_CAP;
    assert s[..k] + s[k..] == s && [] + s[..k] == s[..k];
    FeedWaits([], s[..k], s[k..]);
    FeedByte(s[..k], s[k..]);
    var cut := s[..k + 1];
    assert s[..k] + [s[k..][0]] == cut;
    assert Newline(cut) == |cut|;
    DrainLong(cut);
  }

  lemma DrainLong(cut: Bytes)
    requires Newline(cut) == |cut| > RX_LINE_CAP
    ensures Drain(cut) == Drained([cut], [])
  {
  }

  lemma {:induction false} FeedAppend(buf: Bytes, a: seq<Bytes>, b: seq<Bytes>)
    ensures var first := Feed(buf, a);
            var second := Feed(first.rest, b);
            Feed(buf, a + b) == Drained(first.frames + second.frames, second.rest)
    decreases |a|
  {
    hide Drain;
    if a == [] {
      assert a + b == b;
      assert [] + Feed(buf, b).frames == Feed(buf, b).frames;
    } else {
      assert (a + b)[0] == a[0] && (a + b)[1..] == a[1..] + b;
      var d := Drain(buf + a[0]);
      FeedAppend(d.rest, a[1..], b);
      var first := Feed(d.rest, a[1..]);
      var second := Feed(first.rest, b);
      assert d.frames + (first.frames + second.frames) == d.frames + first.frames + second.frames;
    }
  }

  /** Byte by byte, but for one read of two bytes at the cap of the first stretch
      over it. */
  function Paired(s: Bytes): (chunks: seq<Bytes>)
    requires !Bounded(s)
    decreases |s|
  {
    var i := Newline(s);
    if i < |s| && i <= RX_LINE_CAP then Bytewise(s[..i + 1]) + Paired(s[i + 1..])
    else
      Bytewise(s[..RX_LINE_CAP]) + [s[RX_LINE_CAP..RX_LINE_CAP + 2]] + Bytewise(s[RX_LINE_CAP + 2..])
  }

  /** The reads that can bring the stream. */
  predicate Legal(chunks: seq<Bytes>, s: Bytes) {
    Flatten(chunks) == s && forall c :: c in chunks ==> 0 < |c| <= READ_SIZE
  }

  lemma LegalAppend(a: seq<Bytes>, s: Bytes, b: seq<Bytes>, t: Bytes)
    requires Legal(a, s) && Legal(b, t)
    ensures Legal(a + b, s + t)
  {
    FlattenAppend(a, b);
  }

  lemma BytewiseLegal(s: Bytes)
    ensures Legal(Bytewise(s), s)
  {
  }

  lemma {:induction false} PairedLegal(s: Bytes)
    requires !Bounded(s)
    ensures Legal(Paired(s), s)
    decreases |s|
  {
    hide Legal, Bytewise, Newline;
    var i := Newline(s);
    if i < |s| && i <= RX_LINE_CAP {
      BytewiseLegal(s[..i + 1]);
      PairedLegal(s[i + 1..]);
      LegalAppend(Bytewise(s[..i + 1]), s[..i + 1], Paired(s[i + 1..]), s[i + 1..]);
      assert s[..i + 1] + s[i + 1..] == s;
    } else {
      var k := RX_LINE_CAP;
      var a, b, c := s[..k], s[k..k + 2], s[k + 2..];
      BytewiseLegal(a);
      OneRead(b);
      BytewiseLegal(c);
      LegalAppend(Bytewise(a), a, [b], b);
      LegalAppend(Bytewise(a) + [b], a + b, Bytewise(c), c);
      assert a + b + c == s;
    }
  }

  lemma OneRead(b: Bytes)
    requires 0 < |b| <= READ_SIZE
    ensures Legal([b], b)
  {
    assert Flatten([b]) == b;
  }

  lemma FeedPair(s: Bytes)
    requires |s| > RX_LINE_CAP + 1 && Newline(s) > RX_LINE_CAP && !Bounded(s)
    ensures var d := Feed([], Paired(s)); |d.frames| > 0 && |d.frames[0]| == RX_LINE_CAP + 2
  {
    var k := RX_LINE_CAP;
    var a, b, c := s[..k], s[k..k + 2], Bytewise(s[k + 2..]);
    assert Paired(s) == Bytewise(a) + [b] + c;
    hide Feed, Bytewise, Drain, Bounded;
    BeforePair(s, a);
    hide Newline, Paired;
    FeedAppend([], Bytewise(a), [b]);
    FeedAppend([], Bytewise(a) + [b], c);
    FeedOne(a, b);
    assert a + b == s[..k + 2] && s[..k + 2][..k + 1] == s[..k + 1];
    DrainOver(s[..k + 2]);
  }

  /** Up to the cap nothing comes out. */
  lemma BeforePair(s: Bytes, a: Bytes)
    requires |s| > RX_LINE_CAP + 1 && Newline(s) > RX_LINE_CAP && a == s[..RX_LINE_CAP]
    ensures Feed([], Bytewise(a)) == Drained([], a) && LF !in s[..RX_LINE_CAP + 1]
  {
    hide Feed, Bytewise, Drain;
    FeedWaits([], a, []);
    assert a + [] == a && [] + a == a;
    NoMoreFed(a);
  }

  lemma NoMoreFed(buf: Bytes)
    ensures Feed(buf, Bytewise([])) == Drained([], buf)
  {
  }

  lemma FeedOne(buf: Bytes, b: Bytes)
    ensures Feed(buf, [b]) == Drain(buf + b)
  {
    hide Drain;
    var d := Drain(buf + b);
    assert [b][1..] == [] && d.frames + [] == d.frames;
  }

  /** A stretch two over the cap is one frame, ended by a newline or not. */
  lemma DrainOver(s: Bytes)
    requires |s| == RX_LINE_CAP + 2 && LF !in s[..RX_LINE_CAP + 1]
    ensures |Drain(s).frames| > 0 && Drain(s).frames[0] == s
  {
    var i := Newline(s);
    assert forall j :: 0 <= j <= RX_LINE_CAP ==> s[j] == s[..RX_LINE_CAP + 1][j];
    if i < |s| {
      assert s[..i + 1] == s;
    }
  }

  /** Both cuttings give the same first line. */
  lemma PairedLine(s: Bytes, i: nat)
    requires !Bounded(s) && i == Newline(s) < |s| && i <= RX_LINE_CAP
    ensures !Bounded(s[i + 1..])
    ensures var more := Feed([], Paired(s[i + 1..]));
            Feed([], Paired(s)) == Drained([s[..i + 1]] + more.frames, more.rest)
  {
    hide Newline, Feed, Bytewise;
    assert Paired(s) == Bytewise(s[..i + 1]) + Paired(s[i + 1..]);
    hide Paired;
    LineFedAlone(s[..i + 1]);
    FeedAppend([], Bytewise(s[..i + 1]), Paired(s[i + 1..]));
  }

  /** Cuttings that differ in one place only frame an unbounded stream differently. */
  lemma {:induction false} UnboundedShows(s: Bytes)
    requires !Bounded(s)
    ensures Feed([], Bytewise(s)) != Feed([], Paired(s))
    decreases |s|
  {
    hide Feed, Bytewise, Paired;
    var i := Newline(s);
    if i < |s| && i <= RX_LINE_CAP {
      FeedLine(s, i);
      PairedLine(s, i);
      UnboundedShows(s[i + 1..]);
      hide Newline, Bounded;
      var a, b := Feed([], Bytewise(s[i + 1..])), Feed([], Paired(s[i + 1..]));
      assert a.frames == ([s[..i + 1]] + a.frames)[1..] && b.frames == ([s[..i + 1]] + b.frames)[1..];
    } else {
      FeedCuts(s);
      FeedPair(s);
    }
  }

  lemma LineFedAlone(line: Bytes)
    requires line != [] && |line| <= RX_LINE_CAP + 1 && line[|line| - 1] == LF && LF !in line[..|line| - 1]
    ensures Feed([], Bytewise(line)) == Drained([line], [])
  {
    hide Feed, Bytewise;
    var i := |line| - 1;
    assert forall j :: 0 <= j < i ==> line[j] == line[..i][j];
    assert Newline(line) == i;
    FeedLine(line, i);
    assert line[i + 1..] == [] && line[..i + 1] == line;
    NoMoreFed([]);
    assert [line] + [] == [line];
  }

  /** Any two ways in which the stream can arrive, in reads of at most the reader's
      size, give the same frames if and only if the stream is bounded. */
  lemma ChunkingExact(s: Bytes)
    ensures (forall a: seq<Bytes>, b: seq<Bytes> :: Legal(a, s) && Legal(b, s) ==> Feed([], a) == Feed([], b))
       <==> Bounded(s)
  {
    hide Feed, Drain, Bytewise, Bounded, Paired;
    if Bounded(s) {
      DrainNothing();
      forall a: seq<Bytes> | Legal(a, s) ensures Feed([], a) == Drain(s) {
        assert [] + s == s;
        ChunkingIsInvisible([], a);
      }
    } else {
      UnboundedShows(s);
      BytewiseLegal(s);
      PairedLegal(s);
    }
  }
}
