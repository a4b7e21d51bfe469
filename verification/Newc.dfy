/** The newc cpio format: a 110-byte header of hex fields, the name and the data, each
    padded to four bytes; what is written is what an unpacker reads. */
module Newc {
  import opened Prelude
  import opened HexText

  type Bytes = seq<byte>

  const MAGIC: Bytes := [48, 55, 48, 55, 48, 49]                              // 070701
  const TRAILER: Bytes := [84, 82, 65, 73, 76, 69, 82, 33, 33, 33]            // TRAILER!!!
  const HEADER: nat := 110

  datatype NewcHeader = NewcHeader(
    ino: u32, mode: u32, nlink: u32, mtime: u32, filesize: u32,
    devmajor: u32, devminor: u32, rdevmajor: u32, rdevminor: u32, name: Bytes)
  {
    predicate Ok() {
      |name| + 1 < 0x1_0000_0000
    }

    /** The thirteen fields; owner, group and check are zero. */
    function Fields(): (f: seq<u32>)
      requires Ok()
      ensures |f| == 13
    {
      [ino, mode, 0, 0, nlink, mtime, filesize, devmajor, devminor, rdevmajor, rdevminor, |name| + 1, 0]
    }
  }

  function Zeros(n: nat): (z: Bytes)
    ensures |z| == n
  {
    seq(n, _ => 0)
  }

  /** Bytes missing to the next multiple of four. */
  function Gap4(n: nat): (g: nat)
    ensures (n + g) % 4 == 0 && g < 4
  {
    (4 - n % 4) % 4
  }

  // Fields.

  /** The fields, eight digits each. */
  function Encode(fields: seq<u32>): (s: Bytes)
    ensures |s| == 8 * |fields|
  {
    if fields == [] then [] else Encode(fields[..|fields| - 1]) + Hex(fields[|fields| - 1], 8)
  }

  lemma {:induction false} EncodedField(fields: seq<u32>, i: nat, rest: Bytes)
    requires i < |fields|
    ensures var s := Encode(fields) + rest; s[8 * i..8 * i + 8] == Hex(fields[i], 8)
    decreases |fields|
  {
    var init, last := fields[..|fields| - 1], Hex(fields[|fields| - 1], 8);
    var s := Encode(fields) + rest;
    assert s == Encode(init) + (last + rest);
    if i < |fields| - 1 {
      EncodedField(init, i, last + rest);
    }
  }

  function HeaderBytes(h: NewcHeader): (s: Bytes)
    requires h.Ok()
    ensures |s| % 4 == 0
  {
    MAGIC + Encode(h.Fields()) + h.name + [0] + Zeros(Gap4(HEADER + |h.name| + 1))
  }

  function DataBytes(d: Bytes): (s: Bytes)
    ensures |s| % 4 == 0
  {
    d + Zeros(Gap4(|d|))
  }

  /** A record: its header, then its data if it has any. */
  datatype Record = Record(header: NewcHeader, data: Bytes)
  {
    predicate Ok() {
      header.Ok() && header.filesize == |data|
    }

    function Print(): (s: Bytes)
      requires Ok()
      ensures |s| % 4 == 0
    {
      if data == [] then HeaderBytes(header)
      else
        Fours(|HeaderBytes(header)|, |DataBytes(data)|);
        HeaderBytes(header) + DataBytes(data)
    }
  }

  const END := Record(NewcHeader(0, 0, 1, 0, 0, 0, 0, 0, 0, TRAILER), [])

  // The unpacker.

  function Field(s: Bytes, i: nat): Option<nat>
    requires |s| >= HEADER && i < 13
  {
    HexValue(s[6 + 8 * i..14 + 8 * i])
  }

  /** The first `k` fields. */
  function FieldsOf(s: Bytes, k: nat): (r: Option<seq<u32>>)
    requires |s| >= HEADER && k <= 13
    ensures r.Some? ==> |r.value| == k
  {
    if k == 0 then Some([])
    else
      match (FieldsOf(s, k - 1), Field(s, k - 1))
      case (Some(before), Some(v)) => if v < 0x1_0000_0000 then Some(before + [v]) else None
      case _ => None
  }

  datatype Unpacked = Unpacked(record: Record, uid: nat, gid: nat, rest: Bytes)

  /** The record at the start of `s`. */
  function ReadRecord(s: Bytes): (r: Option<Unpacked>)
    ensures r.Some? ==> |r.value.rest| < |s|
  {
    if |s| < HEADER || s[..6] != MAGIC then None
    else
      match FieldsOf(s, 13)
      case None => None
      case Some(f) =>
        var namesize, filesize := f[11], f[6];
        var start := HEADER + namesize + Gap4(HEADER + namesize);
        var end := start + filesize + Gap4(filesize);
        if namesize == 0 || end > |s| || s[HEADER + namesize - 1] != 0 then None
        else
          var name := s[HEADER..HEADER + namesize - 1];
          var h := NewcHeader(f[0], f[1], f[4], f[5], filesize, f[7], f[8], f[9], f[10], name);
          Some(Unpacked(Record(h, s[start..start + filesize]), f[2], f[3], s[end..]))
  }

  /** The records up to the trailer. */
  function Unpack(s: Bytes): Option<seq<Record>>
    decreases |s|
  {
    match ReadRecord(s)
    case None => None
    case Some(u) =>
      if u.record.header.name == TRAILER then Some([])
      else
        match Unpack(u.rest)
        case None => None
        case Some(more) => Some([u.record] + more)
  }

  lemma FieldReads(h: NewcHeader, rest: Bytes, i: nat)
    requires h.Ok() && i < 13
    ensures Field(MAGIC + Encode(h.Fields()) + rest, i) == Some(h.Fields()[i])
  {
    var fields := h.Fields();
    var s := MAGIC + Encode(fields) + rest;
    EncodedField(fields, i, rest);
    Pow16Values();
    HexReads(fields[i], 8);
    hide Encode, Hex, HexValue;
    assert s[6 + 8 * i..14 + 8 * i] == (Encode(fields) + rest)[8 * i..8 * i + 8];
  }

  /** The offset of a record's data. */
  function DataStart(name: nat): nat {
    HEADER + name + Gap4(HEADER + name)
  }

  /** The parts of a printed record, where a reader looks for them. */
  ghost predicate LaidOut(s: Bytes, h: NewcHeader, data: Bytes, rest: Bytes)
    requires h.Ok()
  {
    var start := DataStart(|h.name| + 1);
    && |s| >= HEADER && s[..6] == MAGIC
    && s == MAGIC + Encode(h.Fields()) + s[HEADER..]
    && start + |data| + Gap4(|data|) <= |s|
    && s[HEADER..HEADER + |h.name|] == h.name && s[HEADER + |h.name|] == 0
    && s[start..start + |data|] == data
    && s[start + |data| + Gap4(|data|)..] == rest
  }

  lemma HeaderLayout(h: NewcHeader, t: Bytes)
    requires h.Ok()
    ensures |HeaderBytes(h)| == DataStart(|h.name| + 1)
    ensures var s := HeaderBytes(h) + t;
            && |s| >= HEADER && s[..6] == MAGIC
            && s == MAGIC + Encode(h.Fields()) + s[HEADER..]
            && s[HEADER..HEADER + |h.name|] == h.name && s[HEADER + |h.name|] == 0
            && s[|HeaderBytes(h)|..] == t
  {
    hide Encode, NewcHeader.Fields, Gap4, Zeros;
    var s := HeaderBytes(h) + t;
    assert s[..6] == MAGIC;
    assert s[6..HEADER] == Encode(h.Fields());
  }

  lemma DataLayout(data: Bytes, rest: Bytes)
    ensures var t := (if data == [] then [] else DataBytes(data)) + rest;
            && |data| + Gap4(|data|) <= |t| && t[..|data|] == data && t[|data| + Gap4(|data|)..] == rest
  {
    if data == [] {
      assert [] + rest == rest;
    }
  }

  lemma PrintSplit(r: Record, rest: Bytes)
    requires r.Ok()
    ensures r.Print() + rest == HeaderBytes(r.header) + ((if r.data == [] then [] else DataBytes(r.data)) + rest)
  {
    hide HeaderBytes, DataBytes;
  }

  lemma Shifted(a: Bytes, t: Bytes, k: nat, m: nat)
    requires k <= m <= |t|
    ensures (a + t)[|a|..|a| + k] == t[..k] && (a + t)[|a| + m..] == t[m..]
  {
  }

  lemma LayoutOfParts(h: NewcHeader, head: Bytes, t: Bytes, data: Bytes, rest: Bytes)
    requires h.Ok() && head == HeaderBytes(h)
    requires |data| + Gap4(|data|) <= |t| && t[..|data|] == data && t[|data| + Gap4(|data|)..] == rest
    ensures LaidOut(head + t, h, data, rest)
  {
    HeaderLayout(h, t);
    Shifted(head, t, |data|, |data| + Gap4(|data|));
    hide HeaderBytes, Encode, NewcHeader.Fields, Gap4, DataStart;
  }

  lemma Layout(h: NewcHeader, data: Bytes, rest: Bytes)
    requires Record(h, data).Ok()
    ensures LaidOut(Record(h, data).Print() + rest, h, data, rest)
  {
    hide LaidOut, HeaderBytes, DataBytes, Record.Print;
    var t := (if data == [] then [] else DataBytes(data)) + rest;
    PrintSplit(Record(h, data), rest);
    DataLayout(data, rest);
    LayoutOfParts(h, HeaderBytes(h), t, data, rest);
  }

  lemma {:induction false} FieldsRead(h: NewcHeader, rest: Bytes, k: nat)
    requires h.Ok() && k <= 13 && |MAGIC + Encode(h.Fields()) + rest| >= HEADER
    ensures FieldsOf(MAGIC + Encode(h.Fields()) + rest, k) == Some(h.Fields()[..k])
    decreases k
  {
    hide Field, Encode, NewcHeader.Fields;
    if k > 0 {
      FieldsRead(h, rest, k - 1);
      FieldReads(h, rest, k - 1);
      assert h.Fields()[..k] == h.Fields()[..k - 1] + [h.Fields()[k - 1]];
    }
  }

  lemma Assembled(s: Bytes, h: NewcHeader, data: Bytes, rest: Bytes)
    requires Record(h, data).Ok() && LaidOut(s, h, data, rest) && FieldsOf(s, 13) == Some(h.Fields())
    ensures ReadRecord(s) == Some(Unpacked(Record(h, data), 0, 0, rest))
  {
    hide Encode, FieldsOf, Gap4;
  }

  /** A printed record reads back, fields, name and data, and leaves what follows. */
  lemma RecordReads(r: Record, rest: Bytes)
    requires r.Ok()
    ensures ReadRecord(r.Print() + rest) == Some(Unpacked(r, 0, 0, rest))
  {
    hide Encode, Record.Print, FieldsOf, ReadRecord, NewcHeader.Fields;
    var s := r.Print() + rest;
    Layout(r.header, r.data, rest);
    FieldsRead(r.header, s[HEADER..], 13);
    assert r.header.Fields()[..13] == r.header.Fields();
    Assembled(s, r.header, r.data, rest);
  }

  lemma Fours(a: nat, b: nat)
    requires a % 4 == 0 && b % 4 == 0
    ensures (a + b) % 4 == 0
  {
  }

  function PrintAll(records: seq<Record>): (s: Bytes)
    requires forall r :: r in records ==> r.Ok()
    ensures |s| % 4 == 0
  {
    if records == [] then []
    else
      var a, b := records[0].Print(), PrintAll(records[1..]);
      Fours(|a|, |b|);
      a + b
  }

  /** An archive unpacks to the records it was written from, in order. */
  lemma {:induction false} ArchiveUnpacks(records: seq<Record>, rest: Bytes)
    requires forall r :: r in records ==> r.Ok() && r.header.name != TRAILER
    requires END.Ok()
    ensures Unpack(PrintAll(records) + (END.Print() + rest)) == Some(records)
    decreases |records|
  {
    hide ReadRecord, Record.Print;
    var tail := END.Print() + rest;
    if records == [] {
      assert PrintAll(records) + tail == tail;
      RecordReads(END, rest);
    } else {
      var r, more := records[0], records[1..];
      assert r in records;
      ArchiveUnpacks(more, rest);
      RecordReads(r, PrintAll(more) + tail);
      assert PrintAll(records) + tail == r.Print() + (PrintAll(more) + tail);
      assert [r] + more == records;
    }
  }

  lemma {:induction false} NoTrailerUnpacked(s: Bytes)
    ensures Unpack(s).Some? ==> forall r :: r in Unpack(s).value ==> r.header.name != TRAILER
    decreases |s|
  {
    hide ReadRecord;
    var u := ReadRecord(s);
    if u.Some? && u.value.record.header.name != TRAILER {
      RestIsShorter(s);
      NoTrailerUnpacked(u.value.rest);
    }
  }

  lemma RestIsShorter(s: Bytes)
    ensures ReadRecord(s).Some? ==> |ReadRecord(s).value.rest| < |s|
  {
  }

  /** ...exactly when none of them is named like the trailer. */
  lemma UnpacksIff(records: seq<Record>, rest: Bytes)
    requires (forall r :: r in records ==> r.Ok()) && END.Ok()
    ensures Unpack(PrintAll(records) + (END.Print() + rest)) == Some(records)
            <==> forall r :: r in records ==> r.header.name != TRAILER
  {
    hide Unpack, PrintAll, Record.Print;
    NoTrailerUnpacked(PrintAll(records) + (END.Print() + rest));
    if forall r :: r in records ==> r.header.name != TRAILER {
      ArchiveUnpacks(records, rest);
    }
  }
}
