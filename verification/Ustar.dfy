/** The USTAR container (ustar interchange format of the `pax` utility, POSIX.1): one
    512-byte header per member, its content zero-padded to whole blocks, and two zero
    blocks at the end. */
module Ustar {
  import opened Prelude

  type Bytes = seq<byte>

  const BLOCK: nat := 512
  const MAX_MEMBER_SIZE: nat := 0x1_ffff_ffff // eleven octal digits
  const ASCII_SPACE: byte := 32
  const ASCII_ZERO: byte := 48
  const ASCII_PLUS: byte := 43

  datatype TarError = TruncatedHeader | BadMagic | BadOctal | BadChecksum | PastEnd

  function Zeros(n: nat): (z: Bytes)
    ensures |z| == n && forall i :: 0 <= i < n ==> z[i] == 0
  {
    seq(n, _ => 0)
  }

  // Octal fields.

  function Pow8(n: nat): nat {
    if n == 0 then 1 else 8 * Pow8(n - 1)
  }

  function Octal(val: nat, digits: nat): (s: Bytes)
    ensures |s| == digits && forall i :: 0 <= i < digits ==> 48 <= s[i] <= 55
  {
    if digits == 0 then [] else Octal(val / 8, digits - 1) + [48 + val % 8]
  }

  function OctalValue(s: Bytes): Option<nat> {
    if s == [] then Some(0)
    else
      var d := s[|s| - 1];
      match OctalValue(s[..|s| - 1])
      case None => None
      case Some(high) => if 48 <= d <= 55 then Some(8 * high + (d - 48)) else None
  }

  /** The field up to its first NUL. */
  function ParseStr(field: Bytes): (s: Bytes)
    ensures s <= field
  {
    if field == [] || field[0] == 0 then [] else [field[0]] + ParseStr(field[1..])
  }

  function TrimLeft(s: Bytes): (t: Bytes)
    ensures |t| <= |s|
  {
    if s != [] && s[0] == ASCII_SPACE then TrimLeft(s[1..]) else s
  }

  function TrimRight(s: Bytes): (t: Bytes)
    ensures |t| <= |s|
  {
    if s != [] && s[|s| - 1] == ASCII_SPACE then TrimRight(s[..|s| - 1]) else s
  }

  /** An octal number between spaces, with an optional plus sign; nothing at all
      counts as zero. */
  function ParseOctal(field: Bytes): (r: Result<u64, TarError>)
    ensures r.Ok? ==> r.value < Pow8(|field|)
  {
    var s := TrimRight(TrimLeft(ParseStr(field)));
    Pow8Grows(0, |field|);
    if s == [] then Ok(0)
    else
      var t := if s[0] == ASCII_PLUS && |s| > 1 then s[1..] else s;
      OctalBound(t);
      Pow8Grows(|t|, |field|);
      match OctalValue(t)
      case None => Err(BadOctal)
      case Some(v) => if v < TWO64 then Ok(v) else Err(BadOctal)
  }

  lemma {:induction false} Pow8Grows(a: nat, b: nat)
    requires a <= b
    ensures 1 <= Pow8(a) <= Pow8(b)
    decreases b
  {
    if a < b {
      Pow8Grows(a, b - 1);
    } else if b > 0 {
      Pow8Grows(a - 1, b - 1);
    }
  }

  lemma {:induction false} OctalBound(s: Bytes)
    ensures OctalValue(s).Some? ==> OctalValue(s).value < Pow8(|s|)
  {
    if s != [] {
      OctalBound(s[..|s| - 1]);
    }
  }

  lemma {:induction false} OctalValueOf(val: nat, digits: nat)
    requires val < Pow8(digits)
    ensures OctalValue(Octal(val, digits)) == Some(val)
  {
    if digits > 0 {
      OctalValueOf(val / 8, digits - 1);
      var s := Octal(val, digits);
      assert s[..|s| - 1] == Octal(val / 8, digits - 1);
    }
  }

  lemma {:induction false} ParseStrUpTo(s: Bytes, rest: Bytes)
    requires 0 !in s
    ensures ParseStr(s + [0] + rest) == s
    ensures ParseStr(s) == s
  {
    if s == [] {
      assert s + [0] + rest == [0] + rest;
    } else {
      assert (s + [0] + rest)[1..] == s[1..] + [0] + rest;
      ParseStrUpTo(s[1..], rest);
    }
  }

  /** A written octal field reads back as the number, whatever follows its NUL. */
  lemma OctalReads(val: nat, digits: nat, rest: Bytes)
    requires digits > 0 && val < Pow8(digits) && val < TWO64
    ensures ParseOctal(Octal(val, digits) + [0] + rest) == Ok(val)
  {
    var s := Octal(val, digits);
    ParseStrUpTo(s, rest);
    OctalValueOf(val, digits);
    hide Octal, OctalValue;
    assert TrimLeft(s) == s && TrimRight(s) == s;
  }

  lemma Pow8Values()
    ensures Pow8(6) == 0x4_0000 && Pow8(7) == 0x20_0000 && Pow8(11) == MAX_MEMBER_SIZE + 1
    ensures Pow8(12) == 0x10_0000_0000
  {
    assert Pow8(3) == 512;
    assert Pow8(9) == 0x800_0000;
  }

  // The header.

  function Sum(s: Bytes): (n: nat)
    ensures n <= 255 * |s|
  {
    if s == [] then 0 else s[0] + Sum(s[1..])
  }

  const MAGIC: Bytes := [117, 115, 116, 97, 114, 0]   // "ustar" and a NUL
  const SPACES8: Bytes := [32, 32, 32, 32, 32, 32, 32, 32]

  predicate NameOk(name: Bytes) {
    |name| <= 100 && 0 !in name
  }

  /** Name, mode 0644, uid and gid 0, size, mtime 0. */
  function Leading(name: Bytes, size: nat): (s: Bytes)
    requires |name| <= 100
    ensures |s| == 148
  {
    name + Zeros(100 - |name|)
    + (Octal(420, 7) + [0]) + (Octal(0, 7) + [0]) + (Octal(0, 7) + [0])
    + (Octal(size, 11) + [0]) + (Octal(0, 11) + [0])
  }

  /** Type flag, no link, magic and version, the rest zero. */
  function Trailing(): (s: Bytes)
    ensures |s| == 356
  {
    [ASCII_ZERO] + Zeros(100) + MAGIC + [ASCII_ZERO, ASCII_ZERO] + Zeros(247)
  }

  /** The header as it is summed, with spaces for the checksum. */
  function Blank(name: Bytes, size: nat): (s: Bytes)
    requires |name| <= 100
    ensures |s| == BLOCK
  {
    Leading(name, size) + SPACES8 + Trailing()
  }

  function Checksum(name: Bytes, size: nat): (s: Bytes)
    requires |name| <= 100
    ensures |s| == 8
  {
    Octal(Sum(Blank(name, size)), 6) + [0, ASCII_SPACE]
  }

  function Header(name: Bytes, size: nat): (h: Bytes)
    requires |name| <= 100
    ensures |h| == BLOCK
  {
    Leading(name, size) + Checksum(name, size) + Trailing()
  }

  /** One member: header, content, padding. */
  function Padding(size: nat): (p: Bytes)
    ensures (size + |p|) % BLOCK == 0 && |p| < BLOCK
  {
    if size % BLOCK == 0 then [] else Zeros(BLOCK - size % BLOCK)
  }

  datatype Member = Member(name: Bytes, data: Bytes)
  {
    predicate Ok() {
      NameOk(name) && |data| <= MAX_MEMBER_SIZE
    }

    function Blocks(): Bytes
      requires Ok()
    {
      Header(name, |data|) + data + Padding(|data|)
    }
  }

  /** Content length in whole blocks. */
  function Padded(size: nat): (n: nat)
    ensures n % BLOCK == 0 && size <= n < size + BLOCK
  {
    size + (BLOCK - size % BLOCK) % BLOCK
  }

  // Reading.

  datatype Entry = Entry(name: Bytes, size: nat, dataOffset: nat)

  /** The checksum a header block should carry. */
  function Probe(block: Bytes): Bytes
    requires |block| == BLOCK
  {
    block[..148] + SPACES8 + block[156..]
  }

  /** The header at `off`: none at a zero block or the end of the file. */
  function ReadHeader(file: Bytes, off: nat): (r: Result<Option<Entry>, TarError>)
    ensures r.Ok? && r.value.Some? ==> r.value.value.dataOffset == off + BLOCK <= |file|
    ensures r.Ok? && r.value.Some? ==> r.value.value.size < 0x10_0000_0000
  {
    if off >= |file| then Ok(None)
    else if |file| - off < BLOCK then Err(TruncatedHeader)
    else
      var h := file[off..off + BLOCK];
      if forall b :: b in h ==> b == 0 then Ok(None)
      else if h[257..262] != MAGIC[..5] then Err(BadMagic)
      else
        match ParseOctal(h[148..156])
        case Err(e) => Err(e)
        case Ok(stored) =>
          if Sum(Probe(h)) != stored then Err(BadChecksum)
          else
            match ParseOctal(h[124..136])
            case Err(e) => Err(e)
            case Ok(size) =>
              Pow8Values();
              Ok(Some(Entry(ParseStr(h[..100]), size, off + BLOCK)))
  }

  datatype Scan = Scan(entries: seq<Entry>, error: Option<TarError>)

  /** Every entry from `off` on. Each header is followed by the next one at least a
      block later, so this ends on any bytes whatever. */
  function ScanFrom(file: Bytes, off: nat): Scan
    decreases if off <= |file| then |file| - off else 0
  {
    match ReadHeader(file, off)
    case Err(e) => Scan([], Some(e))
    case Ok(None) => Scan([], None)
    case Ok(Some(e)) =>
      var more := ScanFrom(file, e.dataOffset + Padded(e.size));
      Scan([e] + more.entries, more.error)
  }

  predicate InFile(file: Bytes, e: Entry) {
    e.dataOffset + e.size <= |file|
  }

  function Content(file: Bytes, e: Entry): Bytes
    requires InFile(file, e)
  {
    file[e.dataOffset..e.dataOffset + e.size]
  }

  // Round trip.

  /** The fields of a header, where a reader looks for them. */
  lemma LeadingFields(name: Bytes, size: nat)
    requires |name| <= 100
    ensures Leading(name, size)[..100] == name + Zeros(100 - |name|)
    ensures Leading(name, size)[124..136] == Octal(size, 11) + [0]
  {
    hide Octal;
  }

  lemma TrailingFields()
    ensures Trailing()[101..106] == MAGIC[..5]
  {
  }

  lemma HeaderFields(name: Bytes, size: nat)
    requires |name| <= 100
    ensures var h := Header(name, size);
            && h[..100] == name + Zeros(100 - |name|)
            && h[124..136] == Octal(size, 11) + [0]
            && h[148..156] == Checksum(name, size)
            && h[257..262] == MAGIC[..5]
            && Probe(h) == Blank(name, size)
  {
    LeadingFields(name, size);
    TrailingFields();
    hide Leading, Trailing, Checksum;
    var h := Header(name, size);
    assert h[..100] == Leading(name, size)[..100];
    assert h[124..136] == Leading(name, size)[124..136];
    assert h[257..262] == Trailing()[101..106];
    assert h[..148] == Leading(name, size) && h[156..] == Trailing();
  }

  lemma NameReads(name: Bytes)
    requires NameOk(name)
    ensures ParseStr(name + Zeros(100 - |name|)) == name
  {
    if |name| < 100 {
      assert name + Zeros(100 - |name|) == name + [0] + Zeros(99 - |name|);
      ParseStrUpTo(name, Zeros(99 - |name|));
    } else {
      assert name + Zeros(100 - |name|) == name;
      ParseStrUpTo(name, []);
    }
  }

  lemma ChecksumReads(name: Bytes, size: nat)
    requires |name| <= 100
    ensures ParseOctal(Checksum(name, size)) == Ok(Sum(Blank(name, size)))
  {
    hide Blank, Octal, ParseOctal;
    Pow8Values();
    var sum := Sum(Blank(name, size));
    assert Checksum(name, size) == Octal(sum, 6) + [0] + [ASCII_SPACE];
    OctalReads(sum, 6, [ASCII_SPACE]);
  }

  /** A header reads back as the name and size it was built for. */
  lemma HeaderReads(file: Bytes, off: nat, name: Bytes, size: nat)
    requires NameOk(name) && size <= MAX_MEMBER_SIZE
    requires off + BLOCK <= |file| && file[off..off + BLOCK] == Header(name, size)
    ensures ReadHeader(file, off) == Ok(Some(Entry(name, size, off + BLOCK)))
  {
    HeaderFields(name, size);
    NameReads(name);
    ChecksumReads(name, size);
    Pow8Values();
    OctalReads(size, 11, []);
    assert Octal(size, 11) + [0] + [] == Octal(size, 11) + [0];
    hide Header, Checksum, Blank, Octal, ParseOctal, Probe, ParseStr, Sum;
    var h := file[off..off + BLOCK];
    assert h[257] == h[257..262][0] == 117;
    assert h[257] in h;
  }

  /** Where the members of an archive start. */
  function Archive(members: seq<Member>): Bytes
    requires forall m :: m in members ==> m.Ok()
  {
    if members == [] then Zeros(2 * BLOCK)
    else members[0].Blocks() + Archive(members[1..])
  }

  /** The entries a reader finds from offset `off`. */
  function Located(members: seq<Member>, off: nat): seq<Entry> {
    if members == [] then []
    else
      var m := members[0];
      [Entry(m.name, |m.data|, off + BLOCK)] + Located(members[1..], off + BLOCK + Padded(|m.data|))
  }

  lemma PaddedIs(size: nat)
    ensures Padded(size) == size + |Padding(size)|
  {
  }

  lemma TrailerEnds(file: Bytes, off: nat)
    requires off + 2 * BLOCK == |file| && file[off..] == Zeros(2 * BLOCK)
    ensures ReadHeader(file, off) == Ok(None)
  {
    var h := file[off..off + BLOCK];
    assert h == file[off..][..BLOCK];
  }

  /** Writing members and scanning the archive finds them all, in order, and nothing
      else. */
  lemma {:induction false} ArchiveScans(file: Bytes, off: nat, members: seq<Member>)
    requires forall m :: m in members ==> m.Ok()
    requires off <= |file| && file[off..] == Archive(members)
    ensures ScanFrom(file, off) == Scan(Located(members, off), None)
    decreases |members|
  {
    hide ReadHeader, Header, Padding, Padded, Member.Blocks;
    if members == [] {
      TrailerEnds(file, off);
    } else {
      var m, more := members[0], members[1..];
      assert m in members;
      MemberAt(file, off, m, Archive(more));
      HeaderReads(file, off, m.name, |m.data|);
      ArchiveScans(file, off + BLOCK + Padded(|m.data|), more);
    }
  }

  /** ...each with the content it was written with. */
  lemma {:induction false} ArchiveHolds(file: Bytes, off: nat, members: seq<Member>, i: nat)
    requires (forall m :: m in members ==> m.Ok()) && i < |members|
    requires off <= |file| && file[off..] == Archive(members)
    ensures |Located(members, off)| == |members|
    ensures var e := Located(members, off)[i];
            e.name == members[i].name && InFile(file, e) && Content(file, e) == members[i].data
    decreases |members|
  {
    hide Header, Padding, Padded, Member.Blocks;
    var m, more := members[0], members[1..];
    assert m in members;
    MemberAt(file, off, m, Archive(more));
    if more != [] {
      ArchiveHolds(file, off + BLOCK + Padded(|m.data|), more, if i > 0 then i - 1 else 0);
    }
  }

  lemma MemberAt(file: Bytes, off: nat, m: Member, rest: Bytes)
    requires m.Ok() && off <= |file| && file[off..] == m.Blocks() + rest
    ensures off + BLOCK + Padded(|m.data|) <= |file|
    ensures file[off..off + BLOCK] == Header(m.name, |m.data|)
    ensures file[off + BLOCK..off + BLOCK + |m.data|] == m.data
    ensures file[off + BLOCK + Padded(|m.data|)..] == rest
  {
    PaddedIs(|m.data|);
    hide Header, Padding, Padded;
    var tail := file[off..];
    var n := |m.data|;
    Slices(Header(m.name, n), m.data, Padding(n), rest);
    assert file[off..off + BLOCK] == tail[..BLOCK];
    assert file[off + BLOCK..off + BLOCK + n] == tail[BLOCK..BLOCK + n];
    assert file[off + BLOCK + Padded(n)..] == tail[BLOCK + Padded(n)..];
  }

  lemma Slices(a: Bytes, b: Bytes, c: Bytes, d: Bytes)
    ensures var t := (a + b + c) + d;
            && t[..|a|] == a && t[|a|..|a| + |b|] == b && t[|a| + |b| + |c|..] == d
  {
  }
}
