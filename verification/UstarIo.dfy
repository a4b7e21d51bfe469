/** Writing and reading a USTAR file: the header filled in place, the writer that hashes
    what it passes on, and the cursor over an archive's members. */
module UstarIo {
  import opened Prelude
  import opened Ustar

  // The header, in place.

  /** `s` with `field` laid over it at `at`. */
  function Splice(s: Bytes, at: nat, field: Bytes): (t: Bytes)
    requires at + |field| <= |s|
    ensures |t| == |s|
  {
    s[..at] + field + s[at + |field|..]
  }

  method Put(h: array<byte>, at: nat, field: Bytes)
    requires at + |field| <= h.Length
    modifies h
    ensures h[..] == Splice(old(h[..]), at, field)
  {
    for i := 0 to |field|
      invariant forall k :: 0 <= k < h.Length ==>
                  h[k] == if at <= k < at + i then field[k - at] else old(h[k])
    {
      h[at + i] := field[i];
    }
  }

  method WriteOctal(h: array<byte>, at: nat, val: nat, digits: nat)
    requires at + digits + 1 <= h.Length && val < Pow8(digits)
    modifies h
    ensures h[..] == Splice(old(h[..]), at, Octal(val, digits) + [0])
  {
    Put(h, at, Octal(val, digits) + [0]);
  }

  lemma Extend(done: Bytes, n: nat, field: Bytes)
    requires |field| <= n
    ensures Splice(done + Zeros(n), |done|, field) == done + field + Zeros(n - |field|)
  {
  }

  method SumOf(h: array<byte>) returns (sum: nat)
    ensures sum == Sum(h[..])
  {
    sum := 0;
    var i := h.Length;
    while i > 0
      invariant 0 <= i <= h.Length && sum == Sum(h[i..])
    {
      i := i - 1;
      assert h[i..][1..] == h[i + 1..];
      sum := h[i] + sum;
    }
  }

  lemma FourFields(name: Bytes, size: nat)
    requires |name| <= 100
    ensures name + Zeros(100 - |name|) + (Octal(420, 7) + [0]) + (Octal(0, 7) + [0]) + (Octal(0, 7) + [0])
            + (Octal(size, 11) + [0]) + (Octal(0, 11) + [0]) == Leading(name, size)
  {
  }

  method PutLeading(h: array<byte>, name: Bytes, size: nat)
    requires h.Length == BLOCK && h[..] == Zeros(BLOCK)
    requires |name| <= 100 && size <= MAX_MEMBER_SIZE
    modifies h
    ensures h[..] == Leading(name, size) + Zeros(364)
  {
    hide Octal, Zeros;
    Pow8Values();
    ghost var done := [];
    assert h[..] == done + Zeros(512);
    Put(h, 0, name);
    Extend(done, 512, name);
    done := name + Zeros(100 - |name|);
    ZerosSplit(name, 512 - |name|, 100 - |name|);
    assert [] + name == name;
    assert h[..] == done + Zeros(412);
    Extend(done, 412, Octal(420, 7) + [0]);
    WriteOctal(h, 100, 420, 7);
    done := done + (Octal(420, 7) + [0]);
    Extend(done, 404, Octal(0, 7) + [0]);
    WriteOctal(h, 108, 0, 7);
    done := done + (Octal(0, 7) + [0]);
    Extend(done, 396, Octal(0, 7) + [0]);
    WriteOctal(h, 116, 0, 7);
    done := done + (Octal(0, 7) + [0]);
    Extend(done, 388, Octal(size, 11) + [0]);
    WriteOctal(h, 124, size, 11);
    done := done + (Octal(size, 11) + [0]);
    Extend(done, 376, Octal(0, 11) + [0]);
    WriteOctal(h, 136, 0, 11);
    done := done + (Octal(0, 11) + [0]);
    FourFields(name, size);
  }

  lemma ZerosSplit(s: Bytes, n: nat, k: nat)
    requires k <= n
    ensures s + Zeros(n) == s + Zeros(k) + Zeros(n - k)
  {
  }

  method PutTrailing(h: array<byte>, ghost done: Bytes)
    requires h.Length == BLOCK && |done| == 148 && h[..] == done + Zeros(364)
    modifies h
    ensures h[..] == done + SPACES8 + Trailing()
  {
    hide Zeros;
    ghost var d := done;
    Extend(d, 364, SPACES8);
    Put(h, 148, SPACES8);
    d := d + SPACES8;
    Extend(d, 356, [ASCII_ZERO]);
    Put(h, 156, [ASCII_ZERO]);
    d := d + [ASCII_ZERO];
    ZerosSplit(d, 355, 100);
    d := d + Zeros(100);
    Extend(d, 255, MAGIC);
    Put(h, 257, MAGIC);
    d := d + MAGIC;
    Extend(d, 249, [ASCII_ZERO, ASCII_ZERO]);
    Put(h, 263, [ASCII_ZERO, ASCII_ZERO]);
    d := d + [ASCII_ZERO, ASCII_ZERO];
    assert d + Zeros(247) == done + SPACES8 + Trailing();
  }

  /** The header of a member, its checksum written last over the blanks it summed. */
  method UstarHeader(name: Bytes, size: nat) returns (h: array<byte>)
    requires |name| <= 100 && size <= MAX_MEMBER_SIZE
    ensures fresh(h) && h[..] == Header(name, size)
  {
    hide Leading, Trailing, Sum, Octal;
    h := new byte[BLOCK](_ => 0);
    assert h[..] == Zeros(BLOCK);
    PutLeading(h, name, size);
    PutTrailing(h, Leading(name, size));
    var sum := SumOf(h);
    Pow8Values();
    WriteOctal(h, 148, sum, 6);
    Put(h, 155, [ASCII_SPACE]);
    ChecksumOver(Leading(name, size), Octal(sum, 6), Trailing());
  }

  lemma ChecksumOver(a: Bytes, digits: Bytes, z: Bytes)
    requires |a| == 148 && |digits| == 6 && |z| == 356
    ensures Splice(Splice(a + SPACES8 + z, 148, digits + [0]), 155, [ASCII_SPACE])
         == a + (digits + [0, ASCII_SPACE]) + z
  {
  }

  // The writer.

  /** A sink that takes what it can of each write, and what has gone through: the
      bytes hashed and counted are those the sink took. */
  class HashingWriter {
    var sink: Bytes
    var hashed: Bytes
    var len: nat
    ghost var failures: nat  // writes that the sink refused

    ghost predicate Valid()
      reads this
    {
      hashed == sink && len == |sink|
    }

    constructor ()
      ensures Valid() && sink == [] && failures == 0
    {
      sink, hashed, len, failures := [], [], 0, 0;
    }

    method Write(buf: Bytes) returns (n: Option<nat>)
      requires Valid()
      modifies this
      ensures Valid()
      ensures n.None? ==> sink == old(sink)
      ensures n.Some? ==> n.value <= |buf| && sink == old(sink) + buf[..n.value]
      ensures n.Some? && buf != [] ==> n.value > 0
      ensures failures == if n.Some? then old(failures) else old(failures) + 1
    {
      var k: int := *;
      if k < 0 || k > |buf| || (k == 0 && buf != []) {
        failures := failures + 1;
        return None;
      }
      sink := sink + buf[..k];
      hashed := hashed + buf[..k];
      len := len + k;
      return Some(k);
    }

    /** Everything, in as many writes as it takes. */
    method WriteAll(buf: Bytes) returns (ok: bool)
      requires Valid()
      modifies this
      ensures Valid()
      ensures ok ==> sink == old(sink) + buf
      ensures old(sink) <= sink <= old(sink) + buf
      ensures old(failures) <= failures && (ok <==> failures == old(failures))
    {
      var done: nat := 0;
      while done < |buf|
        invariant Valid() && done <= |buf| && sink == old(sink) + buf[..done] && failures == old(failures)
      {
        var n := Write(buf[done..]);
        if n.None? {
          return false;
        }
        assert buf[..done] + buf[done..][..n.value] == buf[..done + n.value];
        done := done + n.value;
      }
      assert buf[..|buf|] == buf;
      ok := true;
    }

    method WriteMember(m: Member) returns (ok: bool)
      requires Valid() && m.Ok()
      modifies this
      ensures Valid()
      ensures ok ==> sink == old(sink) + m.Blocks()
      ensures old(failures) <= failures && (ok <==> failures == old(failures))
    {
      hide Header;
      ghost var before := sink;
      var h := UstarHeader(m.name, |m.data|);
      ok := WriteAll(h[..]);
      if ok {
        ok := WriteAll(m.data);
      }
      var rem := |m.data| % BLOCK;
      if ok && rem != 0 {
        ok := WriteAll(Zeros(BLOCK - rem));
      }
      if ok {
        Joined(before, Header(m.name, |m.data|), m.data, Padding(|m.data|));
      }
    }
  }

  lemma Joined(a: Bytes, b: Bytes, c: Bytes, d: Bytes)
    ensures a + b + c + d == a + (b + c + d)
    ensures d == [] ==> a + b + c == a + (b + c + d)
  {
  }

  // The reader.

  const CHUNK: nat := 0x1_0000

  class Entries {
    const file: Bytes
    var nextHeader: Option<nat>

    constructor (file: Bytes)
      ensures this.file == file && nextHeader == Some(0)
    {
      this.file := file;
      nextHeader := Some(0);
    }

    /** The entries still to come. */
    ghost function Rest(): Scan
      reads this
    {
      if nextHeader.Some? then ScanFrom(file, nextHeader.value) else Scan([], None)
    }

    /** The bytes still ahead of the cursor. */
    ghost function Left(): nat
      reads this
    {
      if nextHeader.Some? && nextHeader.value < |file| then |file| - nextHeader.value else 0
    }

    /** The next entry; after an error or the end there is none. */
    method Next() returns (item: Option<Result<Entry, TarError>>)
      modifies this
      ensures item.None? ==> old(Rest()) == Scan([], None) && Rest() == Scan([], None)
      ensures item.Some? && item.value.Err? ==>
                old(Rest()) == Scan([], Some(item.value.error)) && Rest() == Scan([], None)
      ensures item.Some? && item.value.Ok? ==>
                old(Rest()) == Scan([item.value.value] + Rest().entries, Rest().error)
      ensures item.Some? && item.value.Ok? ==> Left() < old(Left())
      ensures Left() <= old(Left())
    {
      if nextHeader.None? {
        return None;
      }
      var off := nextHeader.value;
      nextHeader := None;
      match ReadHeader(file, off)
      case Err(e) => item := Some(Err(e));
      case Ok(None) => item := None;
      case Ok(Some(e)) =>
        nextHeader := Some(e.dataOffset + Padded(e.size));
        item := Some(Ok(e));
    }

    method Read(e: Entry) returns (r: Result<Bytes, TarError>)
      ensures r == if InFile(file, e) then Ok(Content(file, e)) else Err(PastEnd)
    {
      if e.dataOffset + e.size > |file| {
        return Err(PastEnd);
      }
      r := Ok(file[e.dataOffset..e.dataOffset + e.size]);
    }

    /** The content's hash, fed in chunks. */
    method Sha256<H>(e: Entry, hash: Bytes -> H) returns (r: Result<H, TarError>)
      ensures r == if InFile(file, e) then Ok(hash(Content(file, e))) else Err(PastEnd)
    {
      if e.dataOffset + e.size > |file| {
        return Err(PastEnd);
      }
      var fed, remaining, at := [], e.size, e.dataOffset;
      while remaining > 0
        invariant 0 <= remaining <= e.size && at == e.dataOffset + (e.size - remaining)
        invariant fed == file[e.dataOffset..at]
      {
        var want := Min(remaining, CHUNK);
        assert file[e.dataOffset..at + want] == file[e.dataOffset..at] + file[at..at + want];
        fed := fed + file[at..at + want];
        at, remaining := at + want, remaining - want;
      }
      r := Ok(hash(fed));
    }
  }
}
