/** The sealed artifact: four members in canonical order behind a manifest of their
    hashes, and the readers that take it apart and check it. The hash, the manifest's
    JSON and what the manifest says besides hashes are parameters. */
module Artifact {
  import opened Prelude
  import opened Ustar
  import opened UstarIo

  const FORMAT_VERSION: nat := 1

  const MANIFEST: Bytes := [109, 97, 110, 105, 102, 101, 115, 116, 46, 106, 115, 111, 110]
  const COMPOSE_LOCK: Bytes := [99, 111, 109, 112, 111, 115, 101, 46, 108, 111, 99, 107, 46, 121, 109, 108]
  const KERNEL: Bytes := [107, 101, 114, 110, 101, 108]
  const INITRAMFS: Bytes := [105, 110, 105, 116, 114, 97, 109, 102, 115]

  lemma NamesOk()
    ensures NameOk(MANIFEST) && NameOk(COMPOSE_LOCK) && NameOk(KERNEL) && NameOk(INITRAMFS)
    ensures |MANIFEST| == 13 && |COMPOSE_LOCK| == 16 && |KERNEL| == 6 && |INITRAMFS| == 9
  {
  }

  datatype Record<H> = Record(name: Bytes, size: nat, sha: H)

  /** `about` is everything that is not an integrity record. */
  datatype Manifest<H, A> = Manifest(formatVersion: nat, about: A, members: seq<Record<H>>)

  datatype Codec<!H, !A> = Codec(encode: Manifest<H, A> -> Option<Bytes>, decode: Bytes -> Option<Manifest<H, A>>)

  /** The JSON library's promise: what it printed, it parses. */
  ghost predicate RoundTrips<H(!new), A(!new)>(c: Codec<H, A>) {
    forall m :: c.encode(m).Some? ==> c.decode(c.encode(m).value) == Some(m)
  }

  datatype ArtifactError =
    | Tar(error: TarError)
    | TooLarge(name: Bytes)
    | CannotEncode
    | BadManifest
    | BadVersion(version: nat)
    | Missing(name: Bytes)
    | NoRecord(name: Bytes)
    | HashMismatch(name: Bytes)

  function FromBytes<H, A>(c: Codec<H, A>, bytes: Bytes): Result<Manifest<H, A>, ArtifactError> {
    match c.decode(bytes)
    case None => Err(BadManifest)
    case Some(m) => if m.formatVersion == FORMAT_VERSION then Ok(m) else Err(BadVersion(m.formatVersion))
  }

  // Sealing and writing.

  datatype Payloads = Payloads(composeLock: Bytes, kernel: Bytes, initramfs: Bytes)
  {
    function Members(): seq<Member> {
      [Member(COMPOSE_LOCK, composeLock), Member(KERNEL, kernel), Member(INITRAMFS, initramfs)]
    }
  }

  datatype Sealed = Sealed(manifestJson: Bytes, payloads: Payloads)
  {
    function Members(): seq<Member> {
      [Member(MANIFEST, manifestJson)] + payloads.Members()
    }
  }

  function RecordOf<H>(m: Member, hash: Bytes -> H): Record<H> {
    Record(m.name, |m.data|, hash(m.data))
  }

  function Records<H>(members: seq<Member>, hash: Bytes -> H): (rs: seq<Record<H>>)
    ensures |rs| == |members| && forall i :: 0 <= i < |rs| ==> rs[i] == RecordOf(members[i], hash)
  {
    seq(|members|, i requires 0 <= i < |members| => RecordOf(members[i], hash))
  }

  function ManifestOf<H, A>(about: A, p: Payloads, hash: Bytes -> H): Manifest<H, A> {
    Manifest(FORMAT_VERSION, about, Records(p.Members(), hash))
  }

  predicate WithinCap(members: seq<Member>) {
    forall m :: m in members ==> |m.data| <= MAX_MEMBER_SIZE
  }

  /** The first member over the cap is the one of that name. */
  ghost predicate FirstOver(members: seq<Member>, name: Bytes) {
    exists i :: 0 <= i < |members| && members[i].name == name && |members[i].data| > MAX_MEMBER_SIZE
                && WithinCap(members[..i])
  }

  /** Freeze the manifest from the payloads. It fails exactly when a member is over
      the cap or the manifest cannot be printed, and says which. */
  method Seal<H, A>(about: A, p: Payloads, hash: Bytes -> H, codec: Codec<H, A>)
    returns (r: Result<Sealed, ArtifactError>)
    ensures r.Ok? ==> codec.encode(ManifestOf(about, p, hash)) == Some(r.value.manifestJson)
    ensures r.Ok? ==> r.value.payloads == p && WithinCap(r.value.Members())
    ensures r.Err? ==>
              match codec.encode(ManifestOf(about, p, hash))
              case None =>
                if WithinCap(p.Members()) then r.error == CannotEncode
                else r.error.TooLarge? && FirstOver(p.Members(), r.error.name)
              case Some(json) => r.error.TooLarge? && FirstOver(p.Members() + [Member(MANIFEST, json)], r.error.name)
  {
    var members := p.Members();
    var records := [];
    for i := 0 to |members|
      invariant |records| == i
      invariant forall k :: 0 <= k < i ==> records[k] == RecordOf(members[k], hash)
      invariant forall k :: 0 <= k < i ==> |members[k].data| <= MAX_MEMBER_SIZE
    {
      if |members[i].data| > MAX_MEMBER_SIZE {
        FirstIsOver(members, i, []);
        if codec.encode(ManifestOf(about, p, hash)).Some? {
          FirstIsOver(members, i, [Member(MANIFEST, codec.encode(ManifestOf(about, p, hash)).value)]);
        }
        return Err(TooLarge(members[i].name));
      }
      records := records + [RecordOf(members[i], hash)];
    }
    assert records == Records(members, hash);
    var json := codec.encode(Manifest(FORMAT_VERSION, about, records));
    if json.None? {
      return Err(CannotEncode);
    }
    if |json.value| > MAX_MEMBER_SIZE {
      FirstIsOver(members + [Member(MANIFEST, json.value)], 3, []);
      return Err(TooLarge(MANIFEST));
    }
    r := Ok(Sealed(json.value, p));
  }

  lemma FirstIsOver(members: seq<Member>, i: nat, more: seq<Member>)
    requires i < |members| && |members[i].data| > MAX_MEMBER_SIZE
    requires forall k :: 0 <= k < i ==> |members[k].data| <= MAX_MEMBER_SIZE
    ensures FirstOver(members + more, members[i].name)
    ensures more == [] ==> FirstOver(members, members[i].name)
  {
    var all := members + more;
    assert all[i] == members[i] && WithinCap(all[..i]);
    assert more == [] ==> all == members;
  }

  /** Every member within the cap has a header. */
  lemma SealedOk(s: Sealed)
    requires WithinCap(s.Members())
    ensures forall m :: m in s.Members() ==> m.Ok()
  {
    NamesOk();
  }

  datatype Written<H> = Written(sha: H, len: nat)

  /** The archive, and its identity taken from the same pass. */
  method WriteTo<H>(s: Sealed, w: HashingWriter, hash: Bytes -> H) returns (r: Option<Written<H>>)
    requires WithinCap(s.Members()) && w.Valid() && w.sink == []
    modifies w
    ensures w.Valid() && forall m :: m in s.Members() ==> m.Ok()
    ensures r.Some? ==> w.sink == Archive(s.Members()) && r.value == Written(hash(w.sink), |w.sink|)
    ensures r.Some? <==> w.failures == old(w.failures)
  {
    SealedOk(s);
    hide Zeros, Member.Blocks, Archive;
    var members := s.Members();
    ArchiveEnd(members);
    assert members[0..] == members;
    for i := 0 to |members|
      invariant w.failures == old(w.failures)
      invariant w.Valid() && w.sink + Archive(members[i..]) == Archive(members)
    {
      assert members[i] in members;
      ghost var before := w.sink;
      ArchiveStep(before, members[i..]);
      assert members[i..][1..] == members[i + 1..];
      var ok := w.WriteMember(members[i]);
      if !ok {
        return None;
      }
    }
    assert members[|members|..] == [];
    ArchiveEnd([]);
    var ok := w.WriteAll(Zeros(2 * BLOCK));
    if !ok {
      return None;
    }
    r := Some(Written(hash(w.hashed), w.len));
  }

  lemma ArchiveStep(before: Bytes, members: seq<Member>)
    requires members != [] && forall m :: m in members ==> m.Ok()
    ensures before + members[0].Blocks() + Archive(members[1..]) == before + Archive(members)
  {
  }

  lemma ArchiveEnd(members: seq<Member>)
    requires forall m :: m in members ==> m.Ok()
    ensures members == [] ==> Archive(members) == Zeros(2 * BLOCK)
    ensures [] + Archive(members) == Archive(members)
  {
  }
}
