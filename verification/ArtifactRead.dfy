/** Taking an artifact apart: what `run` loads, and what `verify` reports. */
module ArtifactRead {
  import opened Prelude
  import opened Ustar
  import opened UstarIo
  import opened Artifact

  /** A member as a reader meets it; no content when the header claims more than the
      file has. */
  datatype Item = Item(name: Bytes, content: Option<Bytes>)

  function ItemOf(file: Bytes, e: Entry): Item {
    Item(e.name, if InFile(file, e) then Some(Content(file, e)) else None)
  }

  function Items(file: Bytes, entries: seq<Entry>): (items: seq<Item>)
    ensures |items| == |entries| && forall i :: 0 <= i < |items| ==> items[i] == ItemOf(file, entries[i])
  {
    seq(|entries|, i requires 0 <= i < |entries| => ItemOf(file, entries[i]))
  }

  lemma ItemsStep(file: Bytes, entries: seq<Entry>)
    requires entries != []
    ensures Items(file, entries) == [ItemOf(file, entries[0])] + Items(file, entries[1..])
  {
  }

  /** What the four members of a sealed file look like to a reader. */
  lemma SealedItems(s: Sealed)
    requires forall m :: m in s.Members() ==> m.Ok()
    ensures var file := Archive(s.Members());
            && ScanFrom(file, 0).error.None?
            && Items(file, ScanFrom(file, 0).entries)
               == [Item(MANIFEST, Some(s.manifestJson)), Item(COMPOSE_LOCK, Some(s.payloads.composeLock)),
                   Item(KERNEL, Some(s.payloads.kernel)), Item(INITRAMFS, Some(s.payloads.initramfs))]
  {
    hide ScanFrom, Archive, Located, InFile, Content;
    var file, members := Archive(s.Members()), s.Members();
    assert file[0..] == file;
    ArchiveScans(file, 0, members);
    ArchiveHolds(file, 0, members, 0);
    ArchiveHolds(file, 0, members, 1);
    ArchiveHolds(file, 0, members, 2);
    ArchiveHolds(file, 0, members, 3);
  }

  // What `run` loads.

  datatype Slots<H, A> = Slots(
    manifest: Option<Manifest<H, A>>, kernel: Option<Bytes>, initramfs: Option<Bytes>, composeLock: Option<Bytes>)

  datatype RunPayload<H, A> = RunPayload(manifest: Manifest<H, A>, payloads: Payloads)

  function Known(name: Bytes): bool {
    name == MANIFEST || name == KERNEL || name == INITRAMFS || name == COMPOSE_LOCK
  }

  /** One member into its slot: a later one of the same name wins, an unknown one is
      skipped unread. */
  function TakeItem<H, A>(c: Codec<H, A>, slots: Slots<H, A>, item: Item): Result<Slots<H, A>, ArtifactError> {
    if !Known(item.name) then Ok(slots)
    else
      match item.content
      case None => Err(Tar(PastEnd))
      case Some(bytes) =>
        if item.name == MANIFEST then
          match FromBytes(c, bytes)
          case Err(e) => Err(e)
          case Ok(m) => Ok(slots.(manifest := Some(m)))
        else if item.name == KERNEL then Ok(slots.(kernel := Some(bytes)))
        else if item.name == INITRAMFS then Ok(slots.(initramfs := Some(bytes)))
        else Ok(slots.(composeLock := Some(bytes)))
  }

  function TakeItems<H, A>(c: Codec<H, A>, slots: Slots<H, A>, items: seq<Item>, error: Option<TarError>)
    : Result<Slots<H, A>, ArtifactError>
    decreases |items|
  {
    if items == [] then
      if error.Some? then Err(Tar(error.value)) else Ok(slots)
    else
      match TakeItem(c, slots, items[0])
      case Err(e) => Err(e)
      case Ok(next) => TakeItems(c, next, items[1..], error)
  }

  function Complete<H, A>(s: Slots<H, A>): Result<RunPayload<H, A>, ArtifactError> {
    if s.manifest.None? then Err(Missing(MANIFEST))
    else if s.kernel.None? then Err(Missing(KERNEL))
    else if s.initramfs.None? then Err(Missing(INITRAMFS))
    else if s.composeLock.None? then Err(Missing(COMPOSE_LOCK))
    else Ok(RunPayload(s.manifest.value, Payloads(s.composeLock.value, s.kernel.value, s.initramfs.value)))
  }

  function RunOutcome<H, A>(c: Codec<H, A>, file: Bytes): Result<RunPayload<H, A>, ArtifactError> {
    var scan := ScanFrom(file, 0);
    match TakeItems(c, Slots(None, None, None, None), Items(file, scan.entries), scan.error)
    case Err(e) => Err(e)
    case Ok(slots) => Complete(slots)
  }

  /** The loop over the members, on any bytes at all. */
  method ReadForRun<H, A>(file: Bytes, c: Codec<H, A>) returns (r: Result<RunPayload<H, A>, ArtifactError>)
    ensures r == RunOutcome(c, file)
  {
    hide ScanFrom, Items, TakeItem;
    var entries := new Entries(file);
    var slots: Slots<H, A> := Slots(None, None, None, None);
    ghost var all := RunOutcome(c, file);
    var more := true;
    while more
      invariant entries.file == file
      invariant more ==>
                  TakeItems(c, Slots(None, None, None, None), Items(file, ScanFrom(file, 0).entries),
                            ScanFrom(file, 0).error)
                  == TakeItems(c, slots, Items(file, entries.Rest().entries), entries.Rest().error)
      invariant !more ==>
                  TakeItems(c, Slots(None, None, None, None), Items(file, ScanFrom(file, 0).entries),
                            ScanFrom(file, 0).error)
                  == Ok(slots)
      decreases entries.Left(), more
    {
      ghost var before := entries.Rest();
      NoItems(file);
      var item := entries.Next();
      if item.None? {
        more := false;
      } else if item.value.Err? {
        return Err(Tar(item.value.error));
      } else {
        var e := item.value.value;
        ItemsStep(file, before.entries);
        var next := TakeEntry(entries, c, slots, e);
        if next.Err? {
          return Err(next.error);
        }
        slots := next.value;
      }
    }
    r := Complete(slots);
  }

  lemma NoItems(file: Bytes)
    ensures Items(file, []) == []
  {
  }

  method TakeEntry<H, A>(entries: Entries, c: Codec<H, A>, slots: Slots<H, A>, e: Entry)
    returns (r: Result<Slots<H, A>, ArtifactError>)
    ensures r == TakeItem(c, slots, ItemOf(entries.file, e))
  {
    if !Known(e.name) {
      return Ok(slots);
    }
    var content := entries.Read(e);
    if content.Err? {
      return Err(Tar(content.error));
    }
    if e.name == MANIFEST {
      var m := FromBytes(c, content.value);
      if m.Err? {
        return Err(m.error);
      }
      r := Ok(slots.(manifest := Some(m.value)));
    } else if e.name == KERNEL {
      r := Ok(slots.(kernel := Some(content.value)));
    } else if e.name == INITRAMFS {
      r := Ok(slots.(initramfs := Some(content.value)));
    } else {
      r := Ok(slots.(composeLock := Some(content.value)));
    }
  }

  // Checking the payloads on load.

  function Find<H>(records: seq<Record<H>>, name: Bytes): Option<Record<H>> {
    if records == [] then None
    else if records[0].name == name then Some(records[0])
    else Find(records[1..], name)
  }

  /** A member is what the manifest says. */
  predicate Matches<H(==), A>(m: Manifest<H, A>, name: Bytes, data: Bytes, hash: Bytes -> H) {
    Find(m.members, name).Some? && Find(m.members, name).value.sha == hash(data)
  }

  /** The order in which a run checks the members. */
  function CheckOrder(p: Payloads): seq<Member> {
    [Member(KERNEL, p.kernel), Member(INITRAMFS, p.initramfs), Member(COMPOSE_LOCK, p.composeLock)]
  }

  /** The first member that does not match, and why. */
  ghost predicate FirstMismatch<H, A>(p: RunPayload<H, A>, hash: Bytes -> H, error: ArtifactError) {
    var order := CheckOrder(p.payloads);
    exists i :: 0 <= i < |order| && !Matches(p.manifest, order[i].name, order[i].data, hash)
                && (forall k :: 0 <= k < i ==> Matches(p.manifest, order[k].name, order[k].data, hash))
                && error == if Find(p.manifest.members, order[i].name).None? then NoRecord(order[i].name)
                            else HashMismatch(order[i].name)
  }

  method VerifyMembers<H(==), A>(p: RunPayload<H, A>, hash: Bytes -> H) returns (error: Option<ArtifactError>)
    ensures error.None? <==>
              forall m :: m in p.payloads.Members() ==> Matches(p.manifest, m.name, m.data, hash)
    ensures error.Some? ==> FirstMismatch(p, hash, error.value)
  {
    var order := CheckOrder(p.payloads);
    assert forall m :: m in p.payloads.Members() <==> m in order;
    for i := 0 to |order|
      invariant forall k :: 0 <= k < i ==> Matches(p.manifest, order[k].name, order[k].data, hash)
    {
      var m := order[i];
      assert m in order;
      var want := Find(p.manifest.members, m.name);
      if want.None? {
        return Some(NoRecord(m.name));
      }
      if hash(m.data) != want.value.sha {
        return Some(HashMismatch(m.name));
      }
    }
    error := None;
  }

  lemma SealedRecords<H, A>(about: A, p: Payloads, hash: Bytes -> H)
    ensures var m := ManifestOf(about, p, hash);
            && Find(m.members, COMPOSE_LOCK) == Some(Record(COMPOSE_LOCK, |p.composeLock|, hash(p.composeLock)))
            && Find(m.members, KERNEL) == Some(Record(KERNEL, |p.kernel|, hash(p.kernel)))
            && Find(m.members, INITRAMFS) == Some(Record(INITRAMFS, |p.initramfs|, hash(p.initramfs)))
  {
    NamesOk();
    var a, b, d := Record(COMPOSE_LOCK, |p.composeLock|, hash(p.composeLock)),
                   Record(KERNEL, |p.kernel|, hash(p.kernel)), Record(INITRAMFS, |p.initramfs|, hash(p.initramfs));
    assert Records(p.Members(), hash) == [a, b, d];
    assert [a, b, d][1..] == [b, d] && [b, d][1..] == [d];
    assert Find([d], INITRAMFS) == Some(d);
    assert Find([b, d], INITRAMFS) == Some(d);
  }

  /** Sealing, writing and reading for a run gives back the payloads and the manifest
      of their hashes, and the check on load passes: for every hash and every JSON
      codec that keeps its promise. */
  lemma SealedRuns<H(!new), A(!new)>(about: A, s: Sealed, hash: Bytes -> H, c: Codec<H, A>)
    requires forall m :: m in s.Members() ==> m.Ok()
    requires RoundTrips(c) && c.encode(ManifestOf(about, s.payloads, hash)) == Some(s.manifestJson)
    ensures RunOutcome(c, Archive(s.Members())) == Ok(RunPayload(ManifestOf(about, s.payloads, hash), s.payloads))
    ensures forall m :: m in s.payloads.Members() ==>
              Matches(ManifestOf(about, s.payloads, hash), m.name, m.data, hash)
  {
    hide ScanFrom, Archive, Items, Find, ManifestOf, Matches;
    SealedItems(s);
    SealedMatch(about, s.payloads, hash);
    var manifest := ManifestOf(about, s.payloads, hash);
    assert FromBytes(c, s.manifestJson) == Ok(manifest) by {
      VersionOf(about, s.payloads, hash);
    }
    TakeSealed(c, s, manifest);
  }

  lemma VersionOf<H, A>(about: A, p: Payloads, hash: Bytes -> H)
    ensures ManifestOf(about, p, hash).formatVersion == FORMAT_VERSION
  {
  }

  lemma SealedMatch<H, A>(about: A, p: Payloads, hash: Bytes -> H)
    ensures forall m :: m in p.Members() ==> Matches(ManifestOf(about, p, hash), m.name, m.data, hash)
  {
    SealedRecords(about, p, hash);
    hide Find, ManifestOf;
  }

  lemma TakeSealed<H, A>(c: Codec<H, A>, s: Sealed, manifest: Manifest<H, A>)
    requires FromBytes(c, s.manifestJson) == Ok(manifest)
    ensures TakeItems(c, Slots(None, None, None, None),
                      [Item(MANIFEST, Some(s.manifestJson)), Item(COMPOSE_LOCK, Some(s.payloads.composeLock)),
                       Item(KERNEL, Some(s.payloads.kernel)), Item(INITRAMFS, Some(s.payloads.initramfs))], None)
            == Ok(Slots(Some(manifest), Some(s.payloads.kernel), Some(s.payloads.initramfs),
                        Some(s.payloads.composeLock)))
  {
    hide FromBytes;
    var k, i, l := s.payloads.kernel, s.payloads.initramfs, s.payloads.composeLock;
    var m, a := Item(MANIFEST, Some(s.manifestJson)), Item(COMPOSE_LOCK, Some(l));
    var b, d := Item(KERNEL, Some(k)), Item(INITRAMFS, Some(i));
    var s0: Slots<H, A> := Slots(None, None, None, None);
    var s1: Slots<H, A> := Slots(Some(manifest), None, None, None);
    var s2: Slots<H, A> := Slots(Some(manifest), None, None, Some(l));
    var s3: Slots<H, A> := Slots(Some(manifest), Some(k), None, Some(l));
    var s4: Slots<H, A> := Slots(Some(manifest), Some(k), Some(i), Some(l));
    NamesOk();
    assert TakeItem(c, s0, m) == Ok(s1);
    assert TakeItem(c, s1, a) == Ok(s2);
    assert TakeItem(c, s2, b) == Ok(s3);
    assert TakeItem(c, s3, d) == Ok(s4);
    hide TakeItem;
    TakeOne(c, s0, [m, a, b, d], s1);
    TakeOne(c, s1, [a, b, d], s2);
    TakeOne(c, s2, [b, d], s3);
    TakeOne(c, s3, [d], s4);
    hide TakeItems;
    assert [m, a, b, d][1..] == [a, b, d] && [a, b, d][1..] == [b, d] && [b, d][1..] == [d] && [d][1..] == [];
    TakeNone(c, s4);
  }

  lemma TakeNone<H, A>(c: Codec<H, A>, slots: Slots<H, A>)
    ensures TakeItems(c, slots, [], None) == Ok(slots)
  {
  }

  lemma TakeOne<H, A>(c: Codec<H, A>, slots: Slots<H, A>, items: seq<Item>, next: Slots<H, A>)
    requires items != [] && TakeItem(c, slots, items[0]) == Ok(next)
    ensures TakeItems(c, slots, items, None) == TakeItems(c, next, items[1..], None)
  {
  }
}
