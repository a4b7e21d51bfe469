/** What the two readers make of any file: `run` loads the last member of each name,
    `verify` checks the first. */
module ArtifactLoad {
  import opened Prelude
  import opened Ustar
  import opened Artifact
  import opened ArtifactRead
  import opened ArtifactVerify

  function FirstNamed(items: seq<Item>, name: Bytes): (r: Option<Item>)
    ensures r.None? <==> forall i :: 0 <= i < |items| ==> items[i].name != name
    ensures r.Some? ==> exists k :: && 0 <= k < |items| && r.value == items[k] && items[k].name == name
                                    && forall i :: 0 <= i < k ==> items[i].name != name
  {
    if items == [] then None
    else if items[0].name == name then Some(items[0])
    else
      var r := FirstNamed(items[1..], name);
      assert r.Some? ==> exists k :: && 1 <= k < |items| && r.value == items[k] && items[k].name == name
                                     && forall i :: 0 <= i < k ==> items[i].name != name by {
        if r.Some? {
          var k :| && 0 <= k < |items[1..]| && r.value == items[1..][k] && items[1..][k].name == name
                   && forall i :: 0 <= i < k ==> items[1..][i].name != name;
          assert items[k + 1] == items[1..][k];
          assert forall i :: 1 <= i < k + 1 ==> items[i] == items[1..][i - 1];
        }
      }
      r
  }

  function LastNamed(items: seq<Item>, name: Bytes): (r: Option<Item>)
    ensures r.None? <==> forall i :: 0 <= i < |items| ==> items[i].name != name
    ensures r.Some? ==> exists k :: && 0 <= k < |items| && r.value == items[k] && items[k].name == name
                                    && forall i :: k < i < |items| ==> items[i].name != name
    decreases |items|
  {
    if items == [] then None
    else if items[|items| - 1].name == name then Some(items[|items| - 1])
    else LastNamed(items[..|items| - 1], name)
  }

  /** The members of a file, as a reader meets them. */
  function ItemsOf(file: Bytes): seq<Item> {
    Items(file, ScanFrom(file, 0).entries)
  }

  /** The bytes are a manifest, of the one format version there is. */
  predicate Decodes<H, A>(c: Codec<H, A>, bytes: Bytes) {
    c.decode(bytes).Some? && c.decode(bytes).value.formatVersion == FORMAT_VERSION
  }

  /** A manifest must decode, and a named member must have its content. */
  predicate Readable<H, A>(c: Codec<H, A>, item: Item) {
    item.content.Some? && (item.name == MANIFEST ==> Decodes(c, item.content.value))
  }

  function ContentOr(item: Option<Item>, before: Option<Bytes>): Option<Bytes> {
    if item.Some? then item.value.content else before
  }

  function ManifestOr<H, A>(c: Codec<H, A>, item: Option<Item>, before: Option<Manifest<H, A>>)
    : Option<Manifest<H, A>>
  {
    if item.Some? && Readable(c, item.value) && item.value.name == MANIFEST
    then c.decode(item.value.content.value) else before
  }

  lemma {:induction false} LastFromFront(items: seq<Item>, name: Bytes)
    requires items != []
    ensures LastNamed(items, name)
         == if LastNamed(items[1..], name).Some? then LastNamed(items[1..], name)
            else if items[0].name == name then Some(items[0]) else None
    decreases |items|
  {
    if |items| > 1 {
      var init := items[..|items| - 1];
      assert items[1..][..|items| - 2] == init[1..];
      LastFromFront(init, name);
    } else {
      assert items[1..] == [] && items[..0] == [];
    }
  }

  // What `run` loads.

  /** The slots after `items`: the last member of each name, or what was there. */
  function Filled<H, A>(c: Codec<H, A>, slots: Slots<H, A>, items: seq<Item>): Slots<H, A> {
    Slots(ManifestOr(c, LastNamed(items, MANIFEST), slots.manifest),
          ContentOr(LastNamed(items, KERNEL), slots.kernel),
          ContentOr(LastNamed(items, INITRAMFS), slots.initramfs),
          ContentOr(LastNamed(items, COMPOSE_LOCK), slots.composeLock))
  }

  lemma FilledStep<H, A>(c: Codec<H, A>, slots: Slots<H, A>, items: seq<Item>)
    requires items != [] && (Known(items[0].name) ==> Readable(c, items[0]))
    requires forall i :: 0 <= i < |items| && Known(items[i].name) ==> Readable(c, items[i])
    ensures TakeItem(c, slots, items[0]).Ok?
    ensures Filled(c, slots, items) == Filled(c, TakeItem(c, slots, items[0]).value, items[1..])
  {
    hide LastNamed;
    NamesOk();
    LastFromFront(items, MANIFEST);
    LastFromFront(items, KERNEL);
    LastFromFront(items, INITRAMFS);
    LastFromFront(items, COMPOSE_LOCK);
    LastReadable(c, items[1..]);
  }

  lemma LastReadable<H, A>(c: Codec<H, A>, items: seq<Item>)
    requires forall i :: 0 <= i < |items| && Known(items[i].name) ==> Readable(c, items[i])
    ensures var last := LastNamed(items, MANIFEST);
            last.Some? ==> last.value.name == MANIFEST && Readable(c, last.value)
  {
  }

  lemma {:induction false} TakeItemsMeans<H, A>(c: Codec<H, A>, slots: Slots<H, A>, items: seq<Item>,
                                                error: Option<TarError>)
    ensures TakeItems(c, slots, items, error).Ok? <==>
            error.None? && forall i :: 0 <= i < |items| && Known(items[i].name) ==> Readable(c, items[i])
    ensures TakeItems(c, slots, items, error).Ok? ==>
              TakeItems(c, slots, items, error).value == Filled(c, slots, items)
    decreases |items|
  {
    hide LastNamed, Filled;
    if items == [] {
      NothingFilled(c, slots);
    } else {
      TakeOrFail(c, slots, items[0]);
      assert forall i :: 1 <= i < |items| ==> items[i] == items[1..][i - 1];
      if TakeItem(c, slots, items[0]).Ok? {
        TakeItemsMeans(c, TakeItem(c, slots, items[0]).value, items[1..], error);
        if forall i :: 0 <= i < |items| && Known(items[i].name) ==> Readable(c, items[i]) {
          FilledStep(c, slots, items);
        }
      }
    }
  }

  lemma TakeOrFail<H, A>(c: Codec<H, A>, slots: Slots<H, A>, item: Item)
    ensures TakeItem(c, slots, item).Ok? <==> (Known(item.name) ==> Readable(c, item))
  {
  }

  lemma NothingFilled<H, A>(c: Codec<H, A>, slots: Slots<H, A>)
    ensures Filled(c, slots, []) == slots
  {
  }

  /** On any file: `run` gets a payload if and only if the archive scans to its end,
      every member of a known name can be read, and all four names occur; and then
      each part is the last member of its name. */
  lemma RunMeans<H, A>(c: Codec<H, A>, file: Bytes)
    ensures var items, r := ItemsOf(file), RunOutcome(c, file);
            && (r.Ok? <==>
                  && ScanFrom(file, 0).error.None?
                  && (forall i :: 0 <= i < |items| && Known(items[i].name) ==> Readable(c, items[i]))
                  && LastNamed(items, MANIFEST).Some? && LastNamed(items, KERNEL).Some?
                  && LastNamed(items, INITRAMFS).Some? && LastNamed(items, COMPOSE_LOCK).Some?)
            && (r.Ok? ==>
                  && Some(r.value.manifest) == ManifestOr(c, LastNamed(items, MANIFEST), None)
                  && LastNamed(items, KERNEL).value.content == Some(r.value.payloads.kernel)
                  && LastNamed(items, INITRAMFS).value.content == Some(r.value.payloads.initramfs)
                  && LastNamed(items, COMPOSE_LOCK).value.content == Some(r.value.payloads.composeLock))
  {
    hide ScanFrom, Items, FromBytes;
    var items, error := ItemsOf(file), ScanFrom(file, 0).error;
    TakeItemsMeans(c, Slots(None, None, None, None), items, error);
    if error.None? && forall i :: 0 <= i < |items| && Known(items[i].name) ==> Readable(c, items[i]) {
      LastReadable(c, items);
      KnownReadable(c, items, KERNEL);
      KnownReadable(c, items, INITRAMFS);
      KnownReadable(c, items, COMPOSE_LOCK);
    }
  }

  lemma KnownReadable<H, A>(c: Codec<H, A>, items: seq<Item>, name: Bytes)
    requires Known(name)
    requires forall i :: 0 <= i < |items| && Known(items[i].name) ==> Readable(c, items[i])
    ensures LastNamed(items, name).Some? ==> LastNamed(items, name).value.content.Some?
  {
  }

  // What `verify` looks at.

  lemma {:induction false} FindAppended<H>(actual: seq<Hashed<H>>, more: Hashed<H>, name: Bytes)
    ensures FindHash(actual + [more], name)
         == if FindHash(actual, name).Some? then FindHash(actual, name)
            else if more.name == name then Some(more.sha) else None
  {
    if actual == [] {
      assert actual + [more] == [more];
    } else {
      assert (actual + [more])[1..] == actual[1..] + [more];
      FindAppended(actual[1..], more, name);
    }
  }

  function HashOr<H>(hash: Bytes -> H, item: Option<Item>, before: Option<H>): Option<H> {
    if before.Some? then before
    else if item.Some? && item.value.content.Some? then Some(hash(item.value.content.value)) else None
  }

  /** Everything is read; the last manifest stays, and a name's hash is that of its
      first member. */
  lemma {:induction false} NoteItemsMeans<H, A>(c: Codec<H, A>, hash: Bytes -> H, f: Found<H, A>, items: seq<Item>,
                                                error: Option<TarError>, name: Bytes)
    requires name != MANIFEST
    ensures var r := NoteItems(c, hash, f, items, error);
            && (r.Ok? <==> error.None? && forall i :: 0 <= i < |items| ==> Readable(c, items[i]))
            && (r.Ok? ==>
                  && r.value.manifest == ManifestOr(c, LastNamed(items, MANIFEST), f.manifest)
                  && FindHash(r.value.actual, name)
                     == HashOr(hash, FirstNamed(items, name), FindHash(f.actual, name)))
    decreases |items|
  {
    hide LastNamed, FindHash;
    if items != [] {
      assert forall i :: 1 <= i < |items| ==> items[i] == items[1..][i - 1];
      var next := NoteItem(c, hash, f, items[0]);
      if next.Ok? {
        NoteItemsMeans(c, hash, next.value, items[1..], error, name);
        LastFromFront(items, MANIFEST);
        if items[0].name != MANIFEST {
          FindAppended(f.actual, Hashed(items[0].name, hash(items[0].content.value)), name);
        }
        if forall i :: 0 <= i < |items| ==> Readable(c, items[i]) {
          LastReadable(c, items[1..]);
        }
      }
    } else {
      NothingNamed();
    }
  }

  lemma NothingNamed()
    ensures LastNamed([], MANIFEST) == None
  {
  }

  /** `run` would start: the payload is there and its check passes. */
  ghost predicate Loads<H(!new), A(!new)>(c: Codec<H, A>, hash: Bytes -> H, file: Bytes) {
    var r := RunOutcome(c, file);
    r.Ok? && forall m :: m in r.value.payloads.Members() ==> Matches(r.value.manifest, m.name, m.data, hash)
  }

  predicate IsPayload(name: Bytes) {
    name == KERNEL || name == INITRAMFS || name == COMPOSE_LOCK
  }

  /** The manifest has a record of `name`, and the last member of that name hashes like
      the first. */
  predicate Undoubled<H(==), A>(c: Codec<H, A>, hash: Bytes -> H, items: seq<Item>, name: Bytes) {
    var manifest := ManifestOr(c, LastNamed(items, MANIFEST), None);
    var first, last := FirstNamed(items, name), LastNamed(items, name);
    && manifest.Some? && Find(manifest.value.members, name).Some?
    && first.Some? && last.Some? && first.value.content.Some? && last.value.content.Some?
    && hash(first.value.content.value) == hash(last.value.content.value)
  }

  lemma {:induction false} FoundIsRecord<H>(records: seq<Record<H>>, name: Bytes)
    ensures Find(records, name).Some? ==>
              Find(records, name).value in records && Find(records, name).value.name == name
  {
    if records != [] {
      FoundIsRecord(records[1..], name);
    }
  }

  /** A clean report, for one name: every record of it is the first member's hash. */
  lemma CleanFor<H(!new), A(!new)>(c: Codec<H, A>, hash: Bytes -> H, file: Bytes, name: Bytes)
    requires VerifyOutcome(c, hash, file).Ok? && VerifyOutcome(c, hash, file).value.AllOk()
    requires name != MANIFEST
    ensures var items := ItemsOf(file);
            var manifest := ManifestOr(c, LastNamed(items, MANIFEST), None);
            && ScanFrom(file, 0).error.None?
            && (forall i :: 0 <= i < |items| ==> Readable(c, items[i]))
            && manifest.Some? && LastNamed(items, MANIFEST).Some?
            && (Find(manifest.value.members, name).Some? ==>
                  HashOr(hash, FirstNamed(items, name), None) == Some(Find(manifest.value.members, name).value.sha))
  {
    hide ScanFrom, Items, VerifyReport.AllOk, Find, FindHash, Checks, Absent;
    var items, error := ItemsOf(file), ScanFrom(file, 0).error;
    var f0: Found<H, A> := Found(None, []);
    NoteItemsMeans(c, hash, f0, items, error, name);
    var found := NoteItems(c, hash, f0, items, error).value;
    var records := found.manifest.value.members;
    AllOkMeans(records, found.actual, hash(file));
    FoundIsRecord(records, name);
    NothingFound<H>(name);
  }

  lemma NothingFound<H>(name: Bytes)
    ensures FindHash<H>([], name) == None
  {
  }

  /** With a clean report, the load check of one name passes exactly when it is recorded
      and not doubled. */
  lemma NameLoads<H(!new), A(!new)>(c: Codec<H, A>, hash: Bytes -> H, file: Bytes, name: Bytes)
    requires VerifyOutcome(c, hash, file).Ok? && VerifyOutcome(c, hash, file).value.AllOk()
    requires IsPayload(name)
    ensures var items := ItemsOf(file);
            var manifest, last := ManifestOr(c, LastNamed(items, MANIFEST), None), LastNamed(items, name);
            Undoubled(c, hash, items, name) <==>
            && manifest.Some? && last.Some? && last.value.content.Some?
            && Matches(manifest.value, name, last.value.content.value, hash)
  {
    NamesOk();
    CleanFor(c, hash, file, name);
    hide ScanFrom, Items, VerifyReport.AllOk, Find, Checks, Absent, VerifyOutcome;
  }

  lemma LoadsByName<H(!new), A(!new)>(c: Codec<H, A>, hash: Bytes -> H, file: Bytes)
    ensures Loads(c, hash, file) <==>
            && RunOutcome(c, file).Ok?
            && var m, p := RunOutcome(c, file).value.manifest, RunOutcome(c, file).value.payloads;
               && Matches(m, KERNEL, p.kernel, hash) && Matches(m, INITRAMFS, p.initramfs, hash)
               && Matches(m, COMPOSE_LOCK, p.composeLock, hash)
  {
    hide RunOutcome, Matches;
    if RunOutcome(c, file).Ok? {
      var p := RunOutcome(c, file).value.payloads;
      var k, i, l := Member(KERNEL, p.kernel), Member(INITRAMFS, p.initramfs), Member(COMPOSE_LOCK, p.composeLock);
      assert p.Members() == [l, k, i];
      assert k in p.Members() && i in p.Members() && l in p.Members();
    }
  }

  /** The exact condition: a file with a clean report loads if and only if each payload
      name is recorded and its last member hashes like its first. */
  lemma CleanLoadsIff<H(!new), A(!new)>(c: Codec<H, A>, hash: Bytes -> H, file: Bytes)
    requires VerifyOutcome(c, hash, file).Ok? && VerifyOutcome(c, hash, file).value.AllOk()
    ensures Loads(c, hash, file) <==> forall name :: IsPayload(name) ==> Undoubled(c, hash, ItemsOf(file), name)
  {
    hide Loads, Undoubled, Matches, ScanFrom, Items, VerifyReport.AllOk, VerifyOutcome, RunOutcome;
    hide LastNamed, FirstNamed;
    LoadsByName(c, hash, file);
    RunMeans(c, file);
    NamesOk();
    CleanFor(c, hash, file, KERNEL);
    assert IsPayload(KERNEL) && IsPayload(INITRAMFS) && IsPayload(COMPOSE_LOCK);
    NameLoads(c, hash, file, KERNEL);
    NameLoads(c, hash, file, INITRAMFS);
    NameLoads(c, hash, file, COMPOSE_LOCK);
  }

  // A doubled member.

  function ItemsAs(members: seq<Member>): seq<Item> {
    seq(|members|, i requires 0 <= i < |members| => Item(members[i].name, Some(members[i].data)))
  }

  lemma ArchiveItems(members: seq<Member>)
    requires members != [] && forall m :: m in members ==> m.Ok()
    ensures var file := Archive(members);
            ScanFrom(file, 0).error.None? && ItemsOf(file) == ItemsAs(members)
  {
    hide ScanFrom, Archive, Located, InFile, Content;
    var file := Archive(members);
    assert file[0..] == file;
    ArchiveScans(file, 0, members);
    ArchiveHolds(file, 0, members, 0);
    forall i | 0 <= i < |members| ensures ItemsOf(file)[i] == Item(members[i].name, Some(members[i].data)) {
      ArchiveHolds(file, 0, members, i);
    }
  }

  /** The sealed members with a second kernel behind them. */
  function Doubled(s: Sealed, other: Bytes): seq<Member> {
    s.Members() + [Member(KERNEL, other)]
  }

  lemma DoubledItems(s: Sealed, other: Bytes)
    ensures var items := ItemsAs(Doubled(s, other));
            && FirstNamed(items, MANIFEST) == LastNamed(items, MANIFEST) == Some(Item(MANIFEST, Some(s.manifestJson)))
            && FirstNamed(items, COMPOSE_LOCK) == Some(Item(COMPOSE_LOCK, Some(s.payloads.composeLock)))
            && FirstNamed(items, INITRAMFS) == Some(Item(INITRAMFS, Some(s.payloads.initramfs)))
            && FirstNamed(items, KERNEL) == Some(Item(KERNEL, Some(s.payloads.kernel)))
            && LastNamed(items, KERNEL) == Some(Item(KERNEL, Some(other)))
  {
    NamesOk();
    hide FirstNamed, LastNamed;
    var items := ItemsAs(Doubled(s, other));
    assert |items| == 5 && items[0].name == MANIFEST && items[1].name == COMPOSE_LOCK && items[2].name == KERNEL
           && items[3].name == INITRAMFS && items[4].name == KERNEL;
  }

  lemma DoubledOk(s: Sealed, other: Bytes)
    requires WithinCap(s.Members()) && |other| <= MAX_MEMBER_SIZE
    ensures forall m :: m in Doubled(s, other) ==> m.Ok()
  {
    SealedOk(s);
    NamesOk();
  }

  lemma DoubledContents(s: Sealed, other: Bytes)
    ensures var items := ItemsAs(Doubled(s, other));
            forall i :: 0 <= i < |items| ==>
              items[i].content.Some? && (items[i].name == MANIFEST ==> items[i].content.value == s.manifestJson)
  {
    NamesOk();
    var items := ItemsAs(Doubled(s, other));
    assert |items| == 5 && items[0].name == MANIFEST && items[1].name == COMPOSE_LOCK && items[2].name == KERNEL
           && items[3].name == INITRAMFS && items[4].name == KERNEL;
  }

  /** `verify` does not see it: the file passes, and yet `run` refuses it. */
  lemma DoubledKernel<H(!new), A(!new)>(about: A, s: Sealed, other: Bytes, hash: Bytes -> H, c: Codec<H, A>)
    requires WithinCap(s.Members()) && |other| <= MAX_MEMBER_SIZE && hash(other) != hash(s.payloads.kernel)
    requires RoundTrips(c) && c.encode(ManifestOf(about, s.payloads, hash)) == Some(s.manifestJson)
    ensures forall m :: m in Doubled(s, other) ==> m.Ok()
    ensures var file := Archive(Doubled(s, other));
            && VerifyOutcome(c, hash, file).Ok? && VerifyOutcome(c, hash, file).value.AllOk()
            && !Loads(c, hash, file)
  {
    VersionOf(about, s.payloads, hash);
    assert FromBytes(c, s.manifestJson) == Ok(ManifestOf(about, s.payloads, hash));
    DoubledOk(s, other);
    hide Loads, VerifyReport.AllOk, VerifyOutcome, Archive, ScanFrom, Items, FirstNamed, LastNamed;
    hide Doubled, ItemsAs, ItemsOf, Member.Ok, ManifestOf, RoundTrips, WithinCap;
    var members := Doubled(s, other);
    var file := Archive(members);
    DoubledItems(s, other);
    DoubledContents(s, other);
    assert members != [] by { DoubledSize(s, other); }
    ArchiveItems(members);
    DoubledClean(about, s, hash, c, file, ItemsOf(file));
    CleanLoadsIff(c, hash, file);
    assert IsPayload(KERNEL) && !Undoubled(c, hash, ItemsOf(file), KERNEL);
  }

  lemma DoubledSize(s: Sealed, other: Bytes)
    ensures |Doubled(s, other)| == 5
  {
  }

  lemma DoubledClean<H(!new), A(!new)>(about: A, s: Sealed, hash: Bytes -> H, c: Codec<H, A>,
                                       file: Bytes, items: seq<Item>)
    requires items == ItemsOf(file) && ScanFrom(file, 0).error.None?
    requires FromBytes(c, s.manifestJson) == Ok(ManifestOf(about, s.payloads, hash))
    requires forall i :: 0 <= i < |items| ==>
               items[i].content.Some? && (items[i].name == MANIFEST ==> items[i].content.value == s.manifestJson)
    requires LastNamed(items, MANIFEST) == Some(Item(MANIFEST, Some(s.manifestJson)))
    requires FirstNamed(items, COMPOSE_LOCK) == Some(Item(COMPOSE_LOCK, Some(s.payloads.composeLock)))
    requires FirstNamed(items, INITRAMFS) == Some(Item(INITRAMFS, Some(s.payloads.initramfs)))
    requires FirstNamed(items, KERNEL) == Some(Item(KERNEL, Some(s.payloads.kernel)))
    ensures VerifyOutcome(c, hash, file).Ok? && VerifyOutcome(c, hash, file).value.AllOk()
  {
    hide ScanFrom, Items, FindHash, Checks, Absent, VerifyReport.AllOk, FirstNamed, LastNamed, NoteItems;
    NamesOk();
    var f0: Found<H, A> := Found(None, []);
    NothingFound<H>(KERNEL);
    NothingFound<H>(INITRAMFS);
    NothingFound<H>(COMPOSE_LOCK);
    NoteItemsMeans(c, hash, f0, items, None, KERNEL);
    NoteItemsMeans(c, hash, f0, items, None, INITRAMFS);
    NoteItemsMeans(c, hash, f0, items, None, COMPOSE_LOCK);
    var found := NoteItems(c, hash, f0, items, None).value;
    AllOkMeans(ManifestOf(about, s.payloads, hash).members, found.actual, hash(file));
  }
}
