/** `verify`: every member's hash recomputed and held against the manifest. */
module ArtifactVerify {
  import opened Prelude
  import opened Ustar
  import opened UstarIo
  import opened Artifact
  import opened ArtifactRead

  datatype Hashed<H> = Hashed(name: Bytes, sha: H)

  datatype Found<H, A> = Found(manifest: Option<Manifest<H, A>>, actual: seq<Hashed<H>>)

  datatype MemberCheck<H> = MemberCheck(name: Bytes, expected: H, actual: H, ok: bool)

  datatype VerifyReport<H> = VerifyReport(fileSha: H, checks: seq<MemberCheck<H>>, missing: seq<Bytes>)
  {
    predicate AllOk() {
      missing == [] && Clean(checks)
    }
  }

  predicate Clean<H>(checks: seq<MemberCheck<H>>) {
    forall i :: 0 <= i < |checks| ==> checks[i].ok
  }

  function NoteItem<H, A>(c: Codec<H, A>, hash: Bytes -> H, f: Found<H, A>, item: Item)
    : Result<Found<H, A>, ArtifactError>
  {
    match item.content
    case None => Err(Tar(PastEnd))
    case Some(bytes) =>
      if item.name == MANIFEST then
        match FromBytes(c, bytes)
        case Err(e) => Err(e)
        case Ok(m) => Ok(f.(manifest := Some(m)))
      else Ok(f.(actual := f.actual + [Hashed(item.name, hash(bytes))]))
  }

  function NoteItems<H, A>(c: Codec<H, A>, hash: Bytes -> H, f: Found<H, A>, items: seq<Item>, error: Option<TarError>)
    : Result<Found<H, A>, ArtifactError>
    decreases |items|
  {
    if items == [] then
      if error.Some? then Err(Tar(error.value)) else Ok(f)
    else
      match NoteItem(c, hash, f, items[0])
      case Err(e) => Err(e)
      case Ok(next) => NoteItems(c, hash, next, items[1..], error)
  }

  function FindHash<H>(actual: seq<Hashed<H>>, name: Bytes): Option<H> {
    if actual == [] then None
    else if actual[0].name == name then Some(actual[0].sha)
    else FindHash(actual[1..], name)
  }

  /** The records that have a member in the archive, each with the hash found... */
  function Checks<H(==)>(records: seq<Record<H>>, actual: seq<Hashed<H>>): seq<MemberCheck<H>> {
    if records == [] then []
    else
      var r := records[|records| - 1];
      var before := Checks(records[..|records| - 1], actual);
      match FindHash(actual, r.name)
      case None => before
      case Some(sha) => before + [MemberCheck(r.name, r.sha, sha, sha == r.sha)]
  }

  /** ...and the names of those that have none. */
  function Absent<H>(records: seq<Record<H>>, actual: seq<Hashed<H>>): seq<Bytes> {
    if records == [] then []
    else
      var r := records[|records| - 1];
      Absent(records[..|records| - 1], actual) + (if FindHash(actual, r.name).None? then [r.name] else [])
  }

  function Report<H(==), A>(file: Bytes, hash: Bytes -> H, f: Found<H, A>): Result<VerifyReport<H>, ArtifactError> {
    if f.manifest.None? then Err(Missing(MANIFEST))
    else
      var records := f.manifest.value.members;
      Ok(VerifyReport(hash(file), Checks(records, f.actual), Absent(records, f.actual)))
  }

  function VerifyOutcome<H(==), A>(c: Codec<H, A>, hash: Bytes -> H, file: Bytes)
    : Result<VerifyReport<H>, ArtifactError>
  {
    var scan := ScanFrom(file, 0);
    match NoteItems(c, hash, Found(None, []), Items(file, scan.entries), scan.error)
    case Err(e) => Err(e)
    case Ok(found) => Report(file, hash, found)
  }

  method NoteEntry<H, A>(entries: Entries, c: Codec<H, A>, hash: Bytes -> H, f: Found<H, A>, e: Entry)
    returns (r: Result<Found<H, A>, ArtifactError>)
    ensures r == NoteItem(c, hash, f, ItemOf(entries.file, e))
  {
    if e.name == MANIFEST {
      var content := entries.Read(e);
      if content.Err? {
        return Err(Tar(content.error));
      }
      var m := FromBytes(c, content.value);
      if m.Err? {
        return Err(m.error);
      }
      r := Ok(f.(manifest := Some(m.value)));
    } else {
      var sha := entries.Sha256(e, hash);
      if sha.Err? {
        return Err(Tar(sha.error));
      }
      r := Ok(f.(actual := f.actual + [Hashed(e.name, sha.value)]));
    }
  }

  method CheckMembers<H(==)>(records: seq<Record<H>>, actual: seq<Hashed<H>>)
    returns (checks: seq<MemberCheck<H>>, missing: seq<Bytes>)
    ensures checks == Checks(records, actual) && missing == Absent(records, actual)
  {
    checks, missing := [], [];
    for i := 0 to |records|
      invariant checks == Checks(records[..i], actual) && missing == Absent(records[..i], actual)
    {
      assert records[..i + 1][..i] == records[..i];
      var found := FindHash(actual, records[i].name);
      match found
      case Some(sha) =>
        checks := checks + [MemberCheck(records[i].name, records[i].sha, sha, sha == records[i].sha)];
      case None => missing := missing + [records[i].name];
    }
    assert records[..|records|] == records;
  }

  /** On any bytes at all. */
  method Verify<H(==), A>(file: Bytes, c: Codec<H, A>, hash: Bytes -> H)
    returns (r: Result<VerifyReport<H>, ArtifactError>)
    ensures r == VerifyOutcome(c, hash, file)
  {
    hide ScanFrom, Items, NoteItem, Checks, Absent;
    var entries := new Entries(file);
    var found: Found<H, A> := Found(None, []);
    var more := true;
    while more
      invariant entries.file == file
      invariant NoteItems(c, hash, Found(None, []), Items(file, ScanFrom(file, 0).entries), ScanFrom(file, 0).error)
                == if more then NoteItems(c, hash, found, Items(file, entries.Rest().entries), entries.Rest().error)
                   else Ok(found)
      decreases entries.Left(), more
    {
      ghost var before := entries.Rest();
      NoItems(file);
      var item := entries.Next();
      if item.None? {
        more := false;
      } else if item.value.Err? {
        return Err(Tar(item.value.error));
      } else {
        ItemsStep(file, before.entries);
        var next := NoteEntry(entries, c, hash, found, item.value.value);
        if next.Err? {
          return Err(next.error);
        }
        found := next.value;
      }
    }
    if found.manifest.None? {
      return Err(Missing(MANIFEST));
    }
    var checks, missing := CheckMembers(found.manifest.value.members, found.actual);
    r := Ok(VerifyReport(hash(file), checks, missing));
  }

  /** A line of the report is one record's: its name and hash, the hash found under the
      name, and whether they agree. */
  ghost predicate Tells<H>(check: MemberCheck<H>, r: Record<H>, actual: seq<Hashed<H>>) {
    && check.name == r.name && check.expected == r.sha && FindHash(actual, r.name) == Some(check.actual)
    && (check.ok <==> check.expected == check.actual)
  }

  lemma {:induction false} CheckIsRecord<H>(records: seq<Record<H>>, actual: seq<Hashed<H>>, c: MemberCheck<H>)
    returns (r: Record<H>)
    requires c in Checks(records, actual)
    ensures r in records && Tells(c, r, actual)
    decreases |records|
  {
    r := records[|records| - 1];
    var init := records[..|records| - 1];
    if c in Checks(init, actual) {
      r := CheckIsRecord(init, actual, c);
    }
  }

  lemma {:induction false} MissingIsRecord<H>(records: seq<Record<H>>, actual: seq<Hashed<H>>, name: Bytes)
    returns (r: Record<H>)
    requires name in Absent(records, actual)
    ensures r in records && r.name == name && FindHash(actual, name).None?
    decreases |records|
  {
    r := records[|records| - 1];
    var init := records[..|records| - 1];
    if name in Absent(init, actual) {
      r := MissingIsRecord(init, actual, name);
    }
  }

  lemma {:induction false} RecordIsTold<H>(records: seq<Record<H>>, actual: seq<Hashed<H>>, r: Record<H>)
    requires r in records
    ensures match FindHash(actual, r.name)
            case Some(sha) => MemberCheck(r.name, r.sha, sha, sha == r.sha) in Checks(records, actual)
            case None => r.name in Absent(records, actual)
    decreases |records|
  {
    hide FindHash;
    var init := records[..|records| - 1];
    if r in init {
      RecordIsTold(init, actual, r);
    }
  }

  /** Every record is in the report once: with a check if the archive has a member of
      its name, and among the missing if not; and nothing else is in it. */
  lemma {:induction false} ReportSays<H>(records: seq<Record<H>>, actual: seq<Hashed<H>>)
    ensures var checks, missing := Checks(records, actual), Absent(records, actual);
            && |checks| + |missing| == |records|
            && (forall c :: c in checks ==> exists r :: r in records && Tells(c, r, actual))
            && (forall r :: r in records && FindHash(actual, r.name).Some? ==>
                  exists c :: c in checks && Tells(c, r, actual))
            && (forall name :: name in missing <==>
                  exists r :: r in records && r.name == name && FindHash(actual, r.name).None?)
    decreases |records|
  {
    LinesInAll(records, actual);
    hide FindHash, Checks, Absent;
    var checks, missing := Checks(records, actual), Absent(records, actual);
    forall c | c in checks ensures exists r :: r in records && Tells(c, r, actual) {
      var r := CheckIsRecord(records, actual, c);
    }
    forall r | r in records
      ensures FindHash(actual, r.name).Some? ==> exists c :: c in checks && Tells(c, r, actual)
      ensures FindHash(actual, r.name).None? ==> r.name in missing
    {
      RecordIsTold(records, actual, r);
      if FindHash(actual, r.name).Some? {
        var sha := FindHash(actual, r.name).value;
        assert Tells(MemberCheck(r.name, r.sha, sha, sha == r.sha), r, actual);
      }
    }
    forall name | name in missing ensures exists r :: r in records && r.name == name && FindHash(actual, r.name).None? {
      var r := MissingIsRecord(records, actual, name);
    }
  }

  lemma {:induction false} LinesInAll<H>(records: seq<Record<H>>, actual: seq<Hashed<H>>)
    ensures |Checks(records, actual)| + |Absent(records, actual)| == |records|
    decreases |records|
  {
    if records != [] {
      LinesInAll(records[..|records| - 1], actual);
    }
  }

  /** What a clean report means, whatever the file: every record has a member in the
      archive with the recorded hash; and conversely. */
  lemma {:induction false} AllOkMeans<H>(records: seq<Record<H>>, actual: seq<Hashed<H>>, fileSha: H)
    ensures VerifyReport(fileSha, Checks(records, actual), Absent(records, actual)).AllOk() <==>
            forall r :: r in records ==> FindHash(actual, r.name) == Some(r.sha)
    decreases |records|
  {
    if records != [] {
      var r, init := records[|records| - 1], records[..|records| - 1];
      assert records == init + [r];
      AllOkMeans(init, actual, fileSha);
      hide FindHash;
      match FindHash(actual, r.name)
      case Some(sha) => CleanAppend(Checks(init, actual), MemberCheck(r.name, r.sha, sha, sha == r.sha));
      case None => assert Absent(records, actual) == Absent(init, actual) + [r.name];
    }
  }

  lemma CleanAppend<H>(checks: seq<MemberCheck<H>>, c: MemberCheck<H>)
    ensures Clean(checks + [c]) <==> Clean(checks) && c.ok
  {
    var all := checks + [c];
    assert all[|checks|] == c;
    if Clean(all) {
      forall i | 0 <= i < |checks| ensures checks[i].ok {
        assert all[i] == checks[i];
      }
    }
  }

  lemma NoteOne<H, A>(c: Codec<H, A>, hash: Bytes -> H, f: Found<H, A>, items: seq<Item>, next: Found<H, A>)
    requires items != [] && NoteItem(c, hash, f, items[0]) == Ok(next)
    ensures NoteItems(c, hash, f, items, None) == NoteItems(c, hash, next, items[1..], None)
  {
  }

  lemma NoteNone<H, A>(c: Codec<H, A>, hash: Bytes -> H, f: Found<H, A>)
    ensures NoteItems(c, hash, f, [], None) == Ok(f)
  {
  }

  lemma NoteSealed<H, A>(c: Codec<H, A>, hash: Bytes -> H, s: Sealed, manifest: Manifest<H, A>)
    requires FromBytes(c, s.manifestJson) == Ok(manifest)
    ensures NoteItems(c, hash, Found(None, []),
                      [Item(MANIFEST, Some(s.manifestJson)), Item(COMPOSE_LOCK, Some(s.payloads.composeLock)),
                       Item(KERNEL, Some(s.payloads.kernel)), Item(INITRAMFS, Some(s.payloads.initramfs))], None)
            == Ok(Found(Some(manifest), [Hashed(COMPOSE_LOCK, hash(s.payloads.composeLock)),
                                         Hashed(KERNEL, hash(s.payloads.kernel)),
                                         Hashed(INITRAMFS, hash(s.payloads.initramfs))]))
  {
    hide FromBytes;
    var k, i, l := s.payloads.kernel, s.payloads.initramfs, s.payloads.composeLock;
    var m, a := Item(MANIFEST, Some(s.manifestJson)), Item(COMPOSE_LOCK, Some(l));
    var b, d := Item(KERNEL, Some(k)), Item(INITRAMFS, Some(i));
    var x, y, z := Hashed(COMPOSE_LOCK, hash(l)), Hashed(KERNEL, hash(k)), Hashed(INITRAMFS, hash(i));
    var f0: Found<H, A> := Found(None, []);
    var f1: Found<H, A> := Found(Some(manifest), []);
    var f2: Found<H, A> := Found(Some(manifest), [x]);
    var f3: Found<H, A> := Found(Some(manifest), [x, y]);
    var f4: Found<H, A> := Found(Some(manifest), [x, y, z]);
    NamesOk();
    assert NoteItem(c, hash, f0, m) == Ok(f1);
    assert NoteItem(c, hash, f1, a) == Ok(f2) by { assert [] + [x] == [x]; }
    assert NoteItem(c, hash, f2, b) == Ok(f3) by { assert [x] + [y] == [x, y]; }
    assert NoteItem(c, hash, f3, d) == Ok(f4) by { assert [x, y] + [z] == [x, y, z]; }
    hide NoteItem;
    NoteOne(c, hash, f0, [m, a, b, d], f1);
    NoteOne(c, hash, f1, [a, b, d], f2);
    NoteOne(c, hash, f2, [b, d], f3);
    NoteOne(c, hash, f3, [d], f4);
    hide NoteItems;
    assert [m, a, b, d][1..] == [a, b, d] && [a, b, d][1..] == [b, d] && [b, d][1..] == [d] && [d][1..] == [];
    NoteNone(c, hash, f4);
  }

  /** A sealed artifact cannot fail `verify`: for every hash function and every JSON
      codec that keeps its promise, all members are found and all hashes agree. */
  lemma SealedVerifies<H(!new), A(!new)>(about: A, s: Sealed, hash: Bytes -> H, c: Codec<H, A>)
    requires forall m :: m in s.Members() ==> m.Ok()
    requires RoundTrips(c) && c.encode(ManifestOf(about, s.payloads, hash)) == Some(s.manifestJson)
    ensures var file := Archive(s.Members());
            var r := VerifyOutcome(c, hash, file);
            r.Ok? && r.value.AllOk() && r.value.fileSha == hash(file) && |r.value.checks| == 3
  {
    hide ScanFrom, Archive, Items, VerifyReport.AllOk, Checks, Absent, ManifestOf;
    SealedItems(s);
    var manifest := ManifestOf(about, s.payloads, hash);
    assert FromBytes(c, s.manifestJson) == Ok(manifest) by {
      VersionOf(about, s.payloads, hash);
    }
    NoteSealed(c, hash, s, manifest);
    SealedChecks(about, s.payloads, hash, hash(Archive(s.Members())));
  }

  lemma SealedChecks<H, A>(about: A, p: Payloads, hash: Bytes -> H, fileSha: H)
    ensures var actual := [Hashed(COMPOSE_LOCK, hash(p.composeLock)), Hashed(KERNEL, hash(p.kernel)),
                           Hashed(INITRAMFS, hash(p.initramfs))];
            var records := ManifestOf(about, p, hash).members;
            && VerifyReport(fileSha, Checks(records, actual), Absent(records, actual)).AllOk()
            && |Checks(records, actual)| == 3
  {
    hide VerifyReport.AllOk;
    NamesOk();
    var x, y := Hashed(COMPOSE_LOCK, hash(p.composeLock)), Hashed(KERNEL, hash(p.kernel));
    var z := Hashed(INITRAMFS, hash(p.initramfs));
    var actual := [x, y, z];
    var records := ManifestOf(about, p, hash).members;
    var a, b, d := records[0], records[1], records[2];
    assert a == Record(COMPOSE_LOCK, |p.composeLock|, x.sha) && b == Record(KERNEL, |p.kernel|, y.sha)
           && d == Record(INITRAMFS, |p.initramfs|, z.sha);
    assert records == [a, b, d];
    assert [x, y, z][1..] == [y, z] && [y, z][1..] == [z];
    assert FindHash([z], INITRAMFS) == Some(z.sha);
    assert FindHash([y, z], INITRAMFS) == Some(z.sha);
    assert actual[0] == x && actual[1..] == [y, z] && x.name != INITRAMFS;
    assert FindHash(actual, INITRAMFS) == Some(z.sha);
    assert FindHash(actual, a.name) == Some(a.sha) && FindHash(actual, b.name) == Some(b.sha)
           && FindHash(actual, d.name) == Some(d.sha);
    hide FindHash;
    AllOkMeans(records, actual, fileSha);
    assert [a, b, d][..2] == [a, b] && [a, b][..1] == [a] && [a][..0] == [];
    assert |Checks([a], actual)| == 1;
    assert |Checks([a, b], actual)| == 2;
  }
}
