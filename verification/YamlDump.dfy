/** Dumping a whole document: `emit_yaml` and the walk over the tree. */
module YamlDump {
  import opened Prelude
  import opened YamlReader
  import opened YamlPieces
  import opened YamlDouble
  import opened YamlAnalysis
  import opened YamlResolve
  import opened YamlPatterns
  import opened YamlTags
  import opened YamlEmitter
  import opened YamlBlocks
  import opened YamlTree

  /** The emitter has come to the place. */
  ghost predicate Stands(e: Emitter, place: Place)
    reads e
  {
    match place
    case Root => e.out == [] && e.column == 0 && e.whitespace && e.indention && e.indent == None
    case Value(c) => e.column > c && !e.whitespace && !e.indention && e.indent == Some(c)
    case Item(c) => e.column == c + 1 && !e.whitespace && e.indention && e.indent == Some(c)
  }

  // Scalars.

  lemma EmptyIsNull()
    ensures ResolvePlain([]) == Some(Null)
  {
  }

  lemma WidthAtLeastOne(text: Text)
    requires text != []
    ensures Width(text) >= 1
  {
  }

  /** So far in, every such spot is past the width. */
  lemma TearsHere(text: Text, place: Place, column: int)
    requires if place.Root? then column == 1 else column >= place.c + 4 || column == place.c + 3
    ensures Tears(text, column, Margin(place), true) <==> Margin(place) >= WIDTH && Tearable(text)
  {
    if Margin(place) >= WIDTH {
      forall e: nat
        ensures TearAt(text, column, e) <==> 0 < e < |text| - 2 && !Verbatim(text[e]) && text[e + 1] == SPACE
      {
        if 0 < e < |text| - 2 {
          WidthAtLeastOne(text[..e + 1]);
        }
      }
      if Tearable(text) {
        var e :| 0 < e < |text| - 2 && !Verbatim(text[e]) && text[e + 1] == SPACE;
        assert TearAt(text, column, e);
      }
    }
  }

  /** A string or a scalar with text is printed with something. */
  lemma SomethingPrinted(text: Text, tag: Tag)
    requires text != [] || tag.Str?
    ensures !Nothing(StyleFor(text, tag, false), text)
  {
    if text == [] {
      EmptyIsNull();
    }
  }

  /** What a reader makes of a scalar, if it is not torn. */
  ghost function ReadAs(text: Text, tag: Tag): Tree {
    Scalar(text, TagAs(StyleFor(text, tag, false), text))
  }

  method EmitLeaf(e: Emitter, text: Text, tag: Tag, ghost place: Place)
    returns (ok: bool, ghost p: Text, ghost read: Tree)
    requires Represented(Scalar(text, tag)) && Stands(e, place)
    modifies e
    ensures ok <==> !SignColon(text)
    ensures ok ==>
              && e.out == old(e.out) + p && !e.indention && e.column >= 0
              && e.indent == old(e.indent) && e.indents == old(e.indents)
              && Reads(p, read, place) && (read == Scalar(text, tag) <==> Kept(Scalar(text, tag), place))
              && (SingleText(text) ==> read == ReadAs(text, tag))
  {
    hide SignColon, SingleText, PlainText, ResolvePlain, Tears, Tearable, NodeReadsBack, ReadsBack, Reads, StartsScalar;
    hide Resolved;
    SomethingPrinted(text, tag);
    TearsHere(text, place, e.column + |Opening(DQUOTE, e.whitespace)|);
    ghost var printed, back;
    var style;
    style, printed, back := e.EmitScalar(text, tag, false);
    ok := style.Some?;
    p, read := [], Scalar(text, tag);
    if ok {
      p, read := Gap(place) + printed, Scalar(back, TagAs(style.value, text));
      ScalarReads(printed, back, read.tag, place);
      assert old(e.out) + Gap(place) + printed == old(e.out) + p;
    }
  }

  /** `{}` or `[]`. */
  method EmitEmpty(e: Emitter, t: Tree, ghost place: Place) returns (ghost p: Text)
    requires (t == Mapping([]) || t == Sequence([])) && Stands(e, place)
    modifies e
    ensures e.out == old(e.out) + p && !e.indention && e.column >= 0
    ensures e.indent == old(e.indent) && e.indents == old(e.indents) && Reads(p, t, place)
  {
    hide Reads;
    EmptyReads(t, place);
    var open, close: Text := if t.Mapping? then [123] else [91], if t.Mapping? then [125] else [93];
    e.WriteIndicator(open, true, true, false);
    e.WriteIndicator(close, false, false, false);
    p := Gap(place) + (open + close);
    assert open + close == if t.Mapping? then EMPTY_MAPPING else EMPTY_SEQUENCE;
    assert old(e.out) + (Gap(place) + open) + close == old(e.out) + p;
  }

  // Nodes.

  method EmitNode(e: Emitter, t: Tree, mapping: bool, ghost place: Place)
    returns (ok: bool, ghost p: Text, ghost read: Tree)
    requires Represented(t) && Stands(e, place) && mapping == place.Value?
    modifies e
    ensures ok <==> !Panics(t)
    ensures ok ==>
              && e.out == old(e.out) + p && !e.indention && e.column >= 0
              && e.indent == old(e.indent) && e.indents == old(e.indents)
              && Reads(p, read, place) && (read == t <==> Kept(t, place))
              && (t.Scalar? && SingleText(t.text) ==> read == ReadAs(t.text, t.tag))
    decreases t, 2
  {
    hide SignColon, Reads, SingleText, ReadAs;
    if t.Scalar? {
      ok, p, read := EmitLeaf(e, t.text, t.tag, place);
    } else if t == Mapping([]) || t == Sequence([]) {
      ok, read := true, t;
      p := EmitEmpty(e, t, place);
    } else if t.Mapping? {
      ok, p, read := EmitBlockMapping(e, t, place);
    } else {
      ok, p, read := EmitBlockSequence(e, t, mapping, place);
    }
  }

  /** From the place, or from the end of an entry or item, to column `c`. */
  method StartLine(e: Emitter, ghost place: Place, ghost c: nat, first: bool)
    requires e.indent == Some(c) && e.column >= 0
    requires first ==> At(e, place, c)
    requires !first ==> !e.indention
    modifies e`out, e`column, e`whitespace, e`indention
    ensures e.column == c && e.whitespace && e.indention
    ensures e.out == old(e.out) + if first then Lead0(place, c) else NewLine(c)
  {
    e.WriteIndent();
    if first && place.Item? {
      assert Repeat(SPACE, 1) == [SPACE];
    }
  }

  /** The place, after the indentation has been raised to `c`. */
  ghost predicate At(e: Emitter, place: Place, c: nat)
    reads e
  {
    match place
    case Root => e.column == 0 && e.whitespace && e.indention && c == 0
    case Value(_) => !e.indention
    case Item(m) => e.column == m + 1 && !e.whitespace && e.indention && c == m + 2
  }

  method EmitEntry(e: Emitter, t: Tree, i: nat, ghost c: nat)
    returns (ok: bool, ghost line: EntryPrint, ghost read: Entry)
    requires t.Mapping? && i < |t.entries| && Represented(t.entries[i].value)
    requires e.indent == Some(c) && e.column == c && e.whitespace
    modifies e
    ensures ok <==> !SignColon(t.entries[i].key) && !Panics(t.entries[i].value)
    ensures ok ==>
              && e.out == old(e.out) + EntryText(line) && !e.indention && e.column >= 0
              && e.indent == old(e.indent) && e.indents == old(e.indents)
              && EntryReads(line, read, c) && read.key == t.entries[i].key
              && (read.keyTag == Str <==> KeepsTag(t.entries[i].key, Str, true))
              && (read.value == t.entries[i].value <==> Kept(t.entries[i].value, Value(c)))
    decreases t, 0
  {
    hide SignColon, SingleText, PlainText, ResolvePlain, NodeReadsBack, ReadsBack, StartsScalar, Unbroken, ReadsAsValue;
    hide Resolved;
    var entry := t.entries[i];
    line, read := EntryPrint([], []), entry;
    ghost var key, back;
    var style;
    style, key, back := e.EmitScalar(entry.key, Str, true);
    ok := style.Some?;
    if !ok {
      return;
    }
    assert !Nothing(style.value, entry.key);
    e.WriteIndicator([COLON], false, false, false);
    ghost var before := old(e.out) + key + [COLON];
    assert e.out == before;
    ghost var value, tree;
    ok, value, tree := EmitNode(e, entry.value, true, Value(c));
    if ok {
      line, read := EntryPrint(key, value), Entry(entry.key, TagAs(style.value, entry.key), tree);
      assert before + value == old(e.out) + EntryText(line);
    }
  }

  /** The first entries have been printed, and read as `back`. */
  ghost predicate EntriesSoFar(entries: seq<Entry>, lines: seq<EntryPrint>, back: seq<Entry>, c: nat) {
    && |lines| == |back| <= |entries|
    && forall j :: 0 <= j < |lines| ==> EntrySoFar(entries[j], lines[j], back[j], c)
  }

  ghost predicate EntrySoFar(entry: Entry, line: EntryPrint, back: Entry, c: nat) {
    && EntryReads(line, back, c) && back.key == entry.key && !SignColon(entry.key) && !Panics(entry.value)
    && (back.keyTag == Str <==> KeepsTag(entry.key, Str, true))
    && (back.value == entry.value <==> Kept(entry.value, Value(c)))
  }

  lemma EntriesMore(entries: seq<Entry>, lines: seq<EntryPrint>, back: seq<Entry>, c: nat, line: EntryPrint, b: Entry)
    requires EntriesSoFar(entries, lines, back, c) && |lines| < |entries|
    requires EntrySoFar(entries[|lines|], line, b, c)
    ensures EntriesSoFar(entries, lines + [line], back + [b], c)
  {
    hide EntrySoFar;
  }

  lemma EntriesDone(t: Tree, lines: seq<EntryPrint>, back: seq<Entry>, place: Place)
    requires t.Mapping? && t.entries != [] && EntriesSoFar(t.entries, lines, back, KeyColumn(place))
    requires forall i :: 0 <= i < |t.entries| ==> t.entries[i].keyTag.Str?
    requires |lines| == |t.entries|
    ensures Reads(Lead0(place, KeyColumn(place)) + JoinEntries(lines, KeyColumn(place)), Mapping(back), place)
    ensures !Panics(t) && (Mapping(back) == t <==> Kept(t, place))
  {
    hide EntryReads, Reads, ReadsAsMapping, JoinEntries, SignColon;
    JoinedEntriesRead(lines, back, KeyColumn(place));
    MappingReads(JoinEntries(lines, KeyColumn(place)), back, place);
    SameEntries(back, t.entries);
  }

  method EmitBlockMapping(e: Emitter, t: Tree, ghost place: Place)
    returns (ok: bool, ghost p: Text, ghost read: Tree)
    requires t.Mapping? && t.entries != [] && Represented(t) && Stands(e, place)
    modifies e
    ensures ok <==> !Panics(t)
    ensures ok ==>
              && e.out == old(e.out) + p && !e.indention && e.column >= 0
              && e.indent == old(e.indent) && e.indents == old(e.indents)
              && Reads(p, read, place) && (read == t <==> Kept(t, place))
    decreases t, 1
  {
    hide SignColon, Reads, EntryReads, JoinEntries, EntryText, NewLine, EntriesSoFar, Kept;
    ghost var c, lead := KeyColumn(place), Lead0(place, KeyColumn(place));
    ghost var lines: seq<EntryPrint>, back: seq<Entry> := [], [];
    p, read := [], t;
    NoEntries(t.entries, c);
    e.IncreaseIndent(false);
    for i := 0 to |t.entries|
      invariant e.indent == Some(c) && e.indents == old(e.indents) + [old(e.indent)] && e.column >= 0
      invariant i == 0 ==> e.out == old(e.out) && At(e, place, c)
      invariant |lines| == i && EntriesSoFar(t.entries, lines, back, c)
      invariant i > 0 ==> !e.indention && e.out == old(e.out) + lead + JoinEntries(lines, c)
    {
      StartLine(e, place, c, i == 0);
      ghost var line, entry;
      ok, line, entry := EmitEntry(e, t, i, c);
      if !ok {
        return;
      }
      JoinedEntries(old(e.out), lead, lines, line, c);
      EntriesMore(t.entries, lines, back, c, line, entry);
      lines, back := lines + [line], back + [entry];
    }
    ok := true;
    e.indent := e.indents[|e.indents| - 1];
    e.indents := e.indents[..|e.indents| - 1];
    EntriesDone(t, lines, back, place);
    p, read := lead + JoinEntries(lines, c), Mapping(back);
    assert old(e.out) + lead + JoinEntries(lines, c) == old(e.out) + p;
  }

  lemma NoEntries(entries: seq<Entry>, c: nat)
    ensures EntriesSoFar(entries, [], [], c)
  {
  }

  lemma JoinedEntries(before: Text, lead: Text, lines: seq<EntryPrint>, line: EntryPrint, c: nat)
    ensures lines == [] ==> before + lead + EntryText(line) == before + lead + JoinEntries(lines + [line], c)
    ensures lines != [] ==>
              before + lead + JoinEntries(lines, c) + NewLine(c) + EntryText(line)
              == before + lead + JoinEntries(lines + [line], c)
  {
    hide EntryText, NewLine;
    if lines == [] {
      assert lines + [line] == [line];
    } else {
      JoinOneEntry(lines, line, c);
      var a, b, d := JoinEntries(lines, c), NewLine(c), EntryText(line);
      assert before + lead + a + b + d == before + lead + (a + b + d);
    }
  }

  lemma SameEntries(a: seq<Entry>, b: seq<Entry>)
    requires |a| == |b| && forall j :: 0 <= j < |a| ==> a[j].key == b[j].key
    ensures a == b <==> forall j :: 0 <= j < |a| ==> a[j].keyTag == b[j].keyTag && a[j].value == b[j].value
  {
    if forall j :: 0 <= j < |a| ==> a[j].keyTag == b[j].keyTag && a[j].value == b[j].value {
      assert forall j :: 0 <= j < |a| ==> a[j] == b[j];
    }
  }

  method EmitItem(e: Emitter, t: Tree, i: nat, ghost c: nat) returns (ok: bool, ghost p: Text, ghost read: Tree)
    requires t.Sequence? && i < |t.items| && Represented(t.items[i])
    requires e.indent == Some(c) && e.column == c && e.whitespace && e.indention
    modifies e
    ensures ok <==> !Panics(t.items[i])
    ensures ok ==>
              && e.out == old(e.out) + ([DASH] + p) && !e.indention && e.column >= 0
              && e.indent == old(e.indent) && e.indents == old(e.indents)
              && ReadsAsItem(p, read, c) && (read == t.items[i] <==> Kept(t.items[i], Item(c)))
    decreases t, 0
  {
    hide ReadsAsItem;
    e.WriteIndicator([DASH], true, false, true);
    ok, p, read := EmitNode(e, t.items[i], false, Item(c));
    assert old(e.out) + [DASH] + p == old(e.out) + ([DASH] + p);
  }

  /** The first items have been printed, and read as `back`. */
  ghost predicate ItemsSoFar(items: seq<Tree>, lines: seq<Text>, back: seq<Tree>, c: nat) {
    && |lines| == |back| <= |items|
    && forall j :: 0 <= j < |lines| ==> ItemSoFar(items[j], lines[j], back[j], c)
  }

  ghost predicate ItemSoFar(item: Tree, line: Text, back: Tree, c: nat) {
    ReadsAsItem(line, back, c) && !Panics(item) && (back == item <==> Kept(item, Item(c)))
  }

  lemma ItemsMore(items: seq<Tree>, lines: seq<Text>, back: seq<Tree>, c: nat, line: Text, b: Tree)
    requires ItemsSoFar(items, lines, back, c) && |lines| < |items| && ItemSoFar(items[|lines|], line, b, c)
    ensures ItemsSoFar(items, lines + [line], back + [b], c)
  {
    hide ItemSoFar;
  }

  lemma ItemsDone(t: Tree, lines: seq<Text>, back: seq<Tree>, place: Place)
    requires t.Sequence? && t.items != [] && ItemsSoFar(t.items, lines, back, DashColumn(place))
    requires |lines| == |t.items|
    ensures Reads(Lead0(place, DashColumn(place)) + JoinItems(lines, DashColumn(place)), Sequence(back), place)
    ensures !Panics(t) && (Sequence(back) == t <==> Kept(t, place))
  {
    hide ReadsAsItem, Reads, ReadsAsSequence, JoinItems;
    JoinedItemsRead(lines, back, DashColumn(place));
    SequenceReads(JoinItems(lines, DashColumn(place)), back, place);
    assert back == t.items <==> forall j :: 0 <= j < |back| ==> back[j] == t.items[j];
  }

  lemma NoItems(items: seq<Tree>, c: nat)
    ensures ItemsSoFar(items, [], [], c)
  {
  }

  method EmitBlockSequence(e: Emitter, t: Tree, mapping: bool, ghost place: Place)
    returns (ok: bool, ghost p: Text, ghost read: Tree)
    requires t.Sequence? && t.items != [] && Represented(t) && Stands(e, place) && mapping == place.Value?
    modifies e
    ensures ok <==> !Panics(t)
    ensures ok ==>
              && e.out == old(e.out) + p && !e.indention && e.column >= 0
              && e.indent == old(e.indent) && e.indents == old(e.indents)
              && Reads(p, read, place) && (read == t <==> Kept(t, place))
    decreases t, 1
  {
    hide Reads, ReadsAsItem, JoinItems, NewLine, ItemsSoFar, Kept;
    ghost var c, lead := DashColumn(place), Lead0(place, DashColumn(place));
    ghost var lines: seq<Text>, back: seq<Tree> := [], [];
    p, read := [], t;
    NoItems(t.items, c);
    e.IncreaseIndent(mapping && !e.indention);
    for i := 0 to |t.items|
      invariant e.indent == Some(c) && e.indents == old(e.indents) + [old(e.indent)] && e.column >= 0
      invariant i == 0 ==> e.out == old(e.out) && At(e, place, c)
      invariant |lines| == i && ItemsSoFar(t.items, lines, back, c)
      invariant i > 0 ==> !e.indention && e.out == old(e.out) + lead + JoinItems(lines, c)
    {
      StartLine(e, place, c, i == 0);
      ghost var line, item;
      ok, line, item := EmitItem(e, t, i, c);
      if !ok {
        return;
      }
      JoinedItems(old(e.out), lead, lines, line, c);
      ItemsMore(t.items, lines, back, c, line, item);
      lines, back := lines + [line], back + [item];
    }
    ok := true;
    e.indent := e.indents[|e.indents| - 1];
    e.indents := e.indents[..|e.indents| - 1];
    ItemsDone(t, lines, back, place);
    p, read := lead + JoinItems(lines, c), Sequence(back);
    assert old(e.out) + lead + JoinItems(lines, c) == old(e.out) + p;
  }

  lemma JoinedItems(before: Text, lead: Text, lines: seq<Text>, line: Text, c: nat)
    ensures lines == [] ==> before + lead + ([DASH] + line) == before + lead + JoinItems(lines + [line], c)
    ensures lines != [] ==>
              before + lead + JoinItems(lines, c) + NewLine(c) + ([DASH] + line)
              == before + lead + JoinItems(lines + [line], c)
  {
    hide NewLine;
    if lines == [] {
      assert lines + [line] == [line];
    } else {
      JoinOneItem(lines, line, c);
      var a, b, d := JoinItems(lines, c), NewLine(c), [DASH] + line;
      assert before + lead + a + b + d == before + lead + (a + b + d);
    }
  }

  /** Dump a tree. It panics exactly on a scalar or key that is a sign followed by a
      colon; otherwise the document reads, and as the tree if and only if every scalar is
      kept where it stands. */
  method EmitYaml(t: Tree) returns (out: Option<Text>)
    requires Represented(t)
    ensures out.None? <==> Panics(t)
    ensures out.Some? ==> ReadDocument(out.value).Some? && (ReadDocument(out.value) == Some(t) <==> Kept(t, Root))
    ensures out.Some? && t.Scalar? && SingleText(t.text) ==> ReadDocument(out.value) == Some(ReadAs(t.text, t.tag))
  {
    hide Panics, Kept, ReadDocument, SingleText, ReadAs;
    var e := new Emitter();
    ghost var p, read;
    var ok;
    ok, p, read := EmitNode(e, t, false, Root);
    if !ok {
      return None;
    }
    e.WriteIndent();
    assert [] + p + NewLine(0) == p + [LF];
    return Some(e.out);
  }

  // It does happen.

  /** One item in another, `k` deep. */
  function Nested(k: nat, t: Tree): Tree {
    if k == 0 then t else Sequence([Nested(k - 1, t)])
  }

  lemma {:induction false} NestedIs(k: nat, t: Tree, c: nat)
    ensures Kept(Nested(k, t), Item(c)) <==> Kept(t, Item(c + 2 * k))
    ensures Panics(Nested(k, t)) <==> Panics(t)
    ensures Represented(Nested(k, t)) <==> Represented(t)
  {
    hide Kept, Panics, Represented;
    if k > 0 {
      var inner := Nested(k - 1, t);
      NestedIs(k - 1, t, c + 2);
      OneItem(inner, Item(c));
    }
  }

  lemma OneItem(inner: Tree, place: Place)
    ensures Kept(Sequence([inner]), place) <==> Kept(inner, Item(DashColumn(place)))
    ensures Panics(Sequence([inner])) <==> Panics(inner)
    ensures Represented(Sequence([inner])) <==> Represented(inner)
  {
    hide KeepsTag, SingleText, SignColon, Tearable;
    assert [inner][0] == inner;
  }

  lemma TornIsNotKept()
    ensures !Kept(Scalar(TORN_TEXT, Str), Item(78)) && !SignColon(TORN_TEXT)
  {
    TornTextTears();
    hide SingleText, SignColon;
    assert !Verbatim(TORN_TEXT[1]) && TORN_TEXT[2] == SPACE;
  }

  /** A sequence forty deep around `a`, a tab, a space and `b` does not read back. */
  method DeepItemTears() returns (out: Text)
    ensures ReadDocument(out) != Some(Nested(40, Scalar(TORN_TEXT, Str)))
  {
    hide Kept, Panics, Represented, ReadDocument, SignColon;
    var leaf := Scalar(TORN_TEXT, Str);
    var t := Nested(40, leaf);
    DeepLeaf(leaf);
    var r := EmitYaml(t);
    out := r.value;
  }

  lemma DeepLeaf(leaf: Tree)
    requires leaf == Scalar(TORN_TEXT, Str)
    ensures var t := Nested(40, leaf); Represented(t) && !Panics(t) && !Kept(t, Root)
  {
    TornIsNotKept();
    assert Represented(leaf) && !Panics(leaf);
    NestedIs(39, leaf, 0);
    hide Kept, Panics, Represented;
    assert Nested(40, leaf) == Sequence([Nested(39, leaf)]);
    OneItem(Nested(39, leaf), Root);
  }

  /** Nor does the string `1:30.5`, which a reader takes for a float. */
  method HalfPastReadsAsFloat() returns (out: Text)
    ensures ReadDocument(out) == Some(Scalar(HALF_PAST, Float))
  {
    hide Kept, ReadDocument, ReadAs, SingleText, Panics, Represented;
    HalfPast();
    var r := EmitYaml(Scalar(HALF_PAST, Str));
    out := r.value;
  }

  lemma HalfPast()
    ensures var t := Scalar(HALF_PAST, Str); Represented(t) && !Panics(t)
    ensures SingleText(HALF_PAST) && ReadAs(HALF_PAST, Str) == Scalar(HALF_PAST, Float)
  {
    hide Resolved, ResolvePlain, Matches, PlainText;
    HalfPastIsMissed();
    MissedIsStr(HALF_PAST);
    MissedIsPlain(HALF_PAST);
  }
}
