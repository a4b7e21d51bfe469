/** The emitter over whole documents: block mappings and sequences around the scalar
    printer.  What it prints reads back as the tree it was given, exactly unless a
    scalar deep inside is torn or has a tag its print does not carry. */
module YamlTree {
  import opened Prelude
  import opened YamlReader
  import opened YamlPieces
  import opened YamlDouble
  import opened YamlAnalysis
  import opened YamlPlain
  import opened YamlResolve
  import opened YamlPatterns
  import opened YamlTags
  import opened YamlEmitter
  import opened YamlBlocks

  /** Where a node is printed: by itself, after the colon of a key in column `c`, or
      after a dash in column `c`. */
  datatype Place = Root | Value(c: nat) | Item(c: nat)

  function Margin(place: Place): nat {
    ScalarMargin(if place.Root? then None else Some(place.c))
  }

  /** The column of the keys of a mapping there. */
  function KeyColumn(place: Place): nat {
    if place.Root? then 0 else place.c + 2
  }

  /** The column of the dashes of a sequence there: under a key they are not indented. */
  function DashColumn(place: Place): nat {
    match place
    case Root => 0
    case Value(c) => c
    case Item(c) => c + 2
  }

  // What is asked of a tree.

  /** A scalar as its value is represented: only strings can be empty. Keys are strings. */
  predicate Represented(t: Tree) {
    match t
    case Scalar(text, tag) => text != [] || tag.Str?
    case Mapping(entries) =>
      forall i :: 0 <= i < |entries| ==> entries[i].keyTag.Str? && Represented(entries[i].value)
    case Sequence(items) => forall i :: 0 <= i < |items| ==> Represented(items[i])
  }

  /** A scalar or a key on which the resolver panics. */
  predicate Panics(t: Tree) {
    match t
    case Scalar(text, _) => SignColon(text)
    case Mapping(entries) =>
      exists i :: 0 <= i < |entries| && (SignColon(entries[i].key) || Panics(entries[i].value))
    case Sequence(items) => exists i :: 0 <= i < |items| && Panics(items[i])
  }

  /** An escaped character before a space, not at the edges: where a narrow line folds
      twice. */
  predicate Tearable(text: Text) {
    exists e :: 0 < e < |text| - 2 && !Verbatim(text[e]) && text[e + 1] == SPACE
  }

  /** Every scalar keeps its text and its tag where it stands, and every key its tag. */
  ghost predicate Kept(t: Tree, place: Place) {
    match t
    case Scalar(text, tag) =>
      && (SingleText(text) || Margin(place) < WIDTH || !Tearable(text))
      && KeepsTag(text, tag, false)
    case Mapping(entries) =>
      forall i :: 0 <= i < |entries| ==>
        KeepsTag(entries[i].key, Str, true) && Kept(entries[i].value, Value(KeyColumn(place)))
    case Sequence(items) =>
      forall i :: 0 <= i < |items| ==> Kept(items[i], Item(DashColumn(place)))
  }

  // When a tag is kept.

  lemma MissedIsPlain(s: Text)
    requires MissedFloat(s)
    ensures PlainText(s) && s != []
  {
    hide Matches, MissedFloat;
    var a := MissedIsForm(s);
    var t := StripSign(s);
    assert s == t || s == [s[0]] + t;
    forall c | c in s ensures 0x20 < c <= 0x7e && !IsBlank(c) && c != HASH {
      assert c in t || c == s[0];
    }
    forall i | 0 <= i < |s| ensures s[i] in s {
    }
    assert s[|s| - 1] == t[|t| - 1];
    if IsSign(s[0]) {
      assert s[1] == t[0];
    }
  }

  /** A string keeps its tag exactly when it is no sexagesimal float; null, booleans and
      integers when they are printed plain; a float when moreover a reader takes the
      text for one. */
  lemma KeepsTagIff(text: Text, tag: Tag, simpleKey: bool)
    requires !SignColon(text)
    ensures KeepsTag(text, Str, simpleKey) <==> !MissedFloat(text)
    ensures tag.Null? || tag.Bool? || tag.Int? ==> (KeepsTag(text, tag, simpleKey) <==> PlainFor(text, tag, simpleKey))
    ensures KeepsTag(text, Float, simpleKey) <==> PlainFor(text, Float, simpleKey) && Matches(FLOAT, text)
  {
    hide Resolved, ResolvePlain, Matches, MissedFloat, PlainText, SingleText;
    AgreesWithReader(text);
    if MissedFloat(text) {
      MissedIsStr(text);
      MissedIsPlain(text);
    }
  }

  // What is asked of the print of a node.

  /** After a colon, it reads as the tree and leaves what follows alone. */
  ghost predicate ReadsAsValue(p: Text, t: Tree, c: nat) {
    p != [] && (p[0] == SPACE || p[0] == LF) &&
    forall rest: Text :: EndsEntry(rest, c) ==> ReadValue(p + rest, c) == Some(Parsed(t, rest))
  }

  ghost predicate ReadsAsItem(p: Text, t: Tree, c: nat) {
    p != [] && p[0] == SPACE &&
    forall rest: Text :: EndsItem(rest, c) ==> ReadItem(p + rest, c) == Some(Parsed(t, rest))
  }

  ghost predicate Reads(p: Text, t: Tree, place: Place) {
    match place
    case Root => ReadDocument(p + [LF]) == Some(t)
    case Value(c) => ReadsAsValue(p, t, c)
    case Item(c) => ReadsAsItem(p, t, c)
  }

  /** From its first key on. */
  ghost predicate ReadsAsMapping(q: Text, entries: seq<Entry>, c: nat) {
    Solid(q) &&
    forall rest: Text :: EndsMapping(rest, c) ==>
      && !Dash(q + rest) && ReadMapping(q + rest, c) == Some(ParsedEntries(entries, rest))
      && forall n: nat :: n <= c + 2 ==> BeginsKey(q + rest, n)
  }

  /** From its first dash on. */
  ghost predicate ReadsAsSequence(q: Text, items: seq<Tree>, c: nat) {
    |q| >= 2 && q[0] == DASH && q[1] == SPACE &&
    forall rest: Text :: EndsEntry(rest, c) ==> ReadSequence(q + rest, c) == Some(ParsedItems(items, rest))
  }

  predicate BeginsKey(s: Text, n: nat) {
    ReadFlow(s, n).Some? && KeyEnds(ReadFlow(s, n).value.rest)
  }

  // Flow nodes.

  lemma ScalarFlow(printed: Text, read: Text, tag: Tag, margin: nat, simpleKey: bool, rest: Text, n: nat)
    requires StartsScalar(printed) && NodeReadsBack(printed, read, tag, margin, simpleKey)
    requires n <= margin && Terminates(simpleKey, rest, n)
    ensures ReadFlow(printed + rest, n) == Some(Parsed(Scalar(read, tag), rest))
    ensures !Dash(printed + rest) && Solid(printed + rest)
  {
    var s := printed + rest;
    assert s[0] == printed[0];
    assert ReadNode(s, n) == Some(Node(tag, read, rest));
    if s[0] == DASH && |printed| > 1 {
      assert s[1] == printed[1];
    }
    hide ReadNode, Terminates;
  }

  lemma OneSpace(p: Text, rest: Text)
    requires Solid(p)
    ensures var s := [SPACE] + p + rest; Lead(s) == 1 && s[1..] == p + rest && s[1] == p[0]
  {
    var s := [SPACE] + p + rest;
    assert s[1..] == p + rest && s[1] == p[0];
    assert Lead(s[1..]) == 0;
  }

  lemma InlineValue(p: Text, rest: Text, t: Tree, c: nat)
    requires Solid(p) && ReadFlow(p + rest, c + 1) == Some(Parsed(t, rest)) && !KeyEnds(rest)
    ensures ReadValue([SPACE] + p + rest, c) == Some(Parsed(t, rest))
  {
    hide ReadFlow, KeyEnds, Following, ReadSequence, ReadBlock, Lead;
    OneSpace(p, rest);
  }

  lemma InlineItem(p: Text, rest: Text, t: Tree, c: nat)
    requires Solid(p) && ReadFlow(p + rest, c + 1) == Some(Parsed(t, rest)) && !KeyEnds(rest) && !Dash(p + rest)
    ensures ReadItem([SPACE] + p + rest, c) == Some(Parsed(t, rest))
  {
    hide ReadFlow, KeyEnds, Following, ReadSequence, ReadMapping, Dash, ReadItem;
    assert ReadBlock(p + rest, c + 2, c + 1) == Some(Parsed(t, rest));
    SameLineItem(p, rest, c, t);
  }

  /** A flow node after a space, in any place. */
  lemma FlowValue(p: Text, t: Tree, c: nat)
    requires Solid(p)
    requires forall rest: Text :: EndsItem(rest, c) ==> ReadFlow(p + rest, c + 1) == Some(Parsed(t, rest))
    ensures ReadsAsValue([SPACE] + p, t, c)
  {
    hide ReadFlow, ReadValue, KeyEnds, AtEnd, Following;
    forall rest: Text | EndsEntry(rest, c) ensures ReadValue([SPACE] + p + rest, c) == Some(Parsed(t, rest)) {
      EndsNoKey(rest, c);
      InlineValue(p, rest, t, c);
    }
  }

  lemma EndsNoKey(rest: Text, c: nat)
    requires EndsItem(rest, c)
    ensures !KeyEnds(rest)
  {
    hide Following;
  }

  lemma FlowItem(p: Text, t: Tree, c: nat)
    requires Solid(p) && (forall rest: Text :: EndsItem(rest, c) ==> !Dash(p + rest))
    requires forall rest: Text :: EndsItem(rest, c) ==> ReadFlow(p + rest, c + 1) == Some(Parsed(t, rest))
    ensures ReadsAsItem([SPACE] + p, t, c)
  {
    hide ReadFlow, ReadItem, KeyEnds, EndsItem, Dash;
    forall rest: Text | EndsItem(rest, c) ensures ReadItem([SPACE] + p + rest, c) == Some(Parsed(t, rest)) {
      EndsNoKey(rest, c);
      InlineItem(p, rest, t, c);
    }
  }

  lemma FlowRoot(p: Text, t: Tree)
    requires Solid(p) && !Dash(p + [LF]) && ReadFlow(p + [LF], 0) == Some(Parsed(t, [LF]))
    ensures Reads(p, t, Root)
  {
    var s := p + [LF];
    assert Repeat(SPACE, 0) + s == s;
    ContentOf(0, s);
    LastLine();
    hide ReadFlow, ReadSequence, ReadMapping, Dash, Content;
    assert ReadBlock(s, 0, 0) == Some(Parsed(t, [LF]));
  }

  lemma LastLine()
    ensures AtEnd([LF]) && Following([LF]).None? && !KeyEnds([LF]) && Terminates(false, [LF], 0)
    ensures EndsMapping([LF], 0) && EndsEntry([LF], 0)
  {
    assert PastBreak([LF]) == [];
  }

  /** The gap before a node that is printed where it stands. */
  function Gap(place: Place): Text {
    if place.Root? then [] else [SPACE]
  }

  lemma ScalarReads(printed: Text, read: Text, tag: Tag, place: Place)
    requires StartsScalar(printed) && NodeReadsBack(printed, read, tag, Margin(place), false)
    ensures Reads(Gap(place) + printed, Scalar(read, tag), place)
  {
    hide StartsScalar, NodeReadsBack, ReadFlow, EndsItem, Dash, ReadsAsValue, ReadsAsItem, ReadDocument, Terminates;
    ScalarIsSolid(printed);
    if place.Root? {
      LastLine();
      ScalarFlow(printed, read, tag, Margin(place), false, [LF], 0);
      assert [] + printed == printed;
      FlowRoot(printed, Scalar(read, tag));
    } else {
      forall rest: Text | EndsItem(rest, place.c)
        ensures ReadFlow(printed + rest, place.c + 1) == Some(Parsed(Scalar(read, tag), rest)) && !Dash(printed + rest)
      {
        ItemEndsScalar(rest, place.c);
        ScalarFlow(printed, read, tag, Margin(place), false, rest, place.c + 1);
      }
      FlowValue(printed, Scalar(read, tag), place.c);
      FlowItem(printed, Scalar(read, tag), place.c);
    }
  }

  lemma ScalarIsSolid(printed: Text)
    requires StartsScalar(printed)
    ensures Solid(printed)
  {
  }

  lemma EmptyReads(t: Tree, place: Place)
    requires t == Mapping([]) || t == Sequence([])
    ensures Reads(Gap(place) + (if t.Mapping? then EMPTY_MAPPING else EMPTY_SEQUENCE), t, place)
  {
    var p := if t.Mapping? then EMPTY_MAPPING else EMPTY_SEQUENCE;
    forall rest: Text, n: nat ensures ReadFlow(p + rest, n) == Some(Parsed(t, rest)) && !Dash(p + rest) {
      var s := p + rest;
      assert s[0] == p[0] && s[1] == p[1] && s[2..] == rest && s[..2] == p;
    }
    hide ReadFlow, Dash;
    if place.Root? {
      assert [] + p == p;
      FlowRoot(p, t);
    } else {
      FlowValue(p, t, place.c);
      FlowItem(p, t, place.c);
    }
  }

  // Collections in place.

  /** What leads from the place to the first key or dash of a collection. */
  function Lead0(place: Place, c: nat): Text {
    match place
    case Root => []
    case Value(_) => NewLine(c)
    case Item(_) => [SPACE]
  }

  lemma MappingReads(q: Text, entries: seq<Entry>, place: Place)
    requires ReadsAsMapping(q, entries, KeyColumn(place))
    ensures Reads(Lead0(place, KeyColumn(place)) + q, Mapping(entries), place)
  {
    hide ReadsAsMapping, ReadDocument, ReadValue, ReadItem, ReadBlock, Following, AtEnd;
    var c, t := KeyColumn(place), Mapping(entries);
    assert Solid(q) by { MappingIsSolid(q, entries, c); }
    match place
    case Root =>
      assert [] + q == q;
      LastLine();
      MappingBlock(q, entries, c, [LF], 0);
      DocumentOf(q, t);
    case Value(m) =>
      forall rest: Text | EndsEntry(rest, m) ensures ReadValue(NewLine(c) + q + rest, m) == Some(Parsed(t, rest)) {
        MappingBlock(q, entries, c, rest, m + 1);
        NewLineValue(q, rest, c, m, t);
      }
    case Item(m) =>
      forall rest: Text | EndsItem(rest, m) ensures ReadItem([SPACE] + q + rest, m) == Some(Parsed(t, rest)) {
        MappingBlock(q, entries, c, rest, m + 1);
        SameLineItem(q, rest, m, t);
      }
  }

  lemma MappingIsSolid(q: Text, entries: seq<Entry>, c: nat)
    requires ReadsAsMapping(q, entries, c)
    ensures Solid(q)
  {
  }

  lemma MappingBlock(q: Text, entries: seq<Entry>, c: nat, rest: Text, n: nat)
    requires ReadsAsMapping(q, entries, c) && EndsMapping(rest, c) && n <= c + 2
    ensures ReadBlock(q + rest, c, n) == Some(Parsed(Mapping(entries), rest))
  {
    hide ReadFlow, ReadMapping, ReadSequence, EndsMapping;
    assert BeginsKey(q + rest, n);
  }

  lemma DocumentOf(q: Text, t: Tree)
    requires Solid(q) && ReadBlock(q + [LF], 0, 0) == Some(Parsed(t, [LF]))
    ensures ReadDocument(q + [LF]) == Some(t)
  {
    assert Repeat(SPACE, 0) + (q + [LF]) == q + [LF];
    ContentOf(0, q + [LF]);
    LastLine();
    hide ReadBlock, Content;
  }

  lemma NewLineValue(q: Text, rest: Text, k: nat, m: nat, t: Tree)
    requires Solid(q) && k > m && ReadBlock(q + rest, k, m + 1) == Some(Parsed(t, rest))
    ensures ReadValue(NewLine(k) + q + rest, m) == Some(Parsed(t, rest))
  {
    hide ReadBlock, Following, ReadSequence, ReadFlow, Lead, AtEnd;
    var s := NewLine(k) + (q + rest);
    assert NewLine(k) + q + rest == s;
    FollowingLine(k, q + rest);
    BreakLeads(s);
  }

  lemma BreakLeads(s: Text)
    requires s != [] && s[0] == LF
    ensures Lead(s) == 0 && s[0..] == s
  {
  }

  lemma SameLineItem(q: Text, rest: Text, m: nat, t: Tree)
    requires Solid(q) && ReadBlock(q + rest, m + 2, m + 1) == Some(Parsed(t, rest))
    ensures ReadItem([SPACE] + q + rest, m) == Some(Parsed(t, rest))
  {
    hide ReadBlock, Following, Lead;
    OneSpace(q, rest);
  }

  lemma SequenceReads(q: Text, items: seq<Tree>, place: Place)
    requires ReadsAsSequence(q, items, DashColumn(place))
    ensures Reads(Lead0(place, DashColumn(place)) + q, Sequence(items), place)
  {
    hide ReadsAsSequence, ReadDocument, ReadValue, ReadItem, ReadBlock, Following, AtEnd;
    var c, t := DashColumn(place), Sequence(items);
    assert Solid(q) by { SequenceIsSolid(q, items, c); }
    match place
    case Root =>
      assert [] + q == q;
      LastLine();
      SequenceBlock(q, items, c, [LF], 0);
      DocumentOf(q, t);
    case Value(m) =>
      forall rest: Text | EndsEntry(rest, m) ensures ReadValue(NewLine(c) + q + rest, m) == Some(Parsed(t, rest)) {
        DashesUnderKey(q, items, rest, m);
      }
    case Item(m) =>
      forall rest: Text | EndsItem(rest, m) ensures ReadItem([SPACE] + q + rest, m) == Some(Parsed(t, rest)) {
        SequenceBlock(q, items, c, rest, m + 1);
        SameLineItem(q, rest, m, t);
      }
  }

  lemma SequenceIsSolid(q: Text, items: seq<Tree>, c: nat)
    requires ReadsAsSequence(q, items, c)
    ensures Solid(q)
  {
  }

  lemma SequenceBlock(q: Text, items: seq<Tree>, c: nat, rest: Text, n: nat)
    requires ReadsAsSequence(q, items, c) && EndsEntry(rest, c)
    ensures ReadBlock(q + rest, c, n) == Some(Parsed(Sequence(items), rest))
  {
    var s := q + rest;
    assert s[0] == q[0] && s[1] == q[1];
    hide ReadFlow, ReadMapping, ReadSequence, EndsEntry;
  }

  lemma DashesUnderKey(q: Text, items: seq<Tree>, rest: Text, m: nat)
    requires ReadsAsSequence(q, items, m) && EndsEntry(rest, m)
    ensures ReadValue(NewLine(m) + q + rest, m) == Some(Parsed(Sequence(items), rest))
  {
    hide ReadBlock, Following, ReadSequence, ReadFlow, Lead, AtEnd, EndsEntry, Dash;
    var t := q + rest;
    var s := NewLine(m) + t;
    assert NewLine(m) + q + rest == s;
    DashThere(q, rest);
    FollowingLine(m, t);
    BreakLeads(s);
  }

  // Entry after entry.

  datatype EntryPrint = EntryPrint(key: Text, value: Text)

  ghost predicate KeyReads(p: Text, key: Text, tag: Tag, c: nat) {
    StartsScalar(p) && Unbroken(p) && NodeReadsBack(p, key, tag, c + 2, true)
  }

  ghost predicate EntryReads(p: EntryPrint, e: Entry, c: nat) {
    KeyReads(p.key, e.key, e.keyTag, c) && ReadsAsValue(p.value, e.value, c)
  }

  function EntryText(p: EntryPrint): Text {
    p.key + [COLON] + p.value
  }

  function JoinEntries(prints: seq<EntryPrint>, c: nat): Text
    requires prints != []
  {
    if |prints| == 1 then EntryText(prints[0])
    else EntryText(prints[0]) + NewLine(c) + JoinEntries(prints[1..], c)
  }

  lemma {:induction false} JoinOneEntry(prints: seq<EntryPrint>, p: EntryPrint, c: nat)
    requires prints != []
    ensures JoinEntries(prints + [p], c) == JoinEntries(prints, c) + NewLine(c) + EntryText(p)
    decreases |prints|
  {
    hide EntryText, NewLine;
    var all := prints + [p];
    if |prints| == 1 {
      assert all[1..] == [p] && all[0] == prints[0];
    } else {
      assert all[0] == prints[0] && all[1..] == prints[1..] + [p];
      JoinOneEntry(prints[1..], p, c);
      var a, b, d, e := EntryText(prints[0]), NewLine(c), JoinEntries(prints[1..], c), EntryText(p);
      assert a + b + (d + b + e) == (a + b + d) + b + e;
    }
  }

  /** A key with its colon, and whatever follows. */
  lemma KeyThere(p: Text, key: Text, tag: Tag, c: nat, t: Text)
    requires KeyReads(p, key, tag, c) && t != [] && (White(t[0]) || Break(t[0]))
    ensures ReadKey(p + [COLON] + t) == Some(Node(tag, key, [COLON] + t))
    ensures !Dash(p + [COLON] + t) && Solid(p + [COLON] + t)
    ensures forall n: nat :: n <= c + 2 ==> BeginsKey(p + [COLON] + t, n)
  {
    var s, rest := p + [COLON] + t, [COLON] + t;
    assert s == p + rest && s[..|s| - |rest|] == p;
    assert rest[0] == COLON && rest[1] == t[0];
    forall n: nat | n <= c + 2 ensures BeginsKey(s, n) && !Dash(s) && Solid(s) {
      assert Terminates(true, rest, n);
      ScalarFlow(p, key, tag, c + 2, true, rest, n);
      hide ReadFlow, Dash, StartsScalar, NodeReadsBack;
    }
    assert Terminates(true, rest, 0);
    assert ReadNode(s, 0) == Some(Node(tag, key, rest));
    hide ReadNode, BeginsKey, Dash;
    assert BeginsKey(s, 0);
  }

  lemma MappingEnds(s: Text, key: Text, tag: Tag, t: Text, value: Tree, c: nat, rest: Text)
    requires ReadKey(s) == Some(Node(tag, key, [COLON] + t)) && ReadValue(t, c) == Some(Parsed(value, rest))
    requires EndsMapping(rest, c)
    ensures ReadMapping(s, c) == Some(ParsedEntries([Entry(key, tag, value)], rest))
  {
    hide ReadKey, ReadValue, Following, AtEnd, Dash;
    assert ([COLON] + t)[1..] == t;
  }

  lemma MappingGoesOn(s: Text, key: Text, tag: Tag, t: Text, value: Tree, c: nat, next: Text, u: Text,
                      more: seq<Entry>, rest: Text)
    requires ReadKey(s) == Some(Node(tag, key, [COLON] + t)) && ReadValue(t, c) == Some(Parsed(value, next))
    requires AtEnd(next) && Following(next) == Some((c, u)) && !Dash(u)
    requires ReadMapping(u, c) == Some(ParsedEntries(more, rest))
    ensures ReadMapping(s, c) == Some(ParsedEntries([Entry(key, tag, value)] + more, rest))
  {
    hide ReadKey, ReadValue, Following, AtEnd, Dash;
    assert ([COLON] + t)[1..] == t;
  }

  lemma LastEntry(p: EntryPrint, e: Entry, c: nat, rest: Text)
    requires EntryReads(p, e, c) && EndsMapping(rest, c)
    ensures ReadMapping(EntryText(p) + rest, c) == Some(ParsedEntries([e], rest))
  {
    hide ReadKey, ReadValue, ReadMapping, KeyReads, Dash, BeginsKey, Following, AtEnd;
    var t := p.value + rest;
    assert EntryText(p) + rest == p.key + [COLON] + t;
    assert t[0] == p.value[0];
    KeyThere(p.key, e.key, e.keyTag, c, t);
    assert EndsEntry(rest, c);
    assert ReadValue(t, c) == Some(Parsed(e.value, rest));
    MappingEnds(EntryText(p) + rest, e.key, e.keyTag, t, e.value, c, rest);
  }

  lemma FirstEntry(p: EntryPrint, e: Entry, q: Text, more: seq<Entry>, c: nat, rest: Text)
    requires EntryReads(p, e, c) && ReadsAsMapping(q, more, c) && EndsMapping(rest, c)
    ensures ReadMapping(EntryText(p) + NewLine(c) + q + rest, c) == Some(ParsedEntries([e] + more, rest))
  {
    hide ReadKey, ReadValue, ReadMapping, KeyReads, Dash, BeginsKey, Following, AtEnd, EndsMapping, NewLine;
    var next := NewLine(c) + (q + rest);
    var s, t := EntryText(p) + NewLine(c) + q + rest, p.value + next;
    assert s == p.key + [COLON] + t;
    assert t[0] == p.value[0];
    KeyThere(p.key, e.key, e.keyTag, c, t);
    FollowingLine(c, q + rest);
    assert !Dash(q + rest);
    assert EndsEntry(next, c);
    assert ReadValue(t, c) == Some(Parsed(e.value, next));
    MappingGoesOn(s, e.key, e.keyTag, t, e.value, c, next, q + rest, more, rest);
  }

  lemma {:induction false} JoinedEntriesRead(prints: seq<EntryPrint>, entries: seq<Entry>, c: nat)
    requires |prints| == |entries| > 0 && forall i :: 0 <= i < |prints| ==> EntryReads(prints[i], entries[i], c)
    ensures ReadsAsMapping(JoinEntries(prints, c), entries, c)
    decreases |prints|
  {
    hide EntryReads, EndsMapping, ReadMapping;
    var q, p := JoinEntries(prints, c), prints[0];
    assert EntryReads(p, entries[0], c);
    if |prints| == 1 {
      assert entries == [entries[0]];
      forall rest: Text | EndsMapping(rest, c) ensures ReadMapping(q + rest, c) == Some(ParsedEntries(entries, rest)) {
        LastEntry(p, entries[0], c, rest);
      }
      EntryBegins(p, entries[0], [], c);
      assert EntryText(p) + [] == q;
    } else {
      var more := JoinEntries(prints[1..], c);
      JoinedEntriesRead(prints[1..], entries[1..], c);
      assert entries == [entries[0]] + entries[1..];
      forall rest: Text | EndsMapping(rest, c) ensures ReadMapping(q + rest, c) == Some(ParsedEntries(entries, rest)) {
        FirstEntry(p, entries[0], more, entries[1..], c, rest);
      }
      EntryBegins(p, entries[0], NewLine(c) + more, c);
      assert EntryText(p) + (NewLine(c) + more) == q;
    }
  }

  lemma EntryBegins(p: EntryPrint, e: Entry, tail: Text, c: nat)
    requires EntryReads(p, e, c)
    ensures var q := EntryText(p) + tail;
            && Solid(q)
            && forall rest: Text :: !Dash(q + rest) && forall n: nat :: n <= c + 2 ==> BeginsKey(q + rest, n)
  {
    var q := EntryText(p) + tail;
    assert q[0] == p.key[0];
    forall rest: Text ensures !Dash(q + rest) && forall n: nat :: n <= c + 2 ==> BeginsKey(q + rest, n) {
      var t := p.value + tail + rest;
      assert q + rest == p.key + [COLON] + t && t[0] == p.value[0];
      hide Dash, BeginsKey, KeyReads;
      KeyThere(p.key, e.key, e.keyTag, c, t);
    }
  }

  // Item after item.

  function JoinItems(prints: seq<Text>, c: nat): Text
    requires prints != []
  {
    if |prints| == 1 then [DASH] + prints[0]
    else [DASH] + prints[0] + NewLine(c) + JoinItems(prints[1..], c)
  }

  lemma {:induction false} JoinOneItem(prints: seq<Text>, p: Text, c: nat)
    requires prints != []
    ensures JoinItems(prints + [p], c) == JoinItems(prints, c) + NewLine(c) + ([DASH] + p)
    decreases |prints|
  {
    hide NewLine;
    var all := prints + [p];
    if |prints| == 1 {
      assert all[1..] == [p] && all[0] == prints[0];
    } else {
      assert all[0] == prints[0] && all[1..] == prints[1..] + [p];
      JoinOneItem(prints[1..], p, c);
      var a, b, d, e := [DASH] + prints[0], NewLine(c), JoinItems(prints[1..], c), [DASH] + p;
      assert a + b + (d + b + e) == (a + b + d) + b + e;
    }
  }

  lemma SequenceEnds(s: Text, t: Tree, c: nat, rest: Text)
    requires s != [] && ReadItem(s[1..], c) == Some(Parsed(t, rest)) && EndsEntry(rest, c)
    ensures ReadSequence(s, c) == Some(ParsedItems([t], rest))
  {
    hide ReadItem, Following, AtEnd, Dash;
  }

  lemma SequenceGoesOn(s: Text, t: Tree, c: nat, next: Text, u: Text, more: seq<Tree>, rest: Text)
    requires s != [] && ReadItem(s[1..], c) == Some(Parsed(t, next))
    requires AtEnd(next) && Following(next) == Some((c, u)) && Dash(u)
    requires u != [] && ReadSequence(u, c) == Some(ParsedItems(more, rest))
    ensures ReadSequence(s, c) == Some(ParsedItems([t] + more, rest))
  {
    hide ReadItem, Following, AtEnd, Dash;
  }

  lemma LastItem(p: Text, t: Tree, c: nat, rest: Text)
    requires ReadsAsItem(p, t, c) && EndsEntry(rest, c)
    ensures ReadSequence([DASH] + p + rest, c) == Some(ParsedItems([t], rest))
  {
    hide ReadItem, ReadSequence, Following, AtEnd, Dash;
    var s := [DASH] + p + rest;
    assert s[1..] == p + rest;
    assert ReadItem(p + rest, c) == Some(Parsed(t, rest));
    SequenceEnds(s, t, c, rest);
  }

  lemma DashThere(q: Text, rest: Text)
    requires |q| >= 2 && q[0] == DASH && q[1] == SPACE
    ensures Dash(q + rest) && Solid(q + rest)
  {
  }

  lemma FirstItem(p: Text, t: Tree, q: Text, more: seq<Tree>, c: nat, rest: Text)
    requires ReadsAsItem(p, t, c) && ReadsAsSequence(q, more, c) && EndsEntry(rest, c)
    ensures ReadSequence([DASH] + p + NewLine(c) + q + rest, c) == Some(ParsedItems([t] + more, rest))
  {
    hide ReadItem, ReadSequence, Following, AtEnd, Dash, NewLine, EndsEntry;
    var u := q + rest;
    DashThere(q, rest);
    var next := NewLine(c) + u;
    var s := [DASH] + p + NewLine(c) + q + rest;
    assert s[1..] == p + next;
    FollowingLine(c, u);
    assert EndsItem(next, c);
    assert ReadItem(p + next, c) == Some(Parsed(t, next));
    SequenceGoesOn(s, t, c, next, u, more, rest);
  }

  lemma {:induction false} JoinedItemsRead(prints: seq<Text>, items: seq<Tree>, c: nat)
    requires |prints| == |items| > 0 && forall i :: 0 <= i < |prints| ==> ReadsAsItem(prints[i], items[i], c)
    ensures ReadsAsSequence(JoinItems(prints, c), items, c)
    decreases |prints|
  {
    hide EndsEntry, ReadSequence, NewLine, EndsItem, ReadItem;
    var q, p := JoinItems(prints, c), prints[0];
    assert ReadsAsItem(p, items[0], c);
    assert q[0] == DASH && q[1] == p[0];
    if |prints| == 1 {
      assert items == [items[0]];
      forall rest: Text | EndsEntry(rest, c) ensures ReadSequence(q + rest, c) == Some(ParsedItems(items, rest)) {
        LastItem(p, items[0], c, rest);
      }
    } else {
      JoinedItemsRead(prints[1..], items[1..], c);
      assert items == [items[0]] + items[1..];
      forall rest: Text | EndsEntry(rest, c) ensures ReadSequence(q + rest, c) == Some(ParsedItems(items, rest)) {
        FirstItem(p, items[0], JoinItems(prints[1..], c), items[1..], c, rest);
      }
    }
  }
}
