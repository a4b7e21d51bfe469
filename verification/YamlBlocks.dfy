/** How a YAML reader takes block collections apart: block sequences (section 8.2.1 of
    YAML 1.2.2) and block mappings (8.2.2), with their compact forms, over the scalars of
    the flow styles; comments, anchors, tags and nonempty flow collections aside. */
module YamlBlocks {
  import opened Prelude
  import opened YamlReader
  import opened YamlPieces
  import opened YamlPlain
  import opened YamlResolve
  import opened YamlEmitter

  const DASH: Code := 45
  const EMPTY_MAPPING: Text := [123, 125]
  const EMPTY_SEQUENCE: Text := [91, 93]

  datatype Tree =
    | Scalar(text: Text, tag: Tag)
    | Mapping(entries: seq<Entry>)
    | Sequence(items: seq<Tree>)

  datatype Entry = Entry(key: Text, keyTag: Tag, value: Tree)

  /** What was read, and the text from the end of its line on. */
  datatype Parsed = Parsed(tree: Tree, rest: Text)
  datatype ParsedEntries = ParsedEntries(entries: seq<Entry>, rest: Text)
  datatype ParsedItems = ParsedItems(items: seq<Tree>, rest: Text)

  predicate AtEnd(s: Text) {
    s == [] || Break(s[0])
  }

  /** A dash that marks an item. */
  predicate Dash(s: Text) {
    s != [] && s[0] == DASH && (|s| == 1 || White(s[1]) || Break(s[1]))
  }

  /** The first line that is not blank: its indentation, and its text from there. */
  function Content(s: Text): (r: Option<(nat, Text)>)
    ensures r.Some? ==> r.value.1 != [] && |r.value.1| <= |s|
    decreases |s|
  {
    var w := Lead(s);
    if w == |s| then None
    else if Break(s[w]) then Content(PastBreak(s[w..]))
    else
      IndentationLeads(s);
      Some((Indentation(s), s[Indentation(s)..]))
  }

  lemma {:induction false} IndentationLeads(s: Text)
    ensures Indentation(s) <= Lead(s)
  {
    if s != [] && s[0] == SPACE {
      IndentationLeads(s[1..]);
    }
  }

  /** The next line with content. */
  function Following(rest: Text): (r: Option<(nat, Text)>)
    ensures r.Some? ==> r.value.1 != [] && |r.value.1| < |rest|
  {
    if rest == [] || !Break(rest[0]) then None else Content(PastBreak(rest))
  }

  /** An empty flow collection or a scalar whose lines are indented by at least `n`. */
  function ReadFlow(s: Text, n: nat): (r: Option<Parsed>)
    ensures r.Some? ==> |r.value.rest| <= |s|
  {
    if EMPTY_MAPPING <= s then Some(Parsed(Mapping([]), s[2..]))
    else if EMPTY_SEQUENCE <= s then Some(Parsed(Sequence([]), s[2..]))
    else match ReadNode(s, n)
         case None => None
         case Some(node) => Some(Parsed(Scalar(node.value, node.tag), node.rest))
  }

  /** The key of an entry: a scalar on one line, up to its colon. */
  function ReadKey(s: Text): (r: Option<Node>)
    ensures r.Some? ==> r.value.rest != [] && |r.value.rest| <= |s|
  {
    match ReadNode(s, 0)
    case None => None
    case Some(node) =>
      if KeyEnds(node.rest) && Unbroken(s[..|s| - |node.rest|]) then Some(node) else None
  }

  /** The node that starts at `s`, in column `c`, as part of one whose lines are
      indented by at least `n`. */
  function ReadBlock(s: Text, c: nat, n: nat): (r: Option<Parsed>)
    ensures r.Some? ==> |r.value.rest| <= |s|
    decreases |s|, 2
  {
    if Dash(s) then
      match ReadSequence(s, c)
      case None => None
      case Some(p) => Some(Parsed(Sequence(p.items), p.rest))
    else match ReadFlow(s, n)
         case None => None
         case Some(p) =>
           if !KeyEnds(p.rest) then Some(p)
           else match ReadMapping(s, c)
                case None => None
                case Some(q) => Some(Parsed(Mapping(q.entries), q.rest))
  }

  /** Items marked by dashes in column `c`. */
  function ReadSequence(s: Text, c: nat): (r: Option<ParsedItems>)
    requires s != []
    ensures r.Some? ==> |r.value.rest| <= |s|
    decreases |s|, 1
  {
    match ReadItem(s[1..], c)
    case None => None
    case Some(p) =>
      var next := Following(p.rest);
      if !AtEnd(p.rest) then None
      else if next.Some? && next.value.0 == c && Dash(next.value.1) then
        match ReadSequence(next.value.1, c)
        case None => None
        case Some(more) => Some(ParsedItems([p.tree] + more.items, more.rest))
      else Some(ParsedItems([p.tree], p.rest))
  }

  /** What follows a dash in column `c`: on its line, where a collection may start too,
      or on lines indented further. */
  function ReadItem(t: Text, c: nat): (r: Option<Parsed>)
    ensures r.Some? ==> |r.value.rest| <= |t|
    decreases |t|, 3
  {
    var w := Lead(t);
    if w < |t| && !Break(t[w]) then
      if w == 0 then None else ReadBlock(t[w..], c + 1 + w, c + 1)
    else
      var next := Following(t[w..]);
      if next.Some? && next.value.0 > c then ReadBlock(next.value.1, next.value.0, c + 1)
      else Some(Parsed(Scalar([], Null), t[w..]))
  }

  /** Entries whose keys are in column `c`. */
  function ReadMapping(s: Text, c: nat): (r: Option<ParsedEntries>)
    ensures r.Some? ==> |r.value.rest| <= |s|
    decreases |s|, 1
  {
    match ReadKey(s)
    case None => None
    case Some(key) =>
      match ReadValue(key.rest[1..], c)
      case None => None
      case Some(p) =>
        var entry, next := Entry(key.value, key.tag, p.tree), Following(p.rest);
        if !AtEnd(p.rest) then None
        else if next.Some? && next.value.0 == c && !Dash(next.value.1) then
          match ReadMapping(next.value.1, c)
          case None => None
          case Some(more) => Some(ParsedEntries([entry] + more.entries, more.rest))
        else Some(ParsedEntries([entry], p.rest))
  }

  /** What follows the colon of a key in column `c`: a flow node on its line, a node on
      lines indented further, or a sequence whose dashes are in the same column. */
  function ReadValue(t: Text, c: nat): (r: Option<Parsed>)
    ensures r.Some? ==> |r.value.rest| <= |t|
    decreases |t|, 3
  {
    var w := Lead(t);
    if w < |t| && !Break(t[w]) then
      match ReadFlow(t[w..], c + 1)
      case None => None
      case Some(p) => if w == 0 || KeyEnds(p.rest) then None else Some(p)
    else
      var next := Following(t[w..]);
      if next.Some? && next.value.0 > c then ReadBlock(next.value.1, next.value.0, c + 1)
      else if next.Some? && next.value.0 == c && Dash(next.value.1) then
        match ReadSequence(next.value.1, c)
        case None => None
        case Some(p) => Some(Parsed(Sequence(p.items), p.rest))
      else Some(Parsed(Scalar([], Null), t[w..]))
  }

  /** A document that is one node. */
  function ReadDocument(s: Text): Option<Tree> {
    match Content(s)
    case None => None
    case Some((k, t)) =>
      match ReadBlock(t, k, 0)
      case None => None
      case Some(p) => if AtEnd(p.rest) && Following(p.rest).None? then Some(p.tree) else None
  }

  // Where lines end.

  lemma ContentOf(k: nat, t: Text)
    requires Solid(t)
    ensures Content(Repeat(SPACE, k) + t) == Some((k, t))
  {
    LeadOfSpaces(k, t);
    var s := Repeat(SPACE, k) + t;
    assert s[k] == t[0] && s[k..] == t;
  }

  lemma FollowingLine(k: nat, t: Text)
    requires Solid(t)
    ensures AtEnd(NewLine(k) + t) && Following(NewLine(k) + t) == Some((k, t))
  {
    var s := NewLine(k) + t;
    assert s[0] == LF && s[1..] == Repeat(SPACE, k) + t && PastBreak(s) == s[1..];
    ContentOf(k, t);
  }

  /** After an item with its dash in column `c` nothing is indented further. */
  predicate EndsItem(rest: Text, c: nat) {
    AtEnd(rest) && (Following(rest).None? || Following(rest).value.0 <= c)
  }

  /** Nor, after an entry or a sequence, does another dash follow in its column. */
  predicate EndsEntry(rest: Text, c: nat) {
    EndsItem(rest, c) && (Following(rest).Some? ==> Following(rest).value.0 < c || !Dash(Following(rest).value.1))
  }

  /** After a mapping in column `c` everything is to the left of it. */
  predicate EndsMapping(rest: Text, c: nat) {
    AtEnd(rest) && (Following(rest).None? || Following(rest).value.0 < c)
  }

  lemma {:induction false} NoFurtherLine(s: Text, n: nat)
    requires Content(s).None? || Content(s).value.0 < n
    ensures NextLine(s, n).None? || NextLine(s, n).value.1 == []
    decreases |s|
  {
    var w := Lead(s);
    if w < |s| && Break(s[w]) {
      NoFurtherLine(PastBreak(s[w..]), n);
    }
  }

  /** What ends an item ends a scalar in it. */
  lemma ItemEndsScalar(rest: Text, c: nat)
    requires EndsItem(rest, c)
    ensures Terminates(false, rest, c + 1)
  {
    if rest != [] {
      NoFurtherLine(PastBreak(rest), c + 1);
    }
    hide NextLine, Content;
  }
}
