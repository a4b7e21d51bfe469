/** The plain style (section 7.3.3 of YAML 1.2.2): how it is read, and the words and
    gaps it is printed in. */
module YamlPlain {
  import opened Prelude
  import opened YamlReader
  import opened YamlPieces
  import opened YamlAnalysis

  /** A colon that ends a plain scalar. */
  predicate KeyEnds(s: Text) {
    s != [] && s[0] == COLON && (|s| == 1 || White(s[1]) || Break(s[1]))
  }

  /** Content that a line of a plain scalar may go on with after white space. */
  predicate GoesOn(t: Text) {
    t != [] && !Break(t[0]) && t[0] != HASH && !KeyEnds(t)
  }

  /** A plain scalar in block context whose lines are indented by at least `n`: the
      text up to a colon before a blank, a comment, or a line that does not go on. */
  function ReadPlain(s: Text, n: nat): Reading
    decreases |s|
  {
    if s == [] || KeyEnds(s) then Reading([], s)
    else
      var w := Lead(s);
      if LineEnds(s) then
        match NextLine(PastBreak(s[w..]), n)
        case None => Reading([], s)
        case Some((k, t)) =>
          if GoesOn(t) then
            var r := ReadPlain(t, n);
            Reading(Folded(k) + r.value, r.rest)
          else Reading([], s)
      else if w > 0 then
        if GoesOn(s[w..]) then
          var r := ReadPlain(s[w..], n);
          Reading(s[..w] + r.value, r.rest)
        else Reading([], s)
      else
        var r := ReadPlain(s[1..], n);
        Reading([s[0]] + r.value, r.rest)
  }

  /** Text that ends a plain scalar at once: nothing more, the colon of a key, or a
      line that is not part of it. */
  predicate EndsPlain(rest: Text, n: nat) {
    rest == [] || KeyEnds(rest) ||
    (Break(rest[0]) &&
     match NextLine(PastBreak(rest), n)
     case None => true
     case Some((_, t)) => !GoesOn(t))
  }

  datatype PlainPiece = Word(text: Text) | Gap(k: nat) | FoldedGap
  {
    predicate Ok() {
      match this
      case Word(cs) => cs != [] && cs[|cs| - 1] != COLON && forall c :: c in cs ==> Ordinary(c)
      case Gap(k) => k > 0
      case FoldedGap => true
    }

    function Meaning(): Text {
      match this
      case Word(cs) => cs
      case Gap(k) => Repeat(SPACE, k)
      case FoldedGap => [SPACE]
    }

    function Print(indent: nat): Text {
      match this
      case Word(cs) => cs
      case Gap(k) => Repeat(SPACE, k)
      case FoldedGap => NewLine(indent)
    }
  }

  function PlainMeaning(pieces: seq<PlainPiece>): Text {
    if pieces == [] then [] else pieces[0].Meaning() + PlainMeaning(pieces[1..])
  }

  function PlainPrint(pieces: seq<PlainPiece>, indent: nat): Text {
    if pieces == [] then [] else pieces[0].Print(indent) + PlainPrint(pieces[1..], indent)
  }

  /** Words and gaps take turns; no word after a gap looks like a comment. */
  predicate Alternate(p: PlainPiece, q: PlainPiece) {
    if p.Word? then !q.Word? else q.Word? && q.text != [] && q.text[0] != HASH
  }

  ghost predicate PlainLinked(pieces: seq<PlainPiece>) {
    && (forall p :: p in pieces ==> p.Ok())
    && forall i :: 0 <= i < |pieces| - 1 ==> Alternate(pieces[i], pieces[i + 1])
  }

  ghost predicate PlainOk(pieces: seq<PlainPiece>) {
    PlainLinked(pieces) && (pieces != [] ==> pieces[|pieces| - 1].Word?)
  }

  lemma CharReads(s: Text, n: nat)
    requires Solid(s) && !KeyEnds(s)
    ensures ReadPlain(s, n) == Reading([s[0]] + ReadPlain(s[1..], n).value, ReadPlain(s[1..], n).rest)
  {
    hide NextLine;
    assert Lead(s) == 0;
  }

  /** A word is read whole, whatever ends it. */
  lemma {:induction false} WordReads(cs: Text, t: Text, n: nat)
    requires cs != [] && cs[|cs| - 1] != COLON && forall c :: c in cs ==> Ordinary(c)
    ensures ReadPlain(cs + t, n) == Reading(cs + ReadPlain(t, n).value, ReadPlain(t, n).rest)
    decreases |cs|
  {
    hide ReadPlain;
    var s := cs + t;
    assert s[0] == cs[0] && s[1..] == cs[1..] + t && cs[0] in cs;
    if |cs| > 1 {
      assert s[1] == cs[1] && cs[1] in cs;
      CharReads(s, n);
      WordReads(cs[1..], t, n);
      assert [cs[0]] + (cs[1..] + ReadPlain(t, n).value) == cs + ReadPlain(t, n).value;
    } else {
      CharReads(s, n);
      assert cs[1..] + t == t && [cs[0]] == cs;
    }
  }

  /** A word that comes after a gap goes on. */
  lemma WordGoesOn(cs: Text, t: Text)
    requires cs != [] && cs[|cs| - 1] != COLON && cs[0] != HASH && forall c :: c in cs ==> Ordinary(c)
    ensures GoesOn(cs + t) && Solid(cs + t)
  {
    var s := cs + t;
    assert s[0] == cs[0] && cs[0] in cs;
    if |cs| > 1 {
      assert s[1] == cs[1] && cs[1] in cs;
    }
  }

  lemma GapReads(k: nat, t: Text, n: nat)
    requires k > 0 && GoesOn(t) && Solid(t)
    ensures ReadPlain(Repeat(SPACE, k) + t, n)
         == Reading(Repeat(SPACE, k) + ReadPlain(t, n).value, ReadPlain(t, n).rest)
  {
    hide NextLine;
    var s := Repeat(SPACE, k) + t;
    LeadOfSpaces(k, t);
    assert s[k..] == t && s[..k] == Repeat(SPACE, k) && s[k] == t[0];
  }

  lemma FoldedGapReads(indent: nat, t: Text, n: nat)
    requires GoesOn(t) && Solid(t) && n <= indent
    ensures ReadPlain(NewLine(indent) + t, n) == Reading([SPACE] + ReadPlain(t, n).value, ReadPlain(t, n).rest)
  {
    hide NextLine;
    var s := NewLine(indent) + t;
    assert s[0] == LF && Lead(s) == 0 && s[0..] == s;
    assert PastBreak(s) == Repeat(SPACE, indent) + t;
    NextLineOfIndent(indent, t, n);
  }

  lemma PlainPieceReads(p: PlainPiece, t: Text, indent: nat, n: nat)
    requires p.Ok() && n <= indent && (p.Word? || (GoesOn(t) && Solid(t)))
    ensures ReadPlain(p.Print(indent) + t, n) == Reading(p.Meaning() + ReadPlain(t, n).value, ReadPlain(t, n).rest)
  {
    hide ReadPlain, NewLine;
    match p
    case Word(cs) => WordReads(cs, t, n);
    case Gap(k) => GapReads(k, t, n);
    case FoldedGap => FoldedGapReads(indent, t, n);
  }

  lemma EndReads(rest: Text, n: nat)
    requires EndsPlain(rest, n)
    ensures ReadPlain(rest, n) == Reading([], rest)
  {
    if rest != [] && !KeyEnds(rest) {
      assert Lead(rest) == 0 && rest[0..] == rest;
    }
  }

  /** Alternating words and gaps read back as what they stand for. */
  lemma {:induction false} PlainReads(pieces: seq<PlainPiece>, rest: Text, indent: nat, n: nat)
    requires PlainOk(pieces) && n <= indent && EndsPlain(rest, n)
    ensures ReadPlain(PlainPrint(pieces, indent) + rest, n) == Reading(PlainMeaning(pieces), rest)
    decreases |pieces|
  {
    hide ReadPlain, PlainPiece.Print, PlainPiece.Meaning, PlainPiece.Ok, EndsPlain, Alternate, GoesOn;
    if pieces == [] {
      assert PlainPrint(pieces, indent) + rest == rest;
      EndReads(rest, n);
    } else {
      var p, more := pieces[0], pieces[1..];
      assert p in pieces;
      PlainTail(pieces);
      PlainReads(more, rest, indent, n);
      var t := PlainPrint(more, indent) + rest;
      if !p.Word? {
        GapIsFollowed(pieces, rest, indent);
      }
      PlainPieceReads(p, t, indent, n);
      assert PlainPrint(pieces, indent) + rest == p.Print(indent) + t;
      assert p.Meaning() + ReadPlain(t, n).value == PlainMeaning(pieces);
    }
  }

  lemma GapIsFollowed(pieces: seq<PlainPiece>, rest: Text, indent: nat)
    requires PlainOk(pieces) && pieces != [] && !pieces[0].Word?
    ensures var t := PlainPrint(pieces[1..], indent) + rest; GoesOn(t) && Solid(t)
  {
    hide GoesOn, Solid;
    var more := pieces[1..];
    assert more != [] && Alternate(pieces[0], pieces[1]) && more[0] == pieces[1] && pieces[1] in pieces;
    var tail := PlainPrint(more[1..], indent) + rest;
    WordGoesOn(more[0].text, tail);
    assert PlainPrint(more, indent) + rest == more[0].text + tail;
  }

  lemma PlainTail(pieces: seq<PlainPiece>)
    requires PlainOk(pieces) && pieces != []
    ensures PlainOk(pieces[1..])
  {
    var more := pieces[1..];
    forall i | 0 <= i < |more| - 1 ensures Alternate(more[i], more[i + 1]) {
      assert Alternate(pieces[i + 1], pieces[i + 2]);
    }
  }

  lemma {:induction false} PlainAppend(pieces: seq<PlainPiece>, p: PlainPiece, indent: nat)
    ensures PlainPrint(pieces + [p], indent) == PlainPrint(pieces, indent) + p.Print(indent)
    ensures PlainMeaning(pieces + [p]) == PlainMeaning(pieces) + p.Meaning()
    decreases |pieces|
  {
    hide PlainPiece.Print, PlainPiece.Meaning;
    var all := pieces + [p];
    if pieces == [] {
      assert all[1..] == [];
    } else {
      assert all[1..] == pieces[1..] + [p];
      PlainAppend(pieces[1..], p, indent);
    }
  }

  // The scan that prints them.

  /** What the scan holds back: a run of spaces or a word so far. */
  ghost predicate HeldBack(text: Text, start: nat, end: nat, spaces: bool) {
    && start <= end <= |text|
    && (spaces ==> start < end)
    && forall c :: c in text[start..end] ==> (c == SPACE <==> spaces)
  }

  ghost predicate PlainScanned(text: Text, start: nat, pieces: seq<PlainPiece>) {
    && start <= |text|
    && PlainLinked(pieces)
    && PlainMeaning(pieces) == text[..start]
    && (pieces == [] ==> start == 0)
    && (pieces != [] && start < |text| ==> (text[start] == SPACE <==> pieces[|pieces| - 1].Word?))
    && (pieces != [] && start == |text| ==> pieces[|pieces| - 1].Word?)
  }

  lemma NothingHeldBack(text: Text, indent: nat)
    ensures HeldBack(text, 0, 0, false) && PlainScanned(text, 0, []) && PlainPrint([], indent) == []
  {
  }

  lemma AllPlainScanned(text: Text, pieces: seq<PlainPiece>)
    requires PlainScanned(text, |text|, pieces)
    ensures PlainOk(pieces) && PlainMeaning(pieces) == text
  {
    assert text[..|text|] == text;
  }

  lemma PlainMeans(text: Text, start: nat, end: nat, pieces: seq<PlainPiece>, p: PlainPiece)
    requires start <= end <= |text| && PlainMeaning(pieces) == text[..start] && p.Meaning() == text[start..end]
    ensures PlainMeaning(pieces + [p]) == text[..end]
  {
    PlainAppend(pieces, p, 0);
    hide PlainMeaning, PlainPiece.Meaning;
    assert text[..start] + text[start..end] == text[..end];
  }

  lemma PlainLink(pieces: seq<PlainPiece>, p: PlainPiece)
    requires PlainLinked(pieces) && p.Ok() && (pieces != [] ==> Alternate(pieces[|pieces| - 1], p))
    ensures PlainLinked(pieces + [p])
  {
    hide PlainPiece.Ok, Alternate;
    var all := pieces + [p];
    forall q | q in all ensures q.Ok() {
      assert q in pieces || q == p;
    }
    forall i | 0 <= i < |all| - 1 ensures Alternate(all[i], all[i + 1]) {
      assert all[i] == pieces[i];
    }
  }

  /** In plain text no word ends in a colon, and none after a space is a comment. */
  lemma WordOk(text: Text, start: nat, end: nat)
    requires PlainText(text) && HeldBack(text, start, end, false) && start < end
    requires end == |text| || text[end] == SPACE
    ensures Word(text[start..end]).Ok()
    ensures start > 0 && text[start - 1] == SPACE ==> text[start] != HASH
  {
    var word := text[start..end];
    assert word[|word| - 1] == text[end - 1];
    assert !IndicatorAt(text, end - 1) && !IndicatorAt(text, start);
    forall c | c in word ensures Ordinary(c) {
      assert c in text;
    }
  }

  lemma ScanWord(text: Text, start: nat, end: nat, pieces: seq<PlainPiece>)
    requires PlainText(text) && HeldBack(text, start, end, false) && start < end
    requires end == |text| || text[end] == SPACE
    requires PlainScanned(text, start, pieces)
    ensures PlainScanned(text, end, pieces + [Word(text[start..end])])
  {
    hide PlainText, PlainLinked, PlainMeaning;
    WordOk(text, start, end);
    assert text[start] in text[start..end];
    assert Word(text[start..end]).Meaning() == text[start..end];
    hide PlainPiece.Ok, PlainPiece.Meaning;
    PlainMeans(text, start, end, pieces, Word(text[start..end]));
    if pieces != [] {
      GapBefore(text, start, pieces);
    }
    PlainLink(pieces, Word(text[start..end]));
  }

  lemma GapBefore(text: Text, start: nat, pieces: seq<PlainPiece>)
    requires PlainScanned(text, start, pieces) && pieces != [] && !pieces[|pieces| - 1].Word?
    ensures start > 0 && text[start - 1] == SPACE
  {
    var k := |pieces| - 1;
    assert pieces == pieces[..k] + [pieces[k]] && pieces[k] in pieces;
    PlainAppend(pieces[..k], pieces[k], 0);
    var gap := pieces[k].Meaning();
    assert text[..start][start - 1] == gap[|gap| - 1];
  }

  lemma ScanGap(text: Text, start: nat, end: nat, pieces: seq<PlainPiece>, p: PlainPiece)
    requires PlainText(text) && HeldBack(text, start, end, true)
    requires end < |text| ==> text[end] != SPACE
    requires PlainScanned(text, start, pieces)
    requires !p.Word? && p.Ok() && p.Meaning() == text[start..end]
    ensures PlainScanned(text, end, pieces + [p])
  {
    hide IndicatorAt, StartsDocument, PlainLinked, PlainMeaning, PlainPiece.Ok, PlainPiece.Meaning;
    assert text[start] in text[start..end] && text[end - 1] in text[start..end];
    PlainMeans(text, start, end, pieces, p);
    PlainLink(pieces, p);
  }

  lemma HoldBack(text: Text, first: nat, end: nat, start: nat, spaces: bool)
    requires end < |text| && HeldBack(text, first, end, spaces)
    requires start == if spaces == (text[end] == SPACE) then first else end
    ensures HeldBack(text, start, end + 1, text[end] == SPACE)
  {
    var run := text[start..end + 1];
    forall c | c in run ensures c == SPACE <==> text[end] == SPACE {
      assert run == text[start..end] + [text[end]];
    }
  }

  // Scalars of any style.

  /** A first character that does not begin another construct. */
  predicate StartsPlain(s: Text) {
    s == [] || !(|| s[0] in {35, 44, 91, 93, 123, 125, 38, 42, 33, 124, 62, 39, 34, 37, 64, 96}
                 || (s[0] in {63, 58, 45} && (|s| == 1 || White(s[1]) || Break(s[1]))))
  }

  lemma {:induction false} PlainGoesOn(s: Text, n: nat)
    ensures |ReadPlain(s, n).rest| <= |s|
    decreases |s|
  {
    if s != [] && !KeyEnds(s) {
      var w := Lead(s);
      if LineEnds(s) {
        var next := NextLine(PastBreak(s[w..]), n);
        if next.Some? {
          PlainGoesOn(next.value.1, n);
        }
      } else if w > 0 {
        PlainGoesOn(s[w..], n);
      } else {
        PlainGoesOn(s[1..], n);
      }
    }
  }

  /** A scalar in block context, by its first character. */
  function ReadScalar(s: Text, n: nat): (r: Option<Reading>)
    ensures r.Some? ==> |r.value.rest| <= |s|
  {
    if s != [] && s[0] == SQUOTE then
      SingleGoesOn(s[1..], n);
      ReadSingle(s[1..], n)
    else if s != [] && s[0] == DQUOTE then
      DoubleGoesOn(s[1..], n);
      ReadDouble(s[1..], n)
    else if StartsPlain(s) then
      PlainGoesOn(s, n);
      Some(ReadPlain(s, n))
    else None
  }
}
