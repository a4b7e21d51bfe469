/** What the quoted styles print, piece by piece, and how each piece reads. */
module YamlPieces {
  import opened Prelude
  import opened HexText
  import opened YamlReader

  /** Nothing a reader treats specially inside quotes. */
  predicate Ordinary(c: Code) {
    !White(c) && !Break(c)
  }

  /** Text whose first character is neither white space nor a break. */
  predicate Solid(t: Text) {
    t != [] && Ordinary(t[0])
  }

  lemma {:induction false} LeadOfSpaces(k: nat, t: Text)
    requires t == [] || !White(t[0])
    ensures Lead(Repeat(SPACE, k) + t) == k
    ensures Indentation(Repeat(SPACE, k) + t) == k
  {
    var s := Repeat(SPACE, k) + t;
    if k == 0 {
      assert s == t;
    } else {
      assert s[1..] == Repeat(SPACE, k - 1) + t;
      LeadOfSpaces(k - 1, t);
    }
  }

  /** A line break and the indentation of the next line. */
  function NewLine(indent: nat): Text {
    [LF] + Repeat(SPACE, indent)
  }

  lemma NextLineOfIndent(indent: nat, t: Text, n: nat)
    requires Solid(t) && n <= indent
    ensures NextLine(Repeat(SPACE, indent) + t, n) == Some((0, t))
  {
    LeadOfSpaces(indent, t);
    assert (Repeat(SPACE, indent) + t)[indent..] == t;
  }

  lemma NextLineAtBreak(s: Text, n: nat)
    ensures NextLine([LF] + s, n)
            == match NextLine(s, n) { case None => None case Some((k, t)) => Some((k + 1, t)) }
  {
    var all := [LF] + s;
    assert Lead(all) == 0 && all[0..] == all && PastBreak(all) == s;
  }

  /** `k` empty lines, then an indented one. */
  lemma {:induction false} NextLineOfBreaks(k: nat, indent: nat, t: Text, n: nat)
    requires Solid(t) && n <= indent
    ensures NextLine(Repeat(LF, k) + Repeat(SPACE, indent) + t, n) == Some((k, t))
  {
    hide NextLine;
    var s := Repeat(LF, k) + Repeat(SPACE, indent) + t;
    if k == 0 {
      assert s == Repeat(SPACE, indent) + t;
      NextLineOfIndent(indent, t, n);
    } else {
      assert s == [LF] + (Repeat(LF, k - 1) + Repeat(SPACE, indent) + t);
      NextLineAtBreak(Repeat(LF, k - 1) + Repeat(SPACE, indent) + t, n);
      NextLineOfBreaks(k - 1, indent, t, n);
    }
  }

  // Single-quoted pieces.

  /** A run of text, a run of spaces, a quote, a folded space, or line breaks. */
  datatype SinglePiece =
    | Run(text: Text)
    | Spaces(k: nat)
    | Quote
    | Fold
    | Breaks(k: nat)
  {
    predicate Ok() {
      match this
      case Run(cs) => cs != [] && forall c :: c in cs ==> Ordinary(c) && c != SQUOTE
      case Spaces(k) => k > 0
      case Breaks(k) => k > 0
      case _ => true
    }

    predicate IsSolid() {
      Run? || Quote?
    }

    /** The text it stands for. */
    function Meaning(): Text {
      match this
      case Run(cs) => cs
      case Spaces(k) => Repeat(SPACE, k)
      case Quote => [SQUOTE]
      case Fold => [SPACE]
      case Breaks(k) => Repeat(LF, k)
    }

    function Print(indent: nat): Text {
      match this
      case Run(cs) => cs
      case Spaces(k) => Repeat(SPACE, k)
      case Quote => [SQUOTE, SQUOTE]
      case Fold => NewLine(indent)
      case Breaks(k) => [LF] + Repeat(LF, k) + Repeat(SPACE, indent)
    }
  }

  function SingleMeaning(pieces: seq<SinglePiece>): Text {
    if pieces == [] then [] else pieces[0].Meaning() + SingleMeaning(pieces[1..])
  }

  function SinglePrint(pieces: seq<SinglePiece>, indent: nat): Text {
    if pieces == [] then [] else pieces[0].Print(indent) + SinglePrint(pieces[1..], indent)
  }

  /** Spaces, folds and breaks are set off by text or quotes. */
  ghost predicate SingleOk(pieces: seq<SinglePiece>) {
    && (forall p :: p in pieces ==> p.Ok())
    && forall i :: 0 <= i < |pieces| - 1 && !pieces[i].IsSolid() ==> pieces[i + 1].IsSolid()
  }

  lemma {:induction false} RunReads(cs: Text, t: Text, n: nat)
    requires forall c :: c in cs ==> Ordinary(c) && c != SQUOTE
    ensures ReadSingle(cs + t, n) == Prepend(cs, ReadSingle(t, n))
  {
    if cs == [] {
      assert cs + t == t;
      PrependNothing(ReadSingle(t, n));
    } else {
      var s := cs + t;
      assert cs[0] in cs && s[0] == cs[0];
      assert Lead(s) == 0 && !LineEnds(s);
      assert s[1..] == cs[1..] + t;
      RunReads(cs[1..], t, n);
      PrependTwice([cs[0]], cs[1..], ReadSingle(t, n));
      assert [cs[0]] + cs[1..] == cs;
    }
  }

  lemma {:induction false} SpacesRead(k: nat, t: Text, n: nat)
    requires Solid(t)
    ensures ReadSingle(Repeat(SPACE, k) + t, n) == Prepend(Repeat(SPACE, k), ReadSingle(t, n))
  {
    var s := Repeat(SPACE, k) + t;
    if k == 0 {
      assert s == t;
      PrependNothing(ReadSingle(t, n));
    } else {
      LeadOfSpaces(k, t);
      assert s[k] == t[0] && s[0] == SPACE;
      assert s[1..] == Repeat(SPACE, k - 1) + t;
      SpacesRead(k - 1, t, n);
      PrependTwice([SPACE], Repeat(SPACE, k - 1), ReadSingle(t, n));
    }
  }

  lemma LinesRead(k: nat, indent: nat, t: Text, n: nat)
    requires Solid(t) && n <= indent
    ensures ReadSingle([LF] + Repeat(LF, k) + Repeat(SPACE, indent) + t, n)
            == Prepend(Folded(k), ReadSingle(t, n))
  {
    var s := [LF] + Repeat(LF, k) + Repeat(SPACE, indent) + t;
    assert s[0] == LF && Lead(s) == 0 && s[0..] == s;
    assert PastBreak(s) == Repeat(LF, k) + Repeat(SPACE, indent) + t;
    NextLineOfBreaks(k, indent, t, n);
  }

  /** One piece reads as what it means. */
  lemma SinglePieceReads(p: SinglePiece, t: Text, indent: nat, n: nat)
    requires p.Ok() && n <= indent && (p.IsSolid() || Solid(t))
    ensures ReadSingle(p.Print(indent) + t, n) == Prepend(p.Meaning(), ReadSingle(t, n))
  {
    match p
    case Run(cs) => RunReads(cs, t, n);
    case Spaces(k) => SpacesRead(k, t, n);
    case Quote =>
      var s := p.Print(indent) + t;
      assert s[0] == SQUOTE && s[1] == SQUOTE && s[2..] == t;
    case Fold =>
      assert NewLine(indent) + t == [LF] + Repeat(LF, 0) + Repeat(SPACE, indent) + t;
      LinesRead(0, indent, t, n);
    case Breaks(k) => LinesRead(k, indent, t, n);
  }

  lemma SolidPrint(p: SinglePiece, t: Text, indent: nat)
    requires p.Ok() && p.IsSolid()
    ensures Solid(p.Print(indent) + t)
  {
    if p.Run? {
      assert p.text[0] in p.text;
    }
  }

  lemma ClosingReads(rest: Text, n: nat)
    requires rest == [] || rest[0] != SQUOTE
    ensures ReadSingle([SQUOTE] + rest, n) == Some(Reading([], rest))
  {
    assert ([SQUOTE] + rest)[1..] == rest;
  }

  /** What follows a piece that is not solid is. */
  lemma SolidAfter(pieces: seq<SinglePiece>, close: Text, indent: nat)
    requires SingleOk(pieces) && pieces != [] && !pieces[0].IsSolid() && Solid(close)
    ensures Solid(SinglePrint(pieces[1..], indent) + close)
  {
    var more := pieces[1..];
    if more == [] {
      assert SinglePrint(more, indent) + close == close;
    } else {
      assert more[0] == pieces[1] && pieces[1] in pieces;
      SolidPrint(more[0], SinglePrint(more[1..], indent) + close, indent);
      assert SinglePrint(more, indent) + close == more[0].Print(indent) + (SinglePrint(more[1..], indent) + close);
    }
  }

  /** Well-set pieces up to the closing quote read back as the text they stand for. */
  lemma {:induction false} SingleReads(pieces: seq<SinglePiece>, rest: Text, indent: nat, n: nat)
    requires SingleOk(pieces) && n <= indent && (rest == [] || rest[0] != SQUOTE)
    ensures ReadSingle(SinglePrint(pieces, indent) + ([SQUOTE] + rest), n)
            == Some(Reading(SingleMeaning(pieces), rest))
    decreases |pieces|
  {
    hide ReadSingle, SinglePiece.Print, SinglePiece.Meaning, SinglePiece.Ok;
    var close := [SQUOTE] + rest;
    if pieces == [] {
      assert SinglePrint(pieces, indent) + close == close;
      ClosingReads(rest, n);
    } else {
      var p, more := pieces[0], pieces[1..];
      assert p in pieces;
      SingleOkTail(pieces);
      SingleReads(more, rest, indent, n);
      var t := SinglePrint(more, indent) + close;
      if !p.IsSolid() {
        SolidAfter(pieces, close, indent);
      }
      SinglePieceReads(p, t, indent, n);
      assert SinglePrint(pieces, indent) + close == p.Print(indent) + t;
    }
  }

  lemma SingleOkTail(pieces: seq<SinglePiece>)
    requires SingleOk(pieces) && pieces != []
    ensures SingleOk(pieces[1..])
  {
  }

  // Double-quoted pieces.

  /** Printed as it is inside double quotes. */
  predicate Verbatim(c: Code) {
    0x20 <= c <= 0x7e && c != DQUOTE && c != BACKSLASH
  }

  /** The letter that escapes a character, for those that have one. */
  function Letter(c: Code): Option<Code> {
    if c == 0 then Some(48)
    else if c == 7 then Some(97)
    else if c == 8 then Some(98)
    else if c == TAB then Some(116)
    else if c == LF then Some(110)
    else if c == 11 then Some(118)
    else if c == 12 then Some(102)
    else if c == CR then Some(114)
    else if c == 27 then Some(101)
    else if c == DQUOTE || c == BACKSLASH then Some(c)
    else if c == 0x85 then Some(78)
    else if c == 0xa0 then Some(95)
    else if c == 0x2028 then Some(76)
    else if c == 0x2029 then Some(80)
    else None
  }

  function Escape(c: Code): (e: Text)
    ensures |e| >= 2 && e[0] == BACKSLASH
  {
    if Letter(c).Some? then [BACKSLASH, Letter(c).value]
    else if c <= 0xff then [BACKSLASH, 120] + Hex(c, 2)
    else if c <= 0xffff then [BACKSLASH, 117] + Hex(c, 4)
    else [BACKSLASH, 85] + Hex(c, 8)
  }

  lemma LetterReads(c: Code)
    requires Letter(c).Some?
    ensures !Break(Letter(c).value) && Simple(Letter(c).value) == Some(c)
  {
  }

  lemma HexEscapeReads(c: Code, mark: Code, width: nat, t: Text, n: nat)
    requires HexDigits(mark) == width > 0 && c < Pow16(width)
    ensures ReadDouble([BACKSLASH, mark] + Hex(c, width) + t, n) == Prepend([c], ReadDouble(t, n))
  {
    hide HexValue, Hex, Pow16;
    var s := [BACKSLASH, mark] + Hex(c, width) + t;
    assert s[0] == BACKSLASH && s[1] == mark && !Break(mark) && Simple(mark).None?;
    hide Simple, HexDigits, NextLine, Lead;
    assert s[2..2 + width] == Hex(c, width) && s[2 + width..] == t;
    HexReads(c, width);
  }

  /** An escape reads as the character it was printed for. */
  lemma EscapeReads(c: Code, t: Text, n: nat)
    ensures ReadDouble(Escape(c) + t, n) == Prepend([c], ReadDouble(t, n))
  {
    hide ReadDouble, Hex, Pow16, Letter;
    Pow16Values();
    if Letter(c).Some? {
      LetterReads(c);
      PairReads(Letter(c).value, c, t, n);
    } else if c <= 0xff {
      HexEscapeReads(c, 120, 2, t, n);
    } else if c <= 0xffff {
      HexEscapeReads(c, 117, 4, t, n);
    } else {
      HexEscapeReads(c, 85, 8, t, n);
    }
  }

  /** Text as it is, an escape, or a line continuation. After a continuation a space
      is escaped with one more backslash; `Torn` is two continuations with such a
      backslash between them, which then escapes the next one. */
  datatype DoublePiece =
    | Raw(text: Text)
    | Escaped(c: Code)
    | Continued
    | ContinuedAtSpace
    | Torn
  {
    predicate Ok() {
      Raw? ==> text != [] && forall c :: c in text ==> Verbatim(c)
    }

    predicate MarksSpace() {
      ContinuedAtSpace? || Torn?
    }

    function Meaning(): Text {
      match this
      case Raw(cs) => cs
      case Escaped(c) => [c]
      case _ => []
    }

    /** What a reader makes of it. */
    function Reads(): Text {
      if Torn? then [BACKSLASH, SPACE] else Meaning()
    }

    function Print(indent: nat): Text {
      match this
      case Raw(cs) => cs
      case Escaped(c) => Escape(c)
      case Continued => [BACKSLASH] + NewLine(indent)
      case ContinuedAtSpace => [BACKSLASH] + NewLine(indent) + [BACKSLASH]
      case Torn => [BACKSLASH] + NewLine(indent) + [BACKSLASH] + [BACKSLASH] + NewLine(indent) + [BACKSLASH]
    }
  }

  function DoubleMeaning(pieces: seq<DoublePiece>): Text {
    if pieces == [] then [] else pieces[0].Meaning() + DoubleMeaning(pieces[1..])
  }

  function DoubleReading(pieces: seq<DoublePiece>): Text {
    if pieces == [] then [] else pieces[0].Reads() + DoubleReading(pieces[1..])
  }

  function DoublePrint(pieces: seq<DoublePiece>, indent: nat): Text {
    if pieces == [] then [] else pieces[0].Print(indent) + DoublePrint(pieces[1..], indent)
  }

  /** Which piece may follow which. */
  predicate Follows(p: DoublePiece, q: DoublePiece) {
    match p
    case Raw(_) => !q.Raw?
    case Continued => q.Raw? && q.text != [] ==> q.text[0] != SPACE
    case Escaped(_) => true
    case _ => q.Raw? && q.text != [] && q.text[0] == SPACE
  }

  ghost predicate DoubleLinked(pieces: seq<DoublePiece>) {
    && (forall p :: p in pieces ==> p.Ok())
    && (forall i :: 0 <= i < |pieces| - 1 ==> Follows(pieces[i], pieces[i + 1]))
  }

  ghost predicate DoubleOk(pieces: seq<DoublePiece>) {
    DoubleLinked(pieces) && (pieces != [] ==> !pieces[|pieces| - 1].MarksSpace())
  }

  /** What follows a piece in print. */
  predicate FollowsText(p: DoublePiece, t: Text) {
    match p
    case Raw(_) => Solid(t)
    case Continued => Solid(t)
    case Escaped(_) => true
    case _ => t != [] && t[0] == SPACE && !LineEnds(t)
  }

  lemma {:induction false} VerbatimLine(cs: Text, t: Text)
    requires (forall c :: c in cs ==> Verbatim(c)) && Solid(t)
    ensures !LineEnds(cs + t)
  {
    var s := cs + t;
    if cs == [] {
      assert s == t;
    } else {
      assert cs[0] in cs && s[0] == cs[0] && s[1..] == cs[1..] + t;
      VerbatimLine(cs[1..], t);
    }
  }

  lemma {:induction false} RawReads(cs: Text, t: Text, n: nat)
    requires (forall c :: c in cs ==> Verbatim(c)) && Solid(t)
    ensures ReadDouble(cs + t, n) == Prepend(cs, ReadDouble(t, n))
  {
    hide Lead;
    if cs == [] {
      assert cs + t == t;
      PrependNothing(ReadDouble(t, n));
    } else {
      var s := cs + t;
      assert cs[0] in cs && s[0] == cs[0] && s[1..] == cs[1..] + t;
      VerbatimLine(cs, t);
      RawReads(cs[1..], t, n);
      PrependTwice([cs[0]], cs[1..], ReadDouble(t, n));
      assert [cs[0]] + cs[1..] == cs;
    }
  }

  lemma ContinuedReads(indent: nat, t: Text, n: nat)
    requires Solid(t) && n <= indent
    ensures ReadDouble([BACKSLASH] + NewLine(indent) + t, n) == ReadDouble(t, n)
  {
    hide NextLine, Lead;
    var s := [BACKSLASH] + NewLine(indent) + t;
    assert s[1] == LF && PastBreak(s[1..]) == Repeat(SPACE, indent) + t;
    NextLineOfIndent(indent, t, n);
    PrependNothing(ReadDouble(t, n));
  }

  lemma MarkedSpaceReads(t: Text, n: nat)
    requires t != [] && t[0] == SPACE && !LineEnds(t)
    ensures ReadDouble([BACKSLASH] + t, n) == ReadDouble(t, n)
  {
    hide NextLine, Lead, LineEnds;
    var s := [BACKSLASH] + t;
    assert s[1] == SPACE && s[2..] == t[1..];
  }

  lemma PairReads(c: Code, d: Code, t: Text, n: nat)
    requires !Break(c) && Simple(c) == Some(d)
    ensures ReadDouble([BACKSLASH, c] + t, n) == Prepend([d], ReadDouble(t, n))
  {
    hide Simple, NextLine, Lead;
    var s := [BACKSLASH, c] + t;
    assert s[2..] == t;
  }

  lemma BareBreakReads(indent: nat, t: Text, n: nat)
    requires Solid(t) && n <= indent
    ensures ReadDouble(NewLine(indent) + t, n) == Prepend([SPACE], ReadDouble(t, n))
  {
    hide NextLine;
    var s := NewLine(indent) + t;
    assert s[0] == LF && Lead(s) == 0 && s[0..] == s;
    assert PastBreak(s) == Repeat(SPACE, indent) + t;
    NextLineOfIndent(indent, t, n);
  }

  lemma TornReads(indent: nat, t: Text, n: nat)
    requires t != [] && t[0] == SPACE && !LineEnds(t) && n <= indent
    ensures ReadDouble(Torn.Print(indent) + t, n) == Prepend([BACKSLASH, SPACE], ReadDouble(t, n))
  {
    hide ReadDouble, NewLine, LineEnds;
    var marked := [BACKSLASH] + t;
    var line := NewLine(indent) + marked;
    var pair := [BACKSLASH, BACKSLASH] + line;
    assert Torn.Print(indent) + t == [BACKSLASH] + NewLine(indent) + pair;
    ContinuedReads(indent, pair, n);
    PairReads(BACKSLASH, BACKSLASH, line, n);
    BareBreakReads(indent, marked, n);
    MarkedSpaceReads(t, n);
    PrependTwice([BACKSLASH], [SPACE], ReadDouble(t, n));
    assert [BACKSLASH] + [SPACE] == [BACKSLASH, SPACE];
  }

  lemma DoublePieceReads(p: DoublePiece, t: Text, indent: nat, n: nat)
    requires p.Ok() && n <= indent && FollowsText(p, t)
    ensures ReadDouble(p.Print(indent) + t, n) == Prepend(p.Reads(), ReadDouble(t, n))
  {
    hide ReadDouble, NewLine, Escape, LineEnds;
    match p
    case Raw(cs) => RawReads(cs, t, n);
    case Escaped(c) => EscapeReads(c, t, n);
    case Continued =>
      ContinuedReads(indent, t, n);
      PrependNothing(ReadDouble(t, n));
    case ContinuedAtSpace =>
      assert p.Print(indent) + t == [BACKSLASH] + NewLine(indent) + ([BACKSLASH] + t);
      ContinuedReads(indent, [BACKSLASH] + t, n);
      MarkedSpaceReads(t, n);
      PrependNothing(ReadDouble(t, n));
    case Torn => TornReads(indent, t, n);
  }

  lemma ClosingDoubleReads(rest: Text, n: nat)
    ensures ReadDouble([DQUOTE] + rest, n) == Some(Reading([], rest))
  {
    assert ([DQUOTE] + rest)[1..] == rest;
  }

  /** The piece that follows is printed as its predecessor needs. */
  lemma FollowingPrint(p: DoublePiece, q: DoublePiece, t: Text, indent: nat)
    requires q.Ok() && Follows(p, q) && FollowsText(q, t)
    ensures FollowsText(p, q.Print(indent) + t)
  {
    if q.Raw? {
      assert q.text[0] in q.text;
      VerbatimLine(q.text, t);
    }
  }

  lemma {:induction false} TextFollows(pieces: seq<DoublePiece>, close: Text, indent: nat)
    requires DoubleOk(pieces) && pieces != [] && close != [] && close[0] == DQUOTE
    ensures FollowsText(pieces[0], DoublePrint(pieces[1..], indent) + close)
    decreases |pieces|
  {
    hide DoublePiece.Print, DoublePiece.Ok;
    var p, more := pieces[0], pieces[1..];
    var t := DoublePrint(more, indent) + close;
    DoubleOkTail(pieces);
    if more == [] {
      assert t == close;
    } else {
      hide LineEnds, FollowsText;
      assert more[0] in pieces && Follows(pieces[0], pieces[1]);
      TextFollows(more, close, indent);
      FollowingPrint(p, more[0], DoublePrint(more[1..], indent) + close, indent);
      assert t == more[0].Print(indent) + (DoublePrint(more[1..], indent) + close);
    }
  }

  /** Linked pieces up to the closing quote read back, piece by piece. */
  lemma {:induction false} DoubleReads(pieces: seq<DoublePiece>, rest: Text, indent: nat, n: nat)
    requires DoubleOk(pieces) && n <= indent
    ensures ReadDouble(DoublePrint(pieces, indent) + ([DQUOTE] + rest), n)
            == Some(Reading(DoubleReading(pieces), rest))
    decreases |pieces|
  {
    hide ReadDouble, DoublePiece.Print, DoublePiece.Reads, DoublePiece.Ok, FollowsText;
    var close := [DQUOTE] + rest;
    if pieces == [] {
      assert DoublePrint(pieces, indent) + close == close;
      ClosingDoubleReads(rest, n);
    } else {
      var p, more := pieces[0], pieces[1..];
      assert p in pieces;
      DoubleOkTail(pieces);
      TextFollows(pieces, close, indent);
      DoubleReads(more, rest, indent, n);
      var t := DoublePrint(more, indent) + close;
      DoublePieceReads(p, t, indent, n);
      PrintThen(pieces, close, indent);
      hide DoubleOk, DoublePrint;
    }
  }

  lemma PrintThen(pieces: seq<DoublePiece>, close: Text, indent: nat)
    requires pieces != []
    ensures DoublePrint(pieces, indent) + close
         == pieces[0].Print(indent) + (DoublePrint(pieces[1..], indent) + close)
  {
    hide DoublePiece.Print;
  }

  lemma DoubleOkTail(pieces: seq<DoublePiece>)
    requires DoubleOk(pieces) && pieces != []
    ensures DoubleOk(pieces[1..])
  {
    var more := pieces[1..];
    forall i | 0 <= i < |more| - 1 ensures Follows(more[i], more[i + 1]) {
      assert Follows(pieces[i + 1], pieces[i + 2]);
    }
  }

  /** What is read is what was meant exactly when no piece is torn. */
  lemma {:induction false} ReadingIsMeaning(pieces: seq<DoublePiece>)
    ensures |DoubleReading(pieces)| >= |DoubleMeaning(pieces)|
    ensures DoubleReading(pieces) == DoubleMeaning(pieces) <==> Torn !in pieces
    ensures Torn in pieces ==> |DoubleReading(pieces)| > |DoubleMeaning(pieces)|
    decreases |pieces|
  {
    if pieces != [] {
      assert pieces == [pieces[0]] + pieces[1..];
      ReadingIsMeaning(pieces[1..]);
    }
  }

  // Printing appends pieces.

  lemma {:induction false} SingleAppend(pieces: seq<SinglePiece>, p: SinglePiece, indent: nat)
    ensures SinglePrint(pieces + [p], indent) == SinglePrint(pieces, indent) + p.Print(indent)
    ensures SingleMeaning(pieces + [p]) == SingleMeaning(pieces) + p.Meaning()
    decreases |pieces|
  {
    hide SinglePiece.Print, SinglePiece.Meaning;
    var all := pieces + [p];
    if pieces == [] {
      assert all[1..] == [];
    } else {
      assert all[1..] == pieces[1..] + [p];
      SingleAppend(pieces[1..], p, indent);
    }
  }

  lemma {:induction false} DoubleAppend(pieces: seq<DoublePiece>, p: DoublePiece, indent: nat)
    ensures DoublePrint(pieces + [p], indent) == DoublePrint(pieces, indent) + p.Print(indent)
    ensures DoubleMeaning(pieces + [p]) == DoubleMeaning(pieces) + p.Meaning()
    decreases |pieces|
  {
    hide DoublePiece.Print, DoublePiece.Meaning;
    var all := pieces + [p];
    if pieces == [] {
      assert all[1..] == [];
    } else {
      assert all[1..] == pieces[1..] + [p];
      DoubleAppend(pieces[1..], p, indent);
    }
  }
}
