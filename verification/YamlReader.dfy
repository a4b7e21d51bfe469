/** How a YAML reader takes quoted flow scalars apart: line folding (section 6.5 of
    YAML 1.2.2), the double-quoted style (7.3.1) and the single-quoted style (7.3.2). */
module YamlReader {
  import opened Prelude
  import opened HexText

  /** A Unicode code point. */
  type Code = x: int | 0 <= x < 0x11_0000

  type Text = seq<Code>

  const TAB: Code := 9
  const LF: Code := 10
  const CR: Code := 13
  const SPACE: Code := 32
  const DQUOTE: Code := 34
  const HASH: Code := 35
  const SQUOTE: Code := 39
  const COLON: Code := 58
  const BACKSLASH: Code := 92

  /** The scalar read and what follows its closing quote. */
  datatype Reading = Reading(value: Text, rest: Text)

  predicate White(c: Code) {
    c == SPACE || c == TAB
  }

  predicate Break(c: Code) {
    c == LF || c == CR
  }

  /** All on one line. */
  predicate Unbroken(s: Text) {
    forall c :: c in s ==> !Break(c)
  }

  function Repeat(c: Code, k: nat): (s: Text)
    ensures |s| == k && forall i :: 0 <= i < k ==> s[i] == c
  {
    if k == 0 then [] else [c] + Repeat(c, k - 1)
  }

  /** Leading white space. */
  function Lead(s: Text): (w: nat)
    ensures w <= |s|
  {
    if s != [] && White(s[0]) then 1 + Lead(s[1..]) else 0
  }

  /** Leading spaces: the indentation. */
  function Indentation(s: Text): nat {
    if s != [] && s[0] == SPACE then 1 + Indentation(s[1..]) else 0
  }

  /** The text after one line break: CR LF counts as one. */
  function PastBreak(s: Text): (t: Text)
    requires s != []
    ensures |t| < |s|
  {
    if s[0] == CR && |s| > 1 && s[1] == LF then s[2..] else s[1..]
  }

  /** Past a line break: the number of empty lines, and the text from the first
      content of a line indented by at least `n`. */
  function NextLine(s: Text, n: nat): (r: Option<(nat, Text)>)
    ensures r.Some? ==> |r.value.1| <= |s|
    decreases |s|
  {
    var w := Lead(s);
    if w < |s| && Break(s[w]) then
      match NextLine(PastBreak(s[w..]), n)
      case None => None
      case Some((k, t)) => Some((k + 1, t))
    else if Indentation(s) >= n then Some((0, s[w..]))
    else None
  }

  /** A single break folds to a space; with empty lines between, they are the breaks. */
  function Folded(k: nat): Text {
    if k == 0 then [SPACE] else Repeat(LF, k)
  }

  function Prepend(value: Text, r: Option<Reading>): Option<Reading> {
    match r
    case None => None
    case Some(x) => Some(Reading(value + x.value, x.rest))
  }

  /** White space that ends a line. */
  predicate LineEnds(s: Text) {
    Lead(s) < |s| && Break(s[Lead(s)])
  }

  /** The text after the opening quote of a single-quoted scalar whose lines are
      indented by at least `n`. */
  function ReadSingle(s: Text, n: nat): Option<Reading>
    decreases |s|
  {
    if s == [] then None
    else if s[0] == SQUOTE then
      if |s| > 1 && s[1] == SQUOTE then Prepend([SQUOTE], ReadSingle(s[2..], n))
      else Some(Reading([], s[1..]))
    else if LineEnds(s) then
      match NextLine(PastBreak(s[Lead(s)..]), n)
      case None => None
      case Some((k, t)) => Prepend(Folded(k), ReadSingle(t, n))
    else Prepend([s[0]], ReadSingle(s[1..], n))
  }

  // Double-quoted scalars.

  /** The character an escape letter stands for. */
  function Simple(c: Code): Option<Code> {
    if c == 48 then Some(0)                    // 0
    else if c == 97 then Some(7)               // a
    else if c == 98 then Some(8)               // b
    else if c == 116 || c == TAB then Some(TAB)
    else if c == 110 then Some(LF)             // n
    else if c == 118 then Some(11)             // v
    else if c == 102 then Some(12)             // f
    else if c == 114 then Some(CR)             // r
    else if c == 101 then Some(27)             // e
    else if c == SPACE || c == DQUOTE || c == 47 || c == BACKSLASH then Some(c)
    else if c == 78 then Some(0x85)            // N
    else if c == 95 then Some(0xa0)            // _
    else if c == 76 then Some(0x2028)          // L
    else if c == 80 then Some(0x2029)          // P
    else None
  }

  /** How many hex digits follow an escape letter. */
  function HexDigits(c: Code): nat {
    if c == 120 then 2 else if c == 117 then 4 else if c == 85 then 8 else 0
  }

  /** The text after the opening quote of a double-quoted scalar. */
  function ReadDouble(s: Text, n: nat): Option<Reading>
    decreases |s|
  {
    if s == [] then None
    else if s[0] == DQUOTE then Some(Reading([], s[1..]))
    else if s[0] == BACKSLASH then
      if |s| == 1 then None
      else if Break(s[1]) then
        match NextLine(PastBreak(s[1..]), n)
        case None => None
        case Some((k, t)) => Prepend(Repeat(LF, k), ReadDouble(t, n))
      else if Simple(s[1]).Some? then Prepend([Simple(s[1]).value], ReadDouble(s[2..], n))
      else
        var h := HexDigits(s[1]);
        if h == 0 || |s| < 2 + h then None
        else
          match HexValue(s[2..2 + h])
          case None => None
          case Some(v) => if v < 0x11_0000 then Prepend([v], ReadDouble(s[2 + h..], n)) else None
    else if LineEnds(s) then
      match NextLine(PastBreak(s[Lead(s)..]), n)
      case None => None
      case Some((k, t)) => Prepend(Folded(k), ReadDouble(t, n))
    else Prepend([s[0]], ReadDouble(s[1..], n))
  }

  lemma PrependTwice(a: Text, b: Text, r: Option<Reading>)
    ensures Prepend(a, Prepend(b, r)) == Prepend(a + b, r)
  {
    if r.Some? {
      assert a + (b + r.value.value) == (a + b) + r.value.value;
    }
  }

  lemma PrependNothing(r: Option<Reading>)
    ensures Prepend([], r) == r
  {
    if r.Some? {
      assert [] + r.value.value == r.value.value;
    }
  }

  // Reading goes forward.

  lemma {:induction false} SingleGoesOn(s: Text, n: nat)
    ensures ReadSingle(s, n).Some? ==> |ReadSingle(s, n).value.rest| < |s|
    decreases |s|
  {
    if s != [] && s[0] == SQUOTE {
      if |s| > 1 {
        SingleGoesOn(s[2..], n);
      }
    } else if s != [] && LineEnds(s) {
      var next := NextLine(PastBreak(s[Lead(s)..]), n);
      if next.Some? {
        SingleGoesOn(next.value.1, n);
      }
    } else if s != [] {
      SingleGoesOn(s[1..], n);
    }
  }

  lemma {:induction false} DoubleGoesOn(s: Text, n: nat)
    ensures ReadDouble(s, n).Some? ==> |ReadDouble(s, n).value.rest| < |s|
    decreases |s|
  {
    hide Simple, HexValue;
    if s == [] || s[0] == DQUOTE {
    } else if s[0] == BACKSLASH {
      if |s| > 1 && Break(s[1]) {
        var next := NextLine(PastBreak(s[1..]), n);
        if next.Some? {
          DoubleGoesOn(next.value.1, n);
        }
      } else if |s| > 1 {
        DoubleGoesOn(s[2..], n);
        if |s| >= 2 + HexDigits(s[1]) {
          DoubleGoesOn(s[2 + HexDigits(s[1])..], n);
        }
      }
    } else if LineEnds(s) {
      var next := NextLine(PastBreak(s[Lead(s)..]), n);
      if next.Some? {
        DoubleGoesOn(next.value.1, n);
      }
    } else {
      DoubleGoesOn(s[1..], n);
    }
  }
}
