/** The tag a plain scalar would be read back with. */
module YamlResolve {
  import opened Prelude
  import opened HexText
  import opened YamlReader

  datatype Tag = Str | Int | Float | Bool | Null | Other

  function Ascii(s: string): (t: Text)
    ensures |t| == |s|
  {
    seq(|s|, i requires 0 <= i < |s| => s[i] as int)
  }

  predicate IsDigit(c: Code) {
    48 <= c <= 57
  }

  predicate IsSign(c: Code) {
    c == 43 || c == 45
  }

  const DOT: Code := 46
  const UNDERSCORE: Code := 95
  const ZERO: Code := 48

  function StripSign(s: Text): Text {
    if s != [] && IsSign(s[0]) then s[1..] else s
  }

  /** The fields between separators; always at least one. */
  function Split(s: Text, sep: Code): (parts: seq<Text>)
    ensures parts != []
    ensures sep in s ==> |parts| > 1
    ensures s != [] ==> (parts[0] == [] <==> s[0] == sep)
  {
    if s == [] then [[]]
    else
      var more := Split(s[1..], sep);
      if s[0] == sep then [[]] + more else [[s[0]] + more[0]] + more[1..]
  }

  predicate All(s: Text, first: Code, last: Code, orUnderscore: bool) {
    forall c :: c in s ==> first <= c <= last || (orUnderscore && c == UNDERSCORE)
  }

  predicate AllHex(s: Text) {
    forall c :: c in s ==> DigitValue(c).Some? || c == UNDERSCORE
  }

  /** A sexagesimal digit group: `[0-5]?[0-9]`. */
  predicate IsSixty(p: Text) {
    1 <= |p| <= 2 && All(p, 48, 57, false) && (|p| == 2 ==> p[0] <= 53)
  }

  /** Whether a scalar looks like an integer. None is a panic: the first field of a
      sexagesimal is indexed without looking whether it is empty. */
  function IntRe(s: Text): Option<bool> {
    var t := StripSign(s);
    if t == [] then Some(false)
    else if Ascii("0b") <= t then Some(|t| > 2 && All(t[2..], 48, 49, true))
    else if Ascii("0x") <= t then Some(|t| > 2 && AllHex(t[2..]))
    else if COLON in t then
      var parts := Split(t, COLON);
      var first := parts[0];
      if first == [] then None
      else if !(IsDigit(first[0]) && first[0] != ZERO && All(first, 48, 57, true)) then Some(false)
      else Some(forall p :: p in parts[1..] ==> IsSixty(p))
    else if t[0] == ZERO && |t| > 1 then Some(All(t[1..], 48, 55, true))
    else if t == [ZERO] then Some(true)
    else Some(49 <= t[0] <= 57 && All(t, 48, 57, true))
  }

  /** The text before and after the first separator. */
  function SplitOnce(s: Text, seps: set<Code>): Option<(Text, Text)> {
    if s == [] then None
    else if s[0] in seps then Some(([], s[1..]))
    else
      match SplitOnce(s[1..], seps)
      case None => None
      case Some((a, b)) => Some(([s[0]] + a, b))
  }

  predicate FloatRe(s: Text) {
    var t := StripSign(s);
    if t in {Ascii(".inf"), Ascii(".Inf"), Ascii(".INF")} then true
    else if s in {Ascii(".nan"), Ascii(".NaN"), Ascii(".NAN")} then true
    else if DOT !in t then false
    else
      var split := SplitOnce(t, {101, 69});
      var mantissa := if split.Some? then split.value.0 else t;
      var exponent := if split.Some? then split.value.1 else [];
      var digits := if exponent != [] && IsSign(exponent[0]) then exponent[1..] else [];
      if split.Some? && !(digits != [] && All(digits, 48, 57, false)) then false
      else
        match SplitOnce(mantissa, {DOT})
        case None => false
        case Some((whole, frac)) =>
          || (whole != [] && IsDigit(whole[0]) && All(whole, 48, 57, true) && All(frac, 48, 57, true))
          || (whole == [] && frac != [] && IsDigit(frac[0]))
  }

  predicate TimestampRe(s: Text) {
    |s| >= 8 && IsDigit(s[0]) && IsDigit(s[1]) && IsDigit(s[2]) && IsDigit(s[3]) && s[4] == 45
  }

  function ResolvePlain(value: Text): Option<Tag> {
    if value == [] then Some(Null)
    else if value in {Ascii("~"), Ascii("null"), Ascii("Null"), Ascii("NULL")} then Some(Null)
    else if value in {Ascii("yes"), Ascii("Yes"), Ascii("YES"), Ascii("no"), Ascii("No"), Ascii("NO"),
                      Ascii("true"), Ascii("True"), Ascii("TRUE"), Ascii("false"), Ascii("False"), Ascii("FALSE"),
                      Ascii("on"), Ascii("On"), Ascii("ON"), Ascii("off"), Ascii("Off"), Ascii("OFF")} then Some(Bool)
    else if IsDigit(value[0]) || IsSign(value[0]) || value[0] == DOT then
      match IntRe(value)
      case None => None
      case Some(true) => Some(Int)
      case Some(false) => if FloatRe(value) then Some(Float) else if TimestampRe(value) then Some(Other) else Some(Str)
    else Some(Str)
  }

  /** A sign and then a colon: the strings the resolver cannot take. */
  predicate SignColon(s: Text) {
    |s| >= 2 && IsSign(s[0]) && s[1] == COLON
  }

  lemma IntRePanics(s: Text)
    ensures IntRe(s).None? <==> s != [] && StripSign(s) != [] && StripSign(s)[0] == COLON
  {
    hide All, AllHex, IsSixty;
    var t := StripSign(s);
    if t != [] && t[0] == COLON {
      assert t[0] in t;
      assert Ascii("0b")[0] == 48 && Ascii("0x")[0] == 48;
    }
  }

  /** The resolver panics on these and on no others. */
  lemma ResolvePanicsIff(s: Text)
    ensures ResolvePlain(s).None? <==> SignColon(s)
  {
    IntRePanics(s);
    hide IntRe, FloatRe, TimestampRe;
    if SignColon(s) {
      NoWord(s, "~", "null", "Null", "NULL", "yes", "Yes");
      NoWord(s, "YES", "no", "No", "NO", "true", "True");
      NoWord(s, "TRUE", "false", "False", "FALSE", "on", "On");
      NoWord(s, "ON", "off", "Off", "OFF", "off", "Off");
    }
  }

  lemma NoWord(s: Text, a: string, b: string, c: string, d: string, e: string, f: string)
    requires SignColon(s)
    requires forall w :: w in [a, b, c, d, e, f] ==> w != [] && w[0] != '+' && w[0] != '-'
    ensures s !in {Ascii(a), Ascii(b), Ascii(c), Ascii(d), Ascii(e), Ascii(f)}
  {
    forall w | w in [a, b, c, d, e, f] ensures s != Ascii(w) {
      assert Ascii(w)[0] == w[0] as int;
    }
    assert a in [a, b, c, d, e, f] && b in [a, b, c, d, e, f] && c in [a, b, c, d, e, f];
    assert d in [a, b, c, d, e, f] && e in [a, b, c, d, e, f] && f in [a, b, c, d, e, f];
  }
}
