/** The emitter's resolver against the patterns of the types: where it agrees with a
    reader, and where not. */
module YamlTags {
  import opened Prelude
  import opened YamlReader
  import opened YamlResolve
  import opened YamlPatterns

  // Integers.

  lemma BinMatches(t: Text)
    ensures Matches(BIN, t) <==> |t| > 2 && t[0] == 48 && t[1] == 98 && AllIn(t[2..], BINARY_)
  {
    hide Matches;
    FirstMatches({48}, Cat(Any({98}), Plus(Any(BINARY_))), t);
    if t != [] {
      FirstMatches({98}, Plus(Any(BINARY_)), t[1..]);
      if |t| > 1 {
        assert t[1..][1..] == t[2..];
        SomeMatches(BINARY_, t[2..]);
      }
    }
  }

  lemma HexMatches(t: Text)
    ensures Matches(HEX, t) <==> |t| > 2 && t[0] == 48 && t[1] == 120 && AllIn(t[2..], HEX_)
  {
    hide Matches;
    FirstMatches({48}, Cat(Any({120}), Plus(Any(HEX_))), t);
    if t != [] {
      FirstMatches({120}, Plus(Any(HEX_)), t[1..]);
      if |t| > 1 {
        assert t[1..][1..] == t[2..];
        SomeMatches(HEX_, t[2..]);
      }
    }
  }

  lemma OctMatches(t: Text)
    ensures Matches(OCT, t) <==> |t| > 1 && t[0] == 48 && AllIn(t[1..], OCTAL_)
  {
    hide Matches;
    FirstMatches({48}, Plus(Any(OCTAL_)), t);
    if t != [] {
      SomeMatches(OCTAL_, t[1..]);
    }
  }

  lemma DecMatches(t: Text)
    ensures Matches(DEC, t) <==> t == [48] || (t != [] && t[0] in DECIMAL && AllIn(t[1..], DIGITS_))
  {
    hide Matches;
    AltMatches(Any({48}), Cat(Any(DECIMAL), Star(Any(DIGITS_))), t);
    OneMatches({48}, t);
    FirstMatches(DECIMAL, Star(Any(DIGITS_)), t);
    if t != [] {
      RunMatches(DIGITS_, t[1..]);
    }
  }

  /** Digits up to the first colon, then groups. */
  lemma DigitsThenGroups(x: Text, k: nat)
    requires k == IndexOf(x, COLON)
    ensures Matches(Cat(Star(Any(DIGITS_)), Plus(GROUP)), x) <==>
            k < |x| && AllIn(x[..k], DIGITS_) && AllSixty(Split(x[k + 1..], COLON))
  {
    hide Matches, IsSixty;
    RunMatches(DIGITS_, x[..k]);
    if k < |x| {
      SomeGroups(x[k..]);
      GroupsMatch(x[k..]);
      assert x[k..][1..] == x[k + 1..];
      if AllIn(x[..k], DIGITS_) && AllSixty(Split(x[k + 1..], COLON)) {
        CatJoin(Star(Any(DIGITS_)), Plus(GROUP), x, k);
      }
    }
    if Matches(Cat(Star(Any(DIGITS_)), Plus(GROUP)), x) {
      var j := CatStep(Star(Any(DIGITS_)), Plus(GROUP), x);
      RunMatches(DIGITS_, x[..j]);
      SomeGroups(x[j..]);
      GroupsMatch(x[j..]);
      ColonAt(x, k, j);
    }
  }

  lemma Stranger(s: Text, k: nat, chars: set<int>)
    requires k < |s| && s[k] !in chars
    ensures !AllIn(s, chars)
  {
    assert s[k] in s;
  }

  lemma ColonAt(x: Text, k: nat, j: nat)
    requires k == IndexOf(x, COLON) && j < |x| && AllIn(x[..j], DIGITS_) && x[j] == COLON
    ensures j == k
  {
    hide IndexOf;
    if k < j {
      Stranger(x[..j], k, DIGITS_);
    }
  }

  lemma SixtiesMatch(t: Text)
    ensures Matches(SIXTIES, t) <==>
            && COLON in t
            && var parts := Split(t, COLON);
               parts[0] != [] && parts[0][0] in DECIMAL && AllIn(parts[0], DIGITS_) && AllSixty(parts[1..])
  {
    hide Matches, IsSixty;
    FirstMatches(DECIMAL, Cat(Star(Any(DIGITS_)), Plus(GROUP)), t);
    if t != [] && t[0] != COLON {
      var x := t[1..];
      var k := IndexOf(x, COLON);
      DigitsThenGroups(x, k);
      assert t == [t[0]] + x && t[..k + 1] == [t[0]] + x[..k];
      SplitAt(t, COLON, k + 1);
      if k < |x| {
        assert t[k + 2..] == x[k + 1..];
      }
    } else if t != [] {
      SplitAt(t, COLON, 0);
    }
  }

  /** All of the integer pattern, behind the sign. */
  predicate IntForm(t: Text) {
    || (|t| > 2 && t[0] == 48 && t[1] == 98 && AllIn(t[2..], BINARY_))
    || (|t| > 1 && t[0] == 48 && AllIn(t[1..], OCTAL_))
    || t == [48] || (t != [] && t[0] in DECIMAL && AllIn(t[1..], DIGITS_))
    || (|t| > 2 && t[0] == 48 && t[1] == 120 && AllIn(t[2..], HEX_))
    || (COLON in t && var parts := Split(t, COLON);
        parts[0] != [] && parts[0][0] in DECIMAL && AllIn(parts[0], DIGITS_) && AllSixty(parts[1..]))
  }

  lemma IntMatchesForm(s: Text)
    ensures Matches(INT, s) <==> IntForm(StripSign(s))
  {
    hide Matches, IsSixty, Split;
    var t := StripSign(s);
    NoneSigned(s);
    SignedMatches(BIN, s);
    SignedMatches(OCT, s);
    SignedMatches(DEC, s);
    SignedMatches(HEX, s);
    SignedMatches(SIXTIES, s);
    BinMatches(t);
    OctMatches(t);
    DecMatches(t);
    HexMatches(t);
    SixtiesMatch(t);
    AltMatches(Signed(BIN), Alt(Signed(OCT), Alt(Signed(DEC), Alt(Signed(HEX), Signed(SIXTIES)))), s);
    AltMatches(Signed(OCT), Alt(Signed(DEC), Alt(Signed(HEX), Signed(SIXTIES))), s);
    AltMatches(Signed(DEC), Alt(Signed(HEX), Signed(SIXTIES)), s);
    AltMatches(Signed(HEX), Signed(SIXTIES), s);
  }

  lemma NoneSigned(s: Text)
    ensures s != [] && IsSign(s[0]) ==>
              !Matches(BIN, s) && !Matches(OCT, s) && !Matches(DEC, s) && !Matches(HEX, s) && !Matches(SIXTIES, s)
  {
    hide Matches;
    BinMatches(s);
    OctMatches(s);
    DecMatches(s);
    HexMatches(s);
    FirstMatches(DECIMAL, Cat(Star(Any(DIGITS_)), Plus(GROUP)), s);
  }

  /** The resolver's integers, in the same form. */
  lemma IntReIsForm(s: Text)
    ensures IntRe(s).Some? ==> (IntRe(s).value <==> IntForm(StripSign(s)))
    ensures IntRe(s).None? ==> !IntForm(StripSign(s))
  {
    hide IsSixty, Split, IntForm;
    var t := StripSign(s);
    assert Ascii("0b") == [48, 98] && Ascii("0x") == [48, 120];
    if |t| >= 2 && t[0] == 48 && (t[1] == 98 || t[1] == 120) {
      assert t[..2] == [t[0], t[1]];
      MarkedForm(t);
    } else if |t| >= 2 {
      assert t[..2] == [t[0], t[1]];
      PlainForm(t);
    } else {
      PlainForm(t);
    }
  }

  /** Binary and hexadecimal. */
  lemma MarkedForm(t: Text)
    requires |t| >= 2 && t[0] == 48 && (t[1] == 98 || t[1] == 120)
    ensures IntForm(t) <==> |t| > 2 && if t[1] == 98 then All(t[2..], 48, 49, true) else AllHex(t[2..])
  {
    hide IsSixty, Split;
    assert t[1..][0] == t[1];
    Stranger(t[1..], 0, OCTAL_);
    SplitBegins(t);
    assert AllIn(t[2..], BINARY_) <==> All(t[2..], 48, 49, true);
    assert AllIn(t[2..], HEX_) <==> AllHex(t[2..]);
  }

  /** Everything else. */
  lemma PlainForm(t: Text)
    requires !(|t| >= 2 && t[0] == 48 && (t[1] == 98 || t[1] == 120))
    ensures t == [] ==> !IntForm(t)
    ensures COLON in t && t[0] == COLON ==> !IntForm(t)
    ensures COLON in t && t[0] != COLON ==>
              var parts := Split(t, COLON);
              && parts[0] != []
              && (IntForm(t) <==> IsDigit(parts[0][0]) && parts[0][0] != ZERO && All(parts[0], 48, 57, true)
                                  && forall p :: p in parts[1..] ==> IsSixty(p))
    ensures COLON !in t && |t| > 1 && t[0] == ZERO ==> (IntForm(t) <==> All(t[1..], 48, 55, true))
    ensures COLON !in t && t == [ZERO] ==> IntForm(t)
    ensures COLON !in t && t != [] && t[0] != ZERO ==> (IntForm(t) <==> 49 <= t[0] <= 57 && All(t, 48, 57, true))
  {
    hide IsSixty, Split;
    if t != [] {
      assert t == [t[0]] + t[1..];
      assert AllIn(t[1..], OCTAL_) <==> All(t[1..], 48, 55, true);
      assert AllIn(t[1..], DIGITS_) <==> All(t[1..], 48, 57, true);
      assert forall c :: c in t <==> c == t[0] || c in t[1..];
      assert 49 <= t[0] <= 57 ==> (All(t, 48, 57, true) <==> All(t[1..], 48, 57, true));
    }
    if COLON in t {
      NoColons(t);
      if t[0] != COLON {
        SplitBegins(t);
        var first := Split(t, COLON)[0];
        assert AllIn(first, DIGITS_) <==> All(first, 48, 57, true);
      } else {
        FirstEmpty(t);
      }
    }
  }

  lemma FirstEmpty(t: Text)
    requires t != [] && t[0] == COLON
    ensures Split(t, COLON)[0] == []
  {
  }

  lemma SplitBegins(t: Text)
    requires t != [] && t[0] != COLON
    ensures Split(t, COLON)[0] != [] && Split(t, COLON)[0][0] == t[0]
  {
  }

  /** A colon leaves only the sexagesimal form. */
  lemma NoColons(t: Text)
    requires COLON in t
    ensures IntForm(t) ==>
              var parts := Split(t, COLON);
              parts[0] != [] && parts[0][0] in DECIMAL && AllIn(parts[0], DIGITS_) && AllSixty(parts[1..])
  {
    hide IsSixty, Split;
    assert t == [t[0]] + t[1..];
    if |t| > 2 {
      assert t == [t[0], t[1]] + t[2..];
    }
  }

  /** The resolver takes for integers exactly what the pattern matches. */
  lemma IntExact(s: Text)
    ensures IntRe(s).Some? ==> (IntRe(s).value <==> Matches(INT, s))
    ensures IntRe(s).None? ==> !Matches(INT, s)
  {
    hide Matches, IntRe, IntForm;
    IntMatchesForm(s);
    IntReIsForm(s);
  }

  // Floats.

  const E: set<Code> := {101, 69}

  predicate FirstAt(s: Text, seps: set<Code>, k: nat) {
    k <= |s| && (forall i :: 0 <= i < k ==> s[i] !in seps) && (k < |s| ==> s[k] in seps)
  }

  lemma OneFirst(s: Text, seps: set<Code>, k: nat, j: nat)
    requires FirstAt(s, seps, k) && FirstAt(s, seps, j)
    ensures k == j
  {
  }

  /** The first place of one of `seps`, or the end. */
  function FirstIn(s: Text, seps: set<Code>): (k: nat)
    ensures FirstAt(s, seps, k)
  {
    if s == [] || s[0] in seps then 0 else 1 + FirstIn(s[1..], seps)
  }

  lemma {:induction false} SplitOnceAt(s: Text, seps: set<Code>, k: nat)
    requires FirstAt(s, seps, k)
    ensures SplitOnce(s, seps) == if k < |s| then Some((s[..k], s[k + 1..])) else None
    decreases k
  {
    if k > 0 {
      SplitOnceAt(s[1..], seps, k - 1);
      if k < |s| {
        assert s[..k] == [s[0]] + s[1..][..k - 1] && s[1..][k..] == s[k + 1..];
      }
    }
  }

  /** What may end a float. */
  predicate ExponentOk(e: Text) {
    e == [] || (|e| > 2 && e[0] in E && IsSign(e[1]) && AllIn(e[2..], DIGITS))
  }

  lemma ExponentMatches(e: Text)
    ensures Matches(EXPONENT, e) <==> ExponentOk(e)
  {
    hide Matches;
    var r := Cat(Any({101, 69}), Cat(Any(SIGNS), Plus(Any(DIGITS))));
    AltMatches(Empty, r, e);
    EmptyMatches(e);
    FirstMatches({101, 69}, Cat(Any(SIGNS), Plus(Any(DIGITS))), e);
    if e != [] {
      FirstMatches(SIGNS, Plus(Any(DIGITS)), e[1..]);
      if |e| > 1 {
        assert e[1..][1..] == e[2..];
        SomeMatches(DIGITS, e[2..]);
      }
    }
  }

  /** A run up to the first `e`, then an exponent. */
  lemma RunExponent(chars: set<int>, y: Text, k: nat)
    requires 101 !in chars && 69 !in chars && k == FirstIn(y, E)
    ensures Matches(Cat(Star(Any(chars)), EXPONENT), y) <==> AllIn(y[..k], chars) && ExponentOk(y[k..])
  {
    hide Matches, ExponentOk;
    RunMatches(chars, y[..k]);
    ExponentMatches(y[k..]);
    if AllIn(y[..k], chars) && ExponentOk(y[k..]) {
      CatJoin(Star(Any(chars)), EXPONENT, y, k);
    }
    if Matches(Cat(Star(Any(chars)), EXPONENT), y) {
      var j := CatStep(Star(Any(chars)), EXPONENT, y);
      RunMatches(chars, y[..j]);
      ExponentMatches(y[j..]);
      ExponentAt(chars, y, k, j);
    }
  }

  lemma ExponentAt(chars: set<int>, y: Text, k: nat, j: nat)
    requires 101 !in chars && 69 !in chars && k == FirstIn(y, E)
    requires j <= |y| && AllIn(y[..j], chars) && ExponentOk(y[j..])
    ensures j == k
  {
    hide FirstIn;
    forall i | 0 <= i < j ensures y[i] !in E {
      assert y[..j][i] == y[i] && y[i] in y[..j];
    }
    if j < |y| {
      assert y[j..][0] == y[j];
    }
    OneFirst(y, E, j, k);
  }

  /** Digits, a point, digits, and perhaps an exponent: `d` and `e` are where the point
      and the exponent stand. */
  predicate PointedAt(t: Text, d: nat, e: nat) {
    && 0 < d < e <= |t| && t[0] in DIGITS && AllIn(t[1..d], DIGITS_) && t[d] == DOT
    && AllIn(t[d + 1..e], DIGITS_) && ExponentOk(t[e..])
  }

  lemma PointThen(x: Text, k: nat, y: Text)
    requires k == IndexOf(x, DOT) && y == if k < |x| then x[k + 1..] else []
    ensures var tail := Cat(Star(Any(DIGITS_)), EXPONENT);
            Matches(Cat(Star(Any(DIGITS_)), Cat(Any({46}), tail)), x) <==>
            k < |x| && AllIn(x[..k], DIGITS_) && Matches(tail, y)
  {
    hide Matches, IndexOf;
    var tail := Cat(Star(Any(DIGITS_)), EXPONENT);
    var r := Cat(Any({46}), tail);
    RunMatches(DIGITS_, x[..k]);
    FirstMatches({46}, tail, x[k..]);
    if k < |x| {
      assert x[k..][1..] == y;
      if AllIn(x[..k], DIGITS_) && Matches(tail, y) {
        CatJoin(Star(Any(DIGITS_)), r, x, k);
      }
    }
    if Matches(Cat(Star(Any(DIGITS_)), r), x) {
      var j := CatStep(Star(Any(DIGITS_)), r, x);
      RunMatches(DIGITS_, x[..j]);
      FirstMatches({46}, tail, x[j..]);
      PointAt(x, k, j);
    }
  }

  lemma PointAt(x: Text, k: nat, j: nat)
    requires k == IndexOf(x, DOT) && j < |x| && AllIn(x[..j], DIGITS_) && x[j] == DOT
    ensures j == k
  {
    hide IndexOf;
    if k < j {
      Stranger(x[..j], k, DIGITS_);
    }
  }

  /** Where the point and the exponent of `t` would be. */
  lemma PointedMatches(t: Text, d: nat, e: nat)
    requires d == IndexOf(t, DOT) && e == FirstIn(t, E)
    ensures Matches(POINTED, t) <==> PointedAt(t, d, e)
  {
    hide Matches, ExponentOk, IndexOf, FirstIn;
    FirstMatches(DIGITS, Cat(Star(Any(DIGITS_)), Cat(Any({46}), Cat(Star(Any(DIGITS_)), EXPONENT))), t);
    if t != [] && t[0] in DIGITS {
      PointedRest(t, t[1..], d, e);
    }
  }

  lemma PointedRest(t: Text, x: Text, d: nat, e: nat)
    requires d == IndexOf(t, DOT) && e == FirstIn(t, E) && t != [] && t[0] in DIGITS && x == t[1..]
    ensures Matches(Cat(Star(Any(DIGITS_)), Cat(Any({46}), Cat(Star(Any(DIGITS_)), EXPONENT))), x)
            <==> PointedAt(t, d, e)
  {
    hide Matches, ExponentOk, IndexOf, FirstIn;
    var k := IndexOf(x, DOT);
    IndexShift(t, x, d, k);
    var y := if k < |x| then x[k + 1..] else [];
    PointThen(x, k, y);
    if k < |x| {
      assert x[..k] == t[1..d] && y == t[d + 1..] && x[k] == t[d];
      if AllIn(t[1..d], DIGITS_) {
        FractionRest(t, d, e, y);
      }
    }
  }

  lemma FractionRest(t: Text, d: nat, e: nat, y: Text)
    requires 0 < d < |t| && t[0] in DIGITS && AllIn(t[1..d], DIGITS_) && t[d] == DOT && y == t[d + 1..]
    requires e == FirstIn(t, E)
    ensures Matches(Cat(Star(Any(DIGITS_)), EXPONENT), y) <==>
            d < e <= |t| && AllIn(t[d + 1..e], DIGITS_) && ExponentOk(t[e..])
  {
    hide Matches, ExponentOk, FirstIn;
    var m := FirstIn(y, E);
    RunExponent(DIGITS_, y, m);
    ExponentShift(t, d, e, y, m);
    assert y[..m] == t[d + 1..e] && y[m..] == t[e..];
  }

  lemma IndexShift(t: Text, x: Text, d: nat, k: nat)
    requires t != [] && x == t[1..] && t[0] != DOT && d == IndexOf(t, DOT) && k == IndexOf(x, DOT)
    ensures d == k + 1
  {
  }

  lemma ExponentShift(t: Text, d: nat, e: nat, y: Text, m: nat)
    requires 0 < d < |t| && t[0] in DIGITS && AllIn(t[1..d], DIGITS_) && t[d] == DOT && y == t[d + 1..]
    requires e == FirstIn(t, E) && m == FirstIn(y, E)
    ensures e == d + 1 + m
  {
    hide FirstIn;
    forall i | 0 <= i < d + 1 + m ensures t[i] !in E {
      if 0 < i < d {
        assert t[1..d][i - 1] == t[i] && t[i] in t[1..d];
      } else if i > d {
        assert t[i] == y[i - (d + 1)];
      }
    }
    OneFirst(t, E, e, d + 1 + m);
  }

  lemma LooseMatches(t: Text, e: nat)
    requires e == FirstIn(t, E)
    ensures Matches(LOOSE_FRACTION, t) <==> |t| > 1 && t[0] == DOT && t[1] in DIGITS && ExponentOk(t[e..])
  {
    hide Matches, ExponentOk, FirstIn;
    FirstMatches({46}, Cat(Any(DIGITS), Cat(Star(Any(NOT_E)), EXPONENT)), t);
    if t != [] {
      FirstMatches(DIGITS, Cat(Star(Any(NOT_E)), EXPONENT), t[1..]);
      if |t| > 1 && t[0] == DOT && t[1] in DIGITS {
        var z := t[2..];
        assert t[1..][1..] == z;
        var m := FirstIn(z, E);
        RunExponent(NOT_E, z, m);
        LooseShift(t, e, z, m);
        assert z[m..] == t[e..];
        assert AllIn(z[..m], NOT_E);
      }
    }
  }

  lemma LooseShift(t: Text, e: nat, z: Text, m: nat)
    requires |t| > 1 && t[0] == DOT && t[1] in DIGITS && z == t[2..] && e == FirstIn(t, E) && m == FirstIn(z, E)
    ensures e == m + 2
  {
    hide FirstIn;
    forall i | 0 <= i < m + 2 ensures t[i] !in E {
      if i >= 2 {
        assert t[i] == z[i - 2];
      }
    }
    OneFirst(t, E, e, m + 2);
  }

  /** What the resolver takes for a float behind the sign, infinities aside. */
  predicate FloatForm(t: Text) {
    var d, e := IndexOf(t, DOT), FirstIn(t, E);
    PointedAt(t, d, e) || (|t| > 1 && t[0] == DOT && t[1] in DIGITS && ExponentOk(t[e..]))
  }

  predicate IsInfinity(t: Text) {
    t in {Ascii(".inf"), Ascii(".Inf"), Ascii(".INF")}
  }

  predicate IsNan(s: Text) {
    s in {Ascii(".nan"), Ascii(".NaN"), Ascii(".NAN")}
  }

  /** Mantissa and exponent, as the resolver splits them. */
  lemma FloatParts(t: Text, d: nat, e: nat)
    requires DOT in t && d == IndexOf(t, DOT) && e == FirstIn(t, E)
    ensures SplitOnce(t, E) == if e < |t| then Some((t[..e], t[e + 1..])) else None
    ensures SplitOnce(t[..e], {DOT}) == if d < e then Some((t[..d], t[d + 1..e])) else None
  {
    hide SplitOnce, IndexOf, FirstIn;
    SplitOnceAt(t, E, e);
    var m := t[..e];
    var k := if d < e then d else e;
    forall i | 0 <= i < k ensures m[i] !in {DOT} {
      assert m[i] == t[..d][i] && t[..d][i] in t[..d];
    }
    SplitOnceAt(m, {DOT}, k);
    if d < e {
      assert m[..d] == t[..d] && m[d + 1..] == t[d + 1..e];
    }
  }

  lemma ExponentIs(t: Text, e: nat)
    requires e == FirstIn(t, E)
    ensures e < |t| ==>
              var exponent := t[e + 1..];
              var digits := if exponent != [] && IsSign(exponent[0]) then exponent[1..] else [];
              ExponentOk(t[e..]) <==> digits != [] && All(digits, 48, 57, false)
    ensures e == |t| ==> ExponentOk(t[e..])
  {
    hide FirstIn;
    if e < |t| {
      var x, exponent := t[e..], t[e + 1..];
      assert x[0] == t[e] && x[1..] == exponent;
      if exponent != [] {
        assert x[1] == exponent[0] && x[2..] == exponent[1..];
        assert AllIn(x[2..], DIGITS) <==> All(exponent[1..], 48, 57, false);
      }
    }
  }

  lemma WholePart(t: Text, d: nat)
    requires 0 < d <= |t|
    ensures IsDigit(t[..d][0]) && All(t[..d], 48, 57, true) <==> t[0] in DIGITS && AllIn(t[1..d], DIGITS_)
  {
    var whole := t[..d];
    assert whole == [t[0]] + t[1..d];
    assert forall c :: c in whole <==> c == t[0] || c in t[1..d];
  }

  lemma FloatReIsForm(s: Text)
    ensures FloatRe(s) <==> IsInfinity(StripSign(s)) || IsNan(s) || FloatForm(StripSign(s))
  {
    var t := StripSign(s);
    hide SplitOnce, IndexOf, FirstIn, ExponentOk;
    if DOT in t {
      var d, e := IndexOf(t, DOT), FirstIn(t, E);
      FloatParts(t, d, e);
      ExponentIs(t, e);
      assert e == |t| ==> t[..e] == t;
      PointIs(t, d, e);
    } else if t != [] {
      assert t[0] in t;
    }
  }

  /** What the resolver asks of the mantissa. */
  lemma PointIs(t: Text, d: nat, e: nat)
    requires DOT in t && d == IndexOf(t, DOT) && e == FirstIn(t, E)
    ensures FloatForm(t) <==>
            && ExponentOk(t[e..]) && d < e
            && var whole, frac := t[..d], t[d + 1..e];
               || (whole != [] && IsDigit(whole[0]) && All(whole, 48, 57, true) && All(frac, 48, 57, true))
               || (whole == [] && frac != [] && IsDigit(frac[0]))
  {
    hide IndexOf, FirstIn, ExponentOk;
    if d > 0 {
      assert t[0] != DOT by { assert t[..d][0] == t[0] && t[0] in t[..d]; }
      WholePart(t, d);
      if d < e {
        assert AllIn(t[d + 1..e], DIGITS_) <==> All(t[d + 1..e], 48, 57, true);
      }
    } else if d < e && t[1..e] != [] {
      assert t[1..e][0] == t[1];
    }
  }

  lemma InfinityMatches(t: Text)
    ensures Matches(INFINITY, t) <==> IsInfinity(t)
    ensures Matches(NOT_A_NUMBER, t) <==> IsNan(t)
  {
    hide Matches, Ascii, Word;
    AltMatches(Word(".inf"), Alt(Word(".Inf"), Word(".INF")), t);
    AltMatches(Word(".Inf"), Word(".INF"), t);
    AltMatches(Word(".nan"), Alt(Word(".NaN"), Word(".NAN")), t);
    AltMatches(Word(".NaN"), Word(".NAN"), t);
    WordMatches(".inf", t);
    WordMatches(".Inf", t);
    WordMatches(".INF", t);
    WordMatches(".nan", t);
    WordMatches(".NaN", t);
    WordMatches(".NAN", t);
  }

  lemma PointsFirst(s: Text)
    requires s != [] && IsSign(s[0])
    ensures !IsInfinity(s) && !IsNan(s)
  {
    assert Ascii(".inf")[0] == 46 && Ascii(".Inf")[0] == 46 && Ascii(".INF")[0] == 46;
    assert Ascii(".nan")[0] == 46 && Ascii(".NaN")[0] == 46 && Ascii(".NAN")[0] == 46;
  }

  /** The resolver takes for floats exactly these. */
  lemma FloatExact(s: Text)
    ensures FloatRe(s) <==> Matches(CODED_FLOAT, s)
  {
    hide Matches, FloatRe, IsInfinity, IsNan, ExponentOk, IndexOf, FirstIn;
    var t := StripSign(s);
    FloatReIsForm(s);
    PointedMatches(t, IndexOf(t, DOT), FirstIn(t, E));
    LooseMatches(t, FirstIn(t, E));
    InfinityMatches(t);
    InfinityMatches(s);
    if s != [] && IsSign(s[0]) {
      FirstMatches(DIGITS, Cat(Star(Any(DIGITS_)), Cat(Any({46}), Cat(Star(Any(DIGITS_)), EXPONENT))), s);
      FirstMatches({46}, Cat(Any(DIGITS), Cat(Star(Any(NOT_E)), EXPONENT)), s);
      PointsFirst(s);
    }
    SignedMatches(POINTED, s);
    SignedMatches(LOOSE_FRACTION, s);
    SignedMatches(INFINITY, s);
    AltMatches(Signed(POINTED), Alt(Signed(LOOSE_FRACTION), Alt(Signed(INFINITY), NOT_A_NUMBER)), s);
    AltMatches(Signed(LOOSE_FRACTION), Alt(Signed(INFINITY), NOT_A_NUMBER), s);
    AltMatches(Signed(INFINITY), NOT_A_NUMBER, s);
  }

  // Dates.

  lemma TwoThen(r: Re, s: Text)
    ensures Matches(Cat(TWO, r), s) <==> |s| > 1 && IsDigit(s[0]) && IsDigit(s[1]) && Matches(r, s[2..])
  {
    hide Matches;
    if Matches(Cat(TWO, r), s) {
      var k := CatStep(TWO, r, s);
      PairMatches(s[..k]);
    } else if |s| > 1 && IsDigit(s[0]) && IsDigit(s[1]) && Matches(r, s[2..]) {
      PairMatches(s[..2]);
      CatJoin(TWO, r, s, 2);
    }
  }

  lemma PairMatches(p: Text)
    ensures Matches(TWO, p) <==> |p| == 2 && IsDigit(p[0]) && IsDigit(p[1])
  {
    hide Matches;
    FirstMatches(DIGITS, DIGIT, p);
    if p != [] {
      OneMatches(DIGITS, p[1..]);
    }
  }

  /** Year, dash and then what matches `r`. */
  lemma YearThen(r: Re, s: Text)
    ensures Matches(Cat(TWO, Cat(TWO, Cat(Any({45}), r))), s) <==>
            && |s| > 4 && IsDigit(s[0]) && IsDigit(s[1]) && IsDigit(s[2]) && IsDigit(s[3]) && s[4] == 45
            && Matches(r, s[5..])
  {
    hide Matches;
    TwoThen(Cat(TWO, Cat(Any({45}), r)), s);
    if |s| > 1 {
      TwoThen(Cat(Any({45}), r), s[2..]);
      if |s| > 3 {
        assert s[2..][2..] == s[4..];
        FirstMatches({45}, r, s[4..]);
        if |s| > 4 {
          assert s[4..][1..] == s[5..];
        }
      }
    }
  }

  lemma DateExact(s: Text)
    ensures TimestampRe(s) <==> Matches(DATE_LIKE, s)
  {
    hide Matches;
    var r := Cat(Any(ALL), Cat(Any(ALL), Plus(Any(ALL))));
    YearThen(r, s);
    if |s| > 4 {
      var x := s[5..];
      FirstMatches(ALL, Cat(Any(ALL), Plus(Any(ALL))), x);
      if x != [] {
        FirstMatches(ALL, Plus(Any(ALL)), x[1..]);
        if |x| > 1 {
          assert x[1..][1..] == x[2..];
          SomeMatches(ALL, x[2..]);
        }
      }
    }
  }

  /** Every timestamp is caught. */
  lemma TimestampCaught(s: Text)
    ensures Matches(TIMESTAMP, s) ==> TimestampRe(s)
  {
    hide Matches;
    YearThen(Alt(DATE, MOMENT), s);
    if Matches(TIMESTAMP, s) {
      var x := s[5..];
      AltMatches(DATE, MOMENT, x);
      if Matches(DATE, x) {
        TwoThen(Cat(Any({45}), TWO), x);
        FirstMatches({45}, TWO, x[2..]);
      } else {
        MomentIsLong(x);
      }
    }
  }

  lemma MomentIsLong(x: Text)
    requires Matches(MOMENT, x)
    ensures |x| >= 3
  {
    hide Matches;
    var rest := Cat(ONE_OR_TWO, Cat(Alt(Any({84, 116}), Plus(Any({32, 9}))), CLOCK));
    var k := CatStep(ONE_OR_TWO, Cat(Any({45}), rest), x);
    FirstMatches(DIGITS, Opt(DIGIT), x[..k]);
    FirstMatches({45}, rest, x[k..]);
    var y := x[k..][1..];
    var j := CatStep(ONE_OR_TWO, Cat(Alt(Any({84, 116}), Plus(Any({32, 9}))), CLOCK), y);
    FirstMatches(DIGITS, Opt(DIGIT), y[..j]);
  }

  // Words.

  lemma NullWords(s: Text)
    ensures IsWord(NULL_WORDS, s) <==> s == [] || s in {Ascii("~"), Ascii("null"), Ascii("Null"), Ascii("NULL")}
  {
    assert Ascii("") == [];
    assert NULL_WORDS[0] == "" && NULL_WORDS[1] == "~" && NULL_WORDS[2] == "null";
    assert NULL_WORDS[3] == "Null" && NULL_WORDS[4] == "NULL";
    hide Ascii;
  }

  lemma BoolWords(s: Text)
    ensures IsWord(BOOL_WORDS, s) <==>
            s in {Ascii("yes"), Ascii("Yes"), Ascii("YES"), Ascii("no"), Ascii("No"), Ascii("NO"),
                  Ascii("true"), Ascii("True"), Ascii("TRUE"), Ascii("false"), Ascii("False"), Ascii("FALSE"),
                  Ascii("on"), Ascii("On"), Ascii("ON"), Ascii("off"), Ascii("Off"), Ascii("OFF")}
  {
    hide Ascii;
    assert BOOL_WORDS[0] == "yes" && BOOL_WORDS[1] == "Yes" && BOOL_WORDS[2] == "YES";
    assert BOOL_WORDS[3] == "no" && BOOL_WORDS[4] == "No" && BOOL_WORDS[5] == "NO";
    assert BOOL_WORDS[6] == "true" && BOOL_WORDS[7] == "True" && BOOL_WORDS[8] == "TRUE";
    assert BOOL_WORDS[9] == "false" && BOOL_WORDS[10] == "False" && BOOL_WORDS[11] == "FALSE";
    assert BOOL_WORDS[12] == "on" && BOOL_WORDS[13] == "On" && BOOL_WORDS[14] == "ON";
    assert BOOL_WORDS[15] == "off" && BOOL_WORDS[16] == "Off" && BOOL_WORDS[17] == "OFF";
  }

  /** A digit, a sign or a point. */
  predicate NumericLead(s: Text) {
    s != [] && (IsDigit(s[0]) || IsSign(s[0]) || s[0] == DOT)
  }

  lemma WordsHaveNoLead(s: Text)
    requires NumericLead(s)
    ensures !IsWord(NULL_WORDS, s) && !IsWord(BOOL_WORDS, s)
  {
    forall i | 0 <= i < |NULL_WORDS| ensures s != Ascii(NULL_WORDS[i]) {
      LeadDiffers(s, NULL_WORDS[i]);
    }
    forall i | 0 <= i < |BOOL_WORDS| ensures s != Ascii(BOOL_WORDS[i]) {
      LeadDiffers(s, BOOL_WORDS[i]);
    }
  }

  lemma LeadDiffers(s: Text, w: string)
    requires NumericLead(s) && (w == "" || w[0] in "~nNyYtTfFoO")
    ensures s != Ascii(w)
  {
    if w != "" {
      assert Ascii(w)[0] == w[0] as int;
    }
  }

  // The types are apart.

  const INT_CHARS: set<int> := set c: int | 48 <= c <= 120 && c != 46 && c != 45

  lemma {:induction false} SplitChars(s: Text, sep: Code, c: Code)
    requires c in s && c != sep
    ensures exists p :: p in Split(s, sep) && c in p
    decreases |s|
  {
    var more := Split(s[1..], sep);
    var parts := Split(s, sep);
    if s[0] == sep {
      assert c in s[1..];
      SplitChars(s[1..], sep, c);
      assert parts[1..] == more;
    } else if c == s[0] {
      assert c in parts[0];
    } else {
      assert c in s[1..];
      SplitChars(s[1..], sep, c);
      var p :| p in more && c in p;
      if p == more[0] {
        assert c in parts[0];
      } else {
        assert p in more[1..] && parts[1..] == more[1..];
      }
    }
  }

  lemma IntChars(t: Text)
    requires IntForm(t)
    ensures AllIn(t, INT_CHARS)
  {
    hide Split, IsSixty;
    if t != [] {
      assert t == [t[0]] + t[1..];
    }
    if |t| > 1 {
      assert t == [t[0], t[1]] + t[2..];
    }
    if COLON in t {
      NoColons(t);
      var parts := Split(t, COLON);
      forall c | c in t ensures c in INT_CHARS {
        if c != COLON {
          SplitChars(t, COLON, c);
          var p :| p in parts && c in p;
          SixtyChars(parts, p, c);
        }
      }
    }
  }

  lemma SixtyChars(parts: seq<Text>, p: Text, c: Code)
    requires parts != [] && AllIn(parts[0], DIGITS_) && AllSixty(parts[1..]) && p in parts && c in p
    ensures c in INT_CHARS
  {
    assert parts == [parts[0]] + parts[1..];
    if p != parts[0] {
      assert p in parts[1..] && IsSixty(p);
    }
  }

  lemma IntIsApart(s: Text)
    requires IntRe(s) == Some(true)
    ensures NumericLead(s) && !FloatRe(s) && !TimestampRe(s)
  {
    hide IntRe, IntForm;
    IntReIsForm(s);
    var t := StripSign(s);
    IntChars(t);
    IntLeads(t);
    if FloatRe(s) {
      PointInFloat(s);
    }
    if TimestampRe(s) {
      Stranger(t, 4, INT_CHARS);
    }
  }

  lemma IntLeads(t: Text)
    requires IntForm(t)
    ensures t != [] && IsDigit(t[0])
  {
    hide Split, IsSixty;
    if COLON in t {
      NoColons(t);
      if t[0] != COLON {
        SplitBegins(t);
      } else {
        FirstEmpty(t);
      }
    }
  }

  lemma PointInFloat(s: Text)
    requires FloatRe(s)
    ensures exists k :: 0 <= k < |StripSign(s)| && StripSign(s)[k] == DOT
  {
    var t := StripSign(s);
    if IsInfinity(t) {
      assert Ascii(".inf")[0] == DOT && Ascii(".Inf")[0] == DOT && Ascii(".INF")[0] == DOT;
      assert t[0] == DOT;
    } else if IsNan(s) {
      assert Ascii(".nan")[0] == DOT && Ascii(".NaN")[0] == DOT && Ascii(".NAN")[0] == DOT;
      assert t == s && t[0] == DOT;
    } else {
      assert DOT in t;
    }
  }

  lemma DateIsApart(s: Text)
    requires TimestampRe(s)
    ensures NumericLead(s) && !FloatRe(s)
  {
    hide FloatRe, IsInfinity, IsNan, ExponentOk, IndexOf, FirstIn;
    FloatReIsForm(s);
    NoWordStartsWithDigit(s);
    var d, e := IndexOf(s, DOT), FirstIn(s, E);
    if PointedAt(s, d, e) && d > 4 {
      assert s[1..d][3] == s[4];
      Stranger(s[1..d], 3, DIGITS_);
    }
  }

  lemma NoWordStartsWithDigit(s: Text)
    requires s != [] && IsDigit(s[0])
    ensures !IsInfinity(s) && !IsNan(s)
  {
    assert Ascii(".inf")[0] == 46 && Ascii(".Inf")[0] == 46 && Ascii(".INF")[0] == 46;
    assert Ascii(".nan")[0] == 46 && Ascii(".NaN")[0] == 46 && Ascii(".NAN")[0] == 46;
  }

  lemma FloatLeads(s: Text)
    requires FloatRe(s)
    ensures NumericLead(s)
  {
    hide FloatRe, ExponentOk, IndexOf, FirstIn;
    FloatReIsForm(s);
    var t := StripSign(s);
    assert Ascii(".inf")[0] == 46 && Ascii(".Inf")[0] == 46 && Ascii(".INF")[0] == 46;
    assert Ascii(".nan")[0] == 46 && Ascii(".NaN")[0] == 46 && Ascii(".NAN")[0] == 46;
  }

  // The resolver as a whole.

  lemma ResolvePlainIs(s: Text)
    requires !SignColon(s)
    ensures ResolvePlain(s)
         == if IsWord(NULL_WORDS, s) then Some(Null)
            else if IsWord(BOOL_WORDS, s) then Some(Bool)
            else if !NumericLead(s) then Some(Str)
            else if IntRe(s) == Some(true) then Some(Int)
            else if FloatRe(s) then Some(Float)
            else if TimestampRe(s) then Some(Other)
            else Some(Str)
  {
    hide IntRe, FloatRe, TimestampRe, Ascii, IsWord;
    NullWords(s);
    BoolWords(s);
    IntRePanics(s);
  }

  /** Tag by tag, what the resolver takes a plain scalar for: null and booleans by
      word, integers by their pattern, floats by the pattern it implements, anything
      that begins like a date for something else, and the rest for strings. */
  lemma ResolvesIff(s: Text)
    requires !SignColon(s)
    ensures ResolvePlain(s) == Some(Null) <==> IsWord(NULL_WORDS, s)
    ensures ResolvePlain(s) == Some(Bool) <==> IsWord(BOOL_WORDS, s) && !IsWord(NULL_WORDS, s)
    ensures ResolvePlain(s) == Some(Int) <==> Matches(INT, s)
    ensures ResolvePlain(s) == Some(Float) <==> Matches(CODED_FLOAT, s)
    ensures ResolvePlain(s) == Some(Other) <==> Matches(DATE_LIKE, s)
    ensures ResolvePlain(s).Some?
  {
    hide ResolvePlain, IntRe, FloatRe, TimestampRe, Matches, IsWord, NumericLead;
    ResolvePlainIs(s);
    IntExact(s);
    FloatExact(s);
    DateExact(s);
    if NumericLead(s) {
      WordsHaveNoLead(s);
    }
    if IntRe(s) == Some(true) {
      IntIsApart(s);
    }
    if FloatRe(s) {
      FloatLeads(s);
    }
    if TimestampRe(s) {
      DateIsApart(s);
    }
  }

  lemma NullIsNotBool(s: Text)
    ensures !(IsWord(NULL_WORDS, s) && IsWord(BOOL_WORDS, s))
  {
    if IsWord(NULL_WORDS, s) && IsWord(BOOL_WORDS, s) {
      var i :| 0 <= i < |NULL_WORDS| && s == Ascii(NULL_WORDS[i]);
      var j :| 0 <= j < |BOOL_WORDS| && s == Ascii(BOOL_WORDS[j]);
      AsciiDiffers(NULL_WORDS[i], BOOL_WORDS[j]);
    }
  }

  lemma AsciiDiffers(a: string, b: string)
    requires Ascii(a) == Ascii(b)
    ensures a == b
  {
    assert |a| == |b|;
    forall i | 0 <= i < |a| ensures a[i] == b[i] {
      assert Ascii(a)[i] == Ascii(b)[i];
    }
  }

  // Against a reader.

  /** Sexagesimal floats, such as `1:30.5`: the one type the resolver misses. */
  predicate MissedFloat(s: Text) {
    Matches(Signed(SIXTY_FLOAT), s)
  }

  lemma FractionIsCoded(s: Text)
    ensures Matches(FRACTION, s) ==> Matches(CODED_FLOAT, s)
  {
    hide Matches;
    FirstMatches({46}, Cat(Any(DIGITS), Cat(Star(Any(DIGITS_)), EXPONENT)), s);
    if Matches(FRACTION, s) {
      FirstMatches(DIGITS, Cat(Star(Any(DIGITS_)), EXPONENT), s[1..]);
      assert s[1..][1..] == s[2..];
      RunExponent(DIGITS_, s[2..], FirstIn(s[2..], E));
      RunExponent(NOT_E, s[2..], FirstIn(s[2..], E));
      assert AllIn(s[2..][..FirstIn(s[2..], E)], NOT_E);
      FirstMatches(DIGITS, Cat(Star(Any(NOT_E)), EXPONENT), s[1..]);
      FirstMatches({46}, Cat(Any(DIGITS), Cat(Star(Any(NOT_E)), EXPONENT)), s);
      OptFirst(SIGNS, LOOSE_FRACTION, s);
      AltMatches(Signed(POINTED), Alt(Signed(LOOSE_FRACTION), Alt(Signed(INFINITY), NOT_A_NUMBER)), s);
      AltMatches(Signed(LOOSE_FRACTION), Alt(Signed(INFINITY), NOT_A_NUMBER), s);
    }
  }

  lemma FloatSplits(s: Text)
    ensures Matches(FLOAT, s) ==> Matches(CODED_FLOAT, s) || MissedFloat(s)
    ensures MissedFloat(s) ==> Matches(FLOAT, s)
  {
    hide Matches;
    FractionIsCoded(s);
    AltMatches(Signed(POINTED), Alt(FRACTION, Alt(Signed(SIXTY_FLOAT), Alt(Signed(INFINITY), NOT_A_NUMBER))), s);
    AltMatches(FRACTION, Alt(Signed(SIXTY_FLOAT), Alt(Signed(INFINITY), NOT_A_NUMBER)), s);
    AltMatches(Signed(SIXTY_FLOAT), Alt(Signed(INFINITY), NOT_A_NUMBER), s);
    AltMatches(Signed(INFINITY), NOT_A_NUMBER, s);
    AltMatches(Signed(POINTED), Alt(Signed(LOOSE_FRACTION), Alt(Signed(INFINITY), NOT_A_NUMBER)), s);
    AltMatches(Signed(LOOSE_FRACTION), Alt(Signed(INFINITY), NOT_A_NUMBER), s);
  }

  /** What the resolver takes for null, a boolean or an integer a reader does too, and
      the other way about; and what it takes for a string a reader does, unless it is a
      sexagesimal float. */
  lemma AgreesWithReader(s: Text)
    requires !SignColon(s)
    ensures ResolvePlain(s) == Some(Null) <==> Resolved(s) == Null
    ensures ResolvePlain(s) == Some(Bool) <==> Resolved(s) == Bool
    ensures ResolvePlain(s) == Some(Int) <==> Resolved(s) == Int
    ensures ResolvePlain(s) == Some(Str) ==> (Resolved(s) == Str <==> !MissedFloat(s))
    ensures ResolvePlain(s) == Some(Float) ==> (Resolved(s) == Float <==> Matches(FLOAT, s))
  {
    hide ResolvePlain, Matches, IsWord, TimestampRe, MissedFloat;
    ResolvesIff(s);
    NullIsNotBool(s);
    WordsAreApart(s);
    FloatSplits(s);
    TimestampCaught(s);
    DateExact(s);
  }

  lemma WordsAreApart(s: Text)
    ensures Matches(INT, s) ==> !IsWord(NULL_WORDS, s) && !IsWord(BOOL_WORDS, s)
  {
    hide Matches, IntRe, IsWord;
    IntExact(s);
    if Matches(INT, s) {
      IntIsApart(s);
      WordsHaveNoLead(s);
    }
  }

  const HALF_PAST: Text := [49, 58, 51, 48, 46, 53]

  /** `1:30.5` is such a float, and the resolver takes it for a string. */
  lemma HalfPastIsMissed()
    ensures MissedFloat(HALF_PAST) && ResolvePlain(HALF_PAST) == Some(Str) && Resolved(HALF_PAST) == Float
  {
    hide Matches, ResolvePlain, IntRe, FloatRe, TimestampRe, IsWord;
    var s := HALF_PAST;
    var tail := Cat(Any({46}), Star(Any(DIGITS_)));
    assert s[1..] == [58, 51, 48, 46, 53] && s[1..][0..] == s[1..] && s[1..][..0] == [];
    FractionalGroup(tail);
    RunMatches(DIGITS_, []);
    CatJoin(Star(Any(DIGITS_)), Cat(Plus(GROUP), tail), s[1..], 0);
    FirstMatches(DIGITS, Cat(Star(Any(DIGITS_)), Cat(Plus(GROUP), tail)), s);
    OptFirst(SIGNS, SIXTY_FLOAT, s);
    FloatSplits(s);
    MissedIsStr(s);
    AgreesWithReader(s);
    ResolvesIff(s);
    NullIsNotBool(s);
  }

  /** `:30.5` */
  lemma FractionalGroup(tail: Re)
    requires tail == Cat(Any({46}), Star(Any(DIGITS_)))
    ensures Matches(Cat(Plus(GROUP), tail), [58, 51, 48, 46, 53])
  {
    hide Matches;
    var u: Text := [58, 51, 48, 46, 53];
    assert u[..3] == [58, 51, 48] && u[3..] == [46, 53] && u[..3][1..] == [51, 48] && u[3..][1..] == [53];
    GroupMatches(u[..3]);
    EmptyStar(GROUP);
    assert u[..3][..3] == u[..3] && u[..3][3..] == [];
    CatJoin(GROUP, Star(GROUP), u[..3], 3);
    RunMatches(DIGITS_, [53]);
    FirstMatches({46}, Star(Any(DIGITS_)), u[3..]);
    CatJoin(Plus(GROUP), tail, u, 3);
  }

  lemma EmptyStar(r: Re)
    ensures Matches(Star(r), [])
  {
  }

  // Every such float is missed.

  const SIXTY_CHARS: set<int> := set c: int | 46 <= c <= 95 && (c == 46 || 48 <= c <= 58 || c == 95)

  lemma {:induction false} GroupChars(u: Text)
    requires Matches(Star(GROUP), u)
    ensures AllIn(u, SIXTY_CHARS)
    decreases |u|
  {
    hide Matches;
    if u != [] {
      var k := StarStep(GROUP, u);
      GroupMatches(u[..k]);
      GroupChars(u[k..]);
      assert u == [u[0]] + u[..k][1..] + u[k..];
    }
  }

  /** Digits, a colon and, further on, a point; the last character is not a colon. */
  ghost predicate SixtyFloatForm(t: Text, a: nat) {
    && 0 < a < |t| && t[0] in DIGITS && AllIn(t[1..a], DIGITS_) && t[a] == COLON
    && AllIn(t, SIXTY_CHARS) && DOT in t && t[|t| - 1] != COLON
  }

  lemma SixtyFloatIs(t: Text) returns (a: nat)
    requires Matches(SIXTY_FLOAT, t)
    ensures SixtyFloatForm(t, a)
  {
    hide Matches;
    var tail := Cat(Any({46}), Star(Any(DIGITS_)));
    FirstMatches(DIGITS, Cat(Star(Any(DIGITS_)), Cat(Plus(GROUP), tail)), t);
    var x := t[1..];
    var j := CatStep(Star(Any(DIGITS_)), Cat(Plus(GROUP), tail), x);
    RunMatches(DIGITS_, x[..j]);
    var y := x[j..];
    var k := CatStep(Plus(GROUP), tail, y);
    SomeGroups(y[..k]);
    GroupsMatch(y[..k]);
    GroupChars(y[..k]);
    var z := y[k..];
    FirstMatches({46}, Star(Any(DIGITS_)), z);
    RunMatches(DIGITS_, z[1..]);
    a := j + 1;
    SixtyJoin(t, x[..j], y[..k], z, a);
  }

  lemma SixtyJoin(t: Text, run: Text, groups: Text, z: Text, a: nat)
    requires t != [] && t[0] in DIGITS && t == [t[0]] + run + groups + z && a == |run| + 1
    requires AllIn(run, DIGITS_) && groups != [] && groups[0] == COLON && AllIn(groups, SIXTY_CHARS)
    requires z != [] && z[0] == DOT && AllIn(z[1..], DIGITS_)
    ensures SixtyFloatForm(t, a)
  {
    assert t[1..a] == run && t[a] == groups[0];
    assert z == [z[0]] + z[1..];
    assert t[|t| - 1] == z[|z| - 1];
    if |z| > 1 {
      assert z[|z| - 1] == z[1..][|z| - 2] && z[|z| - 1] in z[1..];
    }
    assert z[0] in t;
  }

  lemma MissedIsForm(s: Text) returns (a: nat)
    requires MissedFloat(s)
    ensures SixtyFloatForm(StripSign(s), a)
  {
    hide Matches;
    OptFirst(SIGNS, SIXTY_FLOAT, s);
    var tail := Cat(Any({46}), Star(Any(DIGITS_)));
    FirstMatches(DIGITS, Cat(Star(Any(DIGITS_)), Cat(Plus(GROUP), tail)), s);
    a := SixtyFloatIs(StripSign(s));
  }

  lemma MissedIsNoFloat(s: Text, a: nat)
    requires SixtyFloatForm(StripSign(s), a)
    ensures !FloatRe(s)
  {
    hide FloatRe, FirstIn, IndexOf, ExponentOk, IsInfinity, IsNan;
    var t := StripSign(s);
    FloatReIsForm(s);
    NoWordStartsWithDigit(t);
    if s != [] && IsSign(s[0]) {
      PointsFirst(s);
    }
    var d, e := IndexOf(t, DOT), FirstIn(t, E);
    if PointedAt(t, d, e) {
      PointAfterColon(t, a, d);
      Stranger(t[1..d], a - 1, DIGITS_);
    }
  }

  lemma PointAfterColon(t: Text, a: nat, d: nat)
    requires SixtyFloatForm(t, a) && d < |t| && t[d] == DOT
    ensures a < d
  {
    if 0 < d < a {
      assert t[1..a][d - 1] == t[d];
      Stranger(t[1..a], d - 1, DIGITS_);
    }
  }

  /** The resolver takes every sexagesimal float for a string. */
  lemma MissedIsStr(s: Text)
    requires MissedFloat(s)
    ensures !SignColon(s) && ResolvePlain(s) == Some(Str)
  {
    hide IntRe, FloatRe, ResolvePlain, IsWord, Matches, IntForm;
    var a := MissedIsForm(s);
    var t := StripSign(s);
    MissedIsNoFloat(s, a);
    IntReIsForm(s);
    if IntForm(t) {
      IntChars(t);
    }
    if TimestampRe(s) {
      Stranger(t, 4, SIXTY_CHARS);
    }
    WordsHaveNoLead(s);
    ResolvePlainIs(s);
  }
}
