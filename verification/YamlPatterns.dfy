/** The implicit types of YAML 1.1 as the regular expressions that define them, and how
    the emitter's hand-written resolver compares with them. */
module YamlPatterns {
  import opened YamlReader
  import opened YamlResolve

  /** Regular expressions over code points. */
  datatype Re =
    | Empty
    | Any(chars: set<int>)
    | Cat(a: Re, b: Re)
    | Alt(a: Re, b: Re)
    | Star(a: Re)

  predicate Matches(re: Re, s: Text)
    decreases re, |s|
  {
    match re
    case Empty => s == []
    case Any(chars) => |s| == 1 && s[0] in chars
    case Cat(a, b) => exists k :: 0 <= k <= |s| && Matches(a, s[..k]) && Matches(b, s[k..])
    case Alt(a, b) => Matches(a, s) || Matches(b, s)
    case Star(a) => s == [] || exists k :: 0 < k <= |s| && Matches(a, s[..k]) && Matches(re, s[k..])
  }

  function Opt(a: Re): Re {
    Alt(Empty, a)
  }

  function Plus(a: Re): Re {
    Cat(a, Star(a))
  }

  function Signed(a: Re): Re {
    Cat(Opt(Any(SIGNS)), a)
  }

  function Word(w: string): Re {
    if w == "" then Empty else Cat(Any({w[0] as int}), Word(w[1..]))
  }

  const SIGNS: set<int> := {43, 45}
  const DIGITS: set<int> := set c: int | 48 <= c <= 57
  const DIGITS_: set<int> := set c: int | 48 <= c <= 95 && (c <= 57 || c == 95)
  const DECIMAL: set<int> := set c: int | 49 <= c <= 57
  const BINARY_: set<int> := {48, 49, 95}
  const OCTAL_: set<int> := set c: int | 48 <= c <= 95 && (c <= 55 || c == 95)
  const HEX_: set<int> := set c: int | 48 <= c <= 102 && (c <= 57 || 65 <= c <= 70 || 97 <= c || c == 95)
  const NOT_E: set<int> := set c: int | 0 <= c < 0x11_0000 && c != 101 && c != 69
  const ALL: set<int> := set c: int | 0 <= c < 0x11_0000

  // The integer pattern: [-+]?0b[0-1_]+ | [-+]?0[0-7_]+ | [-+]?(?:0|[1-9][0-9_]*)
  // | [-+]?0x[0-9a-fA-F_]+ | [-+]?[1-9][0-9_]*(?::[0-5]?[0-9])+

  const BIN := Cat(Any({48}), Cat(Any({98}), Plus(Any(BINARY_))))
  const OCT := Cat(Any({48}), Plus(Any(OCTAL_)))
  const DEC := Alt(Any({48}), Cat(Any(DECIMAL), Star(Any(DIGITS_))))
  const HEX := Cat(Any({48}), Cat(Any({120}), Plus(Any(HEX_))))
  const SIXTY := Cat(Opt(Any({48, 49, 50, 51, 52, 53})), Any(DIGITS))
  const GROUP := Cat(Any({58}), SIXTY)
  const SIXTIES := Cat(Any(DECIMAL), Cat(Star(Any(DIGITS_)), Plus(GROUP)))
  const INT := Alt(Signed(BIN), Alt(Signed(OCT), Alt(Signed(DEC), Alt(Signed(HEX), Signed(SIXTIES)))))

  // The float pattern: [-+]?[0-9][0-9_]*\.[0-9_]*(?:[eE][-+][0-9]+)?
  // | \.[0-9][0-9_]*(?:[eE][-+][0-9]+)? | [-+]?[0-9][0-9_]*(?::[0-5]?[0-9])+\.[0-9_]*
  // | [-+]?\.(?:inf|Inf|INF) | \.(?:nan|NaN|NAN)

  const EXPONENT := Opt(Cat(Any({101, 69}), Cat(Any(SIGNS), Plus(Any(DIGITS)))))
  const POINTED := Cat(Any(DIGITS), Cat(Star(Any(DIGITS_)), Cat(Any({46}), Cat(Star(Any(DIGITS_)), EXPONENT))))
  const FRACTION := Cat(Any({46}), Cat(Any(DIGITS), Cat(Star(Any(DIGITS_)), EXPONENT)))
  const SIXTY_FLOAT := Cat(Any(DIGITS), Cat(Star(Any(DIGITS_)), Cat(Plus(GROUP), Cat(Any({46}), Star(Any(DIGITS_))))))
  const INFINITY := Alt(Word(".inf"), Alt(Word(".Inf"), Word(".INF")))
  const NOT_A_NUMBER := Alt(Word(".nan"), Alt(Word(".NaN"), Word(".NAN")))
  const FLOAT :=
    Alt(Signed(POINTED), Alt(FRACTION, Alt(Signed(SIXTY_FLOAT), Alt(Signed(INFINITY), NOT_A_NUMBER))))

  /** What the emitter takes for a float: no sexagesimals, and anything at all after a
      leading point and digit. */
  const LOOSE_FRACTION := Cat(Any({46}), Cat(Any(DIGITS), Cat(Star(Any(NOT_E)), EXPONENT)))
  const CODED_FLOAT := Alt(Signed(POINTED), Alt(Signed(LOOSE_FRACTION), Alt(Signed(INFINITY), NOT_A_NUMBER)))

  // The timestamp pattern, and what the emitter takes for one.

  const DIGIT := Any(DIGITS)
  const TWO := Cat(DIGIT, DIGIT)
  const ONE_OR_TWO := Cat(DIGIT, Opt(DIGIT))
  const ZONE := Alt(Any({90}), Cat(Any(SIGNS), Cat(ONE_OR_TWO, Opt(Cat(Any({58}), TWO)))))
  const CLOCK :=
    Cat(ONE_OR_TWO, Cat(Any({58}), Cat(TWO, Cat(Any({58}), Cat(TWO,
      Cat(Opt(Cat(Any({46}), Star(DIGIT))), Opt(Cat(Star(Any({32, 9})), ZONE))))))))
  const DATE := Cat(TWO, Cat(Any({45}), TWO))
  const MOMENT :=
    Cat(ONE_OR_TWO, Cat(Any({45}), Cat(ONE_OR_TWO, Cat(Alt(Any({84, 116}), Plus(Any({32, 9}))), CLOCK))))
  const TIMESTAMP := Cat(TWO, Cat(TWO, Cat(Any({45}), Alt(DATE, MOMENT))))
  const DATE_LIKE := Cat(TWO, Cat(TWO, Cat(Any({45}), Cat(Any(ALL), Cat(Any(ALL), Plus(Any(ALL)))))))

  const NULL_WORDS: seq<string> := ["", "~", "null", "Null", "NULL"]
  const BOOL_WORDS: seq<string> :=
    ["yes", "Yes", "YES", "no", "No", "NO", "true", "True", "TRUE", "false", "False", "FALSE",
     "on", "On", "ON", "off", "Off", "OFF"]

  predicate IsWord(words: seq<string>, s: Text) {
    exists i :: 0 <= i < |words| && s == Ascii(words[i])
  }

  /** The tag a reader gives a plain scalar. */
  function Resolved(s: Text): Tag {
    if IsWord(NULL_WORDS, s) then Null
    else if IsWord(BOOL_WORDS, s) then Bool
    else if Matches(INT, s) then Int
    else if Matches(FLOAT, s) then Float
    else if Matches(TIMESTAMP, s) then Other
    else Str
  }

  // How the combinators match.

  predicate AllIn(s: Text, chars: set<int>) {
    forall c :: c in s ==> c in chars
  }

  lemma EmptyMatches(s: Text)
    ensures Matches(Empty, s) <==> s == []
  {
  }

  lemma FirstMatches(chars: set<int>, r: Re, s: Text)
    ensures Matches(Cat(Any(chars), r), s) <==> s != [] && s[0] in chars && Matches(r, s[1..])
  {
    if s != [] && s[0] in chars && Matches(r, s[1..]) {
      assert Matches(Any(chars), s[..1]);
    }
    if Matches(Cat(Any(chars), r), s) {
      var k :| 0 <= k <= |s| && Matches(Any(chars), s[..k]) && Matches(r, s[k..]);
      assert k == 1 && s[..k][0] == s[0];
    }
  }

  lemma {:induction false} RunMatches(chars: set<int>, s: Text)
    ensures Matches(Star(Any(chars)), s) <==> AllIn(s, chars)
    decreases |s|
  {
    if s != [] {
      RunMatches(chars, s[1..]);
      assert s == [s[0]] + s[1..];
      if AllIn(s, chars) {
        assert Matches(Any(chars), s[..1]);
      }
      if Matches(Star(Any(chars)), s) {
        var k :| 0 < k <= |s| && Matches(Any(chars), s[..k]) && Matches(Star(Any(chars)), s[k..]);
        assert k == 1 && s[..k][0] == s[0];
      }
    }
  }

  lemma SomeMatches(chars: set<int>, s: Text)
    ensures Matches(Plus(Any(chars)), s) <==> s != [] && AllIn(s, chars)
  {
    hide Matches;
    FirstMatches(chars, Star(Any(chars)), s);
    if s != [] {
      RunMatches(chars, s[1..]);
      assert s == [s[0]] + s[1..];
    }
  }

  lemma OptMatches(chars: set<int>, s: Text)
    ensures Matches(Opt(Any(chars)), s) <==> s == [] || (|s| == 1 && s[0] in chars)
  {
    hide Matches;
    AltMatches(Empty, Any(chars), s);
    EmptyMatches(s);
    OneMatches(chars, s);
  }

  lemma CatStep(a: Re, b: Re, s: Text) returns (k: nat)
    requires Matches(Cat(a, b), s)
    ensures k <= |s| && Matches(a, s[..k]) && Matches(b, s[k..])
  {
    k :| 0 <= k <= |s| && Matches(a, s[..k]) && Matches(b, s[k..]);
  }

  lemma CatJoin(a: Re, b: Re, s: Text, k: nat)
    requires k <= |s| && Matches(a, s[..k]) && Matches(b, s[k..])
    ensures Matches(Cat(a, b), s)
  {
  }

  lemma StarStep(a: Re, s: Text) returns (k: nat)
    requires Matches(Star(a), s) && s != []
    ensures 0 < k <= |s| && Matches(a, s[..k]) && Matches(Star(a), s[k..])
  {
    k :| 0 < k <= |s| && Matches(a, s[..k]) && Matches(Star(a), s[k..]);
  }

  lemma StarJoin(a: Re, s: Text, k: nat)
    requires 0 < k <= |s| && Matches(a, s[..k]) && Matches(Star(a), s[k..])
    ensures Matches(Star(a), s)
  {
  }

  lemma OptFirst(chars: set<int>, r: Re, s: Text)
    ensures Matches(Cat(Opt(Any(chars)), r), s) <==>
            Matches(r, s) || (s != [] && s[0] in chars && Matches(r, s[1..]))
  {
    hide Matches;
    OptMatches(chars, s[..0]);
    assert s[0..] == s;
    if Matches(r, s) {
      CatJoin(Opt(Any(chars)), r, s, 0);
    }
    if s != [] {
      OptMatches(chars, s[..1]);
      if s[0] in chars && Matches(r, s[1..]) {
        CatJoin(Opt(Any(chars)), r, s, 1);
      }
    }
    if Matches(Cat(Opt(Any(chars)), r), s) {
      var k := CatStep(Opt(Any(chars)), r, s);
      OptMatches(chars, s[..k]);
    }
  }

  /** A pattern that does not begin with a sign matches behind at most one. */
  lemma SignedMatches(r: Re, s: Text)
    requires s != [] && IsSign(s[0]) ==> !Matches(r, s)
    ensures Matches(Signed(r), s) <==> Matches(r, StripSign(s))
  {
    hide Matches;
    OptFirst(SIGNS, r, s);
  }

  lemma {:induction false} WordMatches(w: string, s: Text)
    ensures Matches(Word(w), s) <==> s == Ascii(w)
    decreases |w|
  {
    hide Matches;
    if w == "" {
      EmptyMatches(s);
    } else {
      FirstMatches({w[0] as int}, Word(w[1..]), s);
      if s != [] {
        WordMatches(w[1..], s[1..]);
        assert s == [s[0]] + s[1..];
        assert Ascii(w) == [w[0] as int] + Ascii(w[1..]);
      }
    }
  }

  lemma AltMatches(a: Re, b: Re, s: Text)
    ensures Matches(Alt(a, b), s) <==> Matches(a, s) || Matches(b, s)
  {
  }

  // Sexagesimal groups.

  lemma SixtyMatches(p: Text)
    ensures Matches(SIXTY, p) <==> IsSixty(p)
  {
    hide Matches;
    OptFirst({48, 49, 50, 51, 52, 53}, Any(DIGITS), p);
    OneMatches(DIGITS, p);
    if p != [] {
      OneMatches(DIGITS, p[1..]);
    }
    if |p| == 1 {
      assert p == [p[0]];
    } else if |p| == 2 {
      assert p == [p[0], p[1]] && p[0] in p && p[1] in p;
    }
  }

  lemma OneMatches(chars: set<int>, s: Text)
    ensures Matches(Any(chars), s) <==> |s| == 1 && s[0] in chars
  {
  }

  /** Everything up to the next separator is the first field. */
  lemma {:induction false} SplitAt(s: Text, sep: Code, k: nat)
    requires k <= |s| && sep !in s[..k] && (k < |s| ==> s[k] == sep)
    ensures Split(s, sep) == [s[..k]] + if k < |s| then Split(s[k + 1..], sep) else []
    decreases k
  {
    if k == 0 {
      if s != [] {
        assert s[..0] == [];
      }
    } else {
      assert s[..k][0] == s[0] && s[0] in s[..k];
      var t := s[1..];
      assert t[..k - 1] == s[1..k] && forall c :: c in t[..k - 1] ==> c in s[..k];
      SplitAt(t, sep, k - 1);
      assert s[..k] == [s[0]] + t[..k - 1];
      if k < |s| {
        assert t[k..] == s[k + 1..];
      }
    }
  }

  /** The first place of a character, or the end. */
  function IndexOf(s: Text, c: Code): (k: nat)
    ensures k <= |s| && c !in s[..k] && (k < |s| ==> s[k] == c)
    ensures k < |s| <==> c in s
  {
    if s == [] || s[0] == c then 0
    else
      var k := IndexOf(s[1..], c);
      assert s[..k + 1] == [s[0]] + s[1..][..k] && s == [s[0]] + s[1..];
      k + 1
  }

  predicate AllSixty(parts: seq<Text>) {
    forall p :: p in parts ==> IsSixty(p)
  }

  /** One group is a colon and a field without one. */
  lemma GroupMatches(g: Text)
    ensures Matches(GROUP, g) <==> g != [] && g[0] == COLON && IsSixty(g[1..])
    ensures Matches(GROUP, g) ==> COLON !in g[1..]
  {
    hide Matches;
    FirstMatches({58}, SIXTY, g);
    if g != [] {
      SixtyMatches(g[1..]);
    }
  }

  /** Groups, one after the other, are the fields after a colon. */
  lemma {:induction false} GroupsMatch(u: Text)
    ensures Matches(Star(GROUP), u) <==> u == [] || (u[0] == COLON && AllSixty(Split(u[1..], COLON)))
    decreases |u|
  {
    if u != [] && u[0] == COLON {
      var t := u[1..];
      var k := IndexOf(t, COLON);
      SplitAt(t, COLON, k);
      var g, rest := u[..k + 1], u[k + 1..];
      assert g[1..] == t[..k] && rest == t[k..];
      GroupMatches(g);
      GroupsMatch(rest);
      if k < |t| {
        assert rest[1..] == t[k + 1..];
      }
      StarGroup(u, k);
      hide Matches, IsSixty;
      var parts := Split(t, COLON);
      assert AllSixty(parts) <==> IsSixty(t[..k]) && AllSixty(parts[1..]) by { SixtyFirst(parts); }
    } else if u != [] {
      NoGroup(u);
    }
  }

  lemma SixtyFirst(parts: seq<Text>)
    requires parts != []
    ensures AllSixty(parts) <==> IsSixty(parts[0]) && AllSixty(parts[1..])
  {
    assert parts == [parts[0]] + parts[1..];
  }

  lemma NoGroup(u: Text)
    requires u != [] && u[0] != COLON
    ensures !Matches(Star(GROUP), u)
  {
    hide Matches;
    if Matches(Star(GROUP), u) {
      var k := StarStep(GROUP, u);
      GroupMatches(u[..k]);
    }
  }

  /** The first group ends at the next colon or the end. */
  lemma StarGroup(u: Text, k: nat)
    requires u != [] && u[0] == COLON && k + 1 <= |u|
    requires COLON !in u[1..k + 1] && (k + 1 < |u| ==> u[k + 1] == COLON)
    ensures Matches(Star(GROUP), u) <==> Matches(GROUP, u[..k + 1]) && Matches(Star(GROUP), u[k + 1..])
  {
    hide Matches, IsSixty;
    if Matches(Star(GROUP), u) {
      var j := StarStep(GROUP, u);
      GroupMatches(u[..j]);
      FirstGroupIs(u, k, j);
    } else if Matches(GROUP, u[..k + 1]) && Matches(Star(GROUP), u[k + 1..]) {
      StarJoin(GROUP, u, k + 1);
    }
  }

  lemma FirstGroupIs(u: Text, k: nat, j: nat)
    requires 0 < j <= |u| && k + 1 <= |u| && COLON !in u[..j][1..] && Matches(Star(GROUP), u[j..])
    requires COLON !in u[1..k + 1] && (k + 1 < |u| ==> u[k + 1] == COLON)
    ensures j == k + 1
  {
    hide Matches;
    if j < k + 1 {
      assert u[j] == u[1..k + 1][j - 1];
      NoGroup(u[j..]);
    }
  }

  /** At least one. */
  lemma SomeGroups(u: Text)
    ensures Matches(Plus(GROUP), u) <==> u != [] && Matches(Star(GROUP), u)
  {
    hide Matches;
    if Matches(Plus(GROUP), u) {
      var k := CatStep(GROUP, Star(GROUP), u);
      GroupMatches(u[..k]);
      StarJoin(GROUP, u, k);
    } else if u != [] && Matches(Star(GROUP), u) {
      var k := StarStep(GROUP, u);
      CatJoin(GROUP, Star(GROUP), u, k);
    }
  }
}
